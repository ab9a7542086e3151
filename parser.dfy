/** The PHYLIP parser of io/phylip/parser.go: a token reader with a
    one-token pushback buffer, and Parse, which reads the header, the
    block of named lines and the continuation blocks, growing one buffer
    per sequence in place. Parse is proved to compute ParseStream on the
    tokens it had not read yet. */
module PhylipParser {
  import opened Basics
  import opened Tokens
  import opened Decimal
  import opened Alignments
  import opened PhylipGrammar
  import opened PhylipSteps

  class Parser {
    /** The tokens the scanner has not produced yet. */
    var rest: seq<Token>
    /** The pushback buffer: the last token read, and whether it is pushed back. */
    var bufTok: Token
    var bufN: nat
    /** The scanner's tokens as they were just before the last one was read. */
    ghost var prev: seq<Token>

    ghost predicate Valid()
      reads this
    {
      bufN <= 1 && rest == Tail(prev) && bufTok == At(prev, 0)
    }

    /** The tokens the next scans return: the pushed-back one first, if any. */
    ghost function Stream(): seq<Token>
      reads this
    {
      if bufN == 1 then prev else rest
    }

    /** Before any read, the buffer holds a token that stands for Go's zero
        value; pushing it back makes it the next token read. */
    constructor (toks: seq<Token>)
      ensures Valid() && bufN == 0 && Stream() == toks
    {
      rest := toks;
      bufTok := EofToken;
      bufN := 0;
      prev := [EofToken] + toks;
    }

    /** The next token: the pushed-back one if there is one, else the scanner's. */
    method Scan() returns (t: Token)
      requires Valid()
      modifies this
      ensures Valid() && bufN == 0 && bufTok == t
      ensures t == At(old(Stream()), 0) && prev == old(Stream()) && Stream() == Tail(old(Stream()))
      ensures old(bufN) != 0 ==> rest == old(rest)
    {
      if bufN != 0 {
        bufN := 0;
        t := bufTok;
        return;
      }
      t := At(rest, 0);
      prev := rest;
      rest := Tail(rest);
      bufTok := t;
    }

    /** Pushes the last token read back: the next Scan returns it again.
        Only `bufN` changes, and it is set rather than counted, so pushing
        back twice is the same as once. */
    method Unscan()
      requires Valid()
      modifies this
      ensures Valid() && bufN == 1 && rest == old(rest) && bufTok == old(bufTok) && prev == old(prev)
      ensures Stream() == prev && At(Stream(), 0) == bufTok
    {
      bufN := 1;
    }

    /** A token, with every run of ENDOFLINE tokens read as one: the last
        ENDOFLINE of the run is returned and the token after the run is
        pushed back. */
    method ScanWithEol() returns (t: Token)
      requires Valid()
      modifies this
      ensures Valid()
      ensures var s := old(Stream());
        if At(s, 0).kind != ENDOFLINE then
          t == At(s, 0) && Stream() == Tail(s) && bufN == 0
        else
          var k := EolRun(s);
          0 < k && t == s[k - 1] && Stream() == s[k..] && bufN == 1
      ensures t.kind == ENDOFLINE ==> At(Stream(), 0).kind != ENDOFLINE
    {
      ghost var s := Stream();
      t := Scan();
      if t.kind == ENDOFLINE {
        var prevTok := t;
        ghost var j: nat := 0;
        while t.kind == ENDOFLINE
          invariant Valid() && bufN == 0 && t == bufTok
          invariant j <= |s| && prev == s[j..]
          invariant j > 0 ==> prevTok == s[j - 1]
          invariant t.kind == ENDOFLINE || j > 0
          invariant EolRun(s) == j + EolRun(prev)
          decreases |s| - j, if t.kind == ENDOFLINE then 1 else 0
        {
          ghost var j': nat := j + 1;
          EolRunStep(s, j, j');
          prevTok := t;
          t := Scan();
          j := j';
        }
        Unscan();
        t := prevTok;
      }
    }

    /** The rest of a line whose first token `t` was just read: IDENTIFIER
        literals are appended to `seqs[i]`, WS is skipped, and any other
        token before the ENDOFLINE is an error. */
    method ParseLineRest(t: Token, seqs: array<string>, i: nat) returns (err: Option<ParseError>)
      requires Valid() && bufN == 0 && t == bufTok && i < seqs.Length
      modifies this, seqs
      ensures Valid() && bufN == 0
      ensures var r := ReadLineRest(old(prev));
        (r.Err? ==> err == Some(r.error)) &&
        (r.Ok? ==> err == None && Stream() == old(prev)[r.value.used..] &&
                   seqs[..] == old(seqs[..])[i := old(seqs[i]) + r.value.fragment])
    {
      var tok := t;
      ghost var s := prev;
      ghost var k: nat := 0;
      ghost var acc := "";
      assert old(seqs[i]) + acc == old(seqs[i]);
      PrefixLineEmpty(ReadLineRest(s));
      while tok.kind != ENDOFLINE
        invariant Valid() && bufN == 0 && tok == bufTok
        invariant k <= |s| && prev == s[k..]
        invariant ReadLineRest(s) == PrefixLine(acc, k, ReadLineRest(prev))
        invariant seqs[..] == old(seqs[..])[i := seqs[i]] && seqs[i] == old(seqs[i]) + acc
        decreases |prev|
      {
        if tok.kind == IDENTIFIER {
          seqs[i] := seqs[i] + tok.lit;
        } else if tok.kind != WS {
          ReadLineReject(ReadLineRest(s), prev, acc, k);
          return Some(UnexpectedToken(tok.lit));
        }
        ReadLineAdvance(ReadLineRest(s), prev, acc, k);
        assert old(seqs[i]) + (acc + Piece(tok)) == seqs[i];
        acc := acc + Piece(tok);
        tok := Scan();
        k := k + 1;
      }
      ReadLineEnd(ReadLineRest(s), prev, acc, k);
      err := None;
    }

    /** The header: an optional WS, the number of sequences, WS, their
        length, ENDOFLINE. */
    method ParseHeader() returns (r: Result<HeaderInfo>)
      requires Valid()
      modifies this
      ensures Valid()
      ensures r == ReadHeader(old(Stream()))
      ensures r.Ok? ==> Stream() == old(Stream())[r.value.used..]
    {
      ghost var s := Stream();
      var k := 0;
      var tok := Scan();
      if tok.kind == WS {
        tok := Scan();
        k := 1;
      }
      assert tok == At(s, k) && Stream() == Tail(s[k..]);
      if tok.kind != NUMERIC {
        return Err(NoSequenceCount);
      }
      var nbseq := ParseNumeric(tok.lit);
      if nbseq.None? {
        return Err(UnparsableNumeric(tok.lit));
      }
      assert Stream() == s[k + 1..];
      tok := Scan();
      if tok.kind != WS {
        return Err(NoHeaderWhitespace);
      }
      assert Stream() == s[k + 2..];
      tok := Scan();
      if tok.kind != NUMERIC {
        return Err(NoSequenceLength);
      }
      var lenseq := ParseNumeric(tok.lit);
      if lenseq.None? {
        return Err(UnparsableNumeric(tok.lit));
      }
      assert Stream() == s[k + 3..];
      tok := Scan();
      if tok.kind != ENDOFLINE {
        return Err(NoHeaderNewline);
      }
      r := Ok(HeaderInfo(nbseq.value, lenseq.value, k + 4));
    }

    /** Line `i` of the first block: the name goes to `names[i]`, the rest
        of the line to a fresh `seqs[i]`. */
    method ParseNamedLine(names: array<string>, seqs: array<string>, i: nat) returns (err: Option<ParseError>)
      requires Valid() && i < names.Length == seqs.Length && names != seqs
      modifies this, names, seqs
      ensures Valid() && bufN == 0
      ensures var r := ReadNamedLine(old(Stream()));
        (r.Err? ==> err == Some(r.error)) &&
        (r.Ok? ==> err == None && Stream() == old(Stream())[r.value.used..] &&
                   names[..i + 1] == old(names[..i]) + [r.value.name] && names[i + 1..] == old(names[i + 1..]) &&
                   seqs[..i + 1] == old(seqs[..i]) + [r.value.fragment] && seqs[i + 1..] == old(seqs[i + 1..]))
    {
      ghost var s := Stream();
      var tok := Scan();
      if tok.kind != IDENTIFIER && tok.kind != NUMERIC {
        return Some(NoSequenceName(tok.lit));
      }
      names[i] := tok.lit;
      ghost var named := names[..];
      ghost var seqs0 := seqs[..];
      tok := Scan();
      seqs[i] := "";
      assert prev == s[1..];
      err := ParseLineRest(tok, seqs, i);
      assert names[..] == named;
      if err.None? {
        ghost var fragment := ReadLineRest(s[1..]).value.fragment;
        assert seqs[..] == seqs0[i := fragment] by {
          assert "" + fragment == fragment;
        }
        UpdateSplit(old(names[..]), named, i, At(s, 0).lit);
        UpdateSplit(seqs0, seqs[..], i, fragment);
      }
    }

    /** The first block: one named line per sequence. */
    method ParseNamedBlock(names: array<string>, seqs: array<string>) returns (err: Option<ParseError>)
      requires Valid() && names.Length == seqs.Length && names != seqs
      modifies this, names, seqs
      ensures Valid()
      ensures var nb := ReadNamedLines(old(Stream()), names.Length);
        (nb.Err? ==> err == Some(nb.error)) &&
        (nb.Ok? ==> err == None && names[..] == nb.value.names && seqs[..] == nb.value.frags &&
                    Stream() == old(Stream())[nb.value.used..])
    {
      ghost var s := Stream();
      var n: nat := names.Length;
      ghost var whole := ReadNamedLines(s, n);
      ghost var k: nat := 0;
      ghost var nm: seq<string> := [];
      ghost var fr: seq<string> := [];
      ghost var m: nat := n;
      PrefixNamedEmpty(whole);
      for i := 0 to n
        invariant Valid()
        invariant k <= |s| && Stream() == s[k..]
        invariant m == n - i
        invariant names[..i] == nm && seqs[..i] == fr
        invariant whole == PrefixNamed(nm, fr, k, ReadNamedLines(s[k..], m))
      {
        err := ParseNamedLine(names, seqs, i);
        if err.Some? {
          NamedReject(whole, s[k..], nm, fr, k, m);
          return;
        }
        ghost var line := ReadNamedLine(s[k..]).value;
        ghost var k': nat, m': nat := k + line.used, m - 1;
        NamedStep(whole, s, nm, fr, k, m, line, k', m');
        nm, fr, k, m := nm + [line.name], fr + [line.fragment], k', m';
      }
      assert names[..] == nm && seqs[..] == fr;
      NamedEnd(whole, s[k..], nm, fr, k);
      err := None;
    }

    /** Line `i` of a continuation block: it must start with an IDENTIFIER,
        and its IDENTIFIER literals are appended to `seqs[i]`. */
    method ParseBlockLine(seqs: array<string>, i: nat) returns (err: Option<ParseError>)
      requires Valid() && i < seqs.Length
      modifies this, seqs
      ensures Valid() && bufN == 0
      ensures var r := ReadBlockLine(old(Stream()));
        (r.Err? ==> err == Some(r.error)) &&
        (r.Ok? ==> err == None && Stream() == old(Stream())[r.value.used..] &&
                   seqs[..] == old(seqs[..])[i := old(seqs[i]) + r.value.fragment])
    {
      var tok := Scan();
      if tok.kind != IDENTIFIER {
        return Some(NoSequenceBlock);
      }
      err := ParseLineRest(tok, seqs, i);
    }

    /** A continuation block: one line per sequence, each extending its sequence. */
    method ParseBlock(seqs: array<string>) returns (err: Option<ParseError>)
      requires Valid()
      modifies this, seqs
      ensures Valid()
      ensures var b := ReadBlock(old(Stream()), seqs.Length);
        (b.Err? ==> err == Some(b.error)) &&
        (b.Ok? ==> err == None && Stream() == old(Stream())[b.value.used..] &&
                   seqs[..] == Extend(old(seqs[..]), b.value.frags))
    {
      ghost var s := Stream();
      ghost var acc := seqs[..];
      var n: nat := seqs.Length;
      ghost var whole := ReadBlock(s, n);
      ghost var k: nat := 0;
      ghost var fr: seq<string> := [];
      ghost var m: nat := n;
      PrefixBlockEmpty(whole);
      PartlyExtendedEmpty(acc);
      for i := 0 to n
        invariant Valid()
        invariant k <= |s| && Stream() == s[k..]
        invariant m == n - i
        invariant |fr| == i && seqs[..] == PartlyExtended(acc, fr)
        invariant whole == PrefixBlock(fr, k, ReadBlock(s[k..], m))
      {
        err := ParseBlockLine(seqs, i);
        if err.Some? {
          BlockReject(whole, s[k..], fr, k, m);
          return;
        }
        ghost var line := ReadBlockLine(s[k..]).value;
        ghost var k': nat, m': nat := k + line.used, m - 1;
        BlockStep(whole, s, fr, k, m, line, k', m');
        PartlyExtendedStep(acc, fr, line.fragment);
        fr, k, m := fr + [line.fragment], k', m';
      }
      PartlyExtendedAll(acc, fr);
      BlockEnd(whole, s[k..], fr, k);
      err := None;
    }

    /** What follows a block (Go's scanWithEOL and the checks after it):
        blank lines are skipped and the token after them is pushed back;
        otherwise the block must have been the last one, so sequence 0 must
        be complete and the stream at EOF. Returns the next token. */
    method ParseSeparator(seqs: array<string>, length: nat) returns (tok: Token, err: Option<ParseError>)
      requires Valid()
      modifies this
      ensures Valid()
      ensures var r := ReadSeparator(old(Stream()), old(seqs[..]), length);
        (r.Err? ==> err == Some(r.error)) &&
        (r.Ok? ==> err == None && tok == At(old(Stream())[r.value..], 0) &&
                   (tok.kind != EOF ==> Stream() == old(Stream())[r.value..]))
    {
      ghost var s := Stream();
      tok := ScanWithEol();
      if tok.kind == ENDOFLINE {
        tok := Scan();
        Unscan();
      } else if seqs.Length == 0 {
        return tok, Some(NoFirstSequence);
      } else if length != |seqs[0]| {
        return tok, Some(MissingBlankLine);
      } else if tok.kind != EOF {
        return tok, Some(TrailingToken);
      }
      err := None;
    }

    /** Pushing back the last token read and reading again returns that same
        token, and leaves the reader where it was before the push-back. */
    method Rescan() returns (t: Token)
      requires Valid()
      modifies this
      ensures Valid() && bufN == 0
      ensures t == old(bufTok) && rest == old(rest) && prev == old(prev)
    {
      Unscan();
      t := Scan();
    }

    /** Parse: header, first block, separator, continuation blocks each
        followed by a separator, then the final length check. Parse reads
        exactly ParseStream of the tokens it had not read yet. */
    method Parse<A>(detect: string -> A) returns (r: Result<Option<Alignment<A>>>)
      requires Valid()
      modifies this
      ensures r == ParseStream(old(Stream()), detect)
    {
      ghost var s := Stream();
      var header := ParseHeader();
      if header.Err? {
        return Err(header.error);
      }
      ghost var h := header.value;
      var count: nat, length: nat := header.value.count, header.value.length;
      ghost var s1 := Stream();
      var names := new string[count];
      var seqs := new string[count];
      var err := ParseNamedBlock(names, seqs);
      if err.Some? {
        ParseStreamNamedError(s, detect, h, s1);
        return Err(err.value);
      }
      ghost var nb := ReadNamedLines(s1, count).value;
      ghost var s2 := Stream();
      var tok;
      label First:
      tok, err := ParseSeparator(seqs, length);
      if err.Some? {
        ParseStreamSeparatorError(s, detect, h, s1, nb, s2);
        return Err(err.value);
      }
      ghost var k := ReadSeparator(s2, nb.frags, length).value;
      ghost var sc := s2[k..];
      ParseStreamStart(s, detect, h, s1, nb, s2, k, sc);
      assert names[..] == old@First(names[..]) && seqs[..] == old@First(seqs[..]);
      label Blocks:
      err := ParseBlocks(seqs, length, tok, sc);
      if err.Some? {
        FinishError(sc, nb.names, nb.frags, length, detect);
        return Err(err.value);
      }
      assert names[..] == old@Blocks(names[..]);
      FinishOk(sc, nb.names, nb.frags, length, detect, seqs[..]);
      r := BuildAlignment(names, seqs, length, detect);
    }

    /** The continuation blocks, each followed by its separator, while the
        token after the last separator (`tok`, the first token of `sc`) is
        not EOF. */
    method ParseBlocks(seqs: array<string>, length: nat, tok: Token, ghost sc: seq<Token>) returns (err: Option<ParseError>)
      requires Valid() && tok == At(sc, 0) && (tok.kind != EOF ==> Stream() == sc)
      modifies this, seqs
      ensures Valid()
      ensures var r := ReadBlocks(sc, old(seqs[..]), length);
        (r.Err? ==> err == Some(r.error)) && (r.Ok? ==> err == None && seqs[..] == r.value)
    {
      var t := tok;
      ghost var rest := sc;
      ghost var cur := seqs[..];
      while t.kind != EOF
        invariant Valid() && seqs[..] == cur && |cur| == seqs.Length
        invariant t == At(rest, 0) && (t.kind != EOF ==> Stream() == rest)
        invariant ReadBlocks(sc, old(seqs[..]), length) == ReadBlocks(rest, cur, length)
        decreases |rest|
      {
        err := ParseBlock(seqs);
        if err.Some? {
          BlocksBlockError(rest, cur, length);
          return;
        }
        ghost var b := ReadBlock(rest, |cur|).value;
        ghost var cur' := seqs[..];
        t, err := ParseSeparator(seqs, length);
        if err.Some? {
          BlocksSeparatorError(rest, cur, length, b, cur');
          return;
        }
        ghost var k := ReadSeparator(rest[b.used..], cur', length).value;
        ghost var rest' := rest[b.used..][k..];
        BlocksNext(rest, cur, length, b, cur', k, rest');
        rest, cur := rest', cur';
      }
      BlocksAtEof(rest, cur, length);
      err := None;
    }
  }

  /** The final loop of Parse: every sequence must have the declared length,
      the alphabet is detected from the first one, and the rows are added in
      index order. No sequence gives no alignment. */
  method BuildAlignment<A>(names: array<string>, seqs: array<string>, length: nat, detect: string -> A)
    returns (r: Result<Option<Alignment<A>>>)
    requires names.Length == seqs.Length
    ensures r == Assemble(names[..], seqs[..], length, detect)
  {
    var al: Option<Alignment<A>> := None;
    var n: nat := names.Length;
    for i := 0 to n
      invariant forall j :: 0 <= j < i ==> |seqs[j]| == length
      invariant i == 0 ==> al == None
      invariant i > 0 ==> al == Some(Alignment(detect(seqs[0]), Zip(names[..i], seqs[..i])))
    {
      var sq := seqs[i];
      if length != |sq| {
        return Err(LengthMismatch);
      }
      if al.None? {
        al := Some(Alignment(detect(sq), []));
      }
      assert names[..i + 1][..i] == names[..i] && seqs[..i + 1][..i] == seqs[..i];
      al := Some(Alignment(al.value.alphabet, al.value.rows + [Row(names[i], sq)]));
    }
    assert names[..n] == names[..] && seqs[..n] == seqs[..];
    r := Ok(al);
  }
}
