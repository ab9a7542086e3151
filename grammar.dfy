/** What the PHYLIP parser computes, stated over the token stream that the
    parser has not read yet. Each function covers one stage of
    io/phylip/parser.go's Parse: the header, the block of named lines, the
    separator after a block, the continuation blocks, and the final
    length check. A stream is read as if it were followed by EOF tokens
    forever (`At`). */
module PhylipGrammar {
  import opened Basics
  import opened Tokens
  import opened Decimal
  import opened Alignments

  /** Every way Parse can fail. The ones marked "panic" abort with a panic
      in the Go code; here they are ordinary error results. */
  datatype ParseError =
    | NoSequenceCount               // the stream does not begin with the number of sequences
    | UnparsableNumeric(lit: string) // strconv.ParseInt rejects a NUMERIC literal
    | NoHeaderWhitespace            // no WS between the two header numbers
    | NoSequenceLength              // the second header token is not NUMERIC
    | NoHeaderNewline               // no ENDOFLINE after the header
    | NoSequenceName(lit: string)   // a line of the first block does not start with a name
    | UnexpectedToken(lit: string)  // a line holds a token other than IDENTIFIER or WS
    | NoSequenceBlock               // a continuation line does not start with an IDENTIFIER
    | MissingBlankLine              // panic: no blank line although sequence 0 is incomplete
    | TrailingToken                 // panic: a token after the final block
    | LengthMismatch                // panic: a sequence length differs from the header
    | NoFirstSequence               // panic: seqs[0] is out of range because the header says 0 sequences

  datatype Result<T> = Ok(value: T) | Err(error: ParseError)

  /** The header's two numbers and how many tokens it spans. */
  datatype HeaderInfo = HeaderInfo(count: nat, length: nat, used: nat)

  /** The header: an optional WS, NUMERIC count, WS, NUMERIC length, ENDOFLINE. */
  function ReadHeader(s: seq<Token>): (r: Result<HeaderInfo>)
    ensures r.Ok? ==>
      var u := r.value.used;
      (u == 4 || u == 5) && u <= |s| && (u == 5 ==> s[0].kind == WS) &&
      s[u - 4].kind == NUMERIC && ParseNumeric(s[u - 4].lit) == Some(r.value.count) &&
      s[u - 3].kind == WS &&
      s[u - 2].kind == NUMERIC && ParseNumeric(s[u - 2].lit) == Some(r.value.length) &&
      s[u - 1].kind == ENDOFLINE
    ensures r.Err? ==>
      r.error in {NoSequenceCount, NoHeaderWhitespace, NoSequenceLength, NoHeaderNewline} ||
      r.error.UnparsableNumeric?
  {
    var k := if At(s, 0).kind == WS then 1 else 0;
    var first := At(s, k);
    if first.kind != NUMERIC then Err(NoSequenceCount)
    else
      match ParseNumeric(first.lit)
      case None => Err(UnparsableNumeric(first.lit))
      case Some(count) =>
        if At(s, k + 1).kind != WS then Err(NoHeaderWhitespace)
        else if At(s, k + 2).kind != NUMERIC then Err(NoSequenceLength)
        else
          match ParseNumeric(At(s, k + 2).lit)
          case None => Err(UnparsableNumeric(At(s, k + 2).lit))
          case Some(length) =>
            if At(s, k + 3).kind != ENDOFLINE then Err(NoHeaderNewline)
            else Ok(HeaderInfo(count, length, k + 4))
  }

  /** The rest of one line: its IDENTIFIER literals and how many tokens it spans. */
  datatype LineRead = LineRead(fragment: string, used: nat)

  /** What a token of a line contributes to the sequence: an IDENTIFIER
      its literal, a WS nothing. */
  function Piece(t: Token): string
  {
    if t.kind == IDENTIFIER then t.lit else ""
  }

  /** A token that may not appear in a line: not IDENTIFIER, WS or ENDOFLINE. */
  predicate BadInLine(t: Token)
  {
    t.kind != IDENTIFIER && t.kind != WS && t.kind != ENDOFLINE
  }

  /** The rest of a line, up to and including its ENDOFLINE: IDENTIFIER
      literals are concatenated, WS is skipped, anything else is an error. */
  function ReadLineRest(s: seq<Token>): (r: Result<LineRead>)
    decreases |s|
    ensures r.Ok? ==> 0 < r.value.used <= |s|
    ensures r.Err? ==> r.error.UnexpectedToken?
  {
    var t := At(s, 0);
    if t.kind == ENDOFLINE then Ok(LineRead("", 1))
    else if t.kind == IDENTIFIER || t.kind == WS then
      match ReadLineRest(s[1..])
      case Err(e) => Err(e)
      case Ok(line) => Ok(LineRead(Piece(t) + line.fragment, line.used + 1))
    else Err(UnexpectedToken(t.lit))
  }

  /** What ReadLineRest accepts is a line body and its ENDOFLINE, and the
      fragment is the body's IDENTIFIER literals. */
  lemma {:induction false} ReadLineRestSound(s: seq<Token>)
    decreases |s|
    ensures var r := ReadLineRest(s);
      r.Ok? ==>
        s[r.value.used - 1].kind == ENDOFLINE &&
        LineBody(s[..r.value.used - 1]) && r.value.fragment == Idents(s[..r.value.used - 1])
  {
    var r := ReadLineRest(s);
    if r.Ok? && s[0].kind != ENDOFLINE {
      var line := ReadLineRest(s[1..]);
      ReadLineRestSound(s[1..]);
      assert s[1..][..line.value.used - 1] == s[1..r.value.used - 1];
      assert s[..r.value.used - 1] == [s[0]] + s[1..r.value.used - 1];
    }
  }

  /** A line body followed by ENDOFLINE is read whole: the converse of
      ReadLineRestSound. */
  lemma {:induction false} ReadLineRestOfBody(body: seq<Token>, eol: Token, rest: seq<Token>)
    requires LineBody(body) && eol.kind == ENDOFLINE
    ensures ReadLineRest(body + [eol] + rest) == Ok(LineRead(Idents(body), |body| + 1))
  {
    var s := body + [eol] + rest;
    if |body| > 0 {
      assert s[1..] == body[1..] + [eol] + rest;
      ReadLineRestOfBody(body[1..], eol, rest);
    }
  }

  /** A rejected line holds a token other than IDENTIFIER, WS and ENDOFLINE
      after a body of IDENTIFIER and WS tokens, and the error carries the
      literal of the first such token. */
  lemma {:induction false} ReadLineRestError(s: seq<Token>)
    decreases |s|
    ensures ReadLineRest(s).Err? ==>
      exists i :: 0 <= i <= |s| && LineBody(s[..i]) && BadInLine(At(s, i)) &&
                  ReadLineRest(s).error == UnexpectedToken(At(s, i).lit)
  {
    if ReadLineRest(s).Err? {
      if At(s, 0).kind == IDENTIFIER || At(s, 0).kind == WS {
        ReadLineRestError(s[1..]);
        var i :| 0 <= i <= |s[1..]| && LineBody(s[1..][..i]) && BadInLine(At(s[1..], i)) &&
                 ReadLineRest(s[1..]).error == UnexpectedToken(At(s[1..], i).lit);
        assert At(s, i + 1) == At(s[1..], i);
        assert s[..i + 1] == [s[0]] + s[1..][..i];
        assert LineBody(s[..i + 1]);
      } else {
        assert s[..0] == [];
        assert LineBody(s[..0]) && BadInLine(At(s, 0));
      }
    }
  }

  /** One line of the first block: its name, its first fragment, and how
      many tokens it spans. */
  datatype NamedLine = NamedLine(name: string, fragment: string, used: nat)

  /** A line of the first block: a name (IDENTIFIER or NUMERIC), then the rest of the line. */
  function ReadNamedLine(s: seq<Token>): (r: Result<NamedLine>)
    ensures r.Ok? ==> 1 < r.value.used <= |s| && r.value.name == s[0].lit
    ensures r.Ok? ==>
      (s[0].kind == IDENTIFIER || s[0].kind == NUMERIC) &&
      ReadLineRest(s[1..]) == Ok(LineRead(r.value.fragment, r.value.used - 1))
    ensures r.Err? ==> r.error.NoSequenceName? || r.error.UnexpectedToken?
  {
    var t := At(s, 0);
    if t.kind != IDENTIFIER && t.kind != NUMERIC then Err(NoSequenceName(t.lit))
    else
      match ReadLineRest(s[1..])
      case Err(e) => Err(e)
      case Ok(line) => Ok(NamedLine(t.lit, line.fragment, 1 + line.used))
  }

  /** The first block: names and first fragments, and how many tokens it spans. */
  datatype NamedBlock = NamedBlock(names: seq<string>, frags: seq<string>, used: nat)

  /** `n` named lines, one per sequence. */
  function ReadNamedLines(s: seq<Token>, n: nat): (r: Result<NamedBlock>)
    decreases n
    ensures r.Ok? ==>
      |r.value.names| == n && |r.value.frags| == n && r.value.used <= |s| && (n > 0 ==> r.value.used > 0)
    ensures r.Err? ==> r.error.NoSequenceName? || r.error.UnexpectedToken?
  {
    if n == 0 then Ok(NamedBlock([], [], 0))
    else
      match ReadNamedLine(s)
      case Err(e) => Err(e)
      case Ok(line) =>
        match ReadNamedLines(s[line.used..], n - 1)
        case Err(e) => Err(e)
        case Ok(b) => Ok(NamedBlock([line.name] + b.names, [line.fragment] + b.frags, line.used + b.used))
  }

  /** A line read by ReadLineRest holds exactly one ENDOFLINE, its last token. */
  lemma LineRestSpan(s: seq<Token>)
    requires ReadLineRest(s).Ok?
    ensures EolCount(s[..ReadLineRest(s).value.used]) == 1
  {
    var u := ReadLineRest(s).value.used;
    ReadLineRestSound(s);
    LineBodyHasNoEol(s[..u - 1]);
    assert s[..u] == s[..u - 1] + [s[u - 1]];
    EolCountAppend(s[..u - 1], [s[u - 1]]);
    assert EolCount([s[u - 1]]) == 1;
  }

  lemma NamedLineSpan(s: seq<Token>)
    requires ReadNamedLine(s).Ok?
    ensures EolCount(s[..ReadNamedLine(s).value.used]) == 1
  {
    var u := ReadNamedLine(s).value.used;
    LineRestSpan(s[1..]);
    assert s[..u] == [s[0]] + s[1..][..u - 1];
    EolCountAppend([s[0]], s[1..][..u - 1]);
    assert EolCount([s[0]]) == 0;
  }

  /** The first block spans exactly `n` lines. */
  lemma {:induction false} ReadNamedLinesSpan(s: seq<Token>, n: nat)
    decreases n
    ensures var r := ReadNamedLines(s, n); r.Ok? ==> EolCount(s[..r.value.used]) == n
  {
    if n > 0 && ReadNamedLine(s).Ok? {
      var u := ReadNamedLine(s).value.used;
      var b := ReadNamedLines(s[u..], n - 1);
      if b.Ok? {
        NamedLineSpan(s);
        ReadNamedLinesSpan(s[u..], n - 1);
        EolCountSplit(s, u, b.value.used);
      }
    }
  }

  /** A line of a continuation block: it must start with an IDENTIFIER. */
  function ReadBlockLine(s: seq<Token>): (r: Result<LineRead>)
    ensures r.Ok? ==> 0 < r.value.used <= |s|
    ensures r.Ok? ==> s[0].kind == IDENTIFIER && r == ReadLineRest(s)
    ensures r.Err? ==> r.error == NoSequenceBlock || r.error.UnexpectedToken?
  {
    if At(s, 0).kind != IDENTIFIER then Err(NoSequenceBlock) else ReadLineRest(s)
  }

  /** A continuation block: one fragment per line, and how many tokens it spans. */
  datatype Block = Block(frags: seq<string>, used: nat)

  /** `n` continuation lines, one per sequence. */
  function ReadBlock(s: seq<Token>, n: nat): (r: Result<Block>)
    decreases n
    ensures r.Ok? ==>
      |r.value.frags| == n && r.value.used <= |s| &&
      (n > 0 ==> r.value.used > 0) && (n == 0 ==> r.value.used == 0)
    ensures r.Err? ==> r.error == NoSequenceBlock || r.error.UnexpectedToken?
  {
    if n == 0 then Ok(Block([], 0))
    else
      match ReadBlockLine(s)
      case Err(e) => Err(e)
      case Ok(line) =>
        match ReadBlock(s[line.used..], n - 1)
        case Err(e) => Err(e)
        case Ok(b) => Ok(Block([line.fragment] + b.frags, line.used + b.used))
  }

  /** A continuation block spans exactly `n` lines. */
  lemma {:induction false} ReadBlockSpan(s: seq<Token>, n: nat)
    decreases n
    ensures var r := ReadBlock(s, n); r.Ok? ==> EolCount(s[..r.value.used]) == n
  {
    if n > 0 && ReadBlockLine(s).Ok? {
      var u := ReadBlockLine(s).value.used;
      var b := ReadBlock(s[u..], n - 1);
      if b.Ok? {
        assert EolCount(s[..u]) == 1 by {
          LineRestSpan(s);
        }
        ReadBlockSpan(s[u..], n - 1);
        EolCountSplit(s, u, b.value.used);
      }
    }
  }

  /** Each sequence extended by its fragment of the latest block. */
  function Extend(acc: seq<string>, frags: seq<string>): seq<string>
    requires |acc| == |frags|
  {
    seq(|acc|, j requires 0 <= j < |acc| => acc[j] + frags[j])
  }

  /** The number of consecutive ENDOFLINE tokens the stream starts with. */
  function EolRun(s: seq<Token>): (k: nat)
    decreases |s|
    ensures k <= |s| && At(s, k).kind != ENDOFLINE
    ensures forall i :: 0 <= i < k ==> s[i].kind == ENDOFLINE
  {
    if At(s, 0).kind == ENDOFLINE then 1 + EolRun(s[1..]) else 0
  }

  /** One more ENDOFLINE of a run, at position `j` of `s`. */
  lemma EolRunStep(s: seq<Token>, j: nat, j': nat)
    requires j < |s| && s[j].kind == ENDOFLINE && j' == j + 1
    ensures s[j..][1..] == s[j'..] && EolRun(s[j..]) == 1 + EolRun(s[j'..])
  {
    assert s[j..][1..] == s[j'..];
  }

  /** What follows a block: blank lines (skipped, the block loop goes on while
      the next token is not EOF) or, when sequence 0 already has the declared
      length, EOF. Returns how many tokens to skip. */
  function ReadSeparator(s: seq<Token>, seqs: seq<string>, length: nat): (r: Result<nat>)
    ensures r.Ok? ==>
      r.value <= |s| && At(s, r.value).kind != ENDOFLINE &&
      (forall i :: 0 <= i < r.value ==> s[i].kind == ENDOFLINE) &&
      (At(s, 0).kind != EOF ==> r.value > 0)
    ensures r.Err? <==>
      At(s, 0).kind != ENDOFLINE && (|seqs| == 0 || |seqs[0]| != length || At(s, 0).kind != EOF)
    ensures r.Err? && |seqs| > 0 && |seqs[0]| != length ==> r.error == MissingBlankLine
  {
    if At(s, 0).kind == ENDOFLINE then Ok(EolRun(s))
    else if |seqs| == 0 then Err(NoFirstSequence)
    else if length != |seqs[0]| then Err(MissingBlankLine)
    else if At(s, 0).kind != EOF then Err(TrailingToken)
    else Ok(0)
  }

  /** The continuation blocks, until the stream is at EOF: each appends one
      fragment to every sequence, in index order. */
  function ReadBlocks(s: seq<Token>, acc: seq<string>, length: nat): (r: Result<seq<string>>)
    decreases |s|
    ensures r.Ok? ==> |r.value| == |acc| && forall j :: 0 <= j < |acc| ==> acc[j] <= r.value[j]
  {
    if At(s, 0).kind == EOF then Ok(acc)
    else
      match ReadBlock(s, |acc|)
      case Err(e) => Err(e)
      case Ok(b) =>
        var acc' := Extend(acc, b.frags);
        var s' := s[b.used..];
        match ReadSeparator(s', acc', length)
        case Err(e) => Err(e)
        case Ok(k) => ReadBlocks(s'[k..], acc', length)
  }

  /** The final check and the alignment: every sequence must have the declared
      length; the alphabet is detected from the first sequence. No sequence at
      all gives no alignment (Go's nil). */
  function Assemble<A>(names: seq<string>, seqs: seq<string>, length: nat, detect: string -> A)
    : (r: Result<Option<Alignment<A>>>)
    requires |names| == |seqs|
    ensures r.Ok? <==> forall j :: 0 <= j < |seqs| ==> |seqs[j]| == length
    ensures r.Err? ==> r.error == LengthMismatch
    ensures r.Ok? ==> (r.value.None? <==> |names| == 0)
    ensures r.Ok? && r.value.Some? ==>
      r.value.value.alphabet == detect(seqs[0]) &&
      |r.value.value.rows| == |names| &&
      forall j :: 0 <= j < |names| ==> r.value.value.rows[j] == Row(names[j], seqs[j])
  {
    if exists j :: 0 <= j < |seqs| && |seqs[j]| != length then Err(LengthMismatch)
    else if |names| == 0 then Ok(None)
    else Ok(Some(Alignment(detect(seqs[0]), Zip(names, seqs))))
  }

  /** The continuation blocks from `s` on, then the final check. */
  function Finish<A>(s: seq<Token>, names: seq<string>, acc: seq<string>, length: nat, detect: string -> A)
    : Result<Option<Alignment<A>>>
    requires |names| == |acc|
  {
    match ReadBlocks(s, acc, length)
    case Err(e) => Err(e)
    case Ok(seqs) => Assemble(names, seqs, length, detect)
  }

  /** Parse as a whole: header, first block, separator, continuation blocks, final check. */
  function ParseStream<A>(s: seq<Token>, detect: string -> A): Result<Option<Alignment<A>>>
  {
    match ReadHeader(s)
    case Err(e) => Err(e)
    case Ok(h) =>
      var s1 := s[h.used..];
      match ReadNamedLines(s1, h.count)
      case Err(e) => Err(e)
      case Ok(nb) =>
        var s2 := s1[nb.used..];
        match ReadSeparator(s2, nb.frags, h.length)
        case Err(e) => Err(e)
        case Ok(k) => Finish(s2[k..], nb.names, nb.frags, h.length, detect)
  }

  /** A header error is the parse's error. */
  lemma ParseStreamHeaderError<A>(s: seq<Token>, detect: string -> A)
    requires ReadHeader(s).Err?
    ensures ParseStream(s, detect) == Err(ReadHeader(s).error)
  {
  }

  /** A successful parse has as many rows as the header declares, each of
      the declared length, and its alphabet is detected from the first row;
      a header declaring no sequence gives no alignment. */
  lemma ParseStreamShape<A>(s: seq<Token>, detect: string -> A)
    requires ParseStream(s, detect).Ok?
    ensures ReadHeader(s).Ok?
    ensures var r := ParseStream(s, detect).value; var h := ReadHeader(s).value;
      (r.None? <==> h.count == 0) &&
      (r.Some? ==>
        |r.value.rows| == h.count && AllOfLength(r.value.rows, h.length) &&
        r.value.alphabet == detect(r.value.rows[0].sequence))
  {
    var h := ReadHeader(s).value;
    var nb := ReadNamedLines(s[h.used..], h.count).value;
    var s2 := s[h.used..][nb.used..];
    var k := ReadSeparator(s2, nb.frags, h.length).value;
    var seqs := ReadBlocks(s2[k..], nb.frags, h.length).value;
    assert ParseStream(s, detect) == Assemble(nb.names, seqs, h.length, detect);
  }
}
