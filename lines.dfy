/** What the parser reads, described by the lines of the input rather than
    by the order in which Parse consumes tokens. A line is the tokens
    before an ENDOFLINE; the input ends at its first EOF token (or where the
    token sequence runs out). The first block's line j names sequence j;
    the later non-blank lines go to the sequences in turn, so sequence j
    collects lines j, j + n, j + 2n, ... of them. */
module PhylipLines {
  import opened Basics
  import opened Tokens
  import opened Alignments
  import opened PhylipGrammar
  import opened PhylipSteps

  /** Ends a line: an ENDOFLINE, or the end of input. */
  predicate Stop(t: Token)
  {
    t.kind == ENDOFLINE || t.kind == EOF
  }

  /** The position of the first ENDOFLINE or EOF token, or |s| when there is none. */
  function LineEnd(s: seq<Token>): (e: nat)
    decreases |s|
    ensures e <= |s|
    ensures forall i :: 0 <= i < e ==> !Stop(s[i])
    ensures e < |s| ==> Stop(s[e])
  {
    if |s| == 0 || Stop(s[0]) then 0 else 1 + LineEnd(s[1..])
  }

  /** The complete lines of the input, each without its ENDOFLINE. A last
      line that the input ends before its ENDOFLINE is not a line. */
  function Lines(s: seq<Token>): seq<seq<Token>>
    decreases |s|
  {
    var e := LineEnd(s);
    if e == |s| || s[e].kind == EOF then [] else [s[..e]] + Lines(s[e + 1..])
  }

  /** The lines that are not blank. */
  function NonBlank(ls: seq<seq<Token>>): (r: seq<seq<Token>>)
    ensures forall i :: 0 <= i < |r| ==> |r[i]| > 0
  {
    if |ls| == 0 then [] else (if |ls[0]| == 0 then [] else [ls[0]]) + NonBlank(ls[1..])
  }

  /** A line of the first block: a name (IDENTIFIER or NUMERIC), then IDENTIFIER and WS tokens. */
  predicate NamedShape(line: seq<Token>)
  {
    |line| > 0 && (line[0].kind == IDENTIFIER || line[0].kind == NUMERIC) && LineBody(line[1..])
  }

  /** A line of a continuation block: IDENTIFIER and WS tokens, starting with an IDENTIFIER. */
  predicate BlockShape(line: seq<Token>)
  {
    |line| > 0 && line[0].kind == IDENTIFIER && LineBody(line)
  }

  /** The first `n` lines are all first-block lines. */
  predicate AllNamed(ls: seq<seq<Token>>, n: nat)
  {
    |ls| >= n && forall j :: 0 <= j < n ==> NamedShape(ls[j])
  }

  /** The first `n` lines are all continuation lines. */
  predicate AllBlock(ls: seq<seq<Token>>, n: nat)
  {
    |ls| >= n && forall j :: 0 <= j < n ==> BlockShape(ls[j])
  }

  /** Line j names sequence j and holds its first symbols. */
  predicate NamedLinesAre(ls: seq<seq<Token>>, n: nat, names: seq<string>, frags: seq<string>)
  {
    AllNamed(ls, n) && |names| == n && |frags| == n &&
    forall j :: 0 <= j < n ==> names[j] == ls[j][0].lit && frags[j] == Idents(ls[j][1..])
  }

  /** Line j holds more symbols of sequence j. */
  predicate BlockLinesAre(ls: seq<seq<Token>>, n: nat, frags: seq<string>)
  {
    AllBlock(ls, n) && |frags| == n && forall j :: 0 <= j < n ==> frags[j] == Idents(ls[j])
  }

  /** The symbols of lines j, j + n, j + 2n, ... of `ls`, in order. */
  function Strand(ls: seq<seq<Token>>, n: nat, j: nat): string
    requires j < n
    decreases |ls|
  {
    if j >= |ls| then "" else Idents(ls[j]) + Strand(ls[if n <= |ls| then n else |ls|..], n, j)
  }

  /** Continuation lines in whole blocks of `|acc|`, and `res` the sequences
      `acc` with every line's symbols appended to its sequence. */
  predicate StrandsAre(ls: seq<seq<Token>>, acc: seq<string>, res: seq<string>)
  {
    var n := |acc|;
    |res| == n && AllBlock(ls, |ls|) && WholeBlocks(|ls|, n) &&
    forall j :: 0 <= j < n ==> res[j] == acc[j] + Strand(ls, n, j)
  }

  /** `count` lines make whole blocks of `n` lines each (none when `n` is 0). */
  predicate WholeBlocks(count: nat, n: nat)
    decreases count
  {
    count == 0 || (0 < n <= count && WholeBlocks(count - n, n))
  }

  // ---- Lines ----

  /** The first line ends at the ENDOFLINE at `e`. */
  lemma LinesCons(s: seq<Token>, e: nat)
    requires e < |s| && s[e].kind == ENDOFLINE && forall i :: 0 <= i < e ==> !Stop(s[i])
    ensures Lines(s) == [s[..e]] + Lines(s[e + 1..])
  {
    LineEndIs(s, e);
  }

  /** The first line ends at a line-ending token preceded by none. */
  lemma {:induction false} LineEndIs(s: seq<Token>, e: nat)
    requires e < |s| && Stop(s[e]) && forall i :: 0 <= i < e ==> !Stop(s[i])
    decreases e
    ensures LineEnd(s) == e
  {
    if e > 0 {
      assert !Stop(s[0]);
      LineEndIs(s[1..], e - 1);
    }
  }

  /** At the end of input there is no line. */
  lemma LinesAtEof(s: seq<Token>)
    requires At(s, 0).kind == EOF
    ensures Lines(s) == []
  {
  }

  /** A line body holds no ENDOFLINE and no EOF. */
  lemma BodyNoStop(body: seq<Token>)
    requires LineBody(body)
    ensures forall i :: 0 <= i < |body| ==> !Stop(body[i])
  {
  }

  /** Blank lines before position `k` drop out of the non-blank lines. */
  lemma {:induction false} SkipBlank(s: seq<Token>, k: nat)
    requires k <= |s| && forall i :: 0 <= i < k ==> s[i].kind == ENDOFLINE
    decreases k
    ensures NonBlank(Lines(s)) == NonBlank(Lines(s[k..]))
  {
    if k > 0 {
      LinesCons(s, 0);
      assert s[..0] == [];
      assert NonBlank(Lines(s)) == NonBlank(Lines(s[1..])) by {
        assert Lines(s)[1..] == Lines(s[1..]);
      }
      SkipBlank(s[1..], k - 1);
      assert s[1..][k - 1..] == s[k..];
    }
  }

  lemma {:induction false} NonBlankAppend(a: seq<seq<Token>>, b: seq<seq<Token>>)
    decreases |a|
    ensures NonBlank(a + b) == NonBlank(a) + NonBlank(b)
  {
    if |a| > 0 {
      NonBlankAppend(a[1..], b);
      assert (a + b)[1..] == a[1..] + b;
    } else {
      assert a + b == b;
    }
  }

  /** Lines that are none of them blank are their own non-blank lines. */
  lemma {:induction false} NonBlankOfFull(a: seq<seq<Token>>)
    requires forall i :: 0 <= i < |a| ==> |a[i]| > 0
    decreases |a|
    ensures NonBlank(a) == a
  {
    if |a| > 0 {
      NonBlankOfFull(a[1..]);
      assert a == [a[0]] + a[1..];
    }
  }

  // ---- Lines of the first block ----

  /** Line 0 is a first-block line read by ReadNamedLine. */
  lemma NamedLineIsLine(s: seq<Token>)
    requires ReadNamedLine(s).Ok?
    ensures var line := ReadNamedLine(s).value;
      Lines(s) == [s[..line.used - 1]] + Lines(s[line.used..]) &&
      NamedShape(s[..line.used - 1]) && line.name == s[..line.used - 1][0].lit &&
      line.fragment == Idents(s[..line.used - 1][1..])
  {
    var line := ReadNamedLine(s).value;
    var u := line.used;
    ReadLineRestSound(s[1..]);
    var body := s[1..][..u - 2];
    assert body == s[..u - 1][1..];
    BodyNoStop(body);
    assert forall i :: 0 <= i < u - 1 ==> !Stop(s[i]) by {
      forall i | 0 <= i < u - 1
        ensures !Stop(s[i])
      {
        if i > 0 {
          assert s[i] == body[i - 1];
        }
      }
    }
    assert s[u - 1] == s[1..][u - 2];
    LinesCons(s, u - 1);
  }

  /** A first-block line, read as the token stream's first line. */
  lemma NamedLineOfLine(s: seq<Token>)
    requires |Lines(s)| > 0 && NamedShape(Lines(s)[0])
    ensures ReadNamedLine(s).Ok? && ReadNamedLine(s).value.used == |Lines(s)[0]| + 1
  {
    var e := LineEnd(s);
    assert !(e == |s| || s[e].kind == EOF);
    var body := s[1..e];
    assert s[..e][1..] == body;
    assert s[1..] == body + [s[e]] + s[e + 1..];
    ReadLineRestOfBody(body, s[e], s[e + 1..]);
  }

  lemma NamedLinesCons(line: seq<Token>, ls: seq<seq<Token>>, n: nat, m: nat, name: string, frag: string,
                       names: seq<string>, frags: seq<string>)
    requires n > 0 && m == n - 1 && NamedShape(line) && name == line[0].lit && frag == Idents(line[1..])
    requires NamedLinesAre(ls, m, names, frags)
    ensures NamedLinesAre([line] + ls, n, [name] + names, [frag] + frags)
  {
    var ls' := [line] + ls;
    assert forall j :: 0 < j < n ==> ls'[j] == ls[j - 1];
  }

  /** The first block's names and first symbols, line by line. */
  predicate NamedBlockRead(s: seq<Token>, n: nat, nb: NamedBlock)
  {
    nb.used <= |s| && NamedLinesThen(Lines(s), n, nb.names, nb.frags, Lines(s[nb.used..]))
  }

  /** When ReadNamedLines accepts, it reads the first block line by line. */
  predicate NamedBlockReads(s: seq<Token>, n: nat)
  {
    ReadNamedLines(s, n).Ok? ==> NamedBlockRead(s, n, ReadNamedLines(s, n).value)
  }

  /** The first `n` lines are first-block lines, and `after` is the lines after them. */
  predicate NamedLinesThen(ls: seq<seq<Token>>, n: nat, names: seq<string>, frags: seq<string>,
                           after: seq<seq<Token>>)
  {
    |ls| >= n && NamedLinesAre(ls, n, names, frags) && ls[n..] == after
  }

  /** What ReadNamedLines accepts: the first `n` lines, each a name and its
      first symbols; name j and fragment j come from line j. */
  lemma {:induction false} NamedLinesOfLines(s: seq<Token>, n: nat)
    decreases n
    ensures NamedBlockReads(s, n)
  {
    if n == 0 {
      NamedBlockNone(s, n);
    } else if ReadNamedLine(s).Ok? {
      var line := ReadNamedLine(s).value;
      NamedLinesOfLines(s[line.used..], n - 1);
      NamedLinesOfLinesStep(s, n, line, s[line.used..], n - 1);    } else {
      NamedLineRejected(s, n);
    }
  }

  /** Line 0 in front of the other lines of the first block. */
  lemma NamedLinesOfLinesStep(s: seq<Token>, n: nat, line: NamedLine, more: seq<Token>, m: nat)
    requires n > 0 && m == n - 1 && ReadNamedLine(s) == Ok(line) && more == s[line.used..]
    requires NamedBlockReads(more, m)
    ensures NamedBlockReads(s, n)
  {
    if ReadNamedLines(more, m).Ok? {
      var tail := ReadNamedLines(more, m).value;
      var nb := NamedBlock([line.name] + tail.names, [line.fragment] + tail.frags, line.used + tail.used);
      NamedLinesStep(s, n, line, more, m, tail, nb.names, nb.frags, nb.used);
      NamedLineIsLine(s);
      NamedBlockStep(s, n, line, s[..line.used - 1], more, m, tail, nb);
    }
  }

  lemma NamedLineRejected(s: seq<Token>, n: nat)
    requires n > 0 && ReadNamedLine(s).Err?
    ensures ReadNamedLines(s, n).Err?
  {
  }

  lemma NamedBlockNone(s: seq<Token>, n: nat)
    requires n == 0
    ensures NamedBlockReads(s, n)
  {
    assert s[0..] == s;
  }

  lemma NamedBlockStep(s: seq<Token>, n: nat, line: NamedLine, l0: seq<Token>, more: seq<Token>, m: nat,
                       tail: NamedBlock, nb: NamedBlock)
    requires n > 0 && m == n - 1 && line.used <= |s| && more == s[line.used..]
    requires Lines(s) == [l0] + Lines(more)
    requires NamedShape(l0) && line.name == l0[0].lit && line.fragment == Idents(l0[1..])
    requires tail.used <= |more| && NamedLinesThen(Lines(more), m, tail.names, tail.frags, Lines(more[tail.used..]))
    requires nb == NamedBlock([line.name] + tail.names, [line.fragment] + tail.frags, line.used + tail.used)
    ensures NamedBlockRead(s, n, nb)
  {
    DropDrop(s, line.used, tail.used, nb.used);
    NamedLinesThenCons(Lines(s), Lines(more), Lines(s[nb.used..]), l0, n, m, line.name, line.fragment,
                       tail.names, tail.frags);
  }

  lemma NamedLinesThenCons(ls: seq<seq<Token>>, lm: seq<seq<Token>>, after: seq<seq<Token>>, l0: seq<Token>,
                           n: nat, m: nat, name: string, frag: string, names: seq<string>, frags: seq<string>)
    requires n > 0 && m == n - 1 && ls == [l0] + lm
    requires NamedShape(l0) && name == l0[0].lit && frag == Idents(l0[1..])
    requires NamedLinesThen(lm, m, names, frags, after)
    ensures NamedLinesThen(ls, n, [name] + names, [frag] + frags, after)
  {
    NamedLinesCons(l0, lm, n, m, name, frag, names, frags);
    assert ls[n..] == lm[m..];
  }

  lemma AllNamedTail(ls: seq<seq<Token>>, n: nat)
    requires n > 0 && AllNamed(ls, n)
    ensures AllNamed(ls[1..], n - 1)
  {
    assert forall j :: 0 <= j < n - 1 ==> ls[1..][j] == ls[j + 1];
  }

  /** Conversely, when the first `n` lines are first-block lines, ReadNamedLines accepts them. */
  lemma {:induction false} LinesOfNamedLines(s: seq<Token>, n: nat)
    requires AllNamed(Lines(s), n)
    decreases n
    ensures ReadNamedLines(s, n).Ok?
  {
    if n > 0 {
      var e := LineEnd(s);
      NamedLineAhead(s, n, e);
      LinesOfNamedLines(s[e + 1..], n - 1);
      NamedLinesOk(s, n, e);
    }
  }

  /** The first line is read as a named line, and the lines after it start
      with the other `n - 1` named lines. */
  lemma NamedLineAhead(s: seq<Token>, n: nat, e: nat)
    requires n > 0 && AllNamed(Lines(s), n) && e == LineEnd(s)
    ensures e < |s| && ReadNamedLine(s).Ok? && ReadNamedLine(s).value.used == e + 1
    ensures AllNamed(Lines(s[e + 1..]), n - 1)
  {
    NamedLineOfLine(s);
    assert Lines(s)[1..] == Lines(s[e + 1..]);
    AllNamedTail(Lines(s), n);
  }

  lemma NamedLinesOk(s: seq<Token>, n: nat, e: nat)
    requires n > 0 && e < |s| && ReadNamedLine(s).Ok? && ReadNamedLine(s).value.used == e + 1
    requires ReadNamedLines(s[e + 1..], n - 1).Ok?
    ensures ReadNamedLines(s, n).Ok?
  {
  }

  /** ReadNamedLines succeeds exactly when the first `n` lines are first-block
      lines, and then it returns their names and symbols in line order. */
  lemma NamedLinesExactly(s: seq<Token>, n: nat)
    ensures ReadNamedLines(s, n).Ok? <==> AllNamed(Lines(s), n)
    ensures NamedBlockReads(s, n)
  {
    NamedLinesOfLines(s, n);
    if AllNamed(Lines(s), n) {
      LinesOfNamedLines(s, n);
    }
  }

  // ---- Lines of a continuation block ----

  /** Line 0 is a continuation line read by ReadBlockLine. */
  lemma BlockLineIsLine(s: seq<Token>)
    requires ReadBlockLine(s).Ok?
    ensures var line := ReadBlockLine(s).value;
      Lines(s) == [s[..line.used - 1]] + Lines(s[line.used..]) &&
      BlockShape(s[..line.used - 1]) && line.fragment == Idents(s[..line.used - 1])
  {
    var u := ReadBlockLine(s).value.used;
    ReadLineRestSound(s);
    BodyNoStop(s[..u - 1]);
    LinesCons(s, u - 1);
  }

  /** A continuation line, read as the token stream's first line. */
  lemma BlockLineOfLine(s: seq<Token>)
    requires |Lines(s)| > 0 && BlockShape(Lines(s)[0])
    ensures ReadBlockLine(s).Ok? && ReadBlockLine(s).value.used == |Lines(s)[0]| + 1
  {
    var e := LineEnd(s);
    assert !(e == |s| || s[e].kind == EOF);
    assert s == s[..e] + [s[e]] + s[e + 1..];
    ReadLineRestOfBody(s[..e], s[e], s[e + 1..]);
  }

  lemma BlockLinesCons(line: seq<Token>, ls: seq<seq<Token>>, n: nat, m: nat, frag: string, frags: seq<string>)
    requires n > 0 && m == n - 1 && BlockShape(line) && frag == Idents(line)
    requires BlockLinesAre(ls, m, frags)
    ensures BlockLinesAre([line] + ls, n, [frag] + frags)
  {
    var ls' := [line] + ls;
    assert forall j :: 0 < j < n ==> ls'[j] == ls[j - 1];
  }

  /** A continuation block's symbols, line by line. */
  predicate BlockRead(s: seq<Token>, n: nat, b: Block)
  {
    b.used <= |s| && BlockLinesThen(Lines(s), n, b.frags, Lines(s[b.used..]))
  }

  /** When ReadBlock accepts, it reads a continuation block line by line. */
  predicate BlockReads(s: seq<Token>, n: nat)
  {
    ReadBlock(s, n).Ok? ==> BlockRead(s, n, ReadBlock(s, n).value)
  }

  /** The first `n` lines are continuation lines, and `after` is the lines after them. */
  predicate BlockLinesThen(ls: seq<seq<Token>>, n: nat, frags: seq<string>, after: seq<seq<Token>>)
  {
    |ls| >= n && BlockLinesAre(ls, n, frags) && ls[n..] == after
  }

  /** What ReadBlock accepts: the first `n` lines, each a continuation line;
      fragment j holds the symbols of line j. */
  lemma {:induction false} BlockOfLines(s: seq<Token>, n: nat)
    decreases n
    ensures BlockReads(s, n)
  {
    if n == 0 {
      BlockReadNone(s, n);
    } else if ReadBlockLine(s).Ok? {
      var line := ReadBlockLine(s).value;
      BlockOfLines(s[line.used..], n - 1);
      BlockOfLinesStep(s, n, line, s[line.used..], n - 1);
    } else {
      BlockLineRejected(s, n);
    }
  }

  /** Line 0 in front of the other lines of a continuation block. */
  lemma BlockOfLinesStep(s: seq<Token>, n: nat, line: LineRead, more: seq<Token>, m: nat)
    requires n > 0 && m == n - 1 && ReadBlockLine(s) == Ok(line) && more == s[line.used..]
    requires BlockReads(more, m)
    ensures BlockReads(s, n)
  {
    if ReadBlock(more, m).Ok? {
      var tail := ReadBlock(more, m).value;
      var b := Block([line.fragment] + tail.frags, line.used + tail.used);
      BlockLinesStep(s, n, line, more, m, tail, b.frags, b.used);
      BlockLineIsLine(s);
      BlockReadStep(s, n, line, s[..line.used - 1], more, m, tail, b);
    }
  }

  lemma BlockLineRejected(s: seq<Token>, n: nat)
    requires n > 0 && ReadBlockLine(s).Err?
    ensures ReadBlock(s, n).Err?
  {
  }

  lemma BlockReadNone(s: seq<Token>, n: nat)
    requires n == 0
    ensures BlockReads(s, n)
  {
    assert s[0..] == s;
  }

  lemma BlockReadStep(s: seq<Token>, n: nat, line: LineRead, l0: seq<Token>, more: seq<Token>, m: nat,
                      tail: Block, b: Block)
    requires n > 0 && m == n - 1 && line.used <= |s| && more == s[line.used..]
    requires Lines(s) == [l0] + Lines(more)
    requires BlockShape(l0) && line.fragment == Idents(l0)
    requires tail.used <= |more| && BlockLinesThen(Lines(more), m, tail.frags, Lines(more[tail.used..]))
    requires b == Block([line.fragment] + tail.frags, line.used + tail.used)
    ensures BlockRead(s, n, b)
  {
    DropDrop(s, line.used, tail.used, b.used);
    BlockLinesThenCons(Lines(s), Lines(more), Lines(s[b.used..]), l0, n, m, line.fragment, tail.frags);
  }

  lemma BlockLinesThenCons(ls: seq<seq<Token>>, lm: seq<seq<Token>>, after: seq<seq<Token>>, l0: seq<Token>,
                           n: nat, m: nat, frag: string, frags: seq<string>)
    requires n > 0 && m == n - 1 && ls == [l0] + lm
    requires BlockShape(l0) && frag == Idents(l0)
    requires BlockLinesThen(lm, m, frags, after)
    ensures BlockLinesThen(ls, n, [frag] + frags, after)
  {
    BlockLinesCons(l0, lm, n, m, frag, frags);
    assert ls[n..] == lm[m..];
  }

  lemma AllBlockTail(ls: seq<seq<Token>>, n: nat)
    requires n > 0 && AllBlock(ls, n)
    ensures AllBlock(ls[1..], n - 1)
  {
    assert forall j :: 0 <= j < n - 1 ==> ls[1..][j] == ls[j + 1];
  }

  /** Conversely, when the first `n` lines are continuation lines, ReadBlock accepts them. */
  lemma {:induction false} LinesOfBlock(s: seq<Token>, n: nat)
    requires AllBlock(Lines(s), n)
    decreases n
    ensures ReadBlock(s, n).Ok?
  {
    if n > 0 {
      var e := LineEnd(s);
      BlockLineAhead(s, n, e);
      LinesOfBlock(s[e + 1..], n - 1);
      BlockLinesOk(s, n, e);
    }
  }

  /** The first line is read as a continuation line, and the lines after it
      start with the other `n - 1` continuation lines. */
  lemma BlockLineAhead(s: seq<Token>, n: nat, e: nat)
    requires n > 0 && AllBlock(Lines(s), n) && e == LineEnd(s)
    ensures e < |s| && ReadBlockLine(s).Ok? && ReadBlockLine(s).value.used == e + 1
    ensures AllBlock(Lines(s[e + 1..]), n - 1)
  {
    BlockLineOfLine(s);
    assert Lines(s)[1..] == Lines(s[e + 1..]);
    AllBlockTail(Lines(s), n);
  }

  lemma BlockLinesOk(s: seq<Token>, n: nat, e: nat)
    requires n > 0 && e < |s| && ReadBlockLine(s).Ok? && ReadBlockLine(s).value.used == e + 1
    requires ReadBlock(s[e + 1..], n - 1).Ok?
    ensures ReadBlock(s, n).Ok?
  {
  }

  /** ReadBlock succeeds exactly when the first `n` lines are continuation
      lines, and then fragment j holds the symbols of line j. */
  lemma BlockExactly(s: seq<Token>, n: nat)
    ensures ReadBlock(s, n).Ok? <==> AllBlock(Lines(s), n)
    ensures BlockReads(s, n)
  {
    BlockOfLines(s, n);
    if AllBlock(Lines(s), n) {
      LinesOfBlock(s, n);
    }
  }

  // ---- The continuation blocks and the whole parse ----

  /** A block of continuation lines in front of more blocks: each sequence
      gains its own line, then its lines of the later blocks. */
  lemma StrandsCons(blk: seq<seq<Token>>, rest: seq<seq<Token>>, acc: seq<string>, frags: seq<string>,
                    acc': seq<string>, res: seq<string>)
    requires |blk| == |acc| && BlockLinesAre(blk, |acc|, frags) && acc' == Extend(acc, frags)
    requires StrandsAre(rest, acc', res)
    ensures StrandsAre(blk + rest, acc, res)
  {
    var n, ls := |acc|, blk + rest;
    assert ls[n..] == rest;
    assert WholeBlocks(|ls|, n) by {
      if n > 0 {
        assert |ls| - n == |rest|;
      }
    }
    forall j | 0 <= j < n
      ensures res[j] == acc[j] + Strand(ls, n, j)
    {
      assert ls[j] == blk[j];
      AppendAssoc(acc[j], frags[j], Strand(rest, n, j));
    }
  }

  /** The same, with the block's lines taken from the front of the lines `ls`
      and blank lines between the block and the blocks after it. */
  lemma StrandsAfterBlock(ls: seq<seq<Token>>, after: seq<seq<Token>>, rest: seq<seq<Token>>,
                          acc: seq<string>, frags: seq<string>, acc': seq<string>, res: seq<string>)
    requires BlockLinesThen(ls, |acc|, frags, after) && NonBlank(after) == rest
    requires acc' == Extend(acc, frags) && StrandsAre(rest, acc', res)
    ensures StrandsAre(NonBlank(ls), acc, res)
  {
    var n := |acc|;
    var blk := ls[..n];
    assert ls == blk + after;
    NonBlankAppend(blk, after);
    assert BlockLinesAre(blk, n, frags) by {
      assert forall j :: 0 <= j < n ==> blk[j] == ls[j];
    }
    NonBlankOfFull(blk);
    StrandsCons(blk, rest, acc, frags, acc', res);
  }

  /** What ReadBlocks accepts: the non-blank lines are continuation lines in
      whole blocks of one line per sequence, and each sequence gains the
      symbols of its own line of every block, block after block. */
  lemma {:induction false} BlocksOfLines(s: seq<Token>, acc: seq<string>, length: nat)
    decreases |s|
    ensures ReadBlocks(s, acc, length).Ok? ==> StrandsAre(NonBlank(Lines(s)), acc, ReadBlocks(s, acc, length).value)
  {
    if At(s, 0).kind == EOF {
      BlocksOfLinesAtEof(s, acc, length);
    } else if ReadBlock(s, |acc|).Ok? {
      var b := ReadBlock(s, |acc|).value;
      var acc' := Extend(acc, b.frags);
      var s' := s[b.used..];
      if ReadSeparator(s', acc', length).Ok? {
        var k := ReadSeparator(s', acc', length).value;
        BlocksNext(s, acc, length, b, acc', k, s'[k..]);
        BlocksOfLines(s'[k..], acc', length);
        if ReadBlocks(s'[k..], acc', length).Ok? {
          BlocksOfLinesStep(s, acc, length, b, acc', s', k, ReadBlocks(s'[k..], acc', length).value);
        }
      }
    }
  }

  lemma BlocksOfLinesAtEof(s: seq<Token>, acc: seq<string>, length: nat)
    requires At(s, 0).kind == EOF
    ensures ReadBlocks(s, acc, length).Ok? ==> StrandsAre(NonBlank(Lines(s)), acc, ReadBlocks(s, acc, length).value)
  {
    LinesAtEof(s);
    assert NonBlank(Lines(s)) == [];
    forall j | 0 <= j < |acc|
      ensures acc[j] == acc[j] + Strand([], |acc|, j)
    {
      assert acc[j] + "" == acc[j];
    }
  }

  /** One continuation block and its separator in front of the blocks after them. */
  lemma BlocksOfLinesStep(s: seq<Token>, acc: seq<string>, length: nat, b: Block, acc': seq<string>,
                          s': seq<Token>, k: nat, res: seq<string>)
    requires At(s, 0).kind != EOF && ReadBlock(s, |acc|) == Ok(b) && acc' == Extend(acc, b.frags)
    requires s' == s[b.used..] && ReadSeparator(s', acc', length) == Ok(k)
    requires StrandsAre(NonBlank(Lines(s'[k..])), acc', res)
    ensures StrandsAre(NonBlank(Lines(s)), acc, res)
  {
    BlockOfLines(s, |acc|);
    SkipBlank(s', k);
    StrandsAfterBlock(Lines(s), Lines(s'), NonBlank(Lines(s'[k..])), acc, b.frags, acc', res);
  }

  /** The rows the lines describe: row j is named by line j of the first
      block, and its sequence is the symbols after that name followed by
      those of its lines in every later block. */
  function LineRows(ls: seq<seq<Token>>, n: nat): (rows: seq<Row>)
    requires AllNamed(ls, n)
    ensures |rows| == n
  {
    var later := NonBlank(ls[n..]);
    seq(n, j requires 0 <= j < n => Row(ls[j][0].lit, Idents(ls[j][1..]) + Strand(later, n, j)))
  }

  /** The lines of a successful parse after its header: the first block, then
      continuation lines in whole blocks, and the rows they describe. */
  predicate ReadsLines<A>(ls: seq<seq<Token>>, n: nat, r: Option<Alignment<A>>)
  {
    AllNamed(ls, n) &&
    var later := NonBlank(ls[n..]);
    AllBlock(later, |later|) && WholeBlocks(|later|, n) &&
    (r.Some? ==> r.value.rows == LineRows(ls, n))
  }

  /** The first block's names and fragments, extended by the later blocks,
      zipped into rows. */
  lemma RowsOfLines<A>(ls: seq<seq<Token>>, after: seq<seq<Token>>, later: seq<seq<Token>>, n: nat,
                       names: seq<string>, frags: seq<string>, seqs: seq<string>, r: Option<Alignment<A>>)
    requires NamedLinesThen(ls, n, names, frags, after) && NonBlank(after) == later
    requires StrandsAre(later, frags, seqs)
    requires r.Some? ==> r.value.rows == Zip(names, seqs)
    ensures ReadsLines(ls, n, r)
  {
    if r.Some? {
      forall j | 0 <= j < n
        ensures r.value.rows[j] == LineRows(ls, n)[j]
      {
      }
    }
  }

  /** What a successful parse reads, line by line. After the header come one
      first-block line per declared sequence; the non-blank lines after them
      are continuation lines, one per sequence in every block; and the
      alignment pairs the name on line j with the symbols of line j and of
      its lines in every later block, in index order. */
  lemma ParseStreamRows<A>(s: seq<Token>, detect: string -> A)
    requires ParseStream(s, detect).Ok?
    ensures ReadHeader(s).Ok?
    ensures var h := ReadHeader(s).value;
      ReadsLines(Lines(s[h.used..]), h.count, ParseStream(s, detect).value)
  {
    var h := ReadHeader(s).value;
    var n := h.count;
    var s1 := s[h.used..];
    var nb := ReadNamedLines(s1, n).value;
    var s2 := s1[nb.used..];
    var k := ReadSeparator(s2, nb.frags, h.length).value;
    var seqs := ReadBlocks(s2[k..], nb.frags, h.length).value;
    assert ParseStream(s, detect) == Assemble(nb.names, seqs, h.length, detect);
    NamedLinesOfLines(s1, n);
    SkipBlank(s2, k);
    BlocksOfLines(s2[k..], nb.frags, h.length);
    RowsOfLines(Lines(s1), Lines(s2), NonBlank(Lines(s2[k..])), n, nb.names, nb.frags, seqs,
                ParseStream(s, detect).value);
  }
}
