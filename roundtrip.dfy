/** The writer's text read back by the parser. The scanner is not part of
    this model, so the text is paired with the token stream a scanner yields
    for it when every name and every chunk of symbols is one IDENTIFIER:
    the stream's literals spell the text exactly, and parsing the stream
    gives back the rows that were written. */
module PhylipRoundTrip {
  import opened Basics
  import opened Tokens
  import opened Decimal
  import opened Alignments
  import opened PhylipGrammar
  import opened PhylipWriter
  import opened PhylipSteps

  const Eol: Token := Token(ENDOFLINE, "\n")

  /** The header "  n   L\n" as five tokens. */
  function HeaderTokens(count: nat, length: nat): seq<Token>
  {
    [Token(WS, "  "), Token(NUMERIC, NatToString(count)), Token(WS, "   "), Token(NUMERIC, NatToString(length)), Eol]
  }

  /** The chunked text of `t`: an IDENTIFIER per chunk, a WS between chunks. */
  function ChunkTokens(t: string): seq<Token>
    decreases |t|
  {
    if |t| == 0 then []
    else if |t| <= ChunkWidth then [Token(IDENTIFIER, t)]
    else [Token(IDENTIFIER, t[..ChunkWidth]), Token(WS, " ")] + ChunkTokens(t[ChunkWidth..])
  }

  function RowTokens(row: Row, start: nat, first: bool): seq<Token>
  {
    (if first then [Token(IDENTIFIER, row.name), Token(WS, "  ")] else [])
      + ChunkTokens(Segment(row.sequence, start)) + [Eol]
  }

  function BlockTokens(rows: seq<Row>, start: nat, first: bool): seq<Token>
  {
    if |rows| == 0 then []
    else BlockTokens(rows[..|rows| - 1], start, first) + RowTokens(rows[|rows| - 1], start, first)
  }

  /** Blocks `b` up to `n - 1`, each after its empty line. */
  function LaterTokens(rows: seq<Row>, b: nat, n: nat): seq<Token>
    decreases n - b
  {
    if b >= n then [] else [Eol] + BlockTokens(rows, LineWidth * b, false) + LaterTokens(rows, b + 1, n)
  }

  /** The tokens of everything WriteAlignment writes. */
  function WriterTokens(rows: seq<Row>, length: nat): seq<Token>
  {
    var n := BlockCount(length);
    HeaderTokens(|rows|, length) + (if n == 0 then [] else BlockTokens(rows, 0, true) + LaterTokens(rows, 1, n))
  }

  // ---- The tokens spell the text ----

  lemma {:induction false} ChunkTokensLits(t: string)
    decreases |t|
    ensures Lits(ChunkTokens(t)) == ChunkedText(t)
  {
    if |t| > ChunkWidth {
      var head := [Token(IDENTIFIER, t[..ChunkWidth]), Token(WS, " ")];
      ChunkTokensLits(t[ChunkWidth..]);
      LitsAppend(head, ChunkTokens(t[ChunkWidth..]));
      assert Lits(head) == t[..ChunkWidth] + " ";
    } else if |t| > 0 {
      assert Lits([Token(IDENTIFIER, t)]) == t + Lits([]);
    }
  }

  lemma RowTokensLits(row: Row, start: nat, first: bool)
    ensures Lits(RowTokens(row, start, first)) == RowLine(row, start, first)
  {
    var name: seq<Token> := if first then [Token(IDENTIFIER, row.name), Token(WS, "  ")] else [];
    var chunks := ChunkTokens(Segment(row.sequence, start));
    ChunkTokensLits(Segment(row.sequence, start));
    LitsAppend(name + chunks, [Eol]);
    LitsAppend(name, chunks);
    assert Lits([Eol]) == "\n";
    if first {
      assert Lits(name) == row.name + "  ";
    }
    AppendRegroup(Lits(name), Lits(chunks), "\n", "");
  }

  lemma {:induction false} BlockTokensLits(rows: seq<Row>, start: nat, first: bool)
    ensures Lits(BlockTokens(rows, start, first)) == BlockText(rows, start, first)
  {
    if |rows| > 0 {
      var init := rows[..|rows| - 1];
      BlockTokensLits(init, start, first);
      RowTokensLits(rows[|rows| - 1], start, first);
      LitsAppend(BlockTokens(init, start, first), RowTokens(rows[|rows| - 1], start, first));
    }
  }

  lemma Lits3(a: seq<Token>, b: seq<Token>, c: seq<Token>)
    ensures Lits(a + b + c) == Lits(a) + Lits(b) + Lits(c)
  {
    LitsAppend(a + b, c);
    LitsAppend(a, b);
  }

  lemma LaterTokensCons(rows: seq<Row>, m: nat, n: nat)
    requires m < n
    ensures LaterTokens(rows, m, n) == [Eol] + BlockTokens(rows, LineWidth * m, false) + LaterTokens(rows, m + 1, n)
  {
  }

  lemma BlocksTextSnoc(rows: seq<Row>, m: nat)
    requires m >= 1
    ensures BlocksText(rows, m + 1) == BlocksText(rows, m) + "\n" + BlockText(rows, LineWidth * m, false)
  {
  }

  /** The later blocks' tokens spell what BlocksText adds after block `m - 1`. */
  predicate LaterSpelled(rows: seq<Row>, m: nat, n: nat)
  {
    BlocksText(rows, n) == BlocksText(rows, m) + Lits(LaterTokens(rows, m, n))
  }

  lemma {:induction false} LaterTokensLits(rows: seq<Row>, m: nat, n: nat)
    requires 1 <= m <= n
    decreases n - m
    ensures LaterSpelled(rows, m, n)
  {
    if m < n {
      LaterTokensLits(rows, m + 1, n);
      LaterTokensStep(rows, m, n);
    } else {
      LaterTokensNone(rows, m, n);
    }
  }

  lemma LaterTokensNone(rows: seq<Row>, m: nat, n: nat)
    requires m == n
    ensures LaterSpelled(rows, m, n)
  {
    assert LaterTokens(rows, m, n) == [];
  }

  /** Block `m` in front of the blocks after it. */
  lemma LaterTokensStep(rows: seq<Row>, m: nat, n: nat)
    requires 1 <= m < n && LaterSpelled(rows, m + 1, n)
    ensures LaterSpelled(rows, m, n)
  {
    var block := BlockTokens(rows, LineWidth * m, false);
    var later := LaterTokens(rows, m + 1, n);
    BlockTokensLits(rows, LineWidth * m, false);
    BlocksTextSnoc(rows, m);
    LaterTokensCons(rows, m, n);
    Lits3([Eol], block, later);
    assert Lits([Eol]) == "\n";
    AppendRegroup(BlocksText(rows, m), "\n", Lits(block), Lits(later));
  }

  lemma HeaderTokensLits(count: nat, length: nat)
    ensures Lits(HeaderTokens(count, length)) == HeaderLine(count, length)
  {
    var h := HeaderTokens(count, length);
    var c, l := NatToString(count), NatToString(length);
    assert Lits(h[4..]) == "\n" by { assert h[4..][1..] == []; }
    assert Lits(h[3..]) == l + "\n" by { assert h[3..][1..] == h[4..]; }
    assert Lits(h[2..]) == "   " + (l + "\n") by { assert h[2..][1..] == h[3..]; }
    assert Lits(h[1..]) == c + ("   " + (l + "\n")) by { assert h[1..][1..] == h[2..]; }
    assert Lits(h) == "  " + (c + ("   " + (l + "\n")));
  }

  /** The tokens' literals are exactly the text WriteAlignment returns. */
  lemma WriterTokensLits(rows: seq<Row>, length: nat)
    ensures Lits(WriterTokens(rows, length)) == Serialized(rows, length)
  {
    var n := BlockCount(length);
    HeaderTokensLits(|rows|, length);
    if n == 0 {
      LitsAppend(HeaderTokens(|rows|, length), []);
    } else {
      var first := BlockTokens(rows, 0, true);
      var later := LaterTokens(rows, 1, n);
      LaterTokensLits(rows, 1, n);
      BlockTokensLits(rows, 0, true);
      assert BlocksText(rows, 1) == BlockText(rows, 0, true);
      LitsAppend(HeaderTokens(|rows|, length), first + later);
      LitsAppend(first, later);
    }
  }

  // ---- Parsing the tokens ----

  /** The chunk tokens are a line body whose identifiers spell the segment,
      and a nonempty segment starts with an IDENTIFIER. */
  lemma {:induction false} ChunkTokensBody(t: string)
    decreases |t|
    ensures LineBody(ChunkTokens(t)) && Idents(ChunkTokens(t)) == t
    ensures |t| > 0 ==> |ChunkTokens(t)| > 0 && ChunkTokens(t)[0].kind == IDENTIFIER
  {
    if |t| > ChunkWidth {
      var head := [Token(IDENTIFIER, t[..ChunkWidth]), Token(WS, " ")];
      ChunkTokensBody(t[ChunkWidth..]);
      IdentsAppend(head, ChunkTokens(t[ChunkWidth..]));
      assert Idents(head) == t[..ChunkWidth] + "";
    } else if |t| > 0 {
      assert Idents([Token(IDENTIFIER, t)]) == t + Idents([]);
    }
  }

  lemma BlockTokensCons(rows: seq<Row>, start: nat, first: bool)
    requires |rows| > 0
    decreases |rows|
    ensures BlockTokens(rows, start, first) == RowTokens(rows[0], start, first) + BlockTokens(rows[1..], start, first)
  {
    if |rows| > 1 {
      var init := rows[..|rows| - 1];
      BlockTokensCons(init, start, first);
      assert init[1..] == rows[1..][..|rows[1..]| - 1];
    } else {
      assert rows[1..] == [];
    }
  }

  /** The line of a nonempty segment, read as a first-block line. */
  lemma ReadNamedRow(row: Row, rest: seq<Token>)
    requires |row.sequence| > 0
    ensures ReadNamedLine(RowTokens(row, 0, true) + rest)
         == Ok(NamedLine(row.name, Segment(row.sequence, 0), |RowTokens(row, 0, true)|))
  {
    var chunks := ChunkTokens(Segment(row.sequence, 0));
    var body := [Token(WS, "  ")] + chunks;
    var s := RowTokens(row, 0, true) + rest;
    ChunkTokensBody(Segment(row.sequence, 0));
    IdentsAppend([Token(WS, "  ")], chunks);
    assert Idents(body) == Segment(row.sequence, 0) by {
      assert Idents([Token(WS, "  ")]) == "";
    }
    assert s[1..] == body + [Eol] + rest;
    ReadLineRestOfBody(body, Eol, rest);
  }

  /** The line of a nonempty segment, read as a continuation-block line. */
  lemma ReadLaterRow(row: Row, start: nat, rest: seq<Token>)
    requires start < |row.sequence|
    ensures ReadBlockLine(RowTokens(row, start, false) + rest)
         == Ok(LineRead(Segment(row.sequence, start), |RowTokens(row, start, false)|))
  {
    var chunks := ChunkTokens(Segment(row.sequence, start));
    ChunkTokensBody(Segment(row.sequence, start));
    assert RowTokens(row, start, false) + rest == chunks + [Eol] + rest;
    ReadLineRestOfBody(chunks, Eol, rest);
  }

  function Names(rows: seq<Row>): seq<string>
  {
    seq(|rows|, j requires 0 <= j < |rows| => rows[j].name)
  }

  /** Every row's segment in the block starting at `start`. */
  function Segments(rows: seq<Row>, start: nat): seq<string>
  {
    seq(|rows|, j requires 0 <= j < |rows| => Segment(rows[j].sequence, start))
  }

  /** Every row's symbols in the first `b` blocks. */
  function Prefixes(rows: seq<Row>, b: nat): seq<string>
  {
    seq(|rows|, j requires 0 <= j < |rows| => Shown(rows[j].sequence, b))
  }

  /** The tokens of a block with at least one row, split after the first row. */
  lemma SplitBlock(rows: seq<Row>, start: nat, first: bool, rest: seq<Token>)
    requires |rows| > 0
    ensures var line := RowTokens(rows[0], start, first);
            var more := BlockTokens(rows[1..], start, first) + rest;
            BlockTokens(rows, start, first) + rest == line + more &&
            (line + more)[|line|..] == more &&
            |BlockTokens(rows, start, first)| == |line| + |BlockTokens(rows[1..], start, first)|
  {
    BlockTokensCons(rows, start, first);
    AppendAssoc(RowTokens(rows[0], start, first), BlockTokens(rows[1..], start, first), rest);
  }

  /** Every row has at least one symbol. */
  predicate NonEmptyRows(rows: seq<Row>)
  {
    forall j :: 0 <= j < |rows| ==> |rows[j].sequence| > 0
  }

  /** The first block reads back as every row's name and first segment. */
  predicate FirstBlockReads(rows: seq<Row>, rest: seq<Token>)
  {
    ReadNamedLines(BlockTokens(rows, 0, true) + rest, |rows|)
    == Ok(NamedBlock(Names(rows), Segments(rows, 0), |BlockTokens(rows, 0, true)|))
  }

  lemma {:induction false} ReadFirstBlock(rows: seq<Row>, rest: seq<Token>)
    requires NonEmptyRows(rows)
    decreases |rows|
    ensures FirstBlockReads(rows, rest)
  {
    if |rows| > 0 {
      NonEmptyTail(rows);
      ReadFirstBlock(rows[1..], rest);
      FirstBlockCons(rows, rest);
    } else {
      FirstBlockEmpty(rows, rest);
    }
  }

  lemma NonEmptyTail(rows: seq<Row>)
    requires |rows| > 0 && NonEmptyRows(rows)
    ensures |rows[0].sequence| > 0 && NonEmptyRows(rows[1..])
  {
    assert forall j :: 0 <= j < |rows[1..]| ==> rows[1..][j] == rows[j + 1];
  }

  lemma FirstBlockEmpty(rows: seq<Row>, rest: seq<Token>)
    requires |rows| == 0
    ensures FirstBlockReads(rows, rest)
  {
    assert BlockTokens(rows, 0, true) == [];
    assert Names(rows) == [] && Segments(rows, 0) == [];
  }

  /** The first row's line in front of the lines of the other rows. */
  lemma FirstBlockCons(rows: seq<Row>, rest: seq<Token>)
    requires |rows| > 0 && |rows[0].sequence| > 0 && FirstBlockReads(rows[1..], rest)
    ensures FirstBlockReads(rows, rest)
  {
    var row, tl := rows[0], rows[1..];
    var line := RowTokens(row, 0, true);
    var more := BlockTokens(tl, 0, true) + rest;
    SplitBlock(rows, 0, true, rest);
    ReadNamedRow(row, more);
    NamesCons(rows);
    SegmentsCons(rows, 0);
    NamedLinesStep(line + more, |rows|, NamedLine(row.name, Segment(row.sequence, 0), |line|), more, |tl|,
                   NamedBlock(Names(tl), Segments(tl, 0), |BlockTokens(tl, 0, true)|),
                   Names(rows), Segments(rows, 0), |BlockTokens(rows, 0, true)|);
  }

  lemma NamesCons(rows: seq<Row>)
    requires |rows| > 0
    ensures Names(rows) == [rows[0].name] + Names(rows[1..])
  {
  }

  lemma SegmentsCons(rows: seq<Row>, start: nat)
    requires |rows| > 0
    ensures Segments(rows, start) == [Segment(rows[0].sequence, start)] + Segments(rows[1..], start)
  {
  }

  /** Every row has a symbol at column `start`. */
  predicate Covers(rows: seq<Row>, start: nat)
  {
    forall j :: 0 <= j < |rows| ==> start < |rows[j].sequence|
  }

  /** A continuation block reads back as every row's segment. */
  predicate LaterBlockReads(rows: seq<Row>, start: nat, rest: seq<Token>)
  {
    ReadBlock(BlockTokens(rows, start, false) + rest, |rows|)
    == Ok(Block(Segments(rows, start), |BlockTokens(rows, start, false)|))
  }

  lemma {:induction false} ReadLaterBlock(rows: seq<Row>, start: nat, rest: seq<Token>)
    requires Covers(rows, start)
    decreases |rows|
    ensures LaterBlockReads(rows, start, rest)
  {
    if |rows| > 0 {
      CoversTail(rows, start);
      ReadLaterBlock(rows[1..], start, rest);
      LaterBlockCons(rows, start, rest);
    } else {
      LaterBlockEmpty(rows, start, rest);
    }
  }

  lemma CoversTail(rows: seq<Row>, start: nat)
    requires |rows| > 0 && Covers(rows, start)
    ensures start < |rows[0].sequence| && Covers(rows[1..], start)
  {
    assert forall j :: 0 <= j < |rows[1..]| ==> rows[1..][j] == rows[j + 1];
  }

  lemma LaterBlockEmpty(rows: seq<Row>, start: nat, rest: seq<Token>)
    requires |rows| == 0
    ensures LaterBlockReads(rows, start, rest)
  {
    assert BlockTokens(rows, start, false) == [];
    assert Segments(rows, start) == [];
  }

  /** The first row's line in front of the lines of the other rows. */
  lemma LaterBlockCons(rows: seq<Row>, start: nat, rest: seq<Token>)
    requires |rows| > 0 && start < |rows[0].sequence| && LaterBlockReads(rows[1..], start, rest)
    ensures LaterBlockReads(rows, start, rest)
  {
    var row, tl := rows[0], rows[1..];
    var line := RowTokens(row, start, false);
    var more := BlockTokens(tl, start, false) + rest;
    SplitBlock(rows, start, false, rest);
    ReadLaterRow(row, start, more);
    SegmentsCons(rows, start);
    BlockLinesStep(line + more, |rows|, LineRead(Segment(row.sequence, start), |line|), more, |tl|,
                   Block(Segments(tl, start), |BlockTokens(tl, start, false)|),
                   Segments(rows, start), |BlockTokens(rows, start, false)|);
  }

  /** Block `b`, where the parser has read the first `b` blocks. */
  lemma ExtendByBlock(rows: seq<Row>, b: nat, b': nat)
    requires b' == b + 1
    ensures Extend(Prefixes(rows, b), Segments(rows, LineWidth * b)) == Prefixes(rows, b')
  {
    forall j | 0 <= j < |rows|
      ensures Prefixes(rows, b)[j] + Segments(rows, LineWidth * b)[j] == Prefixes(rows, b')[j]
    {
      ShownStep(rows[j].sequence, b, b');
    }
  }

  /** A continuation block starts with an IDENTIFIER. */
  lemma BlockStartsWithIdent(rows: seq<Row>, start: nat)
    requires |rows| > 0 && start < |rows[0].sequence|
    ensures |BlockTokens(rows, start, false)| > 0 && BlockTokens(rows, start, false)[0].kind == IDENTIFIER
  {
    BlockTokensCons(rows, start, false);
    ChunkTokensBody(Segment(rows[0].sequence, start));
  }

  /** A single ENDOFLINE before an IDENTIFIER is a separator of one token. */
  lemma SeparatorOfOne(s: seq<Token>, acc: seq<string>, length: nat)
    requires |s| > 1 && s[0].kind == ENDOFLINE && s[1].kind == IDENTIFIER
    ensures ReadSeparator(s, acc, length) == Ok(1)
  {
    EolRunStep(s, 0, 1);
    assert s[0..] == s;
  }

  /** The stream after a block, as the separator reads it. */
  lemma SeparatorBeforeLater(rows: seq<Row>, length: nat, b: nat, n: nat, acc: seq<string>)
    requires 1 <= b < n && |rows| > 0 && AllOfLength(rows, length) && LineWidth * b < length
    ensures LaterTokens(rows, b, n)[1..] == BlockTokens(rows, LineWidth * b, false) + LaterTokens(rows, b + 1, n)
    ensures ReadSeparator(LaterTokens(rows, b, n), acc, length) == Ok(1)
  {
    var s := LaterTokens(rows, b, n);
    var block := BlockTokens(rows, LineWidth * b, false);
    LaterTokensCons(rows, b, n);
    AppendAssoc([Eol], block, LaterTokens(rows, b + 1, n));
    BlockStartsWithIdent(rows, LineWidth * b);
    assert s[1] == block[0];
    SeparatorOfOne(s, acc, length);
  }

  /** One continuation block and its separator, with the rest of the blocks
      read as `result`. */
  lemma BlocksStep(s: seq<Token>, acc: seq<string>, length: nat, blk: Block, acc': seq<string>, more: seq<Token>,
                   k: nat, result: Result<seq<string>>)
    requires At(s, 0).kind != EOF && ReadBlock(s, |acc|) == Ok(blk) && acc' == Extend(acc, blk.frags)
    requires s[blk.used..] == more && ReadSeparator(more, acc', length) == Ok(k) && k <= |more|
    requires ReadBlocks(more[k..], acc', length) == result
    ensures ReadBlocks(s, acc, length) == result
  {
  }

  /** The blocks from `b` on read back as the whole sequences. */
  predicate BlocksFrom(rows: seq<Row>, length: nat, b: nat, n: nat)
  {
    ReadBlocks(BlockTokens(rows, LineWidth * b, false) + LaterTokens(rows, b + 1, n), Prefixes(rows, b), length)
    == Ok(Prefixes(rows, n))
  }

  /** `n` blocks of rows of `length` symbols each, at least one row. */
  predicate Layout(rows: seq<Row>, length: nat, n: nat)
  {
    |rows| > 0 && AllOfLength(rows, length) && n == BlockCount(length)
  }

  lemma {:induction false} ReadLaterBlocks(rows: seq<Row>, length: nat, b: nat, n: nat)
    requires Layout(rows, length, n) && 1 <= b < n
    decreases n - b
    ensures BlocksFrom(rows, length, b, n)
  {
    if b + 1 < n {
      ReadLaterBlocks(rows, length, b + 1, n);
      LaterBlocksMore(rows, length, b, n);
    } else {
      LaterBlocksLast(rows, length, b, n);
    }
  }

  /** Block `b` in front of the blocks after it. */
  lemma LaterBlocksMore(rows: seq<Row>, length: nat, b: nat, n: nat)
    requires Layout(rows, length, n) && 1 <= b && b + 1 < n
    requires BlocksFrom(rows, length, b + 1, n)
    ensures BlocksFrom(rows, length, b, n)
  {
    var b' := b + 1;
    var s := BlockTokens(rows, LineWidth * b, false) + LaterTokens(rows, b', n);
    var blk := Block(Segments(rows, LineWidth * b), |BlockTokens(rows, LineWidth * b, false)|);
    LaterBlockRead(rows, length, b, b', n);
    SeparatorBeforeLater(rows, length, b', n, Prefixes(rows, b'));
    BlocksStep(s, Prefixes(rows, b), length, blk, Prefixes(rows, b'), LaterTokens(rows, b', n), 1, Ok(Prefixes(rows, n)));
  }

  /** The last block, after which the stream is at EOF. */
  lemma LaterBlocksLast(rows: seq<Row>, length: nat, b: nat, n: nat)
    requires Layout(rows, length, n) && 1 <= b && b + 1 == n
    ensures BlocksFrom(rows, length, b, n)
  {
    var b' := b + 1;
    var s := BlockTokens(rows, LineWidth * b, false) + LaterTokens(rows, b', n);
    var blk := Block(Segments(rows, LineWidth * b), |BlockTokens(rows, LineWidth * b, false)|);
    LaterBlockRead(rows, length, b, b', n);
    ShownAll(rows[0].sequence, length);
    assert LaterTokens(rows, b', n) == [];
    assert ReadSeparator([], Prefixes(rows, b'), length) == Ok(0);
    BlocksStep(s, Prefixes(rows, b), length, blk, Prefixes(rows, b'), [], 0, Ok(Prefixes(rows, n)));
  }

  /** Reading block `b` appends each row's segment of it to what was read so far. */
  lemma LaterBlockRead(rows: seq<Row>, length: nat, b: nat, b': nat, n: nat)
    requires |rows| > 0 && AllOfLength(rows, length) && LineWidth * b < length && b' == b + 1
    ensures var s := BlockTokens(rows, LineWidth * b, false) + LaterTokens(rows, b', n);
            var blk := Block(Segments(rows, LineWidth * b), |BlockTokens(rows, LineWidth * b, false)|);
            At(s, 0).kind != EOF && ReadBlock(s, |Prefixes(rows, b)|) == Ok(blk) &&
            Extend(Prefixes(rows, b), blk.frags) == Prefixes(rows, b') && s[blk.used..] == LaterTokens(rows, b', n)
  {
    var block := BlockTokens(rows, LineWidth * b, false);
    var s := block + LaterTokens(rows, b', n);
    ReadLaterBlock(rows, LineWidth * b, LaterTokens(rows, b', n));
    BlockStartsWithIdent(rows, LineWidth * b);
    ExtendByBlock(rows, b, b');
    assert s[|block|..] == LaterTokens(rows, b', n);
  }

  /** The first block's segments are the first block's prefixes. */
  lemma FirstSegments(rows: seq<Row>)
    ensures Segments(rows, 0) == Prefixes(rows, 1)
  {
    forall j | 0 <= j < |rows|
      ensures Segments(rows, 0)[j] == Prefixes(rows, 1)[j]
    {
      ShownStep(rows[j].sequence, 0, 1);
    }
  }

  /** After the header and the first block, the parser ends with every
      sequence complete. */
  lemma ReadAfterFirst(rows: seq<Row>, length: nat, n: nat)
    requires |rows| > 0 && AllOfLength(rows, length) && n == BlockCount(length) && n > 0
    ensures ReadSeparator(LaterTokens(rows, 1, n), Prefixes(rows, 1), length).Ok?
    ensures var k := ReadSeparator(LaterTokens(rows, 1, n), Prefixes(rows, 1), length).value;
            k <= |LaterTokens(rows, 1, n)| &&
            ReadBlocks(LaterTokens(rows, 1, n)[k..], Prefixes(rows, 1), length) == Ok(Prefixes(rows, n))
  {
    var s := LaterTokens(rows, 1, n);
    if n > 1 {
      SeparatorBeforeLater(rows, length, 1, n, Prefixes(rows, 1));
      ReadLaterBlocks(rows, length, 1, n);
    } else {
      ShownAll(rows[0].sequence, length);
      assert s == [];
      assert ReadSeparator(s, Prefixes(rows, 1), length) == Ok(0);
      assert s[0..] == [];
    }
  }

  /** Complete sequences and their names assemble into the written rows. */
  lemma AssembleRows<A>(rows: seq<Row>, length: nat, n: nat, detect: string -> A)
    requires |rows| > 0 && AllOfLength(rows, length) && n == BlockCount(length)
    ensures Assemble(Names(rows), Prefixes(rows, n), length, detect) == Ok(Some(Alignment(detect(rows[0].sequence), rows)))
  {
    var seqs := Prefixes(rows, n);
    forall j | 0 <= j < |rows|
      ensures seqs[j] == rows[j].sequence
    {
      ShownAll(rows[j].sequence, length);
    }
    assert Zip(Names(rows), seqs) == rows;
  }

  /** Parsing what the writer writes gives back the rows it was given: the
      header's numbers, each name from the first block, each sequence put
      together from its lines in every block, the alphabet detected from the
      first sequence. */
  lemma RoundTrip<A>(rows: seq<Row>, length: nat, detect: string -> A)
    requires |rows| > 0 && |rows| <= MaxInt64 && 0 < length <= MaxInt64 && AllOfLength(rows, length)
    ensures ParseStream(WriterTokens(rows, length), detect) == Ok(Some(Alignment(detect(rows[0].sequence), rows)))
  {
    var n := BlockCount(length);
    var s := WriterTokens(rows, length);
    var first := BlockTokens(rows, 0, true);
    var later := LaterTokens(rows, 1, n);
    ParseNumericOfNatToString(|rows|);
    ParseNumericOfNatToString(length);
    assert s == HeaderTokens(|rows|, length) + (first + later);
    assert ReadHeader(s) == Ok(HeaderInfo(|rows|, length, 5));
    var s1 := s[5..];
    assert s1 == first + later;
    ReadFirstBlock(rows, later);
    var nb := NamedBlock(Names(rows), Segments(rows, 0), |first|);
    assert s1[|first|..] == later;
    FirstSegments(rows);
    ReadAfterFirst(rows, length, n);
    AssembleRows(rows, length, n, detect);
    var k := ReadSeparator(later, Prefixes(rows, 1), length).value;
    assert ParseStream(s, detect) == Finish(later[k..], nb.names, nb.frags, length, detect);
  }

  /** With a reported length of zero the writer emits the header alone, so
      the names are lost: reading it back fails at the first missing name.
      The parser itself accepts such alignments (a header declaring length
      zero, then one name per line), so RoundTrip needs a positive length. */
  lemma ZeroLengthLosesNames<A>(rows: seq<Row>, detect: string -> A)
    requires 0 < |rows| <= MaxInt64
    ensures WriterTokens(rows, 0) == HeaderTokens(|rows|, 0)
    ensures ParseStream(WriterTokens(rows, 0), detect) == Err(NoSequenceName(""))
  {
    var s := WriterTokens(rows, 0);
    assert s == HeaderTokens(|rows|, 0) + [];
    ParseNumericOfNatToString(|rows|);
    ParseNumericOfNatToString(0);
    assert ReadHeader(s) == Ok(HeaderInfo(|rows|, 0, 5));
    assert s[5..] == [];
  }

  /** The parser does accept an alignment of length zero: a header declaring
      one sequence of length zero, then a line holding only its name. */
  lemma ZeroLengthParses<A>(name: string, detect: string -> A)
    ensures ParseStream(HeaderTokens(1, 0) + [Token(IDENTIFIER, name), Eol], detect)
            == Ok(Some(Alignment(detect(""), [Row(name, "")])))
  {
    var s := HeaderTokens(1, 0) + [Token(IDENTIFIER, name), Eol];
    ParseNumericOfNatToString(1);
    ParseNumericOfNatToString(0);
    assert ReadHeader(s) == Ok(HeaderInfo(1, 0, 5));
    var s1 := s[5..];
    assert s1 == [Token(IDENTIFIER, name), Eol];
    assert ReadLineRest(s1[1..]) == Ok(LineRead("", 1));
    assert ReadNamedLine(s1) == Ok(NamedLine(name, "", 2));
    assert s1[2..] == [];
    assert [name] + [] == [name] && [""] + [] == [""];
    assert ReadNamedLines(s1, 1) == Ok(NamedBlock([name], [""], 2));
    assert ReadSeparator(s1[2..], [""], 0) == Ok(0);
    assert Zip([name], [""]) == [Row(name, "")];
  }
}
