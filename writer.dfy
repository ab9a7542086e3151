/** The PHYLIP writer: an alignment rendered as a header line followed by
    blocks of at most 60 columns, each block holding one line per sequence,
    each line cut into chunks of at most 10 symbols. */
module PhylipWriter {
  import opened Basics
  import opened Decimal
  import opened Alignments

  /** Columns per block (PHYLIP_LINE). */
  const LineWidth: nat := 60
  /** Symbols per chunk (PHYLIP_BLOCK). */
  const ChunkWidth: nat := 10

  function MinInt(a: int, b: int): (m: int)
    ensures m <= a && m <= b
    ensures m == a || m == b
  {
    if a < b then a else b
  }

  /** The `%d` rendering of a Go int: a minus sign, then the digits. */
  function IntToString(n: int): (s: string)
    ensures |s| > 0
    ensures n >= 0 ==> AllDigits(s) && DigitsValue(s) == n && (|s| > 1 ==> s[0] != '0')
    ensures n < 0 ==> |s| > 1 && s[0] == '-' && AllDigits(s[1..]) && DigitsValue(s[1..]) == -n && (|s| > 2 ==> s[1] != '0')
  {
    if n < 0 then
      var d := NatToString(-n);
      DigitsValueOfNatToString(-n);
      assert ("-" + d)[1..] == d;
      "-" + d
    else
      DigitsValueOfNatToString(n);
      NatToString(n)
  }

  /** The first line: two spaces, the number of sequences, three spaces, the
      alignment length as the alignment reports it. */
  function HeaderLine(count: nat, length: int): string
  {
    "  " + NatToString(count) + "   " + IntToString(length) + "\n"
  }

  /** The symbols of `sq` shown by the block that starts at column `start`. */
  function Segment(sq: string, start: nat): (t: string)
    ensures |t| <= LineWidth
    ensures start < |sq| ==> t == sq[start..MinInt(start + LineWidth, |sq|)]
    ensures start >= |sq| ==> t == ""
  {
    if start >= |sq| then "" else sq[start..MinInt(start + LineWidth, |sq|)]
  }

  /** `t` in chunks of ChunkWidth symbols with a single space between
      neighbouring chunks; only the last chunk may be shorter. */
  function ChunkedText(t: string): string
    decreases |t|
  {
    if |t| <= ChunkWidth then t else t[..ChunkWidth] + " " + ChunkedText(t[ChunkWidth..])
  }

  /** The chunks themselves. */
  function Chunks(t: string): seq<string>
    decreases |t|
  {
    if |t| == 0 then []
    else if |t| <= ChunkWidth then [t]
    else [t[..ChunkWidth]] + Chunks(t[ChunkWidth..])
  }

  /** The line of `sq` in the block starting at `start`, without its name. */
  function LineText(sq: string, start: nat): string
  {
    ChunkedText(Segment(sq, start)) + "\n"
  }

  /** A row's line: in the first block it is prefixed by the name and two spaces. */
  function RowLine(row: Row, start: nat, first: bool): string
  {
    (if first then row.name + "  " else "") + LineText(row.sequence, start)
  }

  /** One block: the line of every row, in row order. */
  function BlockText(rows: seq<Row>, start: nat, first: bool): string
  {
    if |rows| == 0 then ""
    else BlockText(rows[..|rows| - 1], start, first) + RowLine(rows[|rows| - 1], start, first)
  }

  /** The first `n` blocks, every block after the first preceded by an empty line. */
  function BlocksText(rows: seq<Row>, n: nat): string
  {
    if n == 0 then ""
    else BlocksText(rows, n - 1) + (if n > 1 then "\n" else "") + BlockText(rows, LineWidth * (n - 1), n == 1)
  }

  /** How many blocks the column loop writes for a reported length. */
  function BlockCount(length: int): (n: nat)
    ensures length <= 0 ==> n == 0
    ensures length > 0 ==> LineWidth * (n - 1) < length <= LineWidth * n
  {
    if length <= 0 then 0 else (length + LineWidth - 1) / LineWidth
  }

  /** The whole text WriteAlignment returns. */
  function Serialized(rows: seq<Row>, length: int): string
  {
    HeaderLine(|rows|, length) + BlocksText(rows, BlockCount(length))
  }

  /** WriteAlignment: `length` is what the alignment reports as its length. */
  method WriteAlignment<A>(al: Alignment<A>, length: int) returns (out: string)
    ensures out == Serialized(al.rows, length)
  {
    var rows := al.rows;
    var header := true;
    var cursize: nat := 0;
    out := HeaderLine(|rows|, length);
    ghost var b: nat := 0;
    while cursize < length
      invariant cursize == LineWidth * b
      invariant header <==> b == 0
      invariant b == 0 || LineWidth * (b - 1) < length
      invariant out == HeaderLine(|rows|, length) + BlocksText(rows, b)
      decreases length - cursize
    {
      ghost var before := out;
      if cursize > 0 {
        out := out + "\n";
      }
      var block := WriteBlock(rows, cursize, header);
      SerializedStep(rows, HeaderLine(|rows|, length), b, cursize, before, out, block);
      out := out + block;
      cursize := cursize + LineWidth;
      header := false;
      b := b + 1;
    }
    BlockCountIs(length, b);
  }

  /** One pass of the row iteration: the lines of one block. */
  method WriteBlock(rows: seq<Row>, cursize: nat, header: bool) returns (block: string)
    ensures block == BlockText(rows, cursize, header)
  {
    block := "";
    var j: nat := 0;
    while j < |rows|
      invariant j <= |rows|
      invariant block == BlockText(rows[..j], cursize, header)
    {
      var row := rows[j];
      var line := "";
      if header {
        line := row.name + "  ";
      }
      var chunks := WriteLine(row.sequence, cursize);
      line := line + chunks;
      ghost var j': nat := j + 1;
      BlockTextStep(rows, cursize, header, j, j', line);
      block := block + line;
      j := j + 1;
    }
    assert rows[..j] == rows;
  }

  /** Appending the line of row `j` to the first `j` lines of a block. */
  lemma BlockTextStep(rows: seq<Row>, start: nat, first: bool, j: nat, j': nat, line: string)
    requires j < |rows| && j' == j + 1
    requires line == RowLine(rows[j], start, first)
    ensures BlockText(rows[..j'], start, first) == BlockText(rows[..j], start, first) + line
  {
    assert rows[..j'][..j] == rows[..j];
  }

  /** Appending block `b`, after its separating newline, to the text of the
      blocks before it. */
  lemma SerializedStep(rows: seq<Row>, header: string, b: nat, cursize: nat,
                       before: string, after: string, block: string)
    requires cursize == LineWidth * b
    requires before == header + BlocksText(rows, b)
    requires after == before + (if cursize > 0 then "\n" else "")
    requires block == BlockText(rows, LineWidth * b, b == 0)
    ensures after + block == header + BlocksText(rows, b + 1)
  {
    var sep := if b > 0 then "\n" else "";
    var earlier := BlocksText(rows, b);
    assert BlocksText(rows, b + 1) == earlier + sep + block;
    AppendRegroup(header, earlier, sep, block);
  }

  /** The column loop stops after exactly BlockCount(length) blocks. */
  lemma BlockCountIs(length: int, b: nat)
    requires LineWidth * b >= length
    requires b == 0 || LineWidth * (b - 1) < length
    ensures b == BlockCount(length)
  {
  }

  /** The chunk loop of one line, with its closing newline. */
  method WriteLine(sq: string, cursize: nat) returns (line: string)
    ensures line == LineText(sq, cursize)
  {
    ghost var seg := Segment(sq, cursize);
    ghost var c: nat := 0;
    line := "";
    var i: nat := cursize;
    while i < cursize + LineWidth && i < |sq|
      invariant i == cursize + ChunkWidth * c
      invariant (i < cursize + LineWidth && i < |sq|) <==> ChunkWidth * c < |seg|
      invariant line + Pending(seg, c) == ChunkedText(seg)
      decreases cursize + LineWidth - i
    {
      ghost var before := line;
      if i > cursize {
        line := line + " ";
      }
      var end := MinInt(i + ChunkWidth, |sq|);
      ghost var c': nat := c + 1;
      ChunkOfSegment(sq, cursize, c, i, end);
      PendingStep(seg, c, c');
      line := line + sq[i..end];
      AppendRegroup(before, if c > 0 then " " else "", sq[i..end], Pending(seg, c'));
      i := i + ChunkWidth;
      c := c';
    }
    line := line + "\n";
  }

  /** The text of chunks `c` onwards, with the space that separates it from
      chunk `c - 1`. */
  function Pending(t: string, c: nat): string
  {
    if ChunkWidth * c >= |t| then "" else (if c > 0 then " " else "") + ChunkedText(t[ChunkWidth * c..])
  }

  /** Chunk `c` is written next, then the chunks after it. */
  lemma PendingStep(t: string, c: nat, c': nat)
    requires ChunkWidth * c < |t| && c' == c + 1
    ensures Pending(t, c) == (if c > 0 then " " else "") + t[ChunkWidth * c..MinInt(ChunkWidth * c + ChunkWidth, |t|)] + Pending(t, c')
  {
    var sep := if c > 0 then " " else "";
    var u := t[ChunkWidth * c..];
    if |u| > ChunkWidth {
      var chunk, rest := u[..ChunkWidth], ChunkedText(u[ChunkWidth..]);
      assert u[ChunkWidth..] == t[ChunkWidth * c'..];
      assert chunk == t[ChunkWidth * c..MinInt(ChunkWidth * c + ChunkWidth, |t|)];
      assert Pending(t, c') == " " + rest;
      assert ChunkedText(u) == chunk + " " + rest;
      AppendRegroup(sep, chunk, " ", rest);
    } else {
      assert u == t[ChunkWidth * c..MinInt(ChunkWidth * c + ChunkWidth, |t|)];
      assert Pending(t, c') == "";
      assert ChunkedText(u) == u;
    }
  }

  /** The chunk the loop slices out of the sequence is chunk `c` of the segment. */
  lemma ChunkOfSegment(sq: string, start: nat, c: nat, i: nat, end: int)
    requires i == start + ChunkWidth * c && i < start + LineWidth && i < |sq|
    requires end == MinInt(i + ChunkWidth, |sq|)
    ensures var t := Segment(sq, start);
            i <= end <= |sq| && t[ChunkWidth * c..MinInt(ChunkWidth * c + ChunkWidth, |t|)] == sq[i..end]
  {
    var t := Segment(sq, start);
    var lo, hi := ChunkWidth * c, MinInt(ChunkWidth * c + ChunkWidth, |t|);
    assert |t| == MinInt(start + LineWidth, |sq|) - start;
    assert c < 6;
    assert start + hi == end;
    forall k | 0 <= k < hi - lo
      ensures t[lo..hi][k] == sq[i..end][k]
    {
      assert t[lo + k] == sq[i + k];
    }
  }

  /** A line's chunks: joined by single spaces they are its text, put
      together they are its symbols, and each holds one to ten symbols. */
  lemma {:induction false} ChunksOfText(t: string)
    decreases |t|
    ensures ChunkedText(t) == Intersperse(" ", Chunks(t))
    ensures Concat(Chunks(t)) == t
    ensures |Chunks(t)| == (|t| + ChunkWidth - 1) / ChunkWidth
    ensures forall c :: 0 <= c < |Chunks(t)| ==> 0 < |Chunks(t)[c]| <= ChunkWidth
  {
    if |t| > ChunkWidth {
      ChunksOfText(t[ChunkWidth..]);
    } else if |t| > 0 {
      assert Concat([t]) == t + Concat([]);
    }
  }

  /** A block's line of a sequence holds at most six chunks. */
  lemma LineChunkCount(sq: string, start: nat)
    ensures |Chunks(Segment(sq, start))| <= LineWidth / ChunkWidth
  {
    ChunksOfText(Segment(sq, start));
  }

  predicate NoSpaces(s: string)
  {
    forall i :: 0 <= i < |s| ==> s[i] != ' '
  }

  /** `s` with every space removed. */
  function Unspaced(s: string): (r: string)
    ensures |r| <= |s|
  {
    if |s| == 0 then "" else (if s[0] == ' ' then "" else [s[0]]) + Unspaced(s[1..])
  }

  lemma {:induction false} UnspacedAppend(a: string, b: string)
    ensures Unspaced(a + b) == Unspaced(a) + Unspaced(b)
  {
    if |a| > 0 {
      UnspacedAppend(a[1..], b);
      assert (a + b)[1..] == a[1..] + b;
    } else {
      assert a + b == b;
    }
  }

  lemma {:induction false} UnspacedOfNoSpaces(s: string)
    requires NoSpaces(s)
    ensures Unspaced(s) == s
  {
    if |s| > 0 {
      UnspacedOfNoSpaces(s[1..]);
    }
  }

  /** Removing the spaces from the chunked text of a segment without spaces
      gives the segment back. */
  lemma {:induction false} UnspacedChunkedText(t: string)
    requires NoSpaces(t)
    decreases |t|
    ensures Unspaced(ChunkedText(t)) == t
  {
    if |t| <= ChunkWidth {
      UnspacedOfNoSpaces(t);
    } else {
      var head, tl := t[..ChunkWidth], t[ChunkWidth..];
      UnspacedChunkedText(tl);
      UnspacedOfNoSpaces(head);
      UnspacedAppend(head + " ", ChunkedText(tl));
      UnspacedAppend(head, " ");
      assert Unspaced(" ") == "";
      assert head + tl == t;
    }
  }

  /** A block's line of a sequence without spaces, with its spaces removed,
      is that block's segment of the sequence. */
  lemma UnspacedSegment(sq: string, start: nat)
    requires NoSpaces(sq)
    ensures Unspaced(ChunkedText(Segment(sq, start))) == Segment(sq, start)
  {
    var t := Segment(sq, start);
    assert NoSpaces(t) by {
      if start < |sq| {
        assert forall i :: 0 <= i < |t| ==> t[i] == sq[start + i];
      }
    }
    UnspacedChunkedText(t);
  }

  /** The symbols of `sq` shown by the first `b` blocks. */
  function Shown(sq: string, b: nat): string
  {
    sq[..MinInt(LineWidth * b, |sq|)]
  }

  /** Each block shows the symbols after those of the blocks before it. */
  lemma ShownStep(sq: string, b: nat, b': nat)
    requires b' == b + 1
    ensures Shown(sq, b) + Segment(sq, LineWidth * b) == Shown(sq, b')
  {
    if LineWidth * b < |sq| {
      assert sq[..LineWidth * b] + sq[LineWidth * b..MinInt(LineWidth * b' , |sq|)] == sq[..MinInt(LineWidth * b', |sq|)];
    }
  }

  /** The blocks of a sequence of the reported length show all of it. */
  lemma ShownAll(sq: string, length: int)
    requires |sq| == length
    ensures Shown(sq, BlockCount(length)) == sq
  {
  }

  /** The written text begins with the header; a reported length of zero
      or less writes the header alone. */
  lemma SerializedHeader(rows: seq<Row>, length: int)
    ensures Serialized(rows, length)[..|HeaderLine(|rows|, length)|] == HeaderLine(|rows|, length)
    ensures length <= 0 ==> Serialized(rows, length) == HeaderLine(|rows|, length)
  {
  }

  // ---- The layout of blocks and lines ----

  /** The lines of one block, one per row, in row order. */
  function BlockLines(rows: seq<Row>, start: nat, first: bool): seq<string>
  {
    seq(|rows|, j requires 0 <= j < |rows| => RowLine(rows[j], start, first))
  }

  /** A row's line ends with a newline; only in the first block does it start
      with the row's name and two spaces. */
  lemma RowLineShape(row: Row, start: nat, first: bool)
    ensures var line := RowLine(row, start, first);
      |line| > 0 && line[|line| - 1] == '\n' &&
      (first ==> line == row.name + "  " + LineText(row.sequence, start)) &&
      (!first ==> line == LineText(row.sequence, start))
  {
  }

  /** A block is its rows' lines one after another. */
  predicate BlockOfLines(rows: seq<Row>, start: nat, first: bool)
  {
    BlockText(rows, start, first) == Concat(BlockLines(rows, start, first))
  }

  lemma {:induction false} BlockIsLines(rows: seq<Row>, start: nat, first: bool)
    decreases |rows|
    ensures BlockOfLines(rows, start, first)
  {
    if |rows| > 0 {
      BlockIsLines(rows[..|rows| - 1], start, first);
      BlockLinesSnoc(rows, start, first);
    } else {
      BlockLinesNone(rows, start, first);
    }
  }

  lemma BlockLinesNone(rows: seq<Row>, start: nat, first: bool)
    requires |rows| == 0
    ensures BlockOfLines(rows, start, first)
  {
    assert BlockLines(rows, start, first) == [];
  }

  lemma BlockLinesSnoc(rows: seq<Row>, start: nat, first: bool)
    requires |rows| > 0 && BlockOfLines(rows[..|rows| - 1], start, first)
    ensures BlockOfLines(rows, start, first)
  {
    var init := rows[..|rows| - 1];
    var line := RowLine(rows[|rows| - 1], start, first);
    assert BlockLines(rows, start, first) == BlockLines(init, start, first) + [line];
    ConcatSnoc(BlockLines(init, start, first), line);
  }

  /** The blocks after the first, each with the empty line before it. */
  function LaterBlocks(rows: seq<Row>, n: nat): seq<string>
  {
    if n <= 1 then [] else seq(n - 1, b requires 0 <= b < n - 1 => "\n" + BlockText(rows, LineWidth * (b + 1), false))
  }

  /** `n` blocks: the first, with names, then each later one after one empty line. */
  predicate BlocksLaidOut(rows: seq<Row>, n: nat)
  {
    BlocksText(rows, n) == BlockText(rows, 0, true) + Concat(LaterBlocks(rows, n))
  }

  lemma {:induction false} BlocksLayout(rows: seq<Row>, n: nat)
    requires n >= 1
    decreases n
    ensures BlocksLaidOut(rows, n)
  {
    if n == 1 {
      BlocksLayoutOne(rows, n);
    } else {
      BlocksLayout(rows, n - 1);
      BlocksLayoutStep(rows, n - 1, n);
    }
  }

  lemma BlocksLayoutOne(rows: seq<Row>, n: nat)
    requires n == 1
    ensures BlocksLaidOut(rows, n)
  {
    assert BlocksText(rows, 1) == BlocksText(rows, 0) + "" + BlockText(rows, 0, true);
    assert LaterBlocks(rows, 1) == [];
  }

  lemma BlocksLayoutStep(rows: seq<Row>, m: nat, n: nat)
    requires m >= 1 && n == m + 1 && BlocksLaidOut(rows, m)
    ensures BlocksLaidOut(rows, n)
  {
    var block := "\n" + BlockText(rows, LineWidth * m, false);
    assert LaterBlocks(rows, n) == LaterBlocks(rows, m) + [block];
    ConcatSnoc(LaterBlocks(rows, m), block);
    AppendAssoc(BlocksText(rows, m), "\n", BlockText(rows, LineWidth * m, false));
    AppendAssoc(BlockText(rows, 0, true), Concat(LaterBlocks(rows, m)), block);
  }

  /** The written symbols of `sq` in each of the first `n` blocks, without the
      name, the spaces between chunks and the newline. */
  function LineSymbols(sq: string, n: nat): seq<string>
  {
    seq(n, b requires 0 <= b < n => Unspaced(ChunkedText(Segment(sq, LineWidth * b))))
  }

  /** The unspaced lines of the first `n` blocks are the symbols those blocks show. */
  predicate LinesShow(sq: string, n: nat)
  {
    Concat(LineSymbols(sq, n)) == Shown(sq, n)
  }

  lemma {:induction false} LinesShowAll(sq: string, n: nat)
    requires NoSpaces(sq)
    decreases n
    ensures LinesShow(sq, n)
  {
    if n == 0 {
      LinesShowNone(sq, n);
    } else {
      LinesShowAll(sq, n - 1);
      LinesShowStep(sq, n - 1, n);
    }
  }

  lemma LinesShowNone(sq: string, n: nat)
    requires n == 0
    ensures LinesShow(sq, n)
  {
    assert LineSymbols(sq, 0) == [];
  }

  lemma LinesShowStep(sq: string, m: nat, n: nat)
    requires NoSpaces(sq) && n == m + 1 && LinesShow(sq, m)
    ensures LinesShow(sq, n)
  {
    var line := Unspaced(ChunkedText(Segment(sq, LineWidth * m)));
    assert LineSymbols(sq, n) == LineSymbols(sq, m) + [line];
    ConcatSnoc(LineSymbols(sq, m), line);
    UnspacedSegment(sq, LineWidth * m);
    ShownStep(sq, m, n);
  }

  /** Removing the spaces from a sequence's line in every block, and putting
      the lines together, gives back the sequence of the reported length. */
  lemma RecoverSequence(sq: string, length: int)
    requires NoSpaces(sq) && |sq| == length
    ensures Concat(LineSymbols(sq, BlockCount(length))) == sq
  {
    LinesShowAll(sq, BlockCount(length));
    ShownAll(sq, length);
  }
}
