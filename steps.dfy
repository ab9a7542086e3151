/** One-step unfoldings of the grammar functions at a position of the token
    stream. Each lemma matches one step of a loop in the parser: what the
    whole function returns is a prefix already read, combined with what the
    function returns on the tokens not read yet. */
module PhylipSteps {
  import opened Tokens
  import opened PhylipGrammar

  /** The result of a line whose first `k` tokens, contributing `acc`, are read. */
  function PrefixLine(acc: string, k: nat, r: Result<LineRead>): Result<LineRead>
  {
    match r
    case Err(e) => Err(e)
    case Ok(line) => Ok(LineRead(acc + line.fragment, k + line.used))
  }

  lemma PrefixLineEmpty(r: Result<LineRead>)
    ensures PrefixLine("", 0, r) == r
  {
    if r.Ok? {
      assert "" + r.value.fragment == r.value.fragment;
    }
  }

  lemma PrefixLineCompose(a: string, k: nat, b: string, m: nat, r: Result<LineRead>)
    ensures PrefixLine(a, k, PrefixLine(b, m, r)) == PrefixLine(a + b, k + m, r)
  {
    if r.Ok? {
      assert a + (b + r.value.fragment) == (a + b) + r.value.fragment;
    }
  }

  lemma ReadLineRestCons(s: seq<Token>)
    requires At(s, 0).kind == IDENTIFIER || At(s, 0).kind == WS
    ensures ReadLineRest(s) == PrefixLine(Piece(s[0]), 1, ReadLineRest(s[1..]))
  {
  }

  /** The line loop reads one IDENTIFIER or WS token: its piece moves into
      the prefix. */
  lemma ReadLineAdvance(whole: Result<LineRead>, sc: seq<Token>, acc: string, k: nat)
    requires whole == PrefixLine(acc, k, ReadLineRest(sc))
    requires At(sc, 0).kind == IDENTIFIER || At(sc, 0).kind == WS
    ensures whole == PrefixLine(acc + Piece(sc[0]), k + 1, ReadLineRest(sc[1..]))
  {
    ReadLineRestCons(sc);
    PrefixLineCompose(acc, k, Piece(sc[0]), 1, ReadLineRest(sc[1..]));
  }

  /** The line loop meets a token that may not appear in a line. */
  lemma ReadLineReject(whole: Result<LineRead>, sc: seq<Token>, acc: string, k: nat)
    requires whole == PrefixLine(acc, k, ReadLineRest(sc))
    requires At(sc, 0).kind != IDENTIFIER && At(sc, 0).kind != WS && At(sc, 0).kind != ENDOFLINE
    ensures whole == Err(UnexpectedToken(At(sc, 0).lit))
  {
  }

  /** The line loop meets the ENDOFLINE. */
  lemma ReadLineEnd(whole: Result<LineRead>, sc: seq<Token>, acc: string, k: nat)
    requires whole == PrefixLine(acc, k, ReadLineRest(sc))
    requires At(sc, 0).kind == ENDOFLINE
    ensures whole == Ok(LineRead(acc, k + 1))
  {
    assert acc + "" == acc;
  }

  /** The result of a first block whose first lines are read. */
  function PrefixNamed(names: seq<string>, frags: seq<string>, k: nat, r: Result<NamedBlock>): Result<NamedBlock>
  {
    match r
    case Err(e) => Err(e)
    case Ok(b) => Ok(NamedBlock(names + b.names, frags + b.frags, k + b.used))
  }

  lemma PrefixNamedEmpty(r: Result<NamedBlock>)
    ensures PrefixNamed([], [], 0, r) == r
  {
    if r.Ok? {
      assert [] + r.value.names == r.value.names && [] + r.value.frags == r.value.frags;
    }
  }

  lemma PrefixNamedCompose(a: seq<string>, b: seq<string>, k: nat,
                           a': seq<string>, b': seq<string>, m: nat, r: Result<NamedBlock>)
    ensures PrefixNamed(a, b, k, PrefixNamed(a', b', m, r)) == PrefixNamed(a + a', b + b', k + m, r)
  {
    if r.Ok? {
      assert a + (a' + r.value.names) == (a + a') + r.value.names;
      assert b + (b' + r.value.frags) == (b + b') + r.value.frags;
    }
  }

  lemma ReadNamedLinesCons(s: seq<Token>, m: nat, line: NamedLine, rest: seq<Token>, m': nat)
    requires m > 0 && ReadNamedLine(s) == Ok(line) && s[line.used..] == rest && m' == m - 1
    ensures ReadNamedLines(s, m) == PrefixNamed([line.name], [line.fragment], line.used, ReadNamedLines(rest, m'))
  {
  }

  /** The first-block loop reads one more named line. */
  lemma NamedAdvance(whole: Result<NamedBlock>, sc: seq<Token>, names: seq<string>, frags: seq<string>, k: nat, m: nat,
                     line: NamedLine, rest: seq<Token>, k': nat, m': nat)
    requires whole == PrefixNamed(names, frags, k, ReadNamedLines(sc, m))
    requires m > 0 && ReadNamedLine(sc) == Ok(line) && sc[line.used..] == rest && k' == k + line.used && m' == m - 1
    ensures whole == PrefixNamed(names + [line.name], frags + [line.fragment], k', ReadNamedLines(rest, m'))
  {
    var tail := ReadNamedLines(rest, m');
    ReadNamedLinesCons(sc, m, line, rest, m');
    PrefixNamedCompose(names, frags, k, [line.name], [line.fragment], line.used, tail);
  }

  /** The same step, at position `k` of the whole stream `s`; `k'` and
      `m'` are the position and line count after the step. */
  lemma NamedStep(whole: Result<NamedBlock>, s: seq<Token>, names: seq<string>, frags: seq<string>, k: nat, m: nat,
                  line: NamedLine, k': nat, m': nat)
    requires k <= |s| && whole == PrefixNamed(names, frags, k, ReadNamedLines(s[k..], m))
    requires m > 0 && ReadNamedLine(s[k..]) == Ok(line) && k' == k + line.used && m' == m - 1
    ensures k' <= |s| && s[k..][line.used..] == s[k'..]
    ensures whole == PrefixNamed(names + [line.name], frags + [line.fragment], k', ReadNamedLines(s[k'..], m'))
  {
    assert s[k..][line.used..] == s[k'..];
    NamedAdvance(whole, s[k..], names, frags, k, m, line, s[k'..], k', m');
  }

  /** The first-block loop meets a bad line. */
  lemma NamedReject(whole: Result<NamedBlock>, sc: seq<Token>, names: seq<string>, frags: seq<string>, k: nat, m: nat)
    requires whole == PrefixNamed(names, frags, k, ReadNamedLines(sc, m))
    requires m > 0 && ReadNamedLine(sc).Err?
    ensures whole == Err(ReadNamedLine(sc).error)
  {
  }

  /** The first-block loop has read all its lines. */
  lemma NamedEnd(whole: Result<NamedBlock>, sc: seq<Token>, names: seq<string>, frags: seq<string>, k: nat)
    requires whole == PrefixNamed(names, frags, k, ReadNamedLines(sc, 0))
    ensures whole == Ok(NamedBlock(names, frags, k))
  {
    assert names + [] == names && frags + [] == frags;
  }

  /** The result of a continuation block whose first lines are read. */
  function PrefixBlock(frags: seq<string>, k: nat, r: Result<Block>): Result<Block>
  {
    match r
    case Err(e) => Err(e)
    case Ok(b) => Ok(Block(frags + b.frags, k + b.used))
  }

  lemma PrefixBlockEmpty(r: Result<Block>)
    ensures PrefixBlock([], 0, r) == r
  {
    if r.Ok? {
      assert [] + r.value.frags == r.value.frags;
    }
  }

  lemma PrefixBlockCompose(a: seq<string>, k: nat, a': seq<string>, m: nat, r: Result<Block>)
    ensures PrefixBlock(a, k, PrefixBlock(a', m, r)) == PrefixBlock(a + a', k + m, r)
  {
    if r.Ok? {
      assert a + (a' + r.value.frags) == (a + a') + r.value.frags;
    }
  }

  lemma ReadBlockCons(s: seq<Token>, m: nat, line: LineRead, rest: seq<Token>, m': nat)
    requires m > 0 && ReadBlockLine(s) == Ok(line) && s[line.used..] == rest && m' == m - 1
    ensures ReadBlock(s, m) == PrefixBlock([line.fragment], line.used, ReadBlock(rest, m'))
  {
  }

  /** A continuation-block loop reads one more line. */
  lemma BlockAdvance(whole: Result<Block>, sc: seq<Token>, frags: seq<string>, k: nat, m: nat, line: LineRead,
                     rest: seq<Token>, k': nat, m': nat)
    requires whole == PrefixBlock(frags, k, ReadBlock(sc, m))
    requires m > 0 && ReadBlockLine(sc) == Ok(line) && sc[line.used..] == rest && k' == k + line.used && m' == m - 1
    ensures whole == PrefixBlock(frags + [line.fragment], k', ReadBlock(rest, m'))
  {
    var tail := ReadBlock(rest, m');
    ReadBlockCons(sc, m, line, rest, m');
    PrefixBlockCompose(frags, k, [line.fragment], line.used, tail);
  }

  /** The same step, at position `k` of the whole stream `s`. */
  lemma BlockStep(whole: Result<Block>, s: seq<Token>, frags: seq<string>, k: nat, m: nat, line: LineRead,
                  k': nat, m': nat)
    requires k <= |s| && whole == PrefixBlock(frags, k, ReadBlock(s[k..], m))
    requires m > 0 && ReadBlockLine(s[k..]) == Ok(line) && k' == k + line.used && m' == m - 1
    ensures k' <= |s| && s[k..][line.used..] == s[k'..]
    ensures whole == PrefixBlock(frags + [line.fragment], k', ReadBlock(s[k'..], m'))
  {
    assert s[k..][line.used..] == s[k'..];
    BlockAdvance(whole, s[k..], frags, k, m, line, s[k'..], k', m');
  }

  /** A continuation-block loop meets a bad line. */
  lemma BlockReject(whole: Result<Block>, sc: seq<Token>, frags: seq<string>, k: nat, m: nat)
    requires whole == PrefixBlock(frags, k, ReadBlock(sc, m))
    requires m > 0 && ReadBlockLine(sc).Err?
    ensures whole == Err(ReadBlockLine(sc).error)
  {
  }

  /** A continuation-block loop has read all its lines. */
  lemma BlockEnd(whole: Result<Block>, sc: seq<Token>, frags: seq<string>, k: nat)
    requires whole == PrefixBlock(frags, k, ReadBlock(sc, 0))
    ensures whole == Ok(Block(frags, k))
  {
    assert frags + [] == frags;
  }

  /** The sequences while a continuation block is being read: the first
      `|frags|` are extended, the others not yet. */
  function PartlyExtended(acc: seq<string>, frags: seq<string>): (r: seq<string>)
    requires |frags| <= |acc|
  {
    Extend(acc[..|frags|], frags) + acc[|frags|..]
  }

  lemma PartlyExtendedEmpty(acc: seq<string>)
    ensures PartlyExtended(acc, []) == acc
  {
    assert acc[0..] == acc;
  }

  /** Appending one more fragment to the next sequence. */
  lemma PartlyExtendedStep(acc: seq<string>, frags: seq<string>, f: string)
    requires |frags| < |acc|
    ensures var cur := PartlyExtended(acc, frags); var i := |frags|;
      |cur| == |acc| && cur[i] == acc[i] && cur[i := cur[i] + f] == PartlyExtended(acc, frags + [f])
  {
    var cur := PartlyExtended(acc, frags);
    var i := |frags|;
    var next := PartlyExtended(acc, frags + [f]);
    assert |next| == |acc|;
    forall j | 0 <= j < |acc|
      ensures cur[i := cur[i] + f][j] == next[j]
    {
      if j < i {
        assert (frags + [f])[j] == frags[j];
      }
    }
  }

  lemma PartlyExtendedAll(acc: seq<string>, frags: seq<string>)
    requires |frags| == |acc|
    ensures PartlyExtended(acc, frags) == Extend(acc, frags)
  {
    assert acc[..|frags|] == acc;
  }

  /** A bad continuation block is the error of the block loop. */
  lemma BlocksBlockError(s: seq<Token>, acc: seq<string>, length: nat)
    requires At(s, 0).kind != EOF && ReadBlock(s, |acc|).Err?
    ensures ReadBlocks(s, acc, length) == Err(ReadBlock(s, |acc|).error)
  {
  }

  /** A bad separator after a continuation block is the error of the block loop. */
  lemma BlocksSeparatorError(s: seq<Token>, acc: seq<string>, length: nat, b: Block, acc': seq<string>)
    requires At(s, 0).kind != EOF && ReadBlock(s, |acc|) == Ok(b)
    requires acc' == Extend(acc, b.frags) && ReadSeparator(s[b.used..], acc', length).Err?
    ensures ReadBlocks(s, acc, length) == Err(ReadSeparator(s[b.used..], acc', length).error)
  {
  }

  /** A continuation block and its separator read, the block loop goes on
      after them, on a shorter stream. */
  lemma BlocksNext(s: seq<Token>, acc: seq<string>, length: nat, b: Block, acc': seq<string>, k: nat, s': seq<Token>)
    requires At(s, 0).kind != EOF && ReadBlock(s, |acc|) == Ok(b)
    requires acc' == Extend(acc, b.frags) && ReadSeparator(s[b.used..], acc', length) == Ok(k)
    requires s' == s[b.used..][k..]
    ensures |s'| < |s|
    ensures ReadBlocks(s, acc, length) == ReadBlocks(s', acc', length)
  {
  }

  /** At EOF the block loop ends. */
  lemma BlocksAtEof(s: seq<Token>, acc: seq<string>, length: nat)
    requires At(s, 0).kind == EOF
    ensures ReadBlocks(s, acc, length) == Ok(acc)
  {
  }

  /** The continuation blocks read, the final check decides. */
  lemma FinishOk<A>(s: seq<Token>, names: seq<string>, acc: seq<string>, length: nat, detect: string -> A,
                    seqs: seq<string>)
    requires |names| == |acc| && ReadBlocks(s, acc, length) == Ok(seqs)
    ensures Finish(s, names, acc, length, detect) == Assemble(names, seqs, length, detect)
  {
  }

  /** A failing block loop is the parse's error. */
  lemma FinishError<A>(s: seq<Token>, names: seq<string>, acc: seq<string>, length: nat, detect: string -> A)
    requires |names| == |acc| && ReadBlocks(s, acc, length).Err?
    ensures Finish(s, names, acc, length, detect) == Err(ReadBlocks(s, acc, length).error)
  {
  }

  /** A bad first block is the parse's error; `s1` is the stream after the header. */
  lemma ParseStreamNamedError<A>(s: seq<Token>, detect: string -> A, h: HeaderInfo, s1: seq<Token>)
    requires ReadHeader(s) == Ok(h) && s1 == s[h.used..] && ReadNamedLines(s1, h.count).Err?
    ensures ParseStream(s, detect) == Err(ReadNamedLines(s1, h.count).error)
  {
  }

  /** A bad separator after the first block is the parse's error; `s2` is
      the stream after the first block. */
  lemma ParseStreamSeparatorError<A>(s: seq<Token>, detect: string -> A, h: HeaderInfo, s1: seq<Token>,
                                     nb: NamedBlock, s2: seq<Token>)
    requires ReadHeader(s) == Ok(h) && s1 == s[h.used..] && ReadNamedLines(s1, h.count) == Ok(nb)
    requires s2 == s1[nb.used..] && ReadSeparator(s2, nb.frags, h.length).Err?
    ensures ParseStream(s, detect) == Err(ReadSeparator(s2, nb.frags, h.length).error)
  {
  }

  /** Header, first block and separator read, the continuation blocks follow. */
  lemma ParseStreamStart<A>(s: seq<Token>, detect: string -> A, h: HeaderInfo, s1: seq<Token>,
                            nb: NamedBlock, s2: seq<Token>, k: nat, s3: seq<Token>)
    requires ReadHeader(s) == Ok(h) && s1 == s[h.used..] && ReadNamedLines(s1, h.count) == Ok(nb)
    requires s2 == s1[nb.used..] && ReadSeparator(s2, nb.frags, h.length) == Ok(k) && s3 == s2[k..]
    ensures ParseStream(s, detect) == Finish(s3, nb.names, nb.frags, h.length, detect)
  {
  }

  /** One more line of a first block, with the expected result given by its parts. */
  lemma NamedLinesStep(s: seq<Token>, n: nat, line: NamedLine, more: seq<Token>, n': nat, tail: NamedBlock,
                       names: seq<string>, frags: seq<string>, used: nat)
    requires n > 0 && ReadNamedLine(s) == Ok(line) && s[line.used..] == more && n' == n - 1
    requires ReadNamedLines(more, n') == Ok(tail)
    requires names == [line.name] + tail.names && frags == [line.fragment] + tail.frags
    requires used == line.used + tail.used
    ensures ReadNamedLines(s, n) == Ok(NamedBlock(names, frags, used))
  {
  }

  /** One more line of a continuation block, with the expected result given by its parts. */
  lemma BlockLinesStep(s: seq<Token>, n: nat, line: LineRead, more: seq<Token>, n': nat, tail: Block,
                       frags: seq<string>, used: nat)
    requires n > 0 && ReadBlockLine(s) == Ok(line) && s[line.used..] == more && n' == n - 1
    requires ReadBlock(more, n') == Ok(tail)
    requires frags == [line.fragment] + tail.frags && used == line.used + tail.used
    ensures ReadBlock(s, n) == Ok(Block(frags, used))
  {
  }
}
