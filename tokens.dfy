/** The tokens the PHYLIP scanner hands to the parser. The scanner itself is
    not part of this model: its output is a given sequence of tokens, and
    reading past the end of that sequence yields EOF again and again, as a
    scanner at end of input does. */
module Tokens {

  datatype Kind = WS | NUMERIC | IDENTIFIER | ENDOFLINE | EOF

  datatype Token = Token(kind: Kind, lit: string)

  const EofToken: Token := Token(EOF, "")

  /** The token at position `i` of the stream, EOF beyond its end. */
  function At(toks: seq<Token>, i: nat): (t: Token)
    ensures t.kind != EOF ==> i < |toks|
  {
    if i < |toks| then toks[i] else EofToken
  }

  /** The stream after its first token is read: reading at the end of the
      stream leaves it empty. */
  function Tail(s: seq<Token>): (rest: seq<Token>)
    ensures |s| > 0 ==> rest == s[1..]
    ensures |s| == 0 ==> rest == []
  {
    if |s| == 0 then [] else s[1..]
  }

  /** A line body: only IDENTIFIER and WS tokens. */
  predicate LineBody(ts: seq<Token>)
  {
    forall i :: 0 <= i < |ts| ==> ts[i].kind == IDENTIFIER || ts[i].kind == WS
  }

  /** The IDENTIFIER literals of `ts`, concatenated in order. */
  function Idents(ts: seq<Token>): string
  {
    if |ts| == 0 then "" else (if ts[0].kind == IDENTIFIER then ts[0].lit else "") + Idents(ts[1..])
  }

  lemma {:induction false} IdentsAppend(a: seq<Token>, b: seq<Token>)
    ensures Idents(a + b) == Idents(a) + Idents(b)
  {
    if |a| > 0 {
      IdentsAppend(a[1..], b);
      assert (a + b)[1..] == a[1..] + b;
    } else {
      assert a + b == b;
    }
  }

  /** The number of ENDOFLINE tokens in `ts`. */
  function EolCount(ts: seq<Token>): nat
  {
    if |ts| == 0 then 0 else (if ts[0].kind == ENDOFLINE then 1 else 0) + EolCount(ts[1..])
  }

  lemma {:induction false} EolCountAppend(a: seq<Token>, b: seq<Token>)
    ensures EolCount(a + b) == EolCount(a) + EolCount(b)
  {
    if |a| > 0 {
      EolCountAppend(a[1..], b);
      assert (a + b)[1..] == a[1..] + b;
    } else {
      assert a + b == b;
    }
  }

  lemma EolCountSplit(s: seq<Token>, u: nat, v: nat)
    requires u + v <= |s|
    ensures EolCount(s[..u + v]) == EolCount(s[..u]) + EolCount(s[u..][..v])
  {
    assert s[..u + v] == s[..u] + s[u..][..v];
    EolCountAppend(s[..u], s[u..][..v]);
  }

  lemma {:induction false} LineBodyHasNoEol(ts: seq<Token>)
    requires LineBody(ts)
    ensures EolCount(ts) == 0
  {
    if |ts| > 0 {
      LineBodyHasNoEol(ts[1..]);
    }
  }

  /** The text the tokens were lexed from: their literals, concatenated. */
  function Lits(ts: seq<Token>): string
  {
    if |ts| == 0 then "" else ts[0].lit + Lits(ts[1..])
  }

  lemma {:induction false} LitsAppend(a: seq<Token>, b: seq<Token>)
    ensures Lits(a + b) == Lits(a) + Lits(b)
  {
    if |a| > 0 {
      LitsAppend(a[1..], b);
      assert (a + b)[1..] == a[1..] + b;
    } else {
      assert a + b == b;
    }
  }
}
