/** Small generic helpers shared by the PHYLIP reader and writer: an option
    type, flattening a sequence of sequences, and joining with a separator. */
module Basics {

  datatype Option<T> = None | Some(value: T)

  /** The concatenation of all the pieces, in order. */
  function Concat<T>(pieces: seq<seq<T>>): seq<T>
  {
    if |pieces| == 0 then [] else pieces[0] + Concat(pieces[1..])
  }

  /** The pieces joined with `sep` between neighbours (Go's strings.Join). */
  function Intersperse<T>(sep: seq<T>, pieces: seq<seq<T>>): seq<T>
  {
    if |pieces| == 0 then []
    else if |pieces| == 1 then pieces[0]
    else pieces[0] + sep + Intersperse(sep, pieces[1..])
  }

  /** One more piece at the end adds its elements at the end. */
  lemma {:induction false} ConcatSnoc<T>(pieces: seq<seq<T>>, x: seq<T>)
    decreases |pieces|
    ensures Concat(pieces + [x]) == Concat(pieces) + x
  {
    if |pieces| == 0 {
      assert pieces + [x] == [x];
      assert Concat([x]) == x + Concat([]);
    } else {
      ConcatSnoc(pieces[1..], x);
      assert (pieces + [x])[1..] == pieces[1..] + [x];
      AppendAssoc(pieces[0], Concat(pieces[1..]), x);
    }
  }

  /** Updating position `i` splits the sequence into the part before, the new
      element, and the untouched part after. */
  lemma UpdateSplit<T>(a: seq<T>, b: seq<T>, i: nat, x: T)
    requires i < |a| && b == a[i := x]
    ensures b[..i + 1] == a[..i] + [x] && b[i + 1..] == a[i + 1..]
  {
    assert b[..i + 1] == b[..i] + [b[i]];
  }

  /** Dropping `i` elements, then `j` more, drops `i + j`. */
  lemma DropDrop<T>(s: seq<T>, i: nat, j: nat, k: nat)
    requires i <= |s| && j <= |s| - i && k == i + j
    ensures s[i..][j..] == s[k..]
  {
  }

  /** Regrouping three appended sequences. */
  lemma AppendAssoc<T>(a: seq<T>, b: seq<T>, c: seq<T>)
    ensures a + b + c == a + (b + c)
  {
  }

  /** Regrouping four appended sequences. */
  lemma AppendRegroup<T>(a: seq<T>, b: seq<T>, c: seq<T>, d: seq<T>)
    ensures a + b + c + d == a + (b + c + d)
  {
  }
}
