/** The alignment the parser builds and the writer renders. The alphabet
    is an opaque tag chosen by the caller's alphabet detector. */
module Alignments {

  /** One named row of an alignment. */
  datatype Row = Row(name: string, sequence: string)

  datatype Alignment<A> = Alignment(alphabet: A, rows: seq<Row>)

  /** The rows pairing `names[j]` with `seqs[j]`, in index order. */
  function Zip(names: seq<string>, seqs: seq<string>): (rows: seq<Row>)
    requires |names| == |seqs|
    ensures |rows| == |names|
    ensures forall j :: 0 <= j < |rows| ==> rows[j] == Row(names[j], seqs[j])
  {
    if |names| == 0 then []
    else Zip(names[..|names| - 1], seqs[..|seqs| - 1]) + [Row(names[|names| - 1], seqs[|seqs| - 1])]
  }

  /** Every row has exactly `length` symbols. */
  predicate AllOfLength(rows: seq<Row>, length: nat)
  {
    forall j :: 0 <= j < |rows| ==> |rows[j].sequence| == length
  }
}
