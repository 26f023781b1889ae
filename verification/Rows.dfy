/** Rows of a list that a filter keeps, by position and so in their order. */
module Rows {

  /** The rows of q at the listed positions, in order. */
  predicate RowsAt<T(==)>(q: seq<T>, at: seq<nat>, r: seq<T>)
  {
    && |r| == |at| && (forall i, j :: 0 <= i < j < |at| ==> at[i] < at[j])
    && forall i :: 0 <= i < |at| ==> at[i] < |q| && r[i] == q[at[i]]
  }

  lemma RowsNext<T>(q: seq<T>, at: seq<nat>, r: seq<T>)
    requires q != [] && RowsAt(q[..|q| - 1], at, r)
    ensures RowsAt(q, at, r) && RowsAt(q, at + [|q| - 1], r + [q[|q| - 1]])
  {
    var more := at + [|q| - 1];
    forall i, j | 0 <= i < j < |more|
      ensures more[i] < more[j]
    {
    }
  }

  /** The listed positions are those of the rows to keep. */
  ghost predicate Chosen<T>(q: seq<T>, at: seq<nat>, keep: T -> bool)
  {
    forall i: nat :: i in at <==> i < |q| && keep(q[i])
  }

  lemma ChosenNext<T>(q: seq<T>, at: seq<nat>, keep: T -> bool)
    requires q != [] && Chosen(q[..|q| - 1], at, keep)
    ensures Chosen(q, if keep(q[|q| - 1]) then at + [|q| - 1] else at, keep)
  {
    assert forall i: nat :: i < |q| - 1 ==> q[..|q| - 1][i] == q[i];
  }
}
