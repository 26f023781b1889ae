/** What several managers share: units of time and lists without repeats. */
module Basics {

  const SECOND := 1_000_000_000
  const MILLISECOND := 1_000_000

  predicate NoRepeats<T(==)>(s: seq<T>)
  {
    forall i, j :: 0 <= i < j < |s| ==> s[i] != s[j]
  }

  lemma Regroup(a: int, b: int, c: int)
    ensures a * b * c == a * (b * c)
  {
  }
}
