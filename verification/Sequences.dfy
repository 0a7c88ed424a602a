/** Lists without repetition. */
module Sequences {

  ghost predicate Distinct<T(!new)>(c: seq<T>)
  {
    forall i, j :: 0 <= i < j < |c| ==> c[i] != c[j]
  }
}
