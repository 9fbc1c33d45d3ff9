/** Sequences without repetition, and their elements. */
module Seqs {

  predicate Distinct<T(==)>(q: seq<T>) {
    forall i, j :: 0 <= i < j < |q| ==> q[i] != q[j]
  }

  lemma Associates<T>(a: seq<T>, b: seq<T>, c: seq<T>)
    ensures a + (b + c) == (a + b) + c
  {}

  function Elements<T>(q: seq<T>): set<T> {
    set x | x in q
  }
}
