/** Sequence equalities that Dafny sees only when they are pointed out. */
module Seqs {

  lemma Regroup<T>(a: seq<T>, b: seq<T>, c: seq<T>)
    ensures a + (b + c) == (a + b) + c
  {
  }
}
