/** Small facts about sequences that the loops and walks of the model lean on. */
module Seqs {

  lemma EmptyThen<T>(a: seq<T>)
    ensures [] + a == a
  {
  }

  /** Appending one element after a concatenation. */
  lemma SnocAssoc<T>(a: seq<T>, b: seq<T>, x: T)
    ensures a + b + [x] == a + (b + [x])
  {
  }

  /** A non-empty sequence is its prefix followed by its last element. */
  lemma AppendLast<T>(ss: seq<T>, ps: seq<T>)
    requires ps != []
    ensures ss + ps[..|ps| - 1] + [ps[|ps| - 1]] == ss + ps
  {
    assert ps[..|ps| - 1] + [ps[|ps| - 1]] == ps;
  }

  lemma SliceSnoc<T>(s: seq<T>, a: nat, b: nat)
    requires a < b <= |s|
    ensures s[a..b - 1] + [s[b - 1]] == s[a..b]
  {
  }

}
