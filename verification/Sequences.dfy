/** Laws of sequences that proofs call by name. */
module Sequences {

  lemma Associates<T>(a: seq<T>, b: seq<T>, c: seq<T>)
    ensures a + (b + c) == a + b + c
  {
  }

  lemma HeadAndTail<T>(a: seq<T>, s: seq<T>)
    requires s != []
    ensures a + s == a + [s[0]] + s[1..]
  {
  }
}
