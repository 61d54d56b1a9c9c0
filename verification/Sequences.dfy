// Facts about concatenation, kept apart so that larger proofs can use them by name.
module Sequences {

  lemma Assoc<T>(a: seq<T>, b: seq<T>, c: seq<T>)
    ensures a + (b + c) == a + b + c
  {
  }

  lemma NoPrefix<T>(a: seq<T>)
    ensures [] + a == a
  {
  }

  lemma NoSuffix<T>(a: seq<T>)
    ensures a + [] == a
  {
  }
}
