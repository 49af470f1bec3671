/**
 * The optional value used where the source has a nullable pointer or a function that may
 * fail, and the regrouping of concatenations that lists built piece by piece need.
 */
module Wrappers {

  datatype Option<+T> = None | Some(value: T)

  /** Regrouping a concatenation, for sequences appended to piece by piece. */
  lemma ConcatAssoc<T>(a: seq<T>, b: seq<T>, c: seq<T>)
    ensures a + b + c == a + (b + c)
  {
  }

}
