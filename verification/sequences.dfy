/** Facts about sequences that the scans and the traces share. */
module Sequences {

  /** Appending in two steps is appending the concatenation. */
  lemma Regroup<T>(a: seq<T>, b: seq<T>, c: seq<T>)
    ensures (a + b) + c == a + (b + c)
  {
  }
}
