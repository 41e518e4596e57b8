/** Facts about sequences that the logs and files of the model lean on. */
module Seqs {
  /** Appending in two steps is appending the concatenation. */
  lemma AppendAssoc<T>(a: seq<T>, b: seq<T>, c: seq<T>)
    ensures (a + b) + c == a + (b + c)
  {
  }
}
