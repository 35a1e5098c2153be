/** Two facts about sequences that loops building a sequence one element at a time need. */
module Seqs {

  /** Taking one more element of a prefix appends that element. */
  lemma PrefixStep<T>(s: seq<T>, k: nat)
    requires k < |s|
    ensures s[..k + 1] == s[..k] + [s[k]]
  {
  }

  /** Moving an element from the front of the rest to the end of what was built. */
  lemma AppendOne<T>(a: seq<T>, x: T, b: seq<T>)
    ensures a + [x] + b == a + ([x] + b)
  {
  }
}
