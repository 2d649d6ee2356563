/** Facts about concatenation that the proofs of the traces and event logs lean on. */
module Sequences {

  lemma AppendAssoc<T>(a: seq<T>, b: seq<T>, c: seq<T>)
    ensures (a + b) + c == a + (b + c)
  {
  }

  /** A slice that lies wholly in the second part of a concatenation. */
  lemma SliceOfAppend<T>(a: seq<T>, b: seq<T>, i: nat, n: nat)
    requires |a| <= i && i + n <= |a| + |b|
    ensures (a + b)[i..i + n] == b[i - |a|..i - |a| + n]
  {
  }

  /** A prefix that lies wholly in the first part of a concatenation. */
  lemma PrefixOfAppend<T>(a: seq<T>, b: seq<T>, n: nat)
    requires n <= |a|
    ensures (a + b)[..n] == a[..n]
  {
  }
}
