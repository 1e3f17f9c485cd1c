/** Small facts about sequences, each proved on its own so that the proofs using them need not
    rediscover them among many other facts. */
module Seqs {
  /** A non-empty sequence is its head followed by its tail. */
  lemma HeadTail<T>(s: seq<T>)
    requires |s| > 0
    ensures [s[0]] + s[1..] == s
  {
  }

  /** A sequence is what precedes index k, the element at k, and what follows it. */
  lemma Around<T>(s: seq<T>, k: nat)
    requires k < |s|
    ensures s == s[..k] + [s[k]] + s[k + 1..]
  {
  }

  /** A longer prefix is the shorter one and the next element. */
  lemma TakeSnoc<T>(s: seq<T>, i: nat)
    requires 0 < i <= |s|
    ensures s[..i] == s[..i - 1] + [s[i - 1]]
    ensures forall x :: x in s[..i] <==> x in s[..i - 1] || x == s[i - 1]
  {
  }

  /** Concatenation is associative. */
  lemma Assoc<T>(a: seq<T>, b: seq<T>, c: seq<T>)
    ensures (a + b) + c == a + (b + c)
  {
  }

  /** The first |a| elements of a + b are a. */
  lemma PrefixOfAppend<T>(a: seq<T>, b: seq<T>)
    ensures (a + b)[..|a|] == a
  {
  }
}
