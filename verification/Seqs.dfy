/** Cutting and joining sequences, stated once so that proofs about longer expressions need not rediscover it. */
module Seqs {

  lemma Around<T>(s: seq<T>, at: nat)
    requires at < |s|
    ensures s == s[..at] + [s[at]] + s[at + 1..]
  {
  }

  lemma Cut<T>(s: seq<T>, at: nat)
    requires at <= |s|
    ensures s == s[..at] + s[at..]
  {
  }
}
