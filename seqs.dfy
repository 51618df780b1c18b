/**
 * Small facts about sequences, stated once and used where a larger proof would
 * otherwise have to rediscover them.
 */
module Seqs {

  /** The first `i + 1` elements are the first `i` and then the element at `i`. */
  lemma TakeSnoc<T>(s: seq<T>, i: nat)
    requires i < |s|
    ensures s[..i + 1] == s[..i] + [s[i]]
  {
  }

  /** Concatenation can be regrouped. */
  lemma Assoc<T>(a: seq<T>, b: seq<T>, c: seq<T>)
    ensures a + (b + c) == a + b + c
  {
  }

  lemma PairFront<T>(a: T, b: T, y: seq<T>)
    ensures [a] + ([b] + y) == [a, b] + y
  {
  }

  lemma SplitJoined<T>(u: seq<T>, g: seq<T>)
    ensures (u + g)[..|u|] == u && (u + g)[|u|..] == g
  {
  }

  lemma EmptyFront<T>(y: seq<T>)
    ensures [] + y == y && y + [] == y
  {
  }

  lemma TakeAll<T>(u: seq<T>)
    ensures u[..|u|] == u && u[|u|..] == []
  {
  }

  /** The elements of `s` from index `from` on, dropped one at a time. */
  function Suffix<T>(s: seq<T>, from: nat): seq<T>
    requires from <= |s|
  {
    if from == 0 then s else Suffix(s[1..], from - 1)
  }

  lemma {:induction false} SuffixDrop<T>(s: seq<T>, from: nat)
    requires from <= |s|
    ensures Suffix(s, from) == s[from..]
  {
    if from > 0 {
      SuffixDrop(s[1..], from - 1);
      assert s[1..][from - 1..] == s[from..];
    }
  }
}
