/** Facts about taking, slicing and concatenating sequences that the loops of the script rely on. */
module Seqs {
  /** A prefix of a prefix is a prefix. */
  lemma PrefixOfPrefix<T>(s: seq<T>, i: nat, j: nat)
    requires i <= j <= |s|
    ensures s[..j][..i] == s[..i]
  {
  }

  /** Taking everything gives the whole sequence. */
  lemma TakeAll<T>(s: seq<T>)
    ensures s[..|s|] == s
  {
  }

  /** The part of `a + [x]` before `x` is `a`. */
  lemma SnocPrefix<T>(a: seq<T>, x: T)
    ensures (a + [x])[..|a|] == a
  {
  }

  /** `a + b` is `a` followed by all of `b` but its last element, and then that element. */
  lemma ConcatSnoc<T>(a: seq<T>, b: seq<T>)
    requires b != []
    ensures a + b == (a + b[..|b| - 1]) + [b[|b| - 1]]
  {
  }

  lemma EmptyConcat<T>(a: seq<T>)
    ensures [] + a == a
  {
  }

  /** The part of `a + b` after `a` is `b`, and the part before it is `a`. */
  lemma SliceAfter<T>(a: seq<T>, b: seq<T>, i: nat, k: nat)
    requires i <= k <= |b|
    ensures (a + b)[|a| + i..|a| + k] == b[i..k]
    ensures (a + b)[..|a|] == a
  {
  }
}
