/** Facts about sequences, stated once so that other proofs need not take sequences apart. */
module Sequences {

  lemma Snoc<T>(s: seq<T>, x: T)
    ensures (s + [x])[..|s + [x]| - 1] == s && (s + [x])[|s + [x]| - 1] == x
  {}

  lemma Last<T>(s: seq<T>)
    requires s != []
    ensures s == s[..|s| - 1] + [s[|s| - 1]]
  {}

  lemma Cons<T>(x: T, s: seq<T>)
    ensures ([x] + s)[1..] == s && ([x] + s)[0] == x
  {}

  lemma Associates<T>(a: seq<T>, b: seq<T>, c: seq<T>)
    ensures a + (b + c) == (a + b) + c
  {}

  lemma Units<T>(s: seq<T>)
    ensures s + [] == s && [] + s == s
  {}

  /** A slice that grows by one element. */
  lemma SliceNext<T>(s: seq<T>, i: nat, j: nat)
    requires i <= j < |s|
    ensures s[i..j + 1] == s[i..j] + [s[j]]
  {}

  lemma TakeNext<T>(s: seq<T>, n: nat)
    requires n < |s|
    ensures s[..n + 1] == s[..n] + [s[n]] && s[..n + 1][..n] == s[..n]
  {}

  lemma Whole<T>(s: seq<T>)
    ensures s[..|s|] == s && s[0..] == s
  {}

  lemma DropNext<T>(s: seq<T>, k: nat)
    requires k < |s|
    ensures s[k..][0] == s[k] && s[k..][1..] == s[k + 1..]
  {}

  /** A prefix seen from the element after the first. */
  lemma TakeRest<T>(s: seq<T>, n: nat)
    requires n < |s|
    ensures s[..n + 1][0] == s[0] && s[..n + 1][1..] == s[1..][..n]
  {}
}
