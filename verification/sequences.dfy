/** Facts about sequences that proofs about texts use by name. */
module Sequences {
  lemma Regroup<T>(a: seq<T>, b: seq<T>, c: seq<T>)
    ensures a + (b + c) == a + b + c
  {
  }

  lemma Parts<T>(a: seq<T>, b: seq<T>)
    ensures (a + b)[..|a|] == a && (a + b)[|a|..] == b
  {
  }

  lemma CutAt<T>(s: seq<T>, i: nat, j: nat, k: nat)
    requires i <= j <= k <= |s|
    ensures s[i..k] == s[i..j] + s[j..k]
  {
  }

  /** A part of a slice is a slice. */
  lemma Within<T>(s: seq<T>, i: nat, j: nat, m: nat, n: nat)
    requires i <= j <= |s| && m <= n <= j - i
    ensures s[i..j][m..n] == s[i + m..i + n]
  {
    forall k | 0 <= k < n - m
      ensures s[i..j][m..n][k] == s[i + m..i + n][k]
    {
      assert s[i..j][m..n][k] == s[i..j][m + k] == s[i + m + k];
    }
  }

  lemma Snoc<T>(s: seq<T>, i: nat)
    requires i < |s|
    ensures s[..i + 1] == s[..i] + [s[i]] && s[..i + 1][..i] == s[..i]
  {
  }

  /** Four parts, grouped from the front and from the back. */
  lemma Enclosed<T>(tag: seq<T>, end: seq<T>, v: seq<T>, close: seq<T>)
    ensures tag + end + v + close == (tag + end + v) + close == (tag + end) + (v + close)
  {
  }
}
