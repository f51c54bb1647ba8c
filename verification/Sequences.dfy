// Slices of slices: stock facts about sequences that several proofs need.
module Sequences {

  lemma {:induction false} SliceOfPrefix<T>(a: seq<T>, m: nat, i: nat, j: nat)
    requires i <= j <= m <= |a|
    ensures a[..m][i..j] == a[i..j]
  {
  }

  lemma {:induction false} PrefixOfPrefix<T>(a: seq<T>, m: nat, n: nat)
    requires n <= m <= |a|
    ensures a[..m][..n] == a[..n]
  {
  }

  lemma {:induction false} SliceOfTail<T>(a: seq<T>, m: nat, i: nat, j: nat)
    requires m <= i <= j <= |a|
    ensures a[m..][i - m..j - m] == a[i..j]
  {
    forall k | 0 <= k < j - i ensures a[m..][i - m..j - m][k] == a[i..j][k] {
      assert a[m..][i - m + k] == a[i + k];
    }
  }

  /** A tail taken apart into its first element and the rest. */
  lemma {:induction false} TailStep<T>(a: seq<T>, i: nat)
    requires i < |a|
    ensures a[i..] != [] && a[i..][0] == a[i] && a[i..][1..] == a[i + 1..]
  {
  }

  /** A slice one element longer. */
  lemma {:induction false} SliceStep<T>(a: seq<T>, i: nat, j: nat)
    requires i <= j < |a|
    ensures a[i..j] + [a[j]] == a[i..j + 1]
  {
  }
}
