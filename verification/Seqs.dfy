/** Facts about sequences, kept apart so that each costs the solver little. */
module Seqs {
  lemma Assoc<T>(a: seq<T>, b: seq<T>, c: seq<T>)
    ensures a + (b + c) == a + b + c
  {
  }

  lemma PairThen<T>(a: seq<T>, x: T, y: T, b: seq<T>)
    ensures a + [x, y] + b == a + [x] + ([y] + b)
  {
  }

  lemma EmptyRight<T>(a: seq<T>)
    ensures a + [] == a
  {
  }

  lemma EmptyLeft<T>(a: seq<T>)
    ensures [] + a == a
  {
  }

  lemma DropConcat<T>(a: seq<T>, b: seq<T>, n: nat)
    requires n <= |a|
    ensures (a + b)[n..] == a[n..] + b
  {
  }

  lemma SliceConcat<T>(a: seq<T>, b: seq<T>, i: nat, j: nat)
    requires i <= j <= |a|
    ensures (a + b)[i..j] == a[i..j]
  {
  }

  lemma TakeSnoc<T>(a: seq<T>, i: nat)
    requires i < |a|
    ensures a[..i + 1] == a[..i] + [a[i]]
  {
  }

  lemma SplitAt<T>(a: seq<T>, i: nat)
    requires i <= |a|
    ensures a == a[..i] + a[i..]
  {
  }

  lemma TakeOfConcat<T>(a: seq<T>, b: seq<T>, n: nat)
    requires n <= |a|
    ensures (a + b)[..n] == a[..n]
  {
  }

  lemma ThirdPart<T>(a: seq<T>, b: seq<T>, c: seq<T>)
    ensures a <= a + b + c && |a + b + c| == |a| + |b| + |c|
    ensures forall k :: 0 <= k < |c| ==> (a + b + c)[|a| + |b| + k] == c[k]
  {
  }

  lemma LeaveOut<T>(s: seq<T>, q: nat)
    requires 0 < q < |s|
    ensures [s[0]] + (s[1..][..q - 1] + s[1..][q..]) == s[..q] + s[q + 1..]
  {
  }

  /** A stretch with one element inside it. */
  lemma SliceAround<T>(s: seq<T>, i: nat, m: nat, j: nat)
    requires i <= m < j <= |s|
    ensures s[i..j] == s[i..m] + [s[m]] + s[m + 1..j]
  {
  }

  /** The elements xs stand in s from i up to k. */
  predicate At<T(==)>(s: seq<T>, i: nat, k: nat, xs: seq<T>) {
    i <= k <= |s| && s[i..k] == xs
  }

  lemma AtConcat<T>(s: seq<T>, i: nat, k: nat, xs: seq<T>, ys: seq<T>)
    requires At(s, i, k, xs + ys)
    ensures At(s, i, i + |xs|, xs) && At(s, i + |xs|, k, ys)
  {
    assert s[i..k][..|xs|] == xs && s[i..k][|xs|..] == ys;
  }

  lemma AtJoin<T>(s: seq<T>, i: nat, j: nat, k: nat, xs: seq<T>, ys: seq<T>)
    requires At(s, i, j, xs) && At(s, j, k, ys)
    ensures At(s, i, k, xs + ys)
  {
    assert s[i..k] == s[i..j] + s[j..k];
  }
}
