/**
 Ordering facts about sequences of naturals, used for the field lists of a
 requirement entry and for the card ordinals a note yields.
 */
module Sequences {

  /** Strictly increasing, hence also free of repetitions. */
  predicate Increasing(s: seq<nat>) {
    forall i, j | 0 <= i < j < |s| :: s[i] < s[j]
  }

  /** An increasing sequence is determined by its members. */
  lemma {:induction false} IncreasingUnique(a: seq<nat>, b: seq<nat>)
    requires Increasing(a) && Increasing(b)
    requires forall x :: x in a <==> x in b
    ensures a == b
    decreases |a| + |b|
  {
    assert |a| == 0 <==> |b| == 0 by {
      assert |a| > 0 ==> a[0] in b;
      assert |b| > 0 ==> b[0] in a;
    }
    if |a| > 0 {
      assert a[0] in b;
      assert b[0] in a;
      assert a[0] == b[0];
      forall x
        ensures x in a[1..] <==> x in b[1..]
      {
        assert x in a[1..] <==> x in a && x != a[0];
        assert x in b[1..] <==> x in b && x != b[0];
      }
      IncreasingUnique(a[1..], b[1..]);
      assert a == [a[0]] + a[1..];
      assert b == [b[0]] + b[1..];
    }
  }

  /** The positions of `flags` that hold, in increasing order. */
  function IndicesWhere(flags: seq<bool>): (r: seq<nat>)
    ensures Increasing(r)
    ensures forall i: nat :: i in r <==> i < |flags| && flags[i]
    decreases |flags|
  {
    if |flags| == 0 then []
    else
      var n := |flags| - 1;
      var r := IndicesWhere(flags[..n]);
      assert forall i | 0 <= i < n :: flags[..n][i] == flags[i];
      if flags[n] then
        assert forall k | 0 <= k < |r| :: r[k] in r && r[k] < n;
        r + [n]
      else r
  }

  /** Scanning one more flag appends its position when it holds. */
  lemma IndicesWhereSnoc(flags: seq<bool>, i: nat)
    requires i < |flags|
    ensures IndicesWhere(flags[..i + 1]) == IndicesWhere(flags[..i]) + (if flags[i] then [i] else [])
  {
    assert flags[..i + 1][..i] == flags[..i];
  }

  /** The positions of one flag. */
  lemma IndicesWhereOne(a: bool)
    ensures IndicesWhere([a]) == if a then [0] else []
  {
    assert [a][..0] == [];
  }

  /** The positions of two flags. */
  lemma IndicesWhereTwo(a: bool, b: bool)
    ensures IndicesWhere([a, b]) == (if a then [0] else []) + (if b then [1] else [])
  {
    assert [a, b][..1] == [a];
    IndicesWhereOne(a);
  }

  /** Largest member of `xs` plus one; every member lies below it. */
  function Bound(xs: seq<nat>): (b: nat)
    ensures forall x | x in xs :: x < b
    decreases |xs|
  {
    if |xs| == 0 then 0
    else
      var b := Bound(xs[1..]);
      assert forall x | x in xs :: x == xs[0] || x in xs[1..];
      if xs[0] < b then b else xs[0] + 1
  }

  /** The distinct members of `xs` below `n`, smallest first. */
  function Below(xs: seq<nat>, n: nat): (r: seq<nat>)
    ensures Increasing(r)
    ensures forall x :: x in r <==> x in xs && x < n
    decreases n
  {
    if n == 0 then []
    else
      var r := Below(xs, n - 1);
      if n - 1 in xs then
        assert forall i | 0 <= i < |r| :: r[i] in r && r[i] < n - 1;
        r + [n - 1]
      else r
  }

  /** The distinct members of `xs`, smallest first: the sorted form of `set(xs)`. */
  function SortedDistinct(xs: seq<nat>): (r: seq<nat>)
    ensures Increasing(r)
    ensures forall x :: x in r <==> x in xs
  {
    Below(xs, Bound(xs))
  }

  /** The sequences of `xss` one after another. */
  function Concat(xss: seq<seq<nat>>): (r: seq<nat>)
    ensures forall x :: x in r <==> exists j | 0 <= j < |xss| :: x in xss[j]
    decreases |xss|
  {
    if |xss| == 0 then []
    else
      var rest := Concat(xss[1..]);
      assert forall j | 1 <= j < |xss| :: xss[j] == xss[1..][j - 1];
      assert forall x :: x in rest <==> exists j | 1 <= j < |xss| :: x in xss[j];
      xss[0] + rest
  }

  /** The sequence read back to front. */
  function Reverse<T>(s: seq<T>): (r: seq<T>)
    ensures |r| == |s|
    ensures forall i | 0 <= i < |s| :: r[i] == s[|s| - 1 - i]
  {
    seq(|s|, i requires 0 <= i < |s| => s[|s| - 1 - i])
  }

  /** Appending at the back of a sequence prepends to its reversal. */
  lemma ReverseSnoc<T>(s: seq<T>, x: T)
    ensures Reverse(s + [x]) == [x] + Reverse(s)
  {
  }
}
