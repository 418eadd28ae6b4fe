/** Summing recorded minutes (the `reduce` in utils/calc.ts). */
module Calc {
  import opened UsageTypes

  /** `entries.reduce((acc, e) => acc + e.minutesUsed, 0)`: a left fold
      starting from 0. */
  function SumMinutes(entries: seq<UsageEntry>): int
  {
    if entries == [] then 0
    else SumMinutes(entries[..|entries| - 1]) + entries[|entries| - 1].minutesUsed
  }

  /** The sum of a concatenation is the sum of the parts; with `b == []`
      this includes that the empty list sums to 0. */
  lemma {:induction false} SumConcat(a: seq<UsageEntry>, b: seq<UsageEntry>)
    ensures SumMinutes(a + b) == SumMinutes(a) + SumMinutes(b)
    decreases |b|
  {
    if b == [] {
      assert a + b == a;
    } else {
      assert (a + b)[..|a + b| - 1] == a + b[..|b| - 1];
      SumConcat(a, b[..|b| - 1]);
    }
  }

  /** No entry records negative minutes. */
  predicate AllNonNegative(entries: seq<UsageEntry>) {
    forall k :: 0 <= k < |entries| ==> entries[k].minutesUsed >= 0
  }

  /** Non-negative minutes give a non-negative sum. */
  lemma {:induction false} SumNonNegative(entries: seq<UsageEntry>)
    requires AllNonNegative(entries)
    ensures SumMinutes(entries) >= 0
  {
    if entries != [] {
      SumNonNegative(entries[..|entries| - 1]);
    }
  }

  /** The sum does not depend on the order of the entries. */
  lemma {:induction false} SumPermutation(a: seq<UsageEntry>, b: seq<UsageEntry>)
    requires multiset(a) == multiset(b)
    ensures SumMinutes(a) == SumMinutes(b)
    decreases |a|
  {
    if a == [] {
      assert |b| == |multiset(b)| == 0;
    } else {
      var x := a[|a| - 1];
      var rest := a[..|a| - 1];
      assert a == rest + [x];
      assert x in multiset(b);
      var i :| 0 <= i < |b| && b[i] == x;
      var others := b[..i] + b[i + 1..];
      MultisetRemove(a, b, i);
      SumPermutation(rest, others);
      SumRemoveAt(b, i);
    }
  }

  /** Taking the last entry of `a` and an equal entry of `b` out of two
      permutations of each other leaves permutations of each other. */
  lemma MultisetRemove(a: seq<UsageEntry>, b: seq<UsageEntry>, i: nat)
    requires multiset(a) == multiset(b) && a != [] && i < |b| && b[i] == a[|a| - 1]
    ensures multiset(a[..|a| - 1]) == multiset(b[..i] + b[i + 1..])
  {
    var x := b[i];
    var rest, others := a[..|a| - 1], b[..i] + b[i + 1..];
    assert a == rest + [x];
    assert b == b[..i] + [x] + b[i + 1..];
    assert multiset(a) == multiset(rest) + multiset{x};
    assert multiset(b) == multiset(others) + multiset{x};
    assert multiset(rest) == multiset(a) - multiset{x};
    assert multiset(others) == multiset(b) - multiset{x};
  }

  /** Appending one entry adds its minutes. */
  lemma SumAppend(s: seq<UsageEntry>, x: UsageEntry)
    ensures SumMinutes(s + [x]) == SumMinutes(s) + x.minutesUsed
  {
    assert (s + [x])[..|s + [x]| - 1] == s;
  }

  lemma SplitAt(b: seq<UsageEntry>, i: nat)
    requires i < |b|
    ensures b == (b[..i] + [b[i]]) + b[i + 1..]
  {
  }

  /** Taking out the entry at `i` takes its minutes out of the sum. */
  lemma SumRemoveAt(b: seq<UsageEntry>, i: nat)
    requires i < |b|
    ensures SumMinutes(b) == SumMinutes(b[..i] + b[i + 1..]) + b[i].minutesUsed
  {
    SplitAt(b, i);
    SumConcat(b[..i] + [b[i]], b[i + 1..]);
    SumAppend(b[..i], b[i]);
    SumConcat(b[..i], b[i + 1..]);
  }
}
