/** Go slices: order-preserving filtering, the in-place `s[:0]` idiom, and duplicate-freedom. */
module Slices {

  function Filter<T>(s: seq<T>, keep: T -> bool): (r: seq<T>)
    ensures |r| <= |s|
    ensures forall x | x in r :: x in s && keep(x)
    ensures forall x | x in s && keep(x) :: x in r
  {
    if s == [] then []
    else
      var init, last := s[..|s| - 1], s[|s| - 1];
      assert s == init + [last];
      Filter(init, keep) + if keep(last) then [last] else []
  }

  lemma FilterStep<T>(s: seq<T>, i: nat, keep: T -> bool)
    requires i < |s|
    ensures Filter(s[..i + 1], keep) == Filter(s[..i], keep) + if keep(s[i]) then [s[i]] else []
  {
    assert s[..i + 1][..i] == s[..i];
  }

  lemma {:induction false} FilterAll<T>(s: seq<T>, keep: T -> bool)
    requires forall x | x in s :: keep(x)
    ensures Filter(s, keep) == s
  {
    if s != [] {
      var init, last := s[..|s| - 1], s[|s| - 1];
      assert s == init + [last];
      FilterAll(init, keep);
      assert Filter(s, keep) == Filter(init, keep) + [last];
    }
  }

  /** The length tells whether anything was dropped. */
  lemma {:induction false} FilterDrops<T>(s: seq<T>, keep: T -> bool)
    ensures |Filter(s, keep)| == |s| <==> forall x | x in s :: keep(x)
  {
    if s != [] {
      var init, last := s[..|s| - 1], s[|s| - 1];
      assert s == init + [last];
      FilterDrops(init, keep);
    }
  }

  lemma FilterIdempotent<T>(s: seq<T>, keep: T -> bool)
    ensures Filter(Filter(s, keep), keep) == Filter(s, keep)
  {
    FilterAll(Filter(s, keep), keep);
  }

  /** Filtering depends only on what the test says about the elements. */
  lemma {:induction false} FilterExtensional<T>(s: seq<T>, p: T -> bool, q: T -> bool)
    requires forall x | x in s :: p(x) == q(x)
    ensures Filter(s, p) == Filter(s, q)
  {
    if s != [] {
      FilterExtensional(s[..|s| - 1], p, q);
    }
  }

  lemma {:induction false} FilterConcat<T>(a: seq<T>, b: seq<T>, keep: T -> bool)
    ensures Filter(a + b, keep) == Filter(a, keep) + Filter(b, keep)
  {
    if b == [] {
      assert a + b == a;
    } else {
      assert (a + b)[..|a + b| - 1] == a + b[..|b| - 1];
      FilterConcat(a, b[..|b| - 1], keep);
    }
  }

  /** Two filters in a row keep what passes both. */
  lemma {:induction false} FilterTwice<T>(s: seq<T>, p: T -> bool, q: T -> bool)
    ensures Filter(Filter(s, p), q) == Filter(s, x => p(x) && q(x))
  {
    if s != [] {
      var init, last := s[..|s| - 1], s[|s| - 1];
      FilterTwice(init, p, q);
      var tail := if p(last) then [last] else [];
      FilterConcat(Filter(init, p), tail, q);
      assert tail == [last] ==> tail[..0] == [];
    }
  }

  /** `part` is obtained from `whole` by leaving entries out. */
  ghost predicate Subsequence<T(!new)>(part: seq<T>, whole: seq<T>)
    decreases |whole|
  {
    if whole == [] then part == []
    else
      var init, last := whole[..|whole| - 1], whole[|whole| - 1];
      Subsequence(part, init) || (part != [] && part[|part| - 1] == last && Subsequence(part[..|part| - 1], init))
  }

  lemma {:induction false} FilterSubsequence<T(!new)>(s: seq<T>, keep: T -> bool)
    ensures Subsequence(Filter(s, keep), s)
  {
    if s != [] {
      var init, last := s[..|s| - 1], s[|s| - 1];
      FilterSubsequence(init, keep);
      var part := Filter(init, keep);
      assert keep(last) ==> (part + [last])[..|part|] == part;
      assert !keep(last) ==> Filter(s, keep) == part;
    }
  }

  /** Two filters in a row are one filter by a test that means both. */
  lemma FilterBoth<T>(s: seq<T>, p: T -> bool, q: T -> bool, both: T -> bool)
    requires forall x | x in s :: both(x) == (p(x) && q(x))
    ensures Filter(Filter(s, p), q) == Filter(s, both)
  {
    FilterTwice(s, p, q);
    FilterExtensional(s, x => p(x) && q(x), both);
  }

  /** A stronger test keeps a subsequence of what a weaker one keeps. */
  lemma FilterNarrows<T(!new)>(s: seq<T>, weak: T -> bool, strong: T -> bool)
    requires forall x | x in s && strong(x) :: weak(x)
    ensures Subsequence(Filter(s, strong), Filter(s, weak))
  {
    FilterTwice(s, weak, strong);
    FilterExtensional(s, x => weak(x) && strong(x), strong);
    FilterSubsequence(Filter(s, weak), strong);
  }

  lemma {:induction false} SelfSubsequence<T(!new)>(s: seq<T>)
    ensures Subsequence(s, s)
  {
    if s != [] {
      SelfSubsequence(s[..|s| - 1]);
    }
  }

  function Map<T, U>(s: seq<T>, f: T -> U): (r: seq<U>)
    ensures |r| == |s|
    ensures forall i | 0 <= i < |s| :: r[i] == f(s[i])
  {
    seq(|s|, i requires 0 <= i < |s| => f(s[i]))
  }

  ghost predicate NoDup<T>(s: seq<T>) {
    forall i, j | 0 <= i < j < |s| :: s[i] != s[j]
  }

  lemma {:induction false} FilterNoDup<T>(s: seq<T>, keep: T -> bool)
    requires NoDup(s)
    ensures NoDup(Filter(s, keep))
  {
    if s != [] {
      FilterNoDup(s[..|s| - 1], keep);
      assert s[|s| - 1] !in s[..|s| - 1];
    }
  }

  function Elements<T>(s: seq<T>): set<T> {
    set x | x in s
  }

  lemma {:induction false} NoDupCardinality<T>(s: seq<T>)
    requires NoDup(s)
    ensures |Elements(s)| == |s|
  {
    if s != [] {
      var init, last := s[..|s| - 1], s[|s| - 1];
      NoDupCardinality(init);
      assert last !in init;
      assert Elements(s) == Elements(init) + {last};
    }
  }

  /** A duplicate-free list that reaches a bound's length inside the bound fills it. */
  lemma Pigeonhole<T>(part: seq<T>, whole: seq<T>)
    requires NoDup(part) && NoDup(whole)
    requires Elements(part) <= Elements(whole)
    ensures |part| <= |whole|
    ensures |part| == |whole| <==> Elements(part) == Elements(whole)
  {
    NoDupCardinality(part);
    NoDupCardinality(whole);
    SubsetSize(Elements(part), Elements(whole));
  }

  lemma SubsetSize<T>(a: set<T>, b: set<T>)
    requires a <= b
    ensures |a| <= |b|
    ensures |a| == |b| ==> a == b
  {
    assert b == a + (b - a);
    assert |b| == |a| + |b - a|;
  }

  /**
   * Go's `out := s[:0]; for _, x := range s { if keep(x) { out = append(out, x) } }`.
   * `out` shares the backing array with the slice being read: the write cursor never
   * passes the read cursor, so no element is overwritten before it is read.
   */
  method Compact<T>(buf: array<T>, keep: T -> bool) returns (k: nat, dropped: nat)
    modifies buf
    ensures k <= buf.Length && dropped == buf.Length - k
    ensures buf[..k] == Filter(old(buf[..]), keep)
  {
    ghost var was := buf[..];
    k, dropped := 0, 0;
    for i := 0 to buf.Length
      invariant k <= i && dropped == i - k
      invariant buf[..k] == Filter(was[..i], keep)
      invariant forall j | i <= j < buf.Length :: buf[j] == was[j]
    {
      FilterStep(was, i, keep);
      ghost var prefix := buf[..k];
      if keep(buf[i]) {
        buf[k] := buf[i];
        k := k + 1;
        assert buf[..k] == prefix + [was[i]];
      } else {
        dropped := dropped + 1;
      }
    }
    assert was[..buf.Length] == was;
  }

  /** The idiom applied to a slice value: the prefix of its own backing array that is left. */
  method FilterInPlace<T>(s: seq<T>, keep: T -> bool) returns (kept: seq<T>, dropped: nat)
    ensures kept == Filter(s, keep)
    ensures dropped == |s| - |kept|
  {
    var buf := new T[|s|](i requires 0 <= i < |s| => s[i]);
    assert buf[..] == s;
    var k;
    k, dropped := Compact(buf, keep);
    kept := buf[..k];
  }

  /** What is in a list that is put together from parts is in one of them. */
  lemma {:induction false} Collected<T>(whole: nat -> seq<T>, part: nat -> seq<T>, n: nat, x: T)
    requires whole(0) == [] && forall k: nat | k < n :: whole(k + 1) == whole(k) + part(k)
    ensures x in whole(n) <==> exists i: nat | i < n :: x in part(i)
  {
    if n > 0 {
      Collected(whole, part, n - 1, x);
      assert whole((n - 1) + 1) == whole(n - 1) + part(n - 1);
    }
  }
}
