/** Ordering and summation facts shared by both backends: the ascending
    sort both metric reducers apply to a private copy, the left-to-right sum
    both compute, the nearest-rank percentile index `floor((n-1)*q)`, and the
    minimum and maximum of a non-empty series. */
module Order {

  function Min(a: int, b: int): int { if a <= b then a else b }

  function Max(a: int, b: int): int { if a >= b then a else b }

  /** `s` is in ascending order. */
  predicate Sorted(s: seq<real>) {
    forall i, j :: 0 <= i <= j < |s| ==> s[i] <= s[j]
  }

  /** Prefixing a sorted sequence with a value below all its elements keeps it sorted. */
  lemma SortedCons(x: real, t: seq<real>)
    requires Sorted(t)
    requires forall k :: 0 <= k < |t| ==> x <= t[k]
    ensures Sorted([x] + t)
  {
    var r := [x] + t;
    forall i, j | 0 <= i <= j < |r|
      ensures r[i] <= r[j]
    {
      if i > 0 {
        assert r[i] == t[i - 1] && r[j] == t[j - 1];
      }
    }
  }

  /** Inserts `x` into the sorted sequence `t`, before the first element not below it. */
  function Insert(x: real, t: seq<real>): (r: seq<real>)
    requires Sorted(t)
    ensures Sorted(r)
    ensures multiset(r) == multiset(t) + multiset{x}
  {
    if |t| == 0 then [x]
    else if x <= t[0] then
      SortedCons(x, t);
      [x] + t
    else
      assert t == [t[0]] + t[1..];
      SortedTail(t);
      var rest := Insert(x, t[1..]);
      assert forall k :: 0 <= k < |rest| ==> t[0] <= rest[k] by {
        forall k | 0 <= k < |rest|
          ensures t[0] <= rest[k]
        {
          assert rest[k] in multiset(t[1..]) + multiset{x};
          if rest[k] != x {
            assert rest[k] in t[1..];
          }
        }
      }
      SortedCons(t[0], rest);
      [t[0]] + rest
  }

  /** The ascending permutation of `s` (a copy; `s` itself is a value and is never changed). */
  function SortAsc(s: seq<real>): (r: seq<real>)
    ensures Sorted(r)
    ensures multiset(r) == multiset(s)
    ensures |r| == |s|
  {
    if |s| == 0 then []
    else
      assert s == [s[0]] + s[1..];
      var r := Insert(s[0], SortAsc(s[1..]));
      assert |r| == |multiset(r)|;
      r
  }

  /** The head of an ascending sequence is below every element it holds. */
  lemma SortedHeadIsLeast(s: seq<real>, v: real)
    requires Sorted(s) && v in multiset(s)
    ensures s[0] <= v
  {
    assert v in s;
  }

  lemma SortedTail(s: seq<real>)
    requires Sorted(s) && |s| > 0
    ensures Sorted(s[1..])
  {
    forall i, j | 0 <= i <= j < |s| - 1
      ensures s[1..][i] <= s[1..][j]
    {
      assert s[1..][i] == s[i + 1] && s[1..][j] == s[j + 1];
    }
  }

  lemma MultisetTail(s: seq<real>)
    requires |s| > 0
    ensures multiset(s[1..]) == multiset(s) - multiset{s[0]}
  {
    assert s == [s[0]] + s[1..];
  }

  /** Two ascending sequences holding the same elements are equal: the sorted
      copy does not depend on which sorting algorithm produced it. */
  lemma {:induction false} SortedUnique(a: seq<real>, b: seq<real>)
    requires Sorted(a) && Sorted(b)
    requires multiset(a) == multiset(b)
    ensures a == b
  {
    assert |a| == |multiset(a)| == |multiset(b)| == |b|;
    if |a| > 0 {
      assert b[0] in multiset(b);
      assert a[0] in multiset(a);
      SortedHeadIsLeast(a, b[0]);
      SortedHeadIsLeast(b, a[0]);
      assert a[0] == b[0];
      MultisetTail(a);
      MultisetTail(b);
      SortedTail(a);
      SortedTail(b);
      SortedUnique(a[1..], b[1..]);
      assert a == [a[0]] + a[1..];
      assert b == [b[0]] + b[1..];
    }
  }

  /** Sorting an ascending sequence returns it unchanged. */
  lemma SortAscOfSorted(s: seq<real>)
    requires Sorted(s)
    ensures SortAsc(s) == s
  {
    SortedUnique(SortAsc(s), s);
  }

  /** Sum accumulated left to right, as `sum += buf[i]` and `reduce` do. */
  function Sum(s: seq<real>): real {
    if |s| == 0 then 0.0 else Sum(s[..|s| - 1]) + s[|s| - 1]
  }

  lemma {:induction false} SumAppend(a: seq<real>, b: seq<real>)
    ensures Sum(a + b) == Sum(a) + Sum(b)
  {
    if |b| == 0 {
      assert a + b == a;
    } else {
      assert (a + b)[..|a + b| - 1] == a + b[..|b| - 1];
      SumAppend(a, b[..|b| - 1]);
    }
  }

  /** Removing the element at `i` takes exactly that element out of the sum. */
  lemma {:induction false} SumRemove(s: seq<real>, i: nat)
    requires i < |s|
    ensures Sum(s) == Sum(s[..i] + s[i + 1..]) + s[i]
  {
    var p, x, q := s[..i], s[i], s[i + 1..];
    assert s == (p + [x]) + q;
    SumAppend(p + [x], q);
    SumAppend(p, [x]);
    SumAppend(p, q);
    assert Sum([x]) == x by { assert [x][..0] == []; }
  }

  lemma MultisetRemove(s: seq<real>, i: nat)
    requires i < |s|
    ensures multiset(s[..i] + s[i + 1..]) == multiset(s) - multiset{s[i]}
  {
    assert s == s[..i] + [s[i]] + s[i + 1..];
  }

  /** The sum does not depend on the order of the elements; this is why the
      mean taken over the sorted copy equals the mean of the input. */
  lemma {:induction false} SumPermutation(a: seq<real>, b: seq<real>)
    requires multiset(a) == multiset(b)
    ensures Sum(a) == Sum(b)
  {
    assert |a| == |multiset(a)| == |multiset(b)| == |b|;
    if |a| > 0 {
      var n := |a| - 1;
      var x := a[n];
      assert x in multiset(b) by { assert a[n] in multiset(a); }
      var i :| 0 <= i < |b| && b[i] == x;
      SumRemove(a, n);
      SumRemove(b, i);
      MultisetRemove(a, n);
      MultisetRemove(b, i);
      SumPermutation(a[..n] + a[n + 1..], b[..i] + b[i + 1..]);
    }
  }

  /** Nearest-rank, lower-biased percentile index `floor((n-1)*q)`. */
  function PercentileIndex(n: nat, q: real): (i: int)
    requires n > 0 && 0.0 <= q <= 1.0
    ensures 0 <= i < n
  {
    assert 0.0 <= (n - 1) as real * q <= (n - 1) as real;
    ((n - 1) as real * q).Floor
  }

  /** A larger fraction never selects an earlier rank. */
  lemma PercentileIndexMonotone(n: nat, q1: real, q2: real)
    requires n > 0 && 0.0 <= q1 <= q2 <= 1.0
    ensures PercentileIndex(n, q1) <= PercentileIndex(n, q2)
  {
    var m := (n - 1) as real;
    assert m * q2 - m * q1 == m * (q2 - q1);
    assert m * (q2 - q1) >= 0.0;
    assert (m * q1).Floor <= (m * q2).Floor;
  }

  /** The `q`-th percentile of a series, read from its sorted copy. */
  function Percentile(sorted: seq<real>, q: real): real
    requires |sorted| > 0 && 0.0 <= q <= 1.0
  {
    sorted[PercentileIndex(|sorted|, q)]
  }

  /** Percentiles over sorted data are ordered like their fractions. */
  lemma PercentileMonotone(sorted: seq<real>, q1: real, q2: real)
    requires |sorted| > 0 && Sorted(sorted)
    requires 0.0 <= q1 <= q2 <= 1.0
    ensures Percentile(sorted, q1) <= Percentile(sorted, q2)
  {
    PercentileIndexMonotone(|sorted|, q1, q2);
  }

  /** Smallest element, as `Math.min(...s)`. */
  function MinOf(s: seq<real>): (m: real)
    requires |s| > 0
    ensures m in s
    ensures forall k :: 0 <= k < |s| ==> m <= s[k]
  {
    if |s| == 1 then s[0]
    else
      var rest := MinOf(s[1..]);
      assert forall k :: 1 <= k < |s| ==> s[k] == s[1..][k - 1];
      if s[0] <= rest then s[0] else rest
  }

  /** Largest element, as `Math.max(...s)`. */
  function MaxOf(s: seq<real>): (m: real)
    requires |s| > 0
    ensures m in s
    ensures forall k :: 0 <= k < |s| ==> s[k] <= m
  {
    if |s| == 1 then s[0]
    else
      var rest := MaxOf(s[1..]);
      assert forall k :: 1 <= k < |s| ==> s[k] == s[1..][k - 1];
      if s[0] >= rest then s[0] else rest
  }

  /** The ends of the sorted copy are the minimum and maximum of the input. */
  lemma SortedEnds(s: seq<real>)
    requires |s| > 0
    ensures SortAsc(s)[0] == MinOf(s)
    ensures SortAsc(s)[|s| - 1] == MaxOf(s)
  {
    var r := SortAsc(s);
    assert MinOf(s) in multiset(r);
    assert MaxOf(s) in multiset(r);
    assert r[0] in multiset(s);
    assert r[|r| - 1] in multiset(s);
  }

  /** Number of elements strictly below `v`. */
  function CountBelow(s: seq<real>, v: real): nat {
    if |s| == 0 then 0
    else CountBelow(s[..|s| - 1], v) + (if s[|s| - 1] < v then 1 else 0)
  }

  /** Number of elements not above `v`. */
  function CountAtMost(s: seq<real>, v: real): nat {
    if |s| == 0 then 0
    else CountAtMost(s[..|s| - 1], v) + (if s[|s| - 1] <= v then 1 else 0)
  }

  lemma {:induction false} CountAppend(a: seq<real>, b: seq<real>, v: real)
    ensures CountBelow(a + b, v) == CountBelow(a, v) + CountBelow(b, v)
    ensures CountAtMost(a + b, v) == CountAtMost(a, v) + CountAtMost(b, v)
  {
    if |b| > 0 {
      assert (a + b)[..|a + b| - 1] == a + b[..|b| - 1];
      CountAppend(a, b[..|b| - 1], v);
    } else {
      assert a + b == a;
    }
  }

  lemma {:induction false} CountRemove(s: seq<real>, i: nat, v: real)
    requires i < |s|
    ensures CountBelow(s, v) == CountBelow(s[..i] + s[i + 1..], v) + (if s[i] < v then 1 else 0)
    ensures CountAtMost(s, v) == CountAtMost(s[..i] + s[i + 1..], v) + (if s[i] <= v then 1 else 0)
  {
    var p, x, q := s[..i], s[i], s[i + 1..];
    assert s == (p + [x]) + q;
    CountAppend(p + [x], q, v);
    CountAppend(p, [x], v);
    CountAppend(p, q, v);
    assert [x][..0] == [];
  }

  /** Rank counts depend only on the elements, not on their order. */
  lemma {:induction false} CountPermutation(a: seq<real>, b: seq<real>, v: real)
    requires multiset(a) == multiset(b)
    ensures CountBelow(a, v) == CountBelow(b, v)
    ensures CountAtMost(a, v) == CountAtMost(b, v)
  {
    assert |a| == |multiset(a)| == |multiset(b)| == |b|;
    if |a| > 0 {
      var n := |a| - 1;
      assert a[n] in multiset(b) by { assert a[n] in multiset(a); }
      var i :| 0 <= i < |b| && b[i] == a[n];
      CountRemove(a, n, v);
      CountRemove(b, i, v);
      MultisetRemove(a, n);
      MultisetRemove(b, i);
      CountPermutation(a[..n] + a[n + 1..], b[..i] + b[i + 1..], v);
    }
  }

  lemma {:induction false} CountBelowNone(s: seq<real>, v: real)
    requires forall k :: 0 <= k < |s| ==> v <= s[k]
    ensures CountBelow(s, v) == 0
  {
    if |s| > 0 {
      CountBelowNone(s[..|s| - 1], v);
    }
  }

  lemma {:induction false} CountAtMostAll(s: seq<real>, v: real)
    requires forall k :: 0 <= k < |s| ==> s[k] <= v
    ensures CountAtMost(s, v) == |s|
  {
    if |s| > 0 {
      CountAtMostAll(s[..|s| - 1], v);
    }
  }

  lemma {:induction false} CountBounds(s: seq<real>, v: real)
    ensures CountBelow(s, v) <= |s| && CountAtMost(s, v) <= |s|
  {
    if |s| > 0 {
      CountBounds(s[..|s| - 1], v);
    }
  }

  /** In ascending data the element at position `i` has at most `i` elements
      below it and more than `i` elements not above it: it is the `i`-th
      order statistic. */
  lemma SortedRank(r: seq<real>, i: nat)
    requires Sorted(r) && i < |r|
    ensures CountBelow(r, r[i]) <= i < CountAtMost(r, r[i])
  {
    var v := r[i];
    assert r == r[..i] + r[i..];
    CountAppend(r[..i], r[i..], v);
    CountBelowNone(r[i..], v);
    CountBounds(r[..i], v);
    assert r[..i + 1] + r[i + 1..] == r;
    CountAppend(r[..i + 1], r[i + 1..], v);
    CountAtMostAll(r[..i + 1], v);
  }

  /** The nearest-rank percentile is the order statistic of rank
      `floor((n-1)*q)` of the input itself: fewer elements lie below it than
      its rank, and more than its rank lie at or below it. */
  lemma PercentileIsOrderStatistic(s: seq<real>, q: real)
    requires |s| > 0 && 0.0 <= q <= 1.0
    ensures CountBelow(s, Percentile(SortAsc(s), q)) <= PercentileIndex(|s|, q)
    ensures PercentileIndex(|s|, q) < CountAtMost(s, Percentile(SortAsc(s), q))
  {
    var r := SortAsc(s);
    var i := PercentileIndex(|s|, q);
    SortedRank(r, i);
    CountPermutation(r, s, r[i]);
  }

  /** The accumulation loop `for (i = 0; i < count; ++i) sum += buf[i]` of
      both native reducers. */
  method SumPrefix(data: seq<real>, count: nat) returns (sum: real)
    requires count <= |data|
    ensures sum == Sum(data[..count])
  {
    sum := 0.0;
    var i := 0;
    while i < count
      invariant 0 <= i <= count
      invariant sum == Sum(data[..i])
    {
      assert data[..i + 1][..i] == data[..i];
      sum := sum + data[i];
      i := i + 1;
    }
  }
}
