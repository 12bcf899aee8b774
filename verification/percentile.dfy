/**
 Nearest-rank statistics over the timings of a load check: samples are sorted, two percentiles,
 the mean and the maximum are taken, and each is rounded to two decimals.
 */
module Percentile {
  import opened Prelude

  // ---------------------------------------------------------------- sorting

  ghost predicate Ordered(xs: seq<real>) {
    forall i, j | 0 <= i <= j < |xs| :: xs[i] <= xs[j]
  }

  function Insert(x: real, xs: seq<real>): seq<real> {
    if xs == [] || x <= xs[0] then [x] + xs else [xs[0]] + Insert(x, xs[1..])
  }

  function Sort(xs: seq<real>): seq<real> {
    if xs == [] then [] else Insert(xs[0], Sort(xs[1..]))
  }

  lemma {:induction false} InsertSorts(x: real, xs: seq<real>)
    requires Ordered(xs)
    ensures Ordered(Insert(x, xs)) && multiset(Insert(x, xs)) == multiset{x} + multiset(xs)
    ensures |Insert(x, xs)| == |xs| + 1
    ensures forall y | y in Insert(x, xs) :: y == x || y in xs
  {
    if xs != [] && !(x <= xs[0]) {
      var rest := Insert(x, xs[1..]);
      InsertSorts(x, xs[1..]);
      assert xs == [xs[0]] + xs[1..];
      forall j | 0 <= j < |rest| ensures xs[0] <= rest[j] {
        assert rest[j] in rest;
        assert rest[j] == x || rest[j] in xs[1..];
      }
    }
  }

  lemma {:induction false} SortSorts(xs: seq<real>)
    ensures Ordered(Sort(xs)) && multiset(Sort(xs)) == multiset(xs) && |Sort(xs)| == |xs|
  {
    if xs != [] {
      SortSorts(xs[1..]);
      InsertSorts(xs[0], Sort(xs[1..]));
      assert xs == [xs[0]] + xs[1..];
    }
  }

  lemma LeastFirst(xs: seq<real>, ys: seq<real>)
    requires Ordered(xs) && xs != [] && ys != [] && multiset(xs) == multiset(ys)
    ensures xs[0] <= ys[0]
  {
    assert ys[0] in multiset(xs);
  }

  /** Ordered sequences with the same elements are equal. */
  lemma {:induction false} OrderedUnique(xs: seq<real>, ys: seq<real>)
    requires Ordered(xs) && Ordered(ys) && multiset(xs) == multiset(ys)
    ensures xs == ys
  {
    assert |xs| == |multiset(xs)| && |ys| == |multiset(ys)|;
    if xs != [] {
      LeastFirst(xs, ys);
      LeastFirst(ys, xs);
      DropFirst(xs);
      DropFirst(ys);
      OrderedUnique(xs[1..], ys[1..]);
      assert xs == [xs[0]] + xs[1..] && ys == [ys[0]] + ys[1..];
    }
  }

  // ---------------------------------------------------------------- nearest rank

  /** The ratio is `p` over `q`; the quotient is rounded up. */
  function Rank(n: nat, p: nat, q: nat): nat
    requires q > 0
  {
    (n * p + q - 1) / q
  }

  function Percentile(sorted: seq<real>, p: nat, q: nat): real
    requires q > 0
  {
    var index := Min(|sorted| - 1, Max(0, Rank(|sorted|, p, q) - 1));
    if 0 <= index < |sorted| then sorted[index] else 0.0
  }

  predicate Ratio(p: nat, q: nat) {
    0 < p <= q
  }

  /** For a ratio above zero and at most one neither clamp of the index ever binds. */
  lemma ClampsNeverBind(n: nat, p: nat, q: nat)
    requires n > 0 && Ratio(p, q)
    ensures 1 <= Rank(n, p, q) <= n
    ensures Min(n - 1, Max(0, Rank(n, p, q) - 1)) == Rank(n, p, q) - 1
    ensures (Rank(n, p, q) - 1) * q < n * p <= Rank(n, p, q) * q
  {
    var r := Rank(n, p, q);
    assert n * p + q - 1 == r * q + (n * p + q - 1) % q;
    assert n * p >= 1 by {
      MulAtLeast(n, 1, p);
    }
    assert n * p <= n * q by {
      MulMonotone(n, p, q);
    }
    MulMonotone(q, n + 1, Max(r, n + 1));
  }

  lemma MulMonotone(a: nat, b: nat, c: nat)
    requires b <= c
    ensures a * b <= a * c && b * a <= c * a
  {
    assert a * c - a * b == a * (c - b);
  }

  lemma MulAtLeast(a: nat, b: nat, c: nat)
    requires a >= 1 && c >= b
    ensures a * c >= b
  {
    MulMonotone(c, 1, a);
  }

  function AtMost(xs: seq<real>, v: real): nat {
    if xs == [] then 0 else (if xs[0] <= v then 1 else 0) + AtMost(xs[1..], v)
  }

  lemma {:induction false} AtMostOrdered(xs: seq<real>, v: real, k: nat)
    requires Ordered(xs) && 1 <= k <= |xs|
    ensures AtMost(xs, v) >= k <==> xs[k - 1] <= v
    ensures AtMost(xs, v) <= |xs|
  {
    var rest := xs[1..];
    assert xs == [xs[0]] + rest;
    if k > 1 {
      AtMostOrdered(rest, v, k - 1);
      assert xs[0] <= xs[k - 1] == rest[k - 2];
      if !(xs[0] <= v) {
        assert AtMost(rest, v) < k - 1;
      }
    } else if !(xs[0] <= v) {
      NoneAtMost(rest, v);
    }
    AtMostBound(xs, v);
  }

  lemma {:induction false} NoneAtMost(xs: seq<real>, v: real)
    requires forall i | 0 <= i < |xs| :: xs[i] > v
    ensures AtMost(xs, v) == 0
  {
    if xs != [] {
      NoneAtMost(xs[1..], v);
    }
  }

  lemma {:induction false} AtMostBound(xs: seq<real>, v: real)
    ensures AtMost(xs, v) <= |xs|
  {
    if xs != [] {
      AtMostBound(xs[1..], v);
    }
  }

  /** Counting does not depend on the order. */
  lemma {:induction false} AtMostPermuted(xs: seq<real>, ys: seq<real>, v: real)
    requires multiset(xs) == multiset(ys)
    ensures AtMost(xs, v) == AtMost(ys, v)
  {
    if xs == [] {
      assert |ys| == |multiset(ys)| == 0;
    } else {
      assert xs[0] in multiset(ys);
      var i :| 0 <= i < |ys| && ys[i] == xs[0];
      AtMostWithout(ys, i, v);
      DropFirst(xs);
      RemoveAt(ys, i);
      AtMostPermuted(xs[1..], ys[..i] + ys[i + 1..], v);
    }
  }

  lemma {:induction false} AtMostWithout(ys: seq<real>, i: nat, v: real)
    requires i < |ys|
    ensures AtMost(ys, v) == AtMost(ys[..i] + ys[i + 1..], v) + if ys[i] <= v then 1 else 0
  {
    if i == 0 {
      assert ys[..0] + ys[1..] == ys[1..];
    } else {
      AtMostWithout(ys[1..], i - 1, v);
      var without := ys[..i] + ys[i + 1..];
      assert without[0] == ys[0] && without[1..] == ys[1..][..i - 1] + ys[1..][i..];
    }
  }

  /** Reaching the rank is the same as covering the share. */
  lemma RankCovers(n: nat, p: nat, q: nat, count: nat)
    requires n > 0 && Ratio(p, q)
    ensures count >= Rank(n, p, q) <==> count * q >= n * p
  {
    var k := Rank(n, p, q);
    ClampsNeverBind(n, p, q);
    if count >= k {
      MulMonotone(q, k, count);
    } else {
      MulMonotone(q, count, k - 1);
    }
  }

  /**
   The percentile of a non-empty list is the least sample that at least the given share of the samples
   does not exceed, the share rounded up to a whole number of samples.
   */
  lemma PercentileIsNearestRank(xs: seq<real>, p: nat, q: nat, other: real)
    requires xs != [] && Ratio(p, q)
    ensures var v := Percentile(Sort(xs), p, q);
            && v in xs && AtMost(xs, v) * q >= |xs| * p
            && (AtMost(xs, other) * q >= |xs| * p ==> v <= other)
  {
    var s := Sort(xs);
    var k := Rank(|xs|, p, q);
    SortSorts(xs);
    ClampsNeverBind(|xs|, p, q);
    var v := s[k - 1];
    assert v == Percentile(s, p, q) && v in multiset(s);
    AtMostPermuted(xs, s, v);
    AtMostPermuted(xs, s, other);
    AtMostOrdered(s, v, k);
    AtMostOrdered(s, other, k);
    RankCovers(|xs|, p, q, AtMost(xs, v));
    RankCovers(|xs|, p, q, AtMost(xs, other));
  }

  lemma PercentileMonotone(xs: seq<real>, p: nat, q: nat, p': nat, q': nat)
    requires xs != [] && Ratio(p, q) && Ratio(p', q') && p * q' <= p' * q
    ensures Percentile(Sort(xs), p, q) <= Percentile(Sort(xs), p', q')
    ensures Percentile(Sort(xs), p', q') <= Sort(xs)[|Sort(xs)| - 1]
  {
    var s := Sort(xs);
    SortSorts(xs);
    ClampsNeverBind(|xs|, p, q);
    ClampsNeverBind(|xs|, p', q');
    RankMonotone(|xs|, p, q, p', q');
  }

  lemma RankMonotone(n: nat, p: nat, q: nat, p': nat, q': nat)
    requires n > 0 && Ratio(p, q) && Ratio(p', q') && p * q' <= p' * q
    ensures Rank(n, p, q) <= Rank(n, p', q')
  {
    var r, r' := Rank(n, p, q), Rank(n, p', q');
    ClampsNeverBind(n, p, q);
    ClampsNeverBind(n, p', q');
    if r' <= r - 1 {
      MulMonotone(q, r', r - 1);
      TooSmallStays(n, p, q, p', q', r');
      assert false;
    }
  }

  lemma Swap(a: nat, b: nat, c: nat)
    ensures (a * b) * c == (a * c) * b == a * (b * c)
  {
  }

  lemma Cancel(a: nat, b: nat, c: nat)
    requires a * c < b * c
    ensures a < b
  {
    MulMonotone(c, b, Max(a, b));
  }

  /** A rank too small for the smaller ratio is too small for the greater one. */
  lemma TooSmallStays(n: nat, p: nat, q: nat, p': nat, q': nat, r: nat)
    requires q' > 0 && r * q < n * p && p * q' <= p' * q
    ensures r * q' < n * p'
  {
    MulMonotone(q', r * q + 1, n * p);
    assert (r * q + 1) * q' == (r * q) * q' + q';
    Swap(r, q, q');
    Swap(n, p, q');
    Swap(n, p', q);
    MulMonotone(n, p * q', p' * q);
    Cancel(r * q', n * p', q);
  }

  // ---------------------------------------------------------------- rounding

  function RoundUpHalf(x: real): real
    requires x >= 0.0
  {
    (x * 100.0 + 0.5).Floor as real / 100.0
  }

  /** Two decimals, halves away from zero. */
  function RoundMs(x: real): real {
    if x < 0.0 then -RoundUpHalf(-x) else RoundUpHalf(x)
  }

  lemma FloorMonotone(x: real, y: real)
    requires x <= y
    ensures x.Floor <= y.Floor
  {
  }

  lemma RoundMonotone(x: real, y: real)
    requires x <= y
    ensures RoundMs(x) <= RoundMs(y)
  {
    if x >= 0.0 {
      FloorMonotone(x * 100.0 + 0.5, y * 100.0 + 0.5);
    } else if y < 0.0 {
      FloorMonotone(-y * 100.0 + 0.5, -x * 100.0 + 0.5);
    }
  }

  /** The rounded value is within half a hundredth of the exact one; exact halves move away from zero. */
  lemma RoundIsClose(x: real)
    ensures x >= 0.0 ==> -0.005 < RoundMs(x) - x <= 0.005
    ensures x < 0.0 ==> -0.005 <= RoundMs(x) - x < 0.005
    ensures (RoundMs(x) * 100.0) == (RoundMs(x) * 100.0).Floor as real
  {
    var y := if x < 0.0 then -x else x;
    var f := (y * 100.0 + 0.5).Floor;
    assert f as real <= y * 100.0 + 0.5 < f as real + 1.0;
    assert RoundMs(x) * 100.0 == if x < 0.0 then (-f) as real else f as real;
  }

  // ---------------------------------------------------------------- the summary

  function Sum(xs: seq<real>): real {
    if xs == [] then 0.0 else xs[0] + Sum(xs[1..])
  }

  function Last(xs: seq<real>): real {
    if xs == [] then 0.0 else xs[|xs| - 1]
  }

  function Mean(xs: seq<real>): real {
    Sum(xs) / (Max(|xs|, 1) as real)
  }

  datatype Summary = Summary(p50: real, p95: real, avg: real, max: real)

  function Exact(samples: seq<real>): Summary {
    var sorted := Sort(samples);
    Summary(Percentile(sorted, 1, 2), Percentile(sorted, 19, 20), Mean(sorted), Last(sorted))
  }

  function Rounded(s: Summary): Summary {
    Summary(RoundMs(s.p50), RoundMs(s.p95), RoundMs(s.avg), RoundMs(s.max))
  }

  function Summarize(samples: seq<real>): Summary {
    Rounded(Exact(samples))
  }

  predicate InOrder(s: Summary) {
    s.p50 <= s.p95 <= s.max && s.avg <= s.max
  }

  lemma RoundedInOrder(s: Summary)
    requires InOrder(s)
    ensures InOrder(Rounded(s))
  {
    RoundMonotone(s.p50, s.p95);
    RoundMonotone(s.p95, s.max);
    RoundMonotone(s.avg, s.max);
  }

  lemma {:induction false} SumBound(xs: seq<real>, top: real)
    requires forall i | 0 <= i < |xs| :: xs[i] <= top
    ensures Sum(xs) <= |xs| as real * top
  {
    if xs != [] {
      SumBound(xs[1..], top);
      assert |xs| as real == |xs[1..]| as real + 1.0;
      assert |xs| as real * top == |xs[1..]| as real * top + top;
    }
  }

  lemma {:induction false} SumOfInsert(x: real, xs: seq<real>)
    ensures Sum(Insert(x, xs)) == x + Sum(xs)
  {
    if xs != [] && !(x <= xs[0]) {
      SumOfInsert(x, xs[1..]);
      assert Insert(x, xs)[1..] == Insert(x, xs[1..]);
    } else {
      assert ([x] + xs)[1..] == xs;
    }
  }

  lemma {:induction false} SumOfSort(xs: seq<real>)
    ensures Sum(Sort(xs)) == Sum(xs)
  {
    if xs != [] {
      SumOfSort(xs[1..]);
      SumOfInsert(xs[0], Sort(xs[1..]));
    }
  }

  predicate IsMean(mean: real, total: real, n: nat) {
    mean * n as real == total
  }

  lemma MeanOf(ys: seq<real>, n: nat)
    requires n == |ys| && n > 0
    ensures IsMean(Mean(ys), Sum(ys), n)
  {
    DivideBack(Sum(ys), n);
  }

  /** The mean times the number of samples is their sum as measured. */
  lemma MeanIsExact(xs: seq<real>)
    requires xs != []
    ensures IsMean(Exact(xs).avg, Sum(xs), |xs|)
  {
    var sorted := Sort(xs);
    SortSorts(xs);
    SumOfSort(xs);
    MeanOf(sorted, |xs|);
    assert Exact(xs).avg == Mean(sorted);
  }

  lemma DivideBack(total: real, n: nat)
    requires n >= 1
    ensures (total / (Max(n, 1) as real)) * n as real == total
  {
  }

  lemma MeanBelowLast(xs: seq<real>)
    requires Ordered(xs)
    ensures Mean(xs) <= Last(xs)
  {
    if xs != [] {
      SumBound(xs, Last(xs));
      var n := |xs| as real;
      assert Sum(xs) / n <= Last(xs) by {
        assert Sum(xs) == (Sum(xs) / n) * n;
        assert (Sum(xs) / n) * n <= Last(xs) * n;
      }
    }
  }

  lemma ExactInOrder(xs: seq<real>)
    ensures InOrder(Exact(xs))
  {
    SortSorts(xs);
    MeanBelowLast(Sort(xs));
    if xs != [] {
      PercentileMonotone(xs, 1, 2, 19, 20);
    }
  }

  /** The reported median is at most the 95th percentile, and that and the mean at most the maximum. */
  lemma SummaryIsOrdered(xs: seq<real>)
    ensures InOrder(Summarize(xs))
  {
    ExactInOrder(xs);
    RoundedInOrder(Exact(xs));
  }

  /** The summary depends on the samples only, not on the order in which the requests finished. */
  lemma OrderDoesNotMatter(xs: seq<real>, ys: seq<real>)
    requires multiset(xs) == multiset(ys)
    ensures Summarize(xs) == Summarize(ys)
  {
    SortSorts(xs);
    SortSorts(ys);
    OrderedUnique(Sort(xs), Sort(ys));
  }

  /** The least sample that at least `p` in `q` of the samples do not exceed. */
  ghost predicate IsShare(xs: seq<real>, p: nat, q: nat, v: real) {
    v in xs && Covers(xs, p, q, v) && forall w | Covers(xs, p, q, w) :: v <= w
  }

  predicate Covers(xs: seq<real>, p: nat, q: nat, v: real) {
    AtMost(xs, v) * q >= |xs| * p
  }

  lemma PercentileIsShare(xs: seq<real>, p: nat, q: nat)
    requires xs != [] && Ratio(p, q)
    ensures IsShare(xs, p, q, Percentile(Sort(xs), p, q))
  {
    PercentileIsNearestRank(xs, p, q, 0.0);
    forall w | Covers(xs, p, q, w) ensures Percentile(Sort(xs), p, q) <= w {
      PercentileIsNearestRank(xs, p, q, w);
    }
  }

  lemma LastIsGreatest(xs: seq<real>)
    requires xs != []
    ensures Last(Sort(xs)) in xs && forall x | x in xs :: x <= Last(Sort(xs))
  {
    SortSorts(xs);
    assert Last(Sort(xs)) in multiset(Sort(xs));
    forall x | x in xs ensures x <= Last(Sort(xs)) {
      assert x in multiset(Sort(xs));
    }
  }

  /**
   What the summary of a non-empty run reports, each rounded: the least sample that half of the samples do
   not exceed, the least that nineteen in twenty do not, the mean, and the greatest.
   */
  lemma SummaryReports(xs: seq<real>) returns (half: real, most: real, mean: real, top: real)
    requires xs != []
    ensures Summarize(xs) == Summary(RoundMs(half), RoundMs(most), RoundMs(mean), RoundMs(top))
    ensures IsShare(xs, 1, 2, half) && IsShare(xs, 19, 20, most) && IsMean(mean, Sum(xs), |xs|)
    ensures top in xs && forall x | x in xs :: x <= top
  {
    var exact := Exact(xs);
    half, most, mean, top := exact.p50, exact.p95, exact.avg, exact.max;
    PercentileIsShare(xs, 1, 2);
    PercentileIsShare(xs, 19, 20);
    MeanIsExact(xs);
    LastIsGreatest(xs);
  }

  lemma EmptyPercentile(p: nat, q: nat)
    requires q > 0
    ensures Percentile([], p, q) == 0.0
  {
  }

  lemma RoundZero()
    ensures RoundMs(0.0) == 0.0
  {
    assert (0.0 * 100.0 + 0.5).Floor == 0;
  }

  lemma EmptyMean()
    ensures Mean([]) == 0.0
  {
  }

  /** Without samples everything is reported as zero. */
  lemma EmptySummary()
    ensures Summarize([]) == Summary(0.0, 0.0, 0.0, 0.0)
  {
    EmptyPercentile(1, 2);
    EmptyPercentile(19, 20);
    EmptyMean();
    RoundZero();
  }

  /** The reported maximum is a sample, rounded, that no other sample rounds above. */
  lemma MaxIsGreatest(xs: seq<real>, x: real)
    requires x in xs
    ensures Last(Sort(xs)) in xs && x <= Last(Sort(xs)) && RoundMs(x) <= Summarize(xs).max
  {
    SortSorts(xs);
    assert x in multiset(Sort(xs)) && Last(Sort(xs)) in multiset(Sort(xs));
    RoundMonotone(x, Last(Sort(xs)));
  }
}
