/**
 Finding regular connection patterns (src/beacon-detector.js): per group of
 connections the median gap must be plausible and the gaps must vary little.

 Medians are kept doubled so that they stay whole; the variation test is stated
 on squares, without the square root.
 */
module BeaconDetector {
  import opened Common

  datatype Options = Options(minObs: nat, maxCov: real, minIntervalMs: int, maxIntervalMs: int)

  const DEFAULTS := Options(4, 0.5, 60_000, 14_400_000)

  datatype Key = Key(src: string, dst: string, dport: int, proto: string)
  /** `skipped`: the destination is private, or the host is on the whitelist. */
  datatype Event = Event(key: Key, dstHost: Option<string>, seenAt: int, skipped: bool)

  /** What the times of a group come to, the median doubled. */
  datatype Candidate = Candidate(doubleMedian: Option<int>, obsCount: nat, firstSeen: int, lastSeen: int)

  /** What is reported of a group. */
  datatype Beacon = Beacon(dstHost: Option<string>, candidate: Candidate)

  /** `meta` is the first event of the group. */
  datatype Group = Group(meta: Event, times: seq<int>)

  // -------------------------------------------------------------- sequences

  predicate Sorted(s: seq<int>) {
    forall i, j :: 0 <= i < j < |s| ==> s[i] <= s[j]
  }

  function Elements(s: seq<int>): set<int> {
    set x <- s
  }

  function Sum(s: seq<int>): int {
    if s == [] then 0 else Sum(s[..|s| - 1]) + s[|s| - 1]
  }

  lemma {:induction false} SumOfConcat(a: seq<int>, b: seq<int>)
    ensures Sum(a + b) == Sum(a) + Sum(b)
    decreases |b|
  {
    if b == [] {
      assert a + b == a;
    } else {
      assert (a + b)[..|a + b| - 1] == a + b[..|b| - 1];
      SumOfConcat(a, b[..|b| - 1]);
    }
  }

  lemma SplitAt(s: seq<int>, i: nat)
    requires i < |s|
    ensures s == s[..i] + [s[i]] + s[i + 1..]
  {
  }

  lemma SumWithout(s: seq<int>, i: nat)
    requires i < |s|
    ensures Sum(s) == Sum(s[..i] + s[i + 1..]) + s[i]
  {
    SplitAt(s, i);
    SumOfThree(s[..i], s[i], s[i + 1..]);
  }

  lemma SumOfThree(a: seq<int>, x: int, b: seq<int>)
    ensures Sum(a + [x] + b) == Sum(a + b) + x
  {
    SumOfConcat(a + [x], b);
    SumOfConcat(a, [x]);
    SumOfConcat(a, b);
    SumOfOne(x);
  }

  lemma SumOfOne(x: int)
    ensures Sum([x]) == x
  {
    assert [x][..0] == [];
  }

  /** `b` holds the last of `a` somewhere, and the rest of `a` elsewhere. */
  lemma LastOf(a: seq<int>, b: seq<int>) returns (i: nat)
    requires multiset(a) == multiset(b) && a != []
    ensures i < |b| && b[i] == a[|a| - 1] && multiset(a[..|a| - 1]) == multiset(b[..i] + b[i + 1..])
  {
    assert a[|a| - 1] in multiset(b);
    i :| 0 <= i < |b| && b[i] == a[|a| - 1];
    MultisetWithout(b, i);
    MultisetButLast(a);
    assert multiset(b[..i] + b[i + 1..]) == multiset(b) - multiset{b[i]};
  }

  lemma MultisetButLast(a: seq<int>)
    requires a != []
    ensures multiset(a[..|a| - 1]) == multiset(a) - multiset{a[|a| - 1]}
  {
    LastApart(a);
    assert multiset(a) == multiset(a[..|a| - 1]) + multiset{a[|a| - 1]};
  }

  lemma LastApart(a: seq<int>)
    requires a != []
    ensures a == a[..|a| - 1] + [a[|a| - 1]]
  {
  }

  lemma {:induction false} SumIsOrderFree(a: seq<int>, b: seq<int>)
    requires multiset(a) == multiset(b)
    ensures Sum(a) == Sum(b)
    decreases |a|
  {
    if a == [] {
      assert |multiset(b)| == |b|;
    } else {
      var i := LastOf(a, b);
      SumIsOrderFree(a[..|a| - 1], b[..i] + b[i + 1..]);
      SumWithout(b, i);
    }
  }

  lemma SameLength(a: seq<int>, b: seq<int>)
    requires multiset(a) == multiset(b)
    ensures |a| == |b|
  {
    assert |multiset(a)| == |a| && |multiset(b)| == |b|;
  }

  /** Differences of neighbours. */
  function Gaps(u: seq<int>): (gaps: seq<int>)
    ensures |gaps| == Max(0, |u| - 1)
    ensures forall i :: 0 <= i < |gaps| ==> gaps[i] == u[i + 1] - u[i]
  {
    seq(Max(0, |u| - 1), i requires 0 <= i < Max(0, |u| - 1) => u[i + 1] - u[i])
  }

  lemma {:induction false} GapsTelescope(u: seq<int>)
    requires u != []
    ensures Sum(Gaps(u)) == u[|u| - 1] - u[0]
    decreases |u|
  {
    if |u| > 1 {
      var shorter := u[..|u| - 1];
      GapsTelescope(shorter);
      assert Gaps(u)[..|u| - 2] == Gaps(shorter);
    }
  }

  // ------------------------------------------------------------- statistics

  /** Twice the median of a sorted list. */
  function DoubleMedian(sorted: seq<int>): int
    requires sorted != []
  {
    var mid := |sorted| / 2;
    if |sorted| % 2 != 0 then 2 * sorted[mid] else sorted[mid - 1] + sorted[mid]
  }

  /** If the last `k` of a list of non-negative numbers are at least `low`, so is their mean. */
  lemma {:induction false} SumAtLeast(s: seq<int>, k: nat, low: int)
    requires k <= |s| && (forall i :: 0 <= i < |s| ==> s[i] >= 0)
    requires forall i :: |s| - k <= i < |s| ==> s[i] >= low
    ensures Sum(s) >= k * low && Sum(s) >= 0
    decreases |s|
  {
    if s != [] {
      SumAtLeast(s[..|s| - 1], if k == 0 then 0 else k - 1, low);
      if k > 0 {
        assert (k - 1) * low + low == k * low;
      }
    }
  }

  lemma MulMonotone(n: nat, a: int, b: int)
    requires a <= b
    ensures n * a <= n * b
  {
  }

  lemma HalfArithmetic(n: nat, upper: nat, x: nat, doubleMedian: int, sum: int)
    requires sum >= upper * x && n <= 2 * upper && doubleMedian <= 2 * x
    ensures 4 * sum >= n * doubleMedian
  {
    MulMonotone(n, doubleMedian, 2 * x);
    MulMonotone(2 * x, n, 2 * upper);
    assert (2 * x) * (2 * upper) == 4 * (upper * x);
  }

  /** Half the numbers are at least the median, so the sum is at least half the
      count times the median, for odd and even counts. */
  lemma SumIsHalfTheMedians(sorted: seq<int>)
    requires sorted != [] && Sorted(sorted) && forall i :: 0 <= i < |sorted| ==> sorted[i] >= 0
    ensures 4 * Sum(sorted) >= |sorted| * DoubleMedian(sorted)
  {
    var n, mid := |sorted|, |sorted| / 2;
    SumAtLeast(sorted, n - mid, sorted[mid]);
    HalfArithmetic(n, n - mid, sorted[mid], DoubleMedian(sorted), Sum(sorted));
  }

  function SquaresAround(values: seq<int>, mean: real): real {
    if values == [] then 0.0
    else SquaresAround(values[..|values| - 1], mean)
         + (values[|values| - 1] as real - mean) * (values[|values| - 1] as real - mean)
  }

  /** stddev / mean > maxCov, squared. */
  predicate VariesTooMuch(values: seq<int>, maxCov: real) {
    if |values| < 2 then 0.0 > maxCov
    else
      var mean := Sum(values) as real / |values| as real;
      if mean == 0.0 then 0.0 > maxCov
      else maxCov < 0.0 || SquaresAround(values, mean) / |values| as real > maxCov * maxCov * mean * mean
  }

  // ------------------------------------------------------------- one group

  /** `span < med * (minObs - 1) * 0.5`. */
  predicate SpanTooShort(u: seq<int>, doubleMedian: int, minObs: nat)
    requires u != []
  {
    4 * (u[|u| - 1] - u[0]) < doubleMedian * (minObs - 1)
  }

  lemma GapsArePositive(u: seq<int>, sortedGaps: seq<int>)
    requires Ascending(u) && multiset(sortedGaps) == multiset(Gaps(u))
    ensures forall i :: 0 <= i < |sortedGaps| ==> sortedGaps[i] > 0
  {
    forall i | 0 <= i < |sortedGaps| ensures sortedGaps[i] > 0 {
      assert sortedGaps[i] in multiset(Gaps(u));
    }
  }

  /** The span is at least half the median gap times any smaller number of gaps,
      so the span guard rejects no group that reaches it. */
  lemma SpanGuardNeverRejects(u: seq<int>, sortedGaps: seq<int>, minObs: nat)
    requires Ascending(u) && |u| >= 2 && |u| >= minObs
    requires Sorted(sortedGaps) && multiset(sortedGaps) == multiset(Gaps(u))
    ensures sortedGaps != [] && !SpanTooShort(u, DoubleMedian(sortedGaps), minObs)
  {
    assert |Gaps(u)| == |u| - 1;
    SameLength(sortedGaps, Gaps(u));
    SumIsOrderFree(sortedGaps, Gaps(u));
    GapsTelescope(u);
    GapsArePositive(u, sortedGaps);
    SumIsHalfTheMedians(sortedGaps);
    FewerGapsNeedLess(u[|u| - 1] - u[0], DoubleMedian(sortedGaps), minObs - 1, |sortedGaps|);
  }

  lemma FewerGapsNeedLess(span: int, doubleMedian: nat, few: int, many: int)
    requires 4 * span >= many * doubleMedian && few <= many
    ensures 4 * span >= doubleMedian * few
  {
    MulMonotone(doubleMedian, few, many);
  }

  lemma {:induction false} SortedIsUnique(a: seq<int>, b: seq<int>)
    requires Sorted(a) && Sorted(b) && multiset(a) == multiset(b)
    ensures a == b
    decreases |a|
  {
    SameLength(a, b);
    if a != [] {
      var last := |a| - 1;
      LastIsGreatest(a, b);
      LastIsGreatest(b, a);
      MultisetButLast(a);
      MultisetButLast(b);
      SortedIsUnique(a[..last], b[..last]);
      LastApart(a);
      LastApart(b);
    }
  }

  lemma LastIsGreatest(a: seq<int>, b: seq<int>)
    requires Sorted(a) && a != [] && b != [] && multiset(a) == multiset(b)
    ensures b[|b| - 1] <= a[|a| - 1]
  {
    assert b[|b| - 1] in multiset(a);
  }

  /** There is one strictly ascending listing of a set. */
  lemma {:induction false} ListingIsUnique(a: seq<int>, b: seq<int>)
    requires Ascending(a) && Ascending(b) && Elements(a) == Elements(b)
    ensures a == b
    decreases |a|
  {
    if a == [] || b == [] {
      EmptyListing(a);
      EmptyListing(b);
    } else {
      LastElement(a, b);
      LastElement(b, a);
      ShorterElements(a);
      ShorterElements(b);
      ListingIsUnique(a[..|a| - 1], b[..|b| - 1]);
      LastApart(a);
      LastApart(b);
    }
  }

  lemma EmptyListing(a: seq<int>)
    ensures a == [] <==> Elements(a) == {}
  {
    if a != [] { assert a[0] in Elements(a); }
  }

  lemma LastElement(a: seq<int>, b: seq<int>)
    requires Ascending(a) && a != [] && b != [] && Elements(a) == Elements(b)
    ensures b[|b| - 1] <= a[|a| - 1]
  {
    assert b[|b| - 1] in Elements(a);
  }

  lemma ShorterElements(a: seq<int>)
    requires a != [] && Ascending(a)
    ensures Elements(a[..|a| - 1]) == Elements(a) - {a[|a| - 1]}
  {
    LastApart(a);
  }

  /** The group's report, from its distinct times in order and its gaps in order.
      With a single time there is no gap and no median, and no comparison rejects it. */
  function ReportOf(u: seq<int>, sortedGaps: seq<int>, o: Options): Option<Candidate>
    requires u != [] && |sortedGaps| == |u| - 1
  {
    if |u| < o.minObs then None
    else if sortedGaps == [] then
      if VariesTooMuch([], o.maxCov) then None else Some(Candidate(None, 1, u[0], u[0]))
    else if DoubleMedian(sortedGaps) < 2 * o.minIntervalMs || DoubleMedian(sortedGaps) > 2 * o.maxIntervalMs then None
    else if VariesTooMuch(Gaps(u), o.maxCov) then None
    else Some(Candidate(Some(DoubleMedian(sortedGaps)), |u|, u[0], u[|u| - 1]))
  }

  /** The median is the mean of the two middle values, which for an odd count are the
      same; no more than half of the values lie below it and no more above. */
  lemma MedianIsTheMiddle(sorted: seq<int>)
    requires sorted != [] && Sorted(sorted)
    ensures DoubleMedian(sorted) == sorted[(|sorted| - 1) / 2] + sorted[|sorted| / 2]
    ensures forall i :: 0 <= i <= (|sorted| - 1) / 2 ==> 2 * sorted[i] <= DoubleMedian(sorted)
    ensures forall i :: |sorted| / 2 <= i < |sorted| ==> 2 * sorted[i] >= DoubleMedian(sorted)
  {
  }

  function SumOfSquares(values: seq<int>): int {
    if values == [] then 0
    else SumOfSquares(values[..|values| - 1]) + values[|values| - 1] * values[|values| - 1]
  }

  function Expanded(n: real, sum: real, squares: real, mean: real): real {
    squares - 2.0 * mean * sum + n * (mean * mean)
  }

  predicate Exceeds(around: real, n: real, mean: real, maxCov: real)
    requires n != 0.0
  {
    around / n > maxCov * maxCov * mean * mean
  }

  lemma {:induction false} SquaresExpand(values: seq<int>, m: real)
    ensures SquaresAround(values, m) == Expanded(|values| as real, Sum(values) as real, SumOfSquares(values) as real, m)
  {
    if values != [] {
      var before, v := values[..|values| - 1], values[|values| - 1];
      SquaresExpand(before, m);
      SquareOfDifference(v as real, m);
      assert (v * v) as real == v as real * v as real;
      OneMoreOf(|before| as real, m * m, 2.0 * m, Sum(before) as real, v as real);
    }
  }

  lemma SquareOfDifference(v: real, m: real)
    ensures (v - m) * (v - m) == v * v - 2.0 * m * v + m * m
  {
  }

  lemma OneMoreOf(n: real, square: real, factor: real, sum: real, v: real)
    ensures (n + 1.0) * square == n * square + square && factor * (sum + v) == factor * sum + factor * v
  {
  }

  lemma MeanArithmetic(n: real, sum: real, mean: real)
    requires n > 0.0 && mean == sum / n
    ensures mean * n == sum
    ensures n * (-2.0 * mean * sum + n * (mean * mean)) == -(sum * sum)
  {
    assert mean * n == sum;
    assert n * (n * (mean * mean)) == (mean * n) * (mean * n);
    assert n * (-2.0 * mean * sum) == -2.0 * (mean * n) * sum;
  }

  lemma Scaled(n: real, a: real, b: real)
    requires n > 0.0
    ensures a > b <==> n * a > n * b
  {
    if a > b { assert n * (a - b) > 0.0; } else { assert n * (b - a) >= 0.0; }
  }

  lemma MulDiv(a: real, n: real)
    requires n > 0.0
    ensures n * (n * (a / n)) == n * a
  {
    assert n * (a / n) == a;
  }

  /** n times the sum of the squares exceeds the square of the sum by more than the limit allows. */
  predicate SpreadExceeds(n: real, sum: real, squares: real, maxCov: real) {
    n * squares - sum * sum > maxCov * maxCov * (sum * sum)
  }

  /** The variation, without a mean and without a root. */
  lemma VariesIff(values: seq<int>, maxCov: real)
    requires |values| >= 2 && Sum(values) != 0 && maxCov >= 0.0
    ensures VariesTooMuch(values, maxCov) <==>
            SpreadExceeds(|values| as real, Sum(values) as real, SumOfSquares(values) as real, maxCov)
  {
    var n, sum, squares := |values| as real, Sum(values) as real, SumOfSquares(values) as real;
    var mean := sum / n;
    var around := SquaresAround(values, mean);
    assert mean != 0.0 && (Exceeds(around, n, mean, maxCov) <==> SpreadExceeds(n, sum, squares, maxCov)) by {
      SquaresExpand(values, mean);
      VarianceArithmetic(n, sum, mean, squares, around, maxCov);
    }
    assert VariesTooMuch(values, maxCov) <==> Exceeds(around, n, mean, maxCov) by {
      VariesAround(values, maxCov, mean, around);
    }
  }

  lemma VariesAround(values: seq<int>, maxCov: real, mean: real, around: real)
    requires |values| >= 2 && maxCov >= 0.0 && mean != 0.0
    requires mean == Sum(values) as real / |values| as real && around == SquaresAround(values, mean)
    ensures VariesTooMuch(values, maxCov) <==> Exceeds(around, |values| as real, mean, maxCov)
  {
  }

  lemma VarianceArithmetic(n: real, sum: real, mean: real, squares: real, around: real, maxCov: real)
    requires n > 0.0 && sum != 0.0 && mean == sum / n
    requires around == Expanded(n, sum, squares, mean)
    ensures mean != 0.0
    ensures Exceeds(around, n, mean, maxCov) <==> SpreadExceeds(n, sum, squares, maxCov)
  {
    MeanArithmetic(n, sum, mean);
    var limit := maxCov * maxCov * mean * mean;
    Scaled(n, around / n, limit);
    Scaled(n, n * (around / n), n * limit);
    MulDiv(around, n);
    Distribute(n, squares, -2.0 * mean * sum + n * (mean * mean));
    Regroup(n, maxCov, mean);
  }

  lemma Distribute(n: real, a: real, b: real)
    ensures n * (a + b) == n * a + n * b
  {
  }

  lemma Regroup(n: real, c: real, m: real)
    ensures n * (n * (c * c * m * m)) == c * c * ((m * n) * (m * n))
  {
    var square := c * c;
    assert square * m * m == square * (m * m);
    assert n * (square * (m * m)) == square * (n * (m * m));
    assert n * (square * (n * (m * m))) == square * (n * (n * (m * m)));
    assert n * (n * (m * m)) == (m * n) * (m * n);
  }

  /** A group is reported exactly if it has enough distinct times, the median of their
      gaps lies in the interval, bounds included, and the gaps do not vary too much;
      with the number of times, the earliest and the latest. */
  lemma ReportSays(times: set<int>, o: Options, c: Option<Candidate>, u: seq<int>, gaps: seq<int>)
    requires IsArranged(times, u, gaps) && IsVerdict(times, o, c)
    ensures c.Some? <==>
            && |times| >= o.minObs && !VariesTooMuch(Gaps(u), o.maxCov)
            && (gaps != [] ==>
                  2 * o.minIntervalMs <= gaps[(|gaps| - 1) / 2] + gaps[|gaps| / 2] <= 2 * o.maxIntervalMs)
    ensures c.Some? ==>
              && c.value.obsCount == |times|
              && c.value.doubleMedian == (if gaps == [] then None else Some(gaps[(|gaps| - 1) / 2] + gaps[|gaps| / 2]))
              && c.value.firstSeen in times && (forall t <- times :: c.value.firstSeen <= t)
              && c.value.lastSeen in times && (forall t <- times :: t <= c.value.lastSeen)
  {
    VerdictDependsOnTheSetOfTimes(times, o, c, ReportOf(u, gaps, o));
    AsManyAsListed(u);
    NumbersOfReport(u, gaps, o);
    FirstAndLast(u);
  }

  lemma NumbersOfReport(u: seq<int>, gaps: seq<int>, o: Options)
    requires u != [] && |gaps| == |u| - 1 && Sorted(gaps)
    ensures var c := ReportOf(u, gaps, o);
            && (c.Some? <==>
                  && |u| >= o.minObs && !VariesTooMuch(Gaps(u), o.maxCov)
                  && (gaps != [] ==>
                        2 * o.minIntervalMs <= gaps[(|gaps| - 1) / 2] + gaps[|gaps| / 2] <= 2 * o.maxIntervalMs))
            && (c.Some? ==>
                  c.value == Candidate(if gaps == [] then None else Some(gaps[(|gaps| - 1) / 2] + gaps[|gaps| / 2]),
                                       |u|, u[0], u[|u| - 1]))
  {
    if gaps != [] { MedianIsTheMiddle(gaps); } else { assert Gaps(u) == []; }
  }

  lemma FirstAndLast(u: seq<int>)
    requires u != [] && Ascending(u)
    ensures u[0] in Elements(u) && u[|u| - 1] in Elements(u)
    ensures forall t <- Elements(u) :: u[0] <= t <= u[|u| - 1]
  {
  }

  lemma {:induction false} AsManyAsListed(u: seq<int>)
    requires Ascending(u)
    ensures |Elements(u)| == |u|
  {
    if u != [] {
      AsManyAsListed(u[..|u| - 1]);
      ShorterElements(u);
      assert u[|u| - 1] in Elements(u);
    } else {
      assert Elements(u) == {};
    }
  }

  /** What a group reports is a function of the set of its times. */
  ghost predicate IsVerdict(times: set<int>, o: Options, c: Option<Candidate>) {
    exists u, sortedGaps :: IsArranged(times, u, sortedGaps) && c == ReportOf(u, sortedGaps, o)
  }

  ghost predicate IsArranged(times: set<int>, u: seq<int>, sortedGaps: seq<int>) {
    && u != [] && Ascending(u) && Elements(u) == times
    && |sortedGaps| == |u| - 1 && Sorted(sortedGaps) && multiset(sortedGaps) == multiset(Gaps(u))
  }

  /** Same times, same verdict: neither the order of the events nor repeats matter. */
  lemma VerdictDependsOnTheSetOfTimes(times: set<int>, o: Options, c: Option<Candidate>, d: Option<Candidate>)
    requires IsVerdict(times, o, c) && IsVerdict(times, o, d)
    ensures c == d
  {
    var u, g :| IsArranged(times, u, g) && c == ReportOf(u, g, o);
    var v, h :| IsArranged(times, v, h) && d == ReportOf(v, h, o);
    ListingIsUnique(u, v);
    SortedIsUnique(g, h);
  }

  // ------------------------------------------------------------- the detector

  /** `sort((a, b) => a - b)`. */
  method SortNumbers(list: seq<int>) returns (sorted: seq<int>)
    ensures Sorted(sorted) && multiset(sorted) == multiset(list)
  {
    sorted := [];
    for i := 0 to |list|
      invariant Sorted(sorted) && multiset(sorted) == multiset(list[..i])
    {
      assert list[..i + 1] == list[..i] + [list[i]];
      sorted := Insert(sorted, list[i]);
    }
    assert list[..|list|] == list;
  }

  method Insert(sorted: seq<int>, x: int) returns (longer: seq<int>)
    requires Sorted(sorted)
    ensures Sorted(longer) && multiset(longer) == multiset(sorted) + multiset{x}
  {
    var at := |sorted|;
    while at > 0 && sorted[at - 1] > x
      invariant 0 <= at <= |sorted|
      invariant forall j :: at <= j < |sorted| ==> x <= sorted[j]
    {
      at := at - 1;
    }
    InsertedInOrder(sorted, at, x);
    InsertedOnce(sorted, at, x);
    longer := sorted[..at] + [x] + sorted[at..];
  }

  lemma InsertedInOrder(sorted: seq<int>, at: nat, x: int)
    requires Sorted(sorted) && at <= |sorted| && (at > 0 ==> sorted[at - 1] <= x)
    requires forall j :: at <= j < |sorted| ==> x <= sorted[j]
    ensures Sorted(sorted[..at] + [x] + sorted[at..])
  {
  }

  lemma OneMoreElement(s: seq<int>, x: int)
    ensures Elements(s + [x]) == Elements(s) + {x}
  {
    assert (s + [x])[|s|] == x;
    assert forall i :: 0 <= i < |s| ==> (s + [x])[i] == s[i];
  }

  /** `[...new Set(times)]` of sorted times. */
  method Distinct(sorted: seq<int>) returns (u: seq<int>)
    requires Sorted(sorted)
    ensures Ascending(u) && Elements(u) == Elements(sorted)
  {
    u := [];
    for i := 0 to |sorted|
      invariant Ascending(u) && Elements(u) == Elements(sorted[..i])
    {
      assert sorted[..i + 1] == sorted[..i] + [sorted[i]];
      OneMoreElement(sorted[..i], sorted[i]);
      OneMoreElement(u, sorted[i]);
      forall j | 0 <= j < |u| ensures u[j] <= sorted[i] {
        assert u[j] in Elements(u);
      }
      if sorted[i] !in u {
        u := u + [sorted[i]];
      }
    }
    assert sorted[..|sorted|] == sorted;
  }

  method GapsBetween(u: seq<int>) returns (gaps: seq<int>)
    ensures gaps == Gaps(u)
  {
    gaps := [];
    var i := 1;
    while i < |u|
      invariant 1 <= i <= Max(1, |u|) && |gaps| == i - 1
      invariant gaps == Gaps(u)[..i - 1]
    {
      gaps := gaps + [u[i] - u[i - 1]];
      i := i + 1;
    }
    assert |gaps| == |Gaps(u)|;
  }

  /** One group of `detectBeacons`. */
  method JudgeGroup(times: seq<int>, o: Options) returns (c: Option<Candidate>)
    requires times != []
    ensures IsVerdict(Elements(times), o, c)
  {
    if |times| < o.minObs {
      TooFewIsNoVerdict(times, o);
      return None;
    }
    var sorted := SortNumbers(times);
    SameElements(sorted, times);
    var unique := Distinct(sorted);
    EmptyListing(unique);
    EmptyListing(times);
    var gaps := GapsBetween(unique);
    var sortedGaps := SortNumbers(gaps);
    SameLength(sortedGaps, gaps);
    assert IsArranged(Elements(times), unique, sortedGaps);
    if |unique| < o.minObs {
      return None;
    }
    if sortedGaps != [] {
      var med := DoubleMedian(sortedGaps);
      if med < 2 * o.minIntervalMs || med > 2 * o.maxIntervalMs {
        return None;
      }
    }
    if VariesTooMuch(gaps, o.maxCov) {
      return None;
    }
    if sortedGaps == [] {
      return Some(Candidate(None, |unique|, unique[0], unique[|unique| - 1]));
    }
    if SpanTooShort(unique, DoubleMedian(sortedGaps), o.minObs) {
      SpanGuardNeverRejects(unique, sortedGaps, o.minObs);
      assert false;
    }
    c := Some(Candidate(Some(DoubleMedian(sortedGaps)), |unique|, unique[0], unique[|unique| - 1]));
  }

  lemma SameElements(a: seq<int>, b: seq<int>)
    requires multiset(a) == multiset(b)
    ensures Elements(a) == Elements(b)
  {
    forall x ensures x in a <==> x in b {
      assert x in a <==> x in multiset(a);
      assert x in b <==> x in multiset(b);
    }
  }

  predicate InGroup(e: Event, key: Key) {
    e.key == key && !e.skipped
  }

  /** The times of one group. */
  function TimesOf(events: seq<Event>, key: Key): set<int> {
    set e <- events | InGroup(e, key) :: e.seenAt
  }

  /** The first event of a group. */
  function FirstOf(events: seq<Event>, key: Key): (first: Option<Event>)
    ensures first.Some? ==> first.value in events && InGroup(first.value, key)
  {
    if events == [] then None
    else
      var before, e := FirstOf(events[..|events| - 1], key), events[|events| - 1];
      if before.None? && InGroup(e, key) then Some(e) else before
  }

  /** `dstHost || null`. */
  function HostName(e: Event): Option<string> {
    if e.dstHost == Some("") then None else e.dstHost
  }

  function HostOf(events: seq<Event>, key: Key): Option<string> {
    match FirstOf(events, key) case Some(e) => HostName(e) case None => None
  }

  /** Every group reports its verdict with the host of its first event, and nothing else is reported. */
  ghost predicate Reports(events: seq<Event>, o: Options, found: map<Key, Beacon>) {
    forall key: Key :: ReportsGroup(events, o, found, key)
  }

  ghost predicate ReportsGroup(events: seq<Event>, o: Options, found: map<Key, Beacon>, key: Key) {
    if TimesOf(events, key) == {} then key !in found
    else
      && IsVerdict(TimesOf(events, key), o, if key in found then Some(found[key].candidate) else None)
      && (key in found ==> found[key].dstHost == HostOf(events, key))
  }

  /** Two lists of events with the same times per group report the same groups,
      with the same numbers; and the same hosts if and only if their first events agree. */
  lemma ReportsDependOnTheSetOfTimes(a: seq<Event>, b: seq<Event>, o: Options, found: map<Key, Beacon>,
                                     other: map<Key, Beacon>)
    requires Reports(a, o, found) && Reports(b, o, other)
    requires forall key: Key :: TimesOf(a, key) == TimesOf(b, key)
    ensures found.Keys == other.Keys && forall key <- found :: found[key].candidate == other[key].candidate
    ensures found == other <==> forall key <- found :: HostOf(a, key) == HostOf(b, key)
  {
    forall key: Key
      ensures key in found <==> key in other
      ensures key in found ==> found[key].candidate == other[key].candidate
      ensures key in found ==> found[key].dstHost == HostOf(a, key) && other[key].dstHost == HostOf(b, key)
    {
      var times := TimesOf(a, key);
      assert TimesOf(b, key) == times;
      assert ReportsGroup(a, o, found, key) && ReportsGroup(b, o, other, key);
      if times != {} {
        VerdictDependsOnTheSetOfTimes(times, o, if key in found then Some(found[key].candidate) else None,
                                      if key in other then Some(other[key].candidate) else None);
      }
    }
  }

  ghost predicate OneHost(events: seq<Event>, key: Key) {
    forall e <- events, f <- events :: InGroup(e, key) && InGroup(f, key) ==> HostName(e) == HostName(f)
  }

  /** The host reported of a group does not depend on the order of the events if
      and only if all events of the group name the same host. */
  lemma HostIsStableIff(events: seq<Event>, key: Key)
    ensures (forall other: seq<Event> :: multiset(other) == multiset(events) ==> HostOf(other, key) == HostOf(events, key))
            <==> OneHost(events, key)
  {
    if OneHost(events, key) {
      forall other: seq<Event> | multiset(other) == multiset(events) ensures HostOf(other, key) == HostOf(events, key) {
        OneHostIsReported(events, other, key);
      }
    } else {
      var e, f :| e in events && f in events && InGroup(e, key) && InGroup(f, key) && HostName(e) != HostName(f);
      var i :| 0 <= i < |events| && events[i] == e;
      var j :| 0 <= j < |events| && events[j] == f;
      MovedToFront(events, i, key);
      MovedToFront(events, j, key);
    }
  }

  lemma OneHostIsReported(events: seq<Event>, other: seq<Event>, key: Key)
    requires OneHost(events, key) && multiset(other) == multiset(events)
    ensures HostOf(other, key) == HostOf(events, key)
  {
    forall e: Event ensures e in other <==> e in events {
      assert e in other <==> e in multiset(other);
      assert e in events <==> e in multiset(events);
    }
    GroupHasAFirst(other, key);
    GroupHasAFirst(events, key);
  }

  lemma {:induction false} GroupHasAFirst(events: seq<Event>, key: Key)
    ensures FirstOf(events, key).Some? <==> exists e <- events :: InGroup(e, key)
  {
    if events != [] {
      var last := |events| - 1;
      GroupHasAFirst(events[..last], key);
      assert events[last] in events && forall e <- events :: e in events[..last] || e == events[last];
    }
  }

  lemma MovedToFront(events: seq<Event>, i: nat, key: Key)
    requires i < |events| && InGroup(events[i], key)
    ensures var other := [events[i]] + (events[..i] + events[i + 1..]);
            multiset(other) == multiset(events) && HostOf(other, key) == HostName(events[i])
  {
    assert events == events[..i] + [events[i]] + events[i + 1..];
    FrontIsFirst(events[i], events[..i] + events[i + 1..], key);
  }

  lemma {:induction false} FrontIsFirst(e: Event, rest: seq<Event>, key: Key)
    requires InGroup(e, key)
    ensures FirstOf([e] + rest, key) == Some(e)
  {
    var all := [e] + rest;
    if rest == [] {
      assert all[..0] == [] && all == [e];
    } else {
      assert all[..|all| - 1] == [e] + rest[..|rest| - 1];
      FrontIsFirst(e, rest[..|rest| - 1], key);
    }
  }

  lemma OneMoreEvent(events: seq<Event>, e: Event, key: Key)
    ensures TimesOf(events + [e], key) == TimesOf(events, key) + (if InGroup(e, key) then {e.seenAt} else {})
    ensures FirstOf(events + [e], key)
            == if FirstOf(events, key).None? && InGroup(e, key) then Some(e) else FirstOf(events, key)
  {
    assert (events + [e])[|events|] == e && (events + [e])[..|events|] == events;
    assert forall i :: 0 <= i < |events| ==> (events + [e])[i] == events[i];
    forall x <- events ensures x in events + [e] {}
    forall x <- events + [e] ensures x in events || x == e {}
  }

  /** The events by group: its first event and all its times. */
  method GroupEvents(events: seq<Event>) returns (groups: map<Key, Group>)
    ensures forall key: Key :: Grouped(events, groups, key)
  {
    groups := map[];
    for i := 0 to |events|
      invariant forall key: Key :: Grouped(events[..i], groups, key)
    {
      var e := events[i];
      var seen, more := events[..i + 1], WithEvent(groups, e);
      assert seen == events[..i] + [e];
      forall key: Key ensures Grouped(seen, more, key) {
        assert Grouped(events[..i], groups, key);
        OneMoreEvent(events[..i], e, key);
        if key in groups { OneMoreElement(groups[key].times, e.seenAt); }
        OneMoreElement([], e.seenAt);
        assert [] + [e.seenAt] == [e.seenAt];
      }
      groups := more;
    }
    assert events[..|events|] == events;
  }

  function WithEvent(groups: map<Key, Group>, e: Event): map<Key, Group> {
    if e.skipped then groups
    else
      var group := if e.key in groups then groups[e.key] else Group(e, []);
      groups[e.key := group.(times := group.times + [e.seenAt])]
  }

  predicate Grouped(events: seq<Event>, groups: map<Key, Group>, key: Key) {
    if key in groups then
      && groups[key].times != [] && Elements(groups[key].times) == TimesOf(events, key)
      && FirstOf(events, key) == Some(groups[key].meta)
    else TimesOf(events, key) == {} && FirstOf(events, key) == None
  }

  /** All groups' verdicts, before they are put in order of regularity. */
  method DetectBeacons(events: seq<Event>, o: Options) returns (found: map<Key, Beacon>)
    ensures Reports(events, o, found)
  {
    var groups := GroupEvents(events);
    found := map[];
    var rest := groups.Keys;
    while rest != {}
      invariant rest <= groups.Keys
      invariant forall key <- found :: key in groups && key !in rest && found[key].dstHost == HostName(groups[key].meta)
      invariant forall key <- groups :: key in rest
                  || IsVerdict(Elements(groups[key].times), o, if key in found then Some(found[key].candidate) else None)
      decreases |rest|
    {
      var key := AnyOf(rest);
      assert Grouped(events, groups, key);
      var c := JudgeGroup(groups[key].times, o);
      rest := rest - {key};
      if c.Some? {
        found := found[key := Beacon(HostName(groups[key].meta), c.value)];
      }
    }
    forall key: Key ensures ReportsGroup(events, o, found, key) {
      assert Grouped(events, groups, key);
      if key in groups {
        EmptyListing(groups[key].times);
      }
    }
  }

  // ---------------------------------------------------- every group has one

  lemma {:induction false} ListingExists(times: set<int>) returns (u: seq<int>)
    ensures Ascending(u) && Elements(u) == times && |u| == |times|
  {
    if times == {} {
      u := [];
    } else {
      var m := GreatestExists(times);
      var before := ListingExists(times - {m});
      u := before + [m];
      OneMoreElement(before, m);
      forall i | 0 <= i < |before| ensures before[i] < m {
        assert before[i] in Elements(before);
      }
    }
  }

  lemma {:induction false} SortedExists(a: seq<int>) returns (b: seq<int>)
    ensures Sorted(b) && multiset(b) == multiset(a)
  {
    if a == [] {
      b := [];
    } else {
      var last := |a| - 1;
      var before := SortedExists(a[..last]);
      var at := PlaceExists(before, a[last]);
      InsertedInOrder(before, at, a[last]);
      InsertedOnce(before, at, a[last]);
      MultisetButLast(a);
      b := before[..at] + [a[last]] + before[at..];
      assert a[last] in a;
    }
  }

  lemma {:induction false} PlaceExists(sorted: seq<int>, x: int) returns (at: nat)
    requires Sorted(sorted)
    ensures at <= |sorted| && (at > 0 ==> sorted[at - 1] <= x)
    ensures forall j :: at <= j < |sorted| ==> x <= sorted[j]
  {
    if sorted == [] || sorted[|sorted| - 1] <= x {
      at := |sorted|;
    } else {
      at := PlaceExists(sorted[..|sorted| - 1], x);
    }
  }

  lemma {:induction false} FewDistinct(times: seq<int>)
    ensures |Elements(times)| <= |times|
  {
    if times != [] {
      LastApart(times);
      FewDistinct(times[..|times| - 1]);
      OneMoreElement(times[..|times| - 1], times[|times| - 1]);
    }
  }

  lemma TooFewIsNoVerdict(times: seq<int>, o: Options)
    requires times != [] && |times| < o.minObs
    ensures IsVerdict(Elements(times), o, None)
  {
    var u := ListingExists(Elements(times));
    FewDistinct(times);
    EmptyListing(times);
    EmptyListing(u);
    var sortedGaps := SortedExists(Gaps(u));
    SameLength(sortedGaps, Gaps(u));
    assert IsArranged(Elements(times), u, sortedGaps);
    assert ReportOf(u, sortedGaps, o) == None;
  }
}
