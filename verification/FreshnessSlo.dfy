/** The discovery-latency report: delay filtering, nearest-rank percentiles, and the verdict. */
module FreshnessSlo {
  import opened Prelude

  const MINUTE_MS := 60_000

  /** A percentile fraction as a rational, so that `ceil(fraction * n)` has no rounding. */
  datatype Fraction = Fraction(num: nat, den: nat) {
    predicate Valid() {
      0 < num <= den
    }
  }

  const HALF := Fraction(1, 2)
  const NINE_TENTHS := Fraction(9, 10)

  /** `Math.ceil(fraction * n)`. */
  function Rank(f: Fraction, n: nat): nat
    requires f.Valid()
  {
    (f.num * n + f.den - 1) / f.den
  }

  /** `percentile`: the element at the nearest rank. */
  function Percentile(sorted: seq<int>, f: Fraction): (r: Option<int>)
    requires f.Valid()
    ensures r.None? <==> sorted == []
    ensures r.Some? ==> r.value in sorted
  {
    if sorted == [] then None
    else Some(sorted[Min(|sorted| - 1, Max(0, Rank(f, |sorted|) - 1))])
  }

  ghost predicate Sorted(s: seq<int>) {
    forall i, j :: 0 <= i < j < |s| ==> s[i] <= s[j]
  }

  function CountBelow(s: seq<int>, limit: int): nat {
    if s == [] then 0 else (if s[0] < limit then 1 else 0) + CountBelow(s[1..], limit)
  }

  function CountWithin(s: seq<int>, limit: int): nat {
    CountBelow(s, limit + 1)
  }

  // ---- ranks ----

  /** The rank is the least whole number of elements that makes up the fraction. */
  lemma RankIsCeiling(f: Fraction, n: nat)
    requires f.Valid() && n > 0
    ensures 1 <= Rank(f, n) <= n
    ensures (Rank(f, n) - 1) * f.den < f.num * n <= Rank(f, n) * f.den
  {
    var a, d := f.num * n, f.den;
    var r := (a + d - 1) / d;
    assert a + d - 1 == d * r + (a + d - 1) % d;
    assert (r - 1) * d == d * r - d;
    assert a >= 1 && a <= n * d;
    Cancel(0, r, d);
    Cancel(r - 1, n, d);
  }

  lemma RankGrowsWithFraction(f: Fraction, g: Fraction, n: nat)
    requires f.Valid() && g.Valid() && n > 0 && f.num * g.den <= g.num * f.den
    ensures Rank(f, n) <= Rank(g, n)
  {
    RankIsCeiling(f, n);
    RankIsCeiling(g, n);
    var r, q := Rank(f, n) - 1, Rank(g, n);
    Scale(f.num * g.den, g.num * f.den, n);
    Swap(f.num, g.den, n);
    Swap(g.num, f.den, n);
    ScaleStrict(r * f.den, f.num * n, g.den);
    Scale(g.num * n, q * g.den, f.den);
    Swap(q, g.den, f.den);
    Regroup(r, f.den, g.den);
    Regroup(q, f.den, g.den);
    Cancel(r, q, f.den * g.den);
  }

  lemma Cancel(a: int, b: int, k: int)
    requires a * k < b * k && k > 0
    ensures a < b
  {
  }

  lemma ScaleStrict(a: int, b: int, k: int)
    requires a < b && k > 0
    ensures a * k < b * k
  {
  }

  lemma Scale(a: int, b: int, k: int)
    requires a <= b && k >= 0
    ensures a * k <= b * k
  {
  }

  lemma Swap(a: int, b: int, c: int)
    ensures (a * b) * c == (a * c) * b
  {
  }

  lemma Regroup(a: int, b: int, c: int)
    ensures (a * b) * c == a * (b * c)
  {
  }

  /** In a sorted list the `k`-th element is below a limit exactly when more than `k` elements are. */
  lemma {:induction false} SortedCount(s: seq<int>, k: nat, limit: int)
    requires Sorted(s) && k < |s|
    ensures s[k] < limit <==> CountBelow(s, limit) > k
  {
    if s[0] < limit {
      if k > 0 {
        SortedCount(s[1..], k - 1, limit);
      }
    } else {
      NoneBelow(s, limit);
      assert s[0] <= s[k];
    }
  }

  lemma {:induction false} NoneBelow(s: seq<int>, limit: int)
    requires forall i :: 0 <= i < |s| ==> s[i] >= limit
    ensures CountBelow(s, limit) == 0
  {
    if s != [] {
      NoneBelow(s[1..], limit);
    }
  }

  /** The percentile is below a limit exactly when the fraction's share of the list is. */
  lemma PercentileBelowIff(s: seq<int>, f: Fraction, limit: int)
    requires Sorted(s) && s != [] && f.Valid()
    ensures Percentile(s, f).value < limit <==> CountBelow(s, limit) >= Rank(f, |s|)
  {
    RankIsCeiling(f, |s|);
    SortedCount(s, Rank(f, |s|) - 1, limit);
  }

  /** At least the rank's number of elements are at most the percentile, and fewer than that are strictly below it. */
  lemma PercentileIsNearestRank(s: seq<int>, f: Fraction)
    requires Sorted(s) && s != [] && f.Valid()
    ensures var p := Percentile(s, f).value;
            CountWithin(s, p) >= Rank(f, |s|) && CountBelow(s, p) <= Rank(f, |s|) - 1
  {
    var p := Percentile(s, f).value;
    PercentileBelowIff(s, f, p + 1);
    PercentileBelowIff(s, f, p);
  }

  /** A larger fraction gives a larger percentile; in particular p50 is at most p90. */
  lemma PercentileIsMonotone(s: seq<int>, f: Fraction, g: Fraction)
    requires Sorted(s) && s != [] && f.Valid() && g.Valid() && f.num * g.den <= g.num * f.den
    ensures Percentile(s, f).value <= Percentile(s, g).value
  {
    RankGrowsWithFraction(f, g, |s|);
    var limit := Percentile(s, g).value + 1;
    PercentileBelowIff(s, g, limit);
    PercentileBelowIff(s, f, limit);
  }

  // ---- the report ----

  datatype Posting = Posting(postedAt: int, firstSeenAt: int)

  function Delays(cohort: seq<Posting>): seq<int> {
    Filter(Map(cohort, (p: Posting) => p.firstSeenAt - p.postedAt), d => d >= 0)
  }

  /** The order of `sort((left, right) => left - right)`. */
  predicate Lower(a: int, b: int) {
    a < b
  }

  lemma {:induction false} InsertSorts(x: int, s: seq<int>, limit: int)
    requires Sorted(s)
    ensures Sorted(Insert(x, s, Lower)) && CountBelow(Insert(x, s, Lower), limit)
        == CountBelow(s, limit) + if x < limit then 1 else 0
    ensures forall y :: y in Insert(x, s, Lower) <==> y == x || y in s
  {
    if s == [] || x <= s[0] {
      assert ([x] + s)[1..] == s;
    } else {
      InsertSorts(x, s[1..], limit);
      var rest := Insert(x, s[1..], Lower);
      assert ([s[0]] + rest)[1..] == rest;
      forall i | 0 <= i < |rest| ensures s[0] <= rest[i] {
        assert rest[i] in rest;
      }
    }
  }

  lemma {:induction false} SortSorts(s: seq<int>, limit: int)
    ensures Sorted(Sort(s, Lower)) && CountBelow(Sort(s, Lower), limit) == CountBelow(s, limit)
  {
    if s != [] {
      SortSorts(s[1..], limit);
      InsertSorts(s[0], Sort(s[1..], Lower), limit);
    }
  }

  datatype Verdict = InsufficientSample | MeetsTarget | BelowTarget

  datatype Report = Report(usable: nat, negative: nat, p50: Option<int>, p90: Option<int>, verdict: Verdict)

  /** `main`, from the fetched cohort on. */
  method Measure(cohort: seq<Posting>, minSample: int) returns (r: Report)
    ensures r.usable == |Delays(cohort)| && r.usable + r.negative == |cohort|
    ensures r.verdict == InsufficientSample <==> |Delays(cohort)| < minSample
    ensures r.verdict != InsufficientSample ==>
      r.p50 == Percentile(Sort(Delays(cohort), Lower), HALF)
        && r.p90 == Percentile(Sort(Delays(cohort), Lower), NINE_TENTHS)
    ensures r.verdict == MeetsTarget <==> |Delays(cohort)| >= minSample && TargetMet(Delays(cohort))
    ensures r.usable == |Delayed(cohort, None)|
    ensures r.verdict == MeetsTarget <==> |Delayed(cohort, None)| >= minSample && SharesMet(cohort)
    ensures r.verdict != InsufficientSample && r.usable > 0 ==>
      r.p50.Some? && r.p90.Some? && CutsOff(cohort, r.p50.value, 1, 2) && CutsOff(cohort, r.p90.value, 9, 10)
  {
    UsableAreCounted(cohort);
    SharesMetIff(cohort);
    var delays: seq<int> := [];
    var negative := 0;
    for i := 0 to |cohort|
      invariant delays == Delays(cohort[..i])
      invariant |delays| + negative == i
    {
      DelaysStep(cohort, i);
      var delay := cohort[i].firstSeenAt - cohort[i].postedAt;
      if delay < 0 {
        negative := negative + 1;
        continue;
      }
      delays := delays + [delay];
    }
    assert cohort[..|cohort|] == cohort;
    if |delays| < minSample {
      return Report(|delays|, negative, None, None, InsufficientSample);
    }
    var sorted := Sort(delays, Lower);
    var p50 := Percentile(sorted, HALF);
    var p90 := Percentile(sorted, NINE_TENTHS);
    var meets := p50.Some? && p90.Some? && p50.value < 15 * MINUTE_MS && p90.value < 60 * MINUTE_MS;
    if delays != [] {
      SortSorts(delays, 15 * MINUTE_MS);
      SortSorts(delays, 60 * MINUTE_MS);
      PercentileBelowIff(sorted, HALF, 15 * MINUTE_MS);
      PercentileBelowIff(sorted, NINE_TENTHS, 60 * MINUTE_MS);
    }
    if delays != [] {
      PercentileCutsOff(cohort, HALF);
      PercentileCutsOff(cohort, NINE_TENTHS);
    }
    return Report(|delays|, negative, p50, p90, if meets then MeetsTarget else BelowTarget);
  }

  lemma DelaysStep(cohort: seq<Posting>, i: nat)
    requires i < |cohort|
    ensures var d := cohort[i].firstSeenAt - cohort[i].postedAt;
            Delays(cohort[..i + 1]) == Delays(cohort[..i]) + if d >= 0 then [d] else []
  {
    var f := (p: Posting) => p.firstSeenAt - p.postedAt;
    assert cohort[..i + 1] == cohort[..i] + [cohort[i]];
    MapConcat(cohort[..i], [cohort[i]], f);
    FilterConcat(Map(cohort[..i], f), Map([cohort[i]], f), d => d >= 0);
  }

  /**
   * The verdict without percentiles: half the delays are under 15 minutes and nine tenths under an hour, rounded up.
   */
  predicate TargetMet(delays: seq<int>) {
    && delays != []
    && CountBelow(delays, 15 * MINUTE_MS) >= Rank(HALF, |delays|)
    && CountBelow(delays, 60 * MINUTE_MS) >= Rank(NINE_TENTHS, |delays|)
  }

  lemma {:induction false} CountBelowGrows(s: seq<int>, low: int, high: int)
    requires low <= high
    ensures CountBelow(s, low) <= CountBelow(s, high)
  {
    if s != [] {
      CountBelowGrows(s[1..], low, high);
    }
  }

  // ---- the same counted over the postings ----

  /** The postings seen no earlier than they were posted and, with a limit, in less time than that. */
  ghost function Delayed(cohort: seq<Posting>, limit: Option<int>): set<nat> {
    set i: nat | i < |cohort| && cohort[i].firstSeenAt >= cohort[i].postedAt
      && (limit == None || cohort[i].firstSeenAt - cohort[i].postedAt < limit.value)
  }

  /** Of the usable postings at least half came in under 15 minutes and at least nine tenths under an hour. */
  ghost predicate SharesMet(cohort: seq<Posting>) {
    var usable := |Delayed(cohort, None)|;
    && usable > 0
    && 2 * |Delayed(cohort, Some(900_000))| >= usable && 10 * |Delayed(cohort, Some(3_600_000))| >= 9 * usable
  }

  /** The fraction `num / den` of the usable postings has a delay of at most `value`, and less than that has less. */
  ghost predicate CutsOff(cohort: seq<Posting>, value: int, num: nat, den: nat) {
    var usable := |Delayed(cohort, None)|;
    && den * |Delayed(cohort, Some(value + 1))| >= num * usable && den * |Delayed(cohort, Some(value))| < num * usable
  }

  lemma {:induction false} CountAppend(s: seq<int>, x: int, limit: int)
    ensures CountBelow(s + [x], limit) == CountBelow(s, limit) + if x < limit then 1 else 0
  {
    if s == [] {
      assert s + [x] == [x];
    } else {
      assert (s + [x])[1..] == s[1..] + [x];
      CountAppend(s[1..], x, limit);
    }
  }

  lemma DelayedStep(cohort: seq<Posting>, n: nat, limit: Option<int>)
    requires n < |cohort|
    ensures var d := cohort[n].firstSeenAt - cohort[n].postedAt;
            |Delayed(cohort[..n + 1], limit)|
              == |Delayed(cohort[..n], limit)| + if d >= 0 && (limit == None || d < limit.value) then 1 else 0
  {
    var before, after := Delayed(cohort[..n], limit), Delayed(cohort[..n + 1], limit);
    assert n !in before;
    assert after == if n in after then before + {n} else before;
  }

  /** One more posting adds its delay to the list, if it is usable. */
  lemma DelayCounted(cohort: seq<Posting>, n: nat, limit: int)
    requires n < |cohort|
    ensures var d := cohort[n].firstSeenAt - cohort[n].postedAt;
            && |Delays(cohort[..n + 1])| == |Delays(cohort[..n])| + (if d >= 0 then 1 else 0)
            && CountBelow(Delays(cohort[..n + 1]), limit)
                 == CountBelow(Delays(cohort[..n]), limit) + if d >= 0 && d < limit then 1 else 0
  {
    var before, d := Delays(cohort[..n]), cohort[n].firstSeenAt - cohort[n].postedAt;
    DelaysStep(cohort, n);
    CountAppend(before, d, limit);
    assert before + [] == before;
  }

  lemma {:induction false} DelayedAreCounted(cohort: seq<Posting>, n: nat, limit: int)
    requires n <= |cohort|
    ensures |Delays(cohort[..n])| == |Delayed(cohort[..n], None)|
    ensures CountBelow(Delays(cohort[..n]), limit) == |Delayed(cohort[..n], Some(limit))|
  {
    if n == 0 {
      assert Delayed(cohort[..0], None) == {} && Delayed(cohort[..0], Some(limit)) == {};
    } else {
      DelayedAreCounted(cohort, n - 1, limit);
      DelayCounted(cohort, n - 1, limit);
      DelayedStep(cohort, n - 1, None);
      DelayedStep(cohort, n - 1, Some(limit));
    }
  }

  lemma CountedOverAll(cohort: seq<Posting>, limit: int)
    ensures |Delays(cohort)| == |Delayed(cohort, None)|
    ensures CountBelow(Delays(cohort), limit) == |Delayed(cohort, Some(limit))|
  {
    assert cohort[..|cohort|] == cohort;
    DelayedAreCounted(cohort, |cohort|, limit);
  }

  lemma UsableAreCounted(cohort: seq<Posting>)
    ensures |Delays(cohort)| == |Delayed(cohort, None)|
  {
    CountedOverAll(cohort, 0);
  }

  /** So many elements reach the rank exactly when they make up the fraction. */
  lemma RankIsShare(f: Fraction, n: nat, count: nat)
    requires f.Valid() && n > 0
    ensures count >= Rank(f, n) <==> f.den * count >= f.num * n
  {
    RankIsCeiling(f, n);
    if count >= Rank(f, n) {
      Scale(Rank(f, n), count, f.den);
    } else {
      Scale(count, Rank(f, n) - 1, f.den);
    }
  }

  /** The verdict's two conditions, which are about ranks, are the two shares. */
  lemma SharesMetIff(cohort: seq<Posting>)
    ensures TargetMet(Delays(cohort)) <==> SharesMet(cohort)
  {
    CountedOverAll(cohort, 900_000);
    CountedOverAll(cohort, 3_600_000);
    if Delays(cohort) != [] {
      RankIsShare(HALF, |Delays(cohort)|, |Delayed(cohort, Some(900_000))|);
      RankIsShare(NINE_TENTHS, |Delays(cohort)|, |Delayed(cohort, Some(3_600_000))|);
    }
  }

  lemma SortedCounts(cohort: seq<Posting>, limit: int)
    ensures CountBelow(Sort(Delays(cohort), Lower), limit) == |Delayed(cohort, Some(limit))|
    ensures |Sort(Delays(cohort), Lower)| == |Delayed(cohort, None)| && Sorted(Sort(Delays(cohort), Lower))
  {
    SortSorts(Delays(cohort), limit);
    CountedOverAll(cohort, limit);
  }

  lemma PercentileRanks(s: seq<int>, f: Fraction, p: int)
    requires Sorted(s) && s != [] && f.Valid() && p == Percentile(s, f).value
    ensures CountBelow(s, p + 1) >= Rank(f, |s|) && CountBelow(s, p) < Rank(f, |s|)
  {
    PercentileIsNearestRank(s, f);
  }

  lemma RanksCutOff(cohort: seq<Posting>, f: Fraction, value: int)
    requires f.Valid() && |Delayed(cohort, None)| > 0
    requires |Delayed(cohort, Some(value + 1))| >= Rank(f, |Delayed(cohort, None)|)
    requires |Delayed(cohort, Some(value))| < Rank(f, |Delayed(cohort, None)|)
    ensures CutsOff(cohort, value, f.num, f.den)
  {
    RankIsShare(f, |Delayed(cohort, None)|, |Delayed(cohort, Some(value + 1))|);
    RankIsShare(f, |Delayed(cohort, None)|, |Delayed(cohort, Some(value))|);
  }

  /** A percentile cuts off exactly its fraction. */
  lemma PercentileCutsOff(cohort: seq<Posting>, f: Fraction)
    requires Delays(cohort) != [] && f.Valid()
    ensures var p := Percentile(Sort(Delays(cohort), Lower), f);
            p.Some? && CutsOff(cohort, p.value, f.num, f.den)
  {
    var sorted := Sort(Delays(cohort), Lower);
    SortedCounts(cohort, 0);
    var p := Percentile(sorted, f).value;
    PercentileRanks(sorted, f, p);
    SortedCounts(cohort, p);
    SortedCounts(cohort, p + 1);
    RanksCutOff(cohort, f, p);
  }

  /** The percentages the report prints beside "MEETS TARGET" bear it out. */
  lemma MeetsTargetMeansTheShares(delays: seq<int>)
    requires TargetMet(delays)
    ensures 2 * CountWithin(delays, 15 * MINUTE_MS) >= |delays|
    ensures 10 * CountWithin(delays, 60 * MINUTE_MS) >= 9 * |delays|
  {
    RankIsCeiling(HALF, |delays|);
    RankIsCeiling(NINE_TENTHS, |delays|);
    CountBelowGrows(delays, 15 * MINUTE_MS, 15 * MINUTE_MS + 1);
    CountBelowGrows(delays, 60 * MINUTE_MS, 60 * MINUTE_MS + 1);
  }
}
