/** Performance accounting: nearest-rank percentiles of latency bounds, and the verdict over them. */
module Percentiles {
  import opened Wrappers

  // ----- Sorting and counting -----

  function Insert(x: real, xs: seq<real>): seq<real> {
    if xs == [] then [x]
    else if x <= xs[0] then [x] + xs
    else [xs[0]] + Insert(x, xs[1..])
  }

  /** The copy sorted by the numeric comparator. */
  function Sorted(xs: seq<real>): (r: seq<real>)
    ensures |r| == |xs|
  {
    if xs == [] then [] else InsertedLength(xs[0], Sorted(xs[1..])); Insert(xs[0], Sorted(xs[1..]))
  }

  lemma {:induction false} InsertedLength(x: real, xs: seq<real>)
    ensures |Insert(x, xs)| == |xs| + 1
  {
    if xs != [] && x > xs[0] {
      InsertedLength(x, xs[1..]);
    }
  }

  predicate Ascending(xs: seq<real>) {
    forall i, j | 0 <= i <= j < |xs| :: xs[i] <= xs[j]
  }

  /** How many values are at most `t`. */
  function AtMost(xs: seq<real>, t: real): (n: nat)
    ensures n <= |xs|
  {
    if xs == [] then 0 else (if xs[0] <= t then 1 else 0) + AtMost(xs[1..], t)
  }

  lemma {:induction false} InsertSorts(x: real, xs: seq<real>, t: real)
    requires Ascending(xs)
    ensures Ascending(Insert(x, xs)) && AtMost(Insert(x, xs), t) == (if x <= t then 1 else 0) + AtMost(xs, t)
    ensures forall y :: y in Insert(x, xs) <==> y == x || y in xs
  {
    if xs == [] {
    } else if x <= xs[0] {
      assert ([x] + xs)[1..] == xs;
    } else {
      var rest := Insert(x, xs[1..]);
      InsertSorts(x, xs[1..], t);
      assert ([xs[0]] + rest)[1..] == rest;
      forall j | 0 <= j < |rest| ensures xs[0] <= rest[j] {
        assert rest[j] in rest;
      }
    }
  }

  lemma {:induction false} SortKeepsCounts(xs: seq<real>, t: real)
    ensures Ascending(Sorted(xs)) && AtMost(Sorted(xs), t) == AtMost(xs, t)
  {
    if xs != [] {
      SortKeepsCounts(xs[1..], t);
      InsertSorts(xs[0], Sorted(xs[1..]), t);
    }
  }

  lemma {:induction false} RankInOrder(xs: seq<real>, k: nat, t: real)
    requires Ascending(xs) && k < |xs|
    ensures xs[k] <= t <==> AtMost(xs, t) >= k + 1
  {
    if k > 0 {
      RankInOrder(xs[1..], k - 1, t);
    } else if xs[0] > t {
      NoneAtMost(xs, t);
    }
  }

  lemma {:induction false} NoneAtMost(xs: seq<real>, t: real)
    requires forall x | x in xs :: x > t
    ensures AtMost(xs, t) == 0
  {
    if xs != [] {
      assert xs[0] in xs && forall x | x in xs[1..] :: x in xs;
      NoneAtMost(xs[1..], t);
    }
  }

  // ----- Nearest rank -----

  function Ceil(x: real): int { -((-x).Floor) }

  /** The number of samples that make up the fraction `p` of `n`, rounded up. */
  function Rank(p: real, n: nat): (k: nat)
    requires 0.0 < p <= 1.0 && n > 0
    ensures 1 <= k <= n
  {
    RankFits(p, n);
    Ceil(p * n as real)
  }

  lemma RankFits(p: real, n: nat)
    requires 0.0 < p <= 1.0 && n > 0
    ensures 1 <= Ceil(p * n as real) <= n
  {
    assert 0.0 < p * n as real <= n as real;
  }

  function NearestRank(values: seq<real>, p: real): (r: Option<real>)
    requires 0.0 < p <= 1.0
    ensures r.None? <==> values == []
  {
    if values == [] then None else Some(Sorted(values)[Rank(p, |values|) - 1])
  }

  /** The percentile is at most `t` exactly when enough of the samples are. */
  lemma RankCounts(values: seq<real>, p: real, t: real)
    requires 0.0 < p <= 1.0 && values != []
    ensures NearestRank(values, p).value <= t <==> AtMost(values, t) >= Rank(p, |values|)
  {
    SortKeepsCounts(values, t);
    RankInOrder(Sorted(values), Rank(p, |values|) - 1, t);
  }

  lemma {:induction false} SmallerCountMore(a: seq<real>, b: seq<real>, t: real)
    requires |a| == |b| && forall i | 0 <= i < |a| :: a[i] <= b[i]
    ensures AtMost(a, t) >= AtMost(b, t)
  {
    if a != [] {
      SmallerCountMore(a[1..], b[1..], t);
    }
  }

  /** Percentiles respect sample-wise bounds, although each list is sorted on its own. */
  lemma RankIsMonotone(a: seq<real>, b: seq<real>, p: real)
    requires 0.0 < p <= 1.0 && a != [] && |a| == |b| && forall i | 0 <= i < |a| :: a[i] <= b[i]
    ensures NearestRank(a, p).value <= NearestRank(b, p).value
  {
    var t := NearestRank(b, p).value;
    RankCounts(a, p, t);
    RankCounts(b, p, t);
    SmallerCountMore(a, b, t);
  }

  // ----- The place that the machine computes -----

  /** What rounding to binary64 keeps: order, integers up to 2 to the 53rd, and the value up to one part in
      2 to the 53rd. */
  ghost predicate Rounds(round: real -> real) {
    && (forall x, y | x <= y :: round(x) <= round(y))
    && (forall x | 0.0 <= x <= 9007199254740992.0 && x == x.Floor as real :: round(x) == x)
    && (forall x | x > 0.0 :: x - x / 9007199254740992.0 <= round(x) <= x + x / 9007199254740992.0)
  }

  type Rounding = round: real -> real | Rounds(round) witness (x: real) => x

  /** No array is this long or longer. */
  const ARRAY_LIMIT := 0x1_0000_0000

  /** The fractions that a report asks for. */
  datatype Fraction = P50 | P95 | P99

  /** The exact product of `n` and the binary64 number that the literal .5, .95 or .99 denotes. */
  function Share(p: Fraction, n: nat): real {
    match p
    case P50 => 0.5 * n as real
    case P95 => 8556839292003942.0 * n as real / 9007199254740992.0
    case P99 => 8917127262193582.0 * n as real / 9007199254740992.0
  }

  function Exact(p: Fraction): real {
    match p
    case P50 => 0.5
    case P95 => 0.95
    case P99 => 0.99
  }

  /** The literals lie so little below the fractions that no array is long enough to tell. */
  lemma ShareIsClose(p: Fraction, n: nat)
    requires 0 < n < ARRAY_LIMIT
    ensures var k := Ceil(Exact(p) * n as real); 1 <= k <= n && 0.0 < Share(p, n) && k as real - 0.995 <= Share(p, n) <= k as real
  {
    var k := Ceil(Exact(p) * n as real);
    match p
    case P50 => assert 2 * k - 1 <= n <= 2 * k;
    case P95 => assert 20 * k - 19 <= 19 * n <= 20 * k;
    case P99 => assert 100 * k - 99 <= 99 * n <= 100 * k;
  }

  /** `x` lies so far above the next lower integer that rounding does not reach it. */
  lemma RoundedPlace(x: real, k: nat, round: Rounding)
    requires 0.0 < x && 1 <= k <= ARRAY_LIMIT && k as real - 0.995 <= x <= k as real
    ensures Ceil(round(x)) == k
  {
    assert round(k as real) == k as real;
    assert round(x) >= x - x / 9007199254740992.0;
  }

  /** In spite of the rounded literal and the rounded product the machine looks at exactly the place that
      is meant, for every array. */
  lemma RoundingIsHarmless(p: Fraction, n: nat, round: Rounding)
    requires 0 < n < ARRAY_LIMIT
    ensures Ceil(round(Share(p, n))) == Rank(Exact(p), n)
  {
    ShareIsClose(p, n);
    RoundedPlace(Share(p, n), Ceil(Exact(p) * n as real), round);
  }

  // ----- Measurements -----

  datatype Reading = Finite(ms: real) | NotFinite

  datatype Condition = Healthy | ReceiverOutage | Background | OfflineUnsent | Saturation

  datatype Boundary = View | Erp

  /** `error` is empty when there is none. */
  datatype Measurement = Measurement(
    condition: Condition, boundary: Boundary, startBefore: Reading, startAfter: Reading, end: Option<Reading>,
    uncertainty: Reading, error: string, recoveryStart: Option<real>)

  datatype Verdict = SeparateCondition | InsufficientSamples | IncompleteErrors | MetInThisRun | MissedInThisRun

  datatype Quantiles = Quantiles(p50: Option<real>, p95: Option<real>, p99: Option<real>)

  datatype Summary = Summary(
    attempted: nat, completed: nat, errors: nat, timeouts: nat, upper: Quantiles, lower: Quantiles, target: real,
    verdict: Verdict, recovery: Quantiles)

  predicate Valid(s: Measurement) {
    && s.end.Some? && s.error == "" && s.end.value.Finite? && s.startBefore.Finite? && s.startAfter.Finite?
    && s.uncertainty.Finite? && s.uncertainty.ms >= 0.0 && s.startAfter.ms >= s.startBefore.ms
    && s.end.value.ms + s.uncertainty.ms >= s.startBefore.ms
  }

  function Max0(x: real): real { if x > 0.0 then x else 0.0 }

  function Upper(s: Measurement): real
    requires Valid(s)
  {
    Max0(s.end.value.ms - s.startBefore.ms + s.uncertainty.ms)
  }

  function Lower(s: Measurement): real
    requires Valid(s)
  {
    Max0(s.end.value.ms - s.startAfter.ms - s.uncertainty.ms)
  }

  function Filter(samples: seq<Measurement>, keep: Measurement -> bool): (r: seq<Measurement>)
    ensures forall s :: s in r <==> s in samples && keep(s)
    ensures |r| <= |samples| && (|r| == |samples| <==> forall s | s in samples :: keep(s))
    ensures |r| == |samples| ==> r == samples
  {
    if samples == [] then []
    else (if keep(samples[0]) then [samples[0]] else []) + Filter(samples[1..], keep)
  }

  /** Each sample is kept as often as it was there, or not at all. */
  lemma {:induction false} FilterCounts(samples: seq<Measurement>, keep: Measurement -> bool, s: Measurement)
    ensures multiset(Filter(samples, keep))[s] == if keep(s) then multiset(samples)[s] else 0
  {
    if samples != [] {
      FilterCounts(samples[1..], keep, s);
      assert samples == [samples[0]] + samples[1..];
    }
  }

  function Uppers(valid: seq<Measurement>): (r: seq<real>)
    requires forall s | s in valid :: Valid(s)
    ensures |r| == |valid| && forall i | 0 <= i < |r| :: r[i] == Upper(valid[i])
  {
    if valid == [] then [] else [Upper(valid[0])] + Uppers(valid[1..])
  }

  function Lowers(valid: seq<Measurement>): (r: seq<real>)
    requires forall s | s in valid :: Valid(s)
    ensures |r| == |valid| && forall i | 0 <= i < |r| :: r[i] == Lower(valid[i])
  {
    if valid == [] then [] else [Lower(valid[0])] + Lowers(valid[1..])
  }

  function Recovery(s: Measurement): real
    requires Valid(s) && s.recoveryStart.Some?
  {
    Max0(s.end.value.ms - s.recoveryStart.value + s.uncertainty.ms)
  }

  function Recoveries(recovered: seq<Measurement>): (r: seq<real>)
    requires forall s | s in recovered :: Valid(s) && s.recoveryStart.Some?
    ensures |r| == |recovered| && forall i | 0 <= i < |r| :: r[i] == Recovery(recovered[i])
  {
    if recovered == [] then [] else [Recovery(recovered[0])] + Recoveries(recovered[1..])
  }

  function Recovered(valid: seq<Measurement>): seq<Measurement> { Filter(valid, (s: Measurement) => s.recoveryStart.Some?) }

  function QuantilesOf(values: seq<real>): Quantiles {
    Quantiles(NearestRank(values, 0.5), NearestRank(values, 0.95), NearestRank(values, 0.99))
  }

  function Selected(samples: seq<Measurement>, boundary: Boundary, condition: Condition): seq<Measurement> {
    Filter(samples, (s: Measurement) => s.boundary == boundary && s.condition == condition)
  }

  function Usable(selected: seq<Measurement>): seq<Measurement> { Filter(selected, (s: Measurement) => Valid(s)) }

  function Target(boundary: Boundary): real { if boundary == View then 3000.0 else 5000.0 }

  function VerdictOf(condition: Condition, attempted: nat, errors: nat, p95: Option<real>, target: real): Verdict {
    if condition != Healthy then SeparateCondition
    else if attempted < 100 then InsufficientSamples
    else if errors > 0 then IncompleteErrors
    else if p95.Some? && p95.value <= target then MetInThisRun
    else MissedInThisRun
  }

  lemma VerdictIs(samples: seq<Measurement>, boundary: Boundary, condition: Condition, selected: seq<Measurement>, valid: seq<Measurement>)
    requires selected == Selected(samples, boundary, condition) && valid == Usable(selected)
    ensures Summarize(samples, boundary, condition).verdict ==
      VerdictOf(condition, |selected|, |selected| - |valid|, NearestRank(Uppers(valid), 0.95), Target(boundary))
  {}

  function Summarize(samples: seq<Measurement>, boundary: Boundary, condition: Condition): Summary {
    var selected := Selected(samples, boundary, condition);
    var valid := Usable(selected);
    var upper := Uppers(valid);
    var errors := |selected| - |valid|;
    var p95 := NearestRank(upper, 0.95);
    var target := Target(boundary);
    var verdict := VerdictOf(condition, |selected|, errors, p95, target);
    Summary(|selected|, |valid|, errors, |Filter(selected, (s: Measurement) => s.error == "timeout")|, QuantilesOf(upper),
            QuantilesOf(Lowers(valid)), target, verdict, QuantilesOf(Recoveries(Recovered(valid))))
  }

  /** A latency that fits the measurement: it began between the two start readings, and the clocks
      differ by no more than the stated uncertainty. */
  predicate Fits(s: Measurement, latency: real)
    requires Valid(s)
  {
    latency >= 0.0 &&
    s.end.value.ms - s.startAfter.ms - s.uncertainty.ms <= latency <= s.end.value.ms - s.startBefore.ms + s.uncertainty.ms
  }

  /** The two bounds are themselves latencies that fit, so no narrower ones would hold. */
  lemma BoundsAreTight(s: Measurement)
    requires Valid(s)
    ensures Fits(s, Upper(s)) && Fits(s, Lower(s))
    ensures forall latency | Fits(s, latency) :: Lower(s) <= latency <= Upper(s)
  {}

  /** The time from the stated beginning of the recovery to the latest possible end. */
  lemma RecoveryMeasures(s: Measurement)
    requires Valid(s) && s.recoveryStart.Some?
    ensures Recovery(s) >= 0.0 && s.end.value.ms + s.uncertainty.ms <= s.recoveryStart.value + Recovery(s)
    ensures Recovery(s) > 0.0 ==> s.end.value.ms + s.uncertainty.ms == s.recoveryStart.value + Recovery(s)
  {}

  predicate Between(low: Option<real>, x: Option<real>, high: Option<real>) {
    low.Some? == x.Some? == high.Some? && (x.Some? ==> low.value <= x.value <= high.value)
  }

  /** Whatever the real latencies were, each of their percentiles lies between the two reported ones. */
  lemma ReportBrackets(samples: seq<Measurement>, boundary: Boundary, condition: Condition, latencies: seq<real>, p: real)
    requires 0.0 < p <= 1.0
    requires var valid := Usable(Selected(samples, boundary, condition));
      |latencies| == |valid| && forall i | 0 <= i < |valid| :: Valid(valid[i]) && Fits(valid[i], latencies[i])
    ensures var valid := Usable(Selected(samples, boundary, condition));
      Between(NearestRank(Lowers(valid), p), NearestRank(latencies, p), NearestRank(Uppers(valid), p))
  {
    var valid := Usable(Selected(samples, boundary, condition));
    if valid != [] {
      RankIsMonotone(Lowers(valid), latencies, p);
      RankIsMonotone(latencies, Uppers(valid), p);
    }
  }

  lemma QuantilesAre(samples: seq<Measurement>, boundary: Boundary, condition: Condition)
    ensures var r, valid := Summarize(samples, boundary, condition), Usable(Selected(samples, boundary, condition));
      r.upper == QuantilesOf(Uppers(valid)) && r.lower == QuantilesOf(Lowers(valid)) && r.recovery == QuantilesOf(Recoveries(Recovered(valid)))
  {}

  lemma BetweenRanks(low: seq<real>, high: seq<real>, p: real)
    requires 0.0 < p <= 1.0 && |low| == |high| && forall i | 0 <= i < |low| :: low[i] <= high[i]
    ensures Between(NearestRank(low, p), NearestRank(high, p), NearestRank(high, p))
  {
    if low != [] {
      RankIsMonotone(low, high, p);
    }
  }

  /** Each lower percentile is at most the upper one of the same rank. */
  lemma LowerBelowUpper(samples: seq<Measurement>, boundary: Boundary, condition: Condition)
    ensures var r := Summarize(samples, boundary, condition);
      && Between(r.lower.p50, r.upper.p50, r.upper.p50) && Between(r.lower.p95, r.upper.p95, r.upper.p95)
      && Between(r.lower.p99, r.upper.p99, r.upper.p99)
  {
    var valid := Usable(Selected(samples, boundary, condition));
    QuantilesAre(samples, boundary, condition);
    forall i | 0 <= i < |valid| ensures Lowers(valid)[i] <= Uppers(valid)[i] {
      assert valid[i] in valid;
    }
    BetweenRanks(Lowers(valid), Uppers(valid), 0.5);
    BetweenRanks(Lowers(valid), Uppers(valid), 0.95);
    BetweenRanks(Lowers(valid), Uppers(valid), 0.99);
  }

  /** `q` is the smallest value that at least the fraction `k / n` of the values, rounded up, do not exceed. */
  ghost predicate SplitsAt(q: Option<real>, values: seq<real>, k: nat, n: nat) {
    && (q.None? <==> values == [])
    && (q.Some? ==> q.value in values && forall t: real :: q.value <= t <==> n * AtMost(values, t) >= k * |values|)
  }

  lemma RankSplits(values: seq<real>, p: Fraction, k: nat)
    requires k == match p case P50 => 50 case P95 => 95 case P99 => 99
    ensures SplitsAt(NearestRank(values, Exact(p)), values, k, 100)
  {
    if values != [] {
      var q, at := NearestRank(values, Exact(p)).value, Rank(Exact(p), |values|);
      SortKeepsCounts(values, q);
      SortedMembers(values, q);
      forall t: real ensures q <= t <==> 100 * AtMost(values, t) >= k * |values| {
        RankCounts(values, Exact(p), t);
        RankMeans(p, k, |values|, AtMost(values, t));
      }
    }
  }

  lemma RankMeans(p: Fraction, k: nat, n: nat, m: nat)
    requires n > 0 && k == match p case P50 => 50 case P95 => 95 case P99 => 99
    ensures m >= Rank(Exact(p), n) <==> 100 * m >= k * n
  {
    var r := Rank(Exact(p), n);
    match p
    case P50 => assert 2 * r - 1 <= n <= 2 * r;
    case P95 => assert 20 * r - 19 <= 19 * n <= 20 * r;
    case P99 => assert 100 * r - 99 <= 99 * n <= 100 * r;
  }

  lemma {:induction false} SortedMembers(xs: seq<real>, y: real)
    ensures y in Sorted(xs) <==> y in xs
  {
    if xs != [] {
      SortedMembers(xs[1..], y);
      SortKeepsCounts(xs[1..], y);
      InsertSorts(xs[0], Sorted(xs[1..]), y);
    }
  }

  /** The three reported numbers are the half, the nineteen twentieths and the ninety-nine hundredths. */
  ghost predicate Describes(q: Quantiles, values: seq<real>) {
    SplitsAt(q.p50, values, 50, 100) && SplitsAt(q.p95, values, 95, 100) && SplitsAt(q.p99, values, 99, 100)
  }

  /** The latencies from the earliest possible start, from the latest possible one, and since recovery
      began, of the usable samples of this boundary and condition. */
  lemma SummaryDescribes(samples: seq<Measurement>, boundary: Boundary, condition: Condition)
    ensures var r, valid := Summarize(samples, boundary, condition), Usable(Selected(samples, boundary, condition));
      Describes(r.upper, Uppers(valid)) && Describes(r.lower, Lowers(valid)) && Describes(r.recovery, Recoveries(Recovered(valid)))
  {
    var valid := Usable(Selected(samples, boundary, condition));
    QuantilesAre(samples, boundary, condition);
    QuantilesDescribe(Uppers(valid));
    QuantilesDescribe(Lowers(valid));
    QuantilesDescribe(Recoveries(Recovered(valid)));
  }

  lemma QuantilesDescribe(values: seq<real>)
    ensures Describes(QuantilesOf(values), values)
  {
    RankSplits(values, P50, 50);
    RankSplits(values, P95, 95);
    RankSplits(values, P99, 99);
  }

  /** Of the samples of this boundary and condition, those with a finite end and finite start readings in
      order, of a known uncertainty, and without an error, are usable; the others are errors. */
  predicate Measured(s: Measurement) {
    match (s.startBefore, s.startAfter, s.end, s.uncertainty)
    case (Finite(before), Finite(after), Some(Finite(end)), Finite(u)) =>
      s.error == "" && u >= 0.0 && before <= after && before <= end + u
    case _ => false
  }

  lemma MeasuredMeans(samples: seq<Measurement>)
    ensures forall s :: Valid(s) <==> Measured(s)
    ensures Usable(samples) == samples <==> forall s | s in samples :: Measured(s)
  {
    forall s ensures Valid(s) <==> Measured(s) {}
  }

  /** How often each sample counts as attempted, as usable and as recovered. */
  lemma SamplesAreCounted(samples: seq<Measurement>, boundary: Boundary, condition: Condition, s: Measurement)
    ensures var selected := Selected(samples, boundary, condition);
      var usable := Usable(selected);
      && multiset(selected)[s] == (if (s.boundary, s.condition) == (boundary, condition) then multiset(samples)[s] else 0)
      && multiset(usable)[s] == (if Measured(s) then multiset(selected)[s] else 0)
      && multiset(Recovered(usable))[s] == (if s.recoveryStart.Some? then multiset(usable)[s] else 0)
  {
    var selected := Selected(samples, boundary, condition);
    MeasuredMeans([]);
    FilterCounts(samples, (s: Measurement) => s.boundary == boundary && s.condition == condition, s);
    FilterCounts(selected, (s: Measurement) => Valid(s), s);
    FilterCounts(Usable(selected), (s: Measurement) => s.recoveryStart.Some?, s);
  }

  lemma CountsAddUp(samples: seq<Measurement>, boundary: Boundary, condition: Condition)
    ensures var r, selected := Summarize(samples, boundary, condition), Selected(samples, boundary, condition);
      && r.attempted == |selected| && r.completed == |Usable(selected)| && r.completed + r.errors == r.attempted
      && r.timeouts <= r.errors && (r.timeouts == 0 <==> forall s | s in selected :: s.error != "timeout")
  {
    var selected := Selected(samples, boundary, condition);
    TimeoutsAreErrors(selected);
    var late := Filter(selected, (s: Measurement) => s.error == "timeout");
    assert |late| > 0 ==> late[0] in late;
  }

  lemma {:induction false} TimeoutsAreErrors(selected: seq<Measurement>)
    ensures |Filter(selected, (s: Measurement) => s.error == "timeout")| + |Usable(selected)| <= |selected|
  {
    if selected != [] {
      TimeoutsAreErrors(selected[1..]);
    }
  }

  /** The verdict, case by case; `MetMeans` tells the last two apart. */
  lemma VerdictMeans(samples: seq<Measurement>, boundary: Boundary, condition: Condition)
    ensures var r, selected := Summarize(samples, boundary, condition), Selected(samples, boundary, condition);
      && (r.verdict == SeparateCondition <==> condition != Healthy)
      && (r.verdict == InsufficientSamples <==> condition == Healthy && |selected| < 100)
      && (r.verdict == IncompleteErrors <==>
            condition == Healthy && |selected| >= 100 && exists s :: s in selected && !Measured(s))
      && r.target == (match boundary case View => 3000.0 case Erp => 5000.0)
  {
    MeasuredMeans(Selected(samples, boundary, condition));
  }

  /** How many of the samples certainly stayed within the target. */
  function WithinTarget(samples: seq<Measurement>, target: real): nat
    requires forall s | s in samples :: Valid(s)
  {
    AtMost(Uppers(samples), target)
  }

  /** The target counts as met exactly for a healthy run of at least a hundred samples, all usable,
      of which at least 95 of every hundred, rounded up, certainly stayed within it. */
  lemma MetMeans(samples: seq<Measurement>, boundary: Boundary, condition: Condition)
    ensures var selected := Selected(samples, boundary, condition);
      Summarize(samples, boundary, condition).verdict == MetInThisRun <==>
        && condition == Healthy && |selected| >= 100 && (forall s | s in selected :: Valid(s))
        && WithinTarget(selected, Target(boundary)) >= Rank(0.95, |selected|)
  {
    var selected := Selected(samples, boundary, condition);
    var valid := Usable(selected);
    VerdictIs(samples, boundary, condition, selected, valid);
    AllUsable(selected);
    if |selected| >= 100 && |valid| == |selected| {
      RankCounts(Uppers(valid), 0.95, Target(boundary));
    }
  }

  lemma AllUsable(selected: seq<Measurement>)
    ensures |Usable(selected)| == |selected| <==> forall s | s in selected :: Valid(s)
    ensures |Usable(selected)| == |selected| ==> Usable(selected) == selected
  {}
}
