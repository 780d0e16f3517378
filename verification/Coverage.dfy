/** What the client declared against what arrived, and what the timestamps alone can tell. Times count nanoseconds; frame
rates are exact, in frames per nanosecond. */
module Coverage {
  import opened Counting

  const SECOND := 1_000_000_000
  const LOW_FRAME_RATE_FRACTION := 0.5

  datatype Declared = Declared(number: int, startedAt: int, endedAt: int, sizeBytes: int, frames: int) {
    function Duration(): int {
      endedAt - startedAt
    }
  }

  datatype Meta = Meta(number: int, startedAt: int, endedAt: int) {
    function Duration(): int {
      endedAt - startedAt
    }
  }

  datatype Kind = Missing | NotCaptured | LowFrameRate | Empty

  datatype Anomaly = Anomaly(number: int, kind: Kind)

  // ---- Gaps between timestamps ----

  datatype Gap = Gap(fromNumber: int, toNumber: int, missing: int)

  function GapBefore(metas: seq<Meta>, i: nat): int
    requires 0 < i < |metas|
  {
    metas[i].startedAt - metas[i - 1].endedAt
  }

  predicate Reported(gap: int) {
    gap > 2 * SECOND
  }

  /** The gaps reported before the first `n` segments. */
  function Gaps(metas: seq<Meta>, n: nat): seq<Gap>
    requires n <= |metas|
  {
    if n <= 1 then [] else
      var gap := GapBefore(metas, n - 1);
      Gaps(metas, n - 1) + (if Reported(gap) then [Gap(metas[n - 2].number, metas[n - 1].number, gap)] else [])
  }

  function Recorded(metas: seq<Meta>, n: nat): int
    requires n <= |metas|
  {
    if n == 0 then 0 else Recorded(metas, n - 1) + metas[n - 1].Duration()
  }

  method AuditGaps(metas: seq<Meta>) returns (gaps: seq<Gap>, totalRecorded: int)
    ensures gaps == Gaps(metas, |metas|) && totalRecorded == Recorded(metas, |metas|)
  {
    gaps, totalRecorded := [], 0;
    for i := 0 to |metas|
      invariant gaps == Gaps(metas, i) && totalRecorded == Recorded(metas, i)
    {
      totalRecorded := totalRecorded + metas[i].Duration();
      if i > 0 {
        var gap := metas[i].startedAt - metas[i - 1].endedAt;
        if gap > 2 * SECOND {
          gaps := gaps + [Gap(metas[i - 1].number, metas[i].number, gap)];
        }
      }
    }
  }

  ghost predicate IsGap(gap: Gap, a: Meta, b: Meta) {
    a.number == gap.fromNumber && b.number == gap.toNumber && b.startedAt - a.endedAt == gap.missing > 2 * SECOND
  }

  ghost predicate GapIn(gap: Gap, metas: seq<Meta>, n: nat)
    requires n <= |metas|
  {
    exists i :: 0 < i < n && IsGap(gap, metas[i - 1], metas[i])
  }

  /** A gap is reported exactly when two neighbours are more than two seconds apart, with their numbers and distance. */
  lemma {:induction false} GapsExactly(metas: seq<Meta>, n: nat, gap: Gap)
    requires n <= |metas|
    ensures gap in Gaps(metas, n) <==> GapIn(gap, metas, n)
  {
    if n > 1 {
      GapsExactly(metas, n - 1, gap);
      if GapIn(gap, metas, n) {
        var i :| 0 < i < n && IsGap(gap, metas[i - 1], metas[i]);
        assert i < n - 1 ==> GapIn(gap, metas, n - 1);
      }
      assert IsGap(gap, metas[n - 2], metas[n - 1]) ==> GapIn(gap, metas, n);
    }
  }

  function Sum(gaps: seq<Gap>): int {
    if gaps == [] then 0 else Sum(gaps[..|gaps| - 1]) + gaps[|gaps| - 1].missing
  }

  /** The gaps not reported, overlaps counting negative. */
  function Unreported(metas: seq<Meta>, n: nat): int
    requires n <= |metas|
  {
    if n <= 1 then 0 else Unreported(metas, n - 1) + (if Reported(GapBefore(metas, n - 1)) then 0 else GapBefore(metas, n - 1))
  }

  /** The span of the received segments is what was recorded, plus the gaps reported, plus those not reported, of which
      none is longer than two seconds. */
  lemma {:induction false} SpanAccounted(metas: seq<Meta>, n: nat)
    requires 0 < n <= |metas|
    ensures metas[n - 1].endedAt - metas[0].startedAt == Recorded(metas, n) + Sum(Gaps(metas, n)) + Unreported(metas, n)
    ensures |Gaps(metas, n)| <= n - 1 && Unreported(metas, n) <= 2 * SECOND * (n - 1 - |Gaps(metas, n)|)
  {
    if n > 1 {
      SpanAccounted(metas, n - 1);
      var before, gaps := Gaps(metas, n - 1), Gaps(metas, n);
      if Reported(GapBefore(metas, n - 1)) {
        assert gaps[..|gaps| - 1] == before;
      } else {
        assert gaps == before;
      }
    }
  }

  /** A missing head or tail leaves no gap: what timestamps report of a stretch of the segments, they report of all. */
  lemma {:induction false} MissingEndsInvisible(metas: seq<Meta>, lo: nat, hi: nat)
    requires lo <= hi <= |metas|
    ensures Gaps(metas, |metas|) == [] ==> Gaps(metas[lo..hi], hi - lo) == []
    decreases hi
  {
    if hi - lo > 1 {
      GapsGrow(metas, hi, |metas|);
      GapsGrow(metas, hi - 1, hi);
      MissingEndsInvisible(metas, lo, hi - 1);
      var all, less := metas[lo..hi], metas[lo..hi - 1];
      GapsPrefix(all, less, hi - lo - 1);
      assert GapBefore(all, hi - lo - 1) == GapBefore(metas, hi - 1);
    }
  }

  lemma {:induction false} GapsGrow(metas: seq<Meta>, a: nat, b: nat)
    requires a <= b <= |metas|
    ensures Gaps(metas, b) == [] ==> Gaps(metas, a) == []
    decreases b
  {
    if a < b {
      GapsGrow(metas, a, b - 1);
    }
  }

  lemma {:induction false} GapsPrefix(a: seq<Meta>, b: seq<Meta>, n: nat)
    requires n <= |a| && n <= |b| && forall i :: 0 <= i < n ==> a[i] == b[i]
    ensures Gaps(a, n) == Gaps(b, n)
  {
    if n > 0 {
      GapsPrefix(a, b, n - 1);
    }
  }

  // ---- Sorting ----

  function Insert(x: real, sorted: seq<real>): (r: seq<real>)
    ensures |r| == |sorted| + 1
  {
    if sorted == [] || sorted[|sorted| - 1] <= x then sorted + [x]
    else Insert(x, sorted[..|sorted| - 1]) + [sorted[|sorted| - 1]]
  }

  /** `slices.Sort`. */
  function Sort(xs: seq<real>): (r: seq<real>)
    ensures |r| == |xs|
  {
    if xs == [] then [] else Insert(xs[|xs| - 1], Sort(xs[..|xs| - 1]))
  }

  ghost predicate Ascending(xs: seq<real>) {
    forall i, j :: 0 <= i <= j < |xs| ==> xs[i] <= xs[j]
  }

  function Below(xs: seq<real>, t: real): nat {
    if xs == [] then 0 else Below(xs[..|xs| - 1], t) + (if xs[|xs| - 1] < t then 1 else 0)
  }

  function Above(xs: seq<real>, t: real): nat {
    if xs == [] then 0 else Above(xs[..|xs| - 1], t) + (if xs[|xs| - 1] > t then 1 else 0)
  }

  lemma {:induction false} InsertMembers(x: real, sorted: seq<real>, i: nat)
    requires i < |Insert(x, sorted)|
    ensures Insert(x, sorted)[i] == x || Insert(x, sorted)[i] in sorted
  {
    if sorted != [] && sorted[|sorted| - 1] > x && i < |sorted| {
      InsertMembers(x, sorted[..|sorted| - 1], i);
    }
  }

  lemma {:induction false} InsertAscends(x: real, sorted: seq<real>)
    requires Ascending(sorted)
    ensures Ascending(Insert(x, sorted))
  {
    if sorted != [] && sorted[|sorted| - 1] > x {
      var front, last := sorted[..|sorted| - 1], sorted[|sorted| - 1];
      InsertAscends(x, front);
      forall i | 0 <= i < |front| + 1 ensures Insert(x, front)[i] <= last {
        InsertMembers(x, front, i);
      }
    }
  }

  lemma {:induction false} InsertBelow(x: real, sorted: seq<real>, t: real)
    ensures Below(Insert(x, sorted), t) == Below(sorted, t) + (if x < t then 1 else 0)
  {
    var r := Insert(x, sorted);
    if sorted == [] || sorted[|sorted| - 1] <= x {
      assert r[..|r| - 1] == sorted;
    } else {
      InsertBelow(x, sorted[..|sorted| - 1], t);
      assert r[..|r| - 1] == Insert(x, sorted[..|sorted| - 1]);
    }
  }

  lemma {:induction false} InsertAbove(x: real, sorted: seq<real>, t: real)
    ensures Above(Insert(x, sorted), t) == Above(sorted, t) + (if x > t then 1 else 0)
  {
    var r := Insert(x, sorted);
    if sorted == [] || sorted[|sorted| - 1] <= x {
      assert r[..|r| - 1] == sorted;
    } else {
      InsertAbove(x, sorted[..|sorted| - 1], t);
      assert r[..|r| - 1] == Insert(x, sorted[..|sorted| - 1]);
    }
  }

  lemma {:induction false} SortAscends(xs: seq<real>)
    ensures Ascending(Sort(xs))
  {
    if xs != [] {
      SortAscends(xs[..|xs| - 1]);
      InsertAscends(xs[|xs| - 1], Sort(xs[..|xs| - 1]));
    }
  }

  lemma {:induction false} SortBelow(xs: seq<real>, t: real)
    ensures Below(Sort(xs), t) == Below(xs, t)
  {
    if xs != [] {
      SortBelow(xs[..|xs| - 1], t);
      InsertBelow(xs[|xs| - 1], Sort(xs[..|xs| - 1]), t);
    }
  }

  lemma {:induction false} SortAbove(xs: seq<real>, t: real)
    ensures Above(Sort(xs), t) == Above(xs, t)
  {
    if xs != [] {
      SortAbove(xs[..|xs| - 1], t);
      InsertAbove(xs[|xs| - 1], Sort(xs[..|xs| - 1]), t);
    }
  }

  lemma {:induction false} SortMembers(xs: seq<real>, i: nat)
    requires i < |xs|
    ensures Sort(xs)[i] in xs
  {
    var front := xs[..|xs| - 1];
    InsertMembers(xs[|xs| - 1], Sort(front), i);
    if Sort(xs)[i] in Sort(front) {
      var k :| 0 <= k < |Sort(front)| && Sort(front)[k] == Sort(xs)[i];
      SortMembers(front, k);
    }
  }

  lemma {:induction false} BelowAtMost(sorted: seq<real>, t: real, k: nat)
    requires Ascending(sorted) && k < |sorted| && sorted[k] >= t
    ensures Below(sorted, t) <= k
  {
    BelowOfPrefix(sorted, t, k, |sorted|);
    assert sorted[..|sorted|] == sorted;
  }

  lemma {:induction false} BelowOfPrefix(sorted: seq<real>, t: real, k: nat, n: nat)
    requires Ascending(sorted) && k < |sorted| && sorted[k] >= t && n <= |sorted|
    ensures Below(sorted[..n], t) <= if n <= k then n else k
  {
    if n > 0 {
      BelowOfPrefix(sorted, t, k, n - 1);
      assert sorted[..n][..n - 1] == sorted[..n - 1];
      assert n - 1 >= k ==> sorted[k] <= sorted[n - 1];
    }
  }

  // ---- Frame rates ----

  predicate Measurable(segment: Declared) {
    segment.Duration() > 0 && segment.frames > 0
  }

  function Rate(segment: Declared): real
    requires segment.Duration() > 0
  {
    segment.frames as real / segment.Duration() as real
  }

  function Rates(segments: seq<Declared>, n: nat): seq<real>
    requires n <= |segments|
  {
    if n == 0 then [] else Rates(segments, n - 1) + (if Measurable(segments[n - 1]) then [Rate(segments[n - 1])] else [])
  }

  function Median(rates: seq<real>): real {
    var sorted := Sort(rates);
    var middle := |sorted| / 2;
    if sorted == [] then 0.0
    else if |sorted| % 2 == 1 then sorted[middle]
    else (sorted[middle - 1] + sorted[middle]) / 2.0
  }

  lemma {:induction false} CountsSorted(sorted: seq<real>, k: nat, x: real, n: nat)
    requires Ascending(sorted) && k < |sorted| && n <= |sorted|
    ensures sorted[k] < x ==> Below(sorted[..n], x) >= if n <= k then n else k + 1
    ensures sorted[k] > x ==> Above(sorted[..n], x) >= if n <= k then 0 else n - k
    ensures sorted[k] <= x ==> Above(sorted[..n], x) <= if n <= k then 0 else n - k - 1
  {
    if n > 0 {
      CountsSorted(sorted, k, x, n - 1);
      assert sorted[..n][..n - 1] == sorted[..n - 1];
      assert n - 1 <= k ==> sorted[n - 1] <= sorted[k];
      assert n - 1 >= k ==> sorted[k] <= sorted[n - 1];
    }
  }

  /** At most half of the rates exceed `x`. */
  ghost predicate MostReach(rates: seq<real>, x: real) {
    2 * Above(rates, x) <= |rates|
  }

  /** At most half of them fall short of it. */
  ghost predicate MostExceed(rates: seq<real>, x: real) {
    2 * Below(rates, x) <= |rates|
  }

  lemma {:induction false} MiddleOfSorted(rates: seq<real>, x: real)
    requires rates != []
    ensures var sorted, n := Sort(rates), |rates|;
      && MostReach(rates, sorted[(n - 1) / 2]) && (x < sorted[(n - 1) / 2] ==> !MostReach(rates, x))
      && MostExceed(rates, sorted[n / 2]) && (x > sorted[n / 2] ==> !MostExceed(rates, x))
  {
    var sorted, n := Sort(rates), |rates|;
    var lo, hi := sorted[(n - 1) / 2], sorted[n / 2];
    SortAscends(rates);
    assert sorted[..n] == sorted;
    SortAbove(rates, lo);
    SortAbove(rates, x);
    SortBelow(rates, hi);
    SortBelow(rates, x);
    CountsSorted(sorted, (n - 1) / 2, lo, n);
    CountsSorted(sorted, (n - 1) / 2, x, n);
    BelowAtMost(sorted, hi, n / 2);
    CountsSorted(sorted, n / 2, x, n);
  }

  /** The median lies half way between the least rate that at most half exceed and the greatest that at most half fall
      short of. */
  lemma {:induction false} MedianIsMiddle(rates: seq<real>) returns (lo: real, hi: real)
    requires rates != []
    ensures lo in rates && hi in rates && Median(rates) == (lo + hi) / 2.0
    ensures MostReach(rates, lo) && forall x | x < lo :: !MostReach(rates, x)
    ensures MostExceed(rates, hi) && forall x | x > hi :: !MostExceed(rates, x)
  {
    var n := |rates|;
    lo, hi := Sort(rates)[(n - 1) / 2], Sort(rates)[n / 2];
    SortMembers(rates, (n - 1) / 2);
    SortMembers(rates, n / 2);
    MiddleOfSorted(rates, lo);
    forall x | x < lo ensures !MostReach(rates, x) {
      MiddleOfSorted(rates, x);
    }
    forall x | x > hi ensures !MostExceed(rates, x) {
      MiddleOfSorted(rates, x);
    }
  }

  method MedianFrameRate(segments: seq<Declared>) returns (median: real)
    ensures median == Median(Rates(segments, |segments|))
  {
    var rates := [];
    for i := 0 to |segments|
      invariant rates == Rates(segments, i)
    {
      if segments[i].Duration() <= 0 || segments[i].frames <= 0 {
        continue;
      }
      rates := rates + [segments[i].frames as real / segments[i].Duration() as real];
    }
    if |rates| == 0 {
      return 0.0;
    }
    rates := Sort(rates);
    var middle := |rates| / 2;
    if |rates| % 2 == 1 {
      return rates[middle];
    }
    return (rates[middle - 1] + rates[middle]) / 2.0;
  }

  function Verdict(segment: Declared, baseline: real): seq<Anomaly> {
    if segment.sizeBytes == 0 then [Anomaly(segment.number, Empty)]
    else if segment.Duration() <= 0 then []
    else if segment.frames == 0 then [Anomaly(segment.number, NotCaptured)]
    else if baseline > 0.0 && Rate(segment) < baseline * LOW_FRAME_RATE_FRACTION then [Anomaly(segment.number, LowFrameRate)]
    else []
  }

  function Verdicts(segments: seq<Declared>, n: nat, baseline: real): seq<Anomaly>
    requires n <= |segments|
  {
    if n == 0 then [] else Verdicts(segments, n - 1, baseline) + Verdict(segments[n - 1], baseline)
  }

  method CaptureAnomalies(segments: seq<Declared>) returns (anomalies: seq<Anomaly>)
    ensures anomalies == Verdicts(segments, |segments|, Median(Rates(segments, |segments|)))
  {
    anomalies := [];
    var baseline := MedianFrameRate(segments);
    for i := 0 to |segments|
      invariant anomalies == Verdicts(segments, i, baseline)
    {
      var segment := segments[i];
      if segment.sizeBytes == 0 {
        anomalies := anomalies + [Anomaly(segment.number, Empty)];
        continue;
      }
      if segment.Duration() <= 0 {
        continue;
      }
      if segment.frames == 0 {
        anomalies := anomalies + [Anomaly(segment.number, NotCaptured)];
        continue;
      }
      if baseline <= 0.0 {
        continue;
      }
      var rate := segment.frames as real / segment.Duration() as real;
      if rate < baseline * LOW_FRAME_RATE_FRACTION {
        anomalies := anomalies + [Anomaly(segment.number, LowFrameRate)];
      }
    }
  }

  /** What each kind of anomaly says of a declared segment. */
  ghost predicate Shows(segment: Declared, kind: Kind, baseline: real) {
    match kind
    case Empty => segment.sizeBytes == 0
    case NotCaptured => segment.sizeBytes != 0 && segment.startedAt < segment.endedAt && segment.frames == 0
    case LowFrameRate =>
      && segment.sizeBytes != 0 && segment.startedAt < segment.endedAt && segment.frames != 0 && baseline > 0.0
      && 2.0 * segment.frames as real < baseline * segment.Duration() as real
    case Missing => false
  }

  lemma {:induction false} RateBelow(frames: real, duration: real, baseline: real)
    requires duration > 0.0
    ensures frames / duration < baseline * LOW_FRAME_RATE_FRACTION <==> 2.0 * frames < baseline * duration
  {
    var rate := frames / duration;
    assert rate * duration == frames;
    if rate < baseline * 0.5 {
      assert (baseline * 0.5 - rate) * duration > 0.0;
    } else {
      assert (rate - baseline * 0.5) * duration >= 0.0;
    }
  }

  lemma {:induction false} VerdictExactly(segment: Declared, baseline: real, a: Anomaly)
    ensures a in Verdict(segment, baseline) <==> a.number == segment.number && Shows(segment, a.kind, baseline)
    ensures |Verdict(segment, baseline)| <= 1
  {
    if segment.Duration() > 0 {
      RateBelow(segment.frames as real, segment.Duration() as real, baseline);
    }
  }

  ghost predicate ShownIn(a: Anomaly, segments: seq<Declared>, n: nat, baseline: real)
    requires n <= |segments|
  {
    exists i :: 0 <= i < n && segments[i].number == a.number && Shows(segments[i], a.kind, baseline)
  }

  /** An anomaly is reported exactly when a declared segment of its number shows it. */
  lemma {:induction false} AnomaliesExactly(segments: seq<Declared>, n: nat, baseline: real, a: Anomaly)
    requires n <= |segments|
    ensures a in Verdicts(segments, n, baseline) <==> ShownIn(a, segments, n, baseline)
  {
    if n > 0 {
      AnomaliesExactly(segments, n - 1, baseline, a);
      VerdictExactly(segments[n - 1], baseline, a);
    }
  }

  predicate Slow(segment: Declared, baseline: real) {
    Verdict(segment, baseline) == [Anomaly(segment.number, LowFrameRate)]
  }

  /** Measurable segments flagged among the first `n`. */
  function SlowMeasurable(segments: seq<Declared>, n: nat, baseline: real): nat
    requires n <= |segments|
  {
    if n == 0 then 0 else
      SlowMeasurable(segments, n - 1, baseline) + (if Measurable(segments[n - 1]) && Slow(segments[n - 1], baseline) then 1 else 0)
  }

  lemma {:induction false} SlowAreBelow(segments: seq<Declared>, n: nat, baseline: real)
    requires n <= |segments|
    ensures SlowMeasurable(segments, n, baseline) <= Below(Rates(segments, n), baseline * LOW_FRAME_RATE_FRACTION)
  {
    if n > 0 {
      SlowAreBelow(segments, n - 1, baseline);
      var rates := Rates(segments, n);
      if Measurable(segments[n - 1]) {
        assert rates[..|rates| - 1] == Rates(segments, n - 1);
      } else {
        assert rates == Rates(segments, n - 1);
      }
    }
  }

  lemma {:induction false} RatesPositive(segments: seq<Declared>, n: nat)
    requires n <= |segments|
    ensures forall x :: x in Rates(segments, n) ==> x > 0.0
    ensures forall i :: 0 <= i < n && Measurable(segments[i]) ==> Rate(segments[i]) in Rates(segments, n)
  {
    if n > 0 {
      RatesPositive(segments, n - 1);
    }
  }

  lemma {:induction false} UpperHalfReachesMedian(rates: seq<real>)
    requires rates != [] && forall x :: x in rates ==> x > 0.0
    ensures 0.0 < Median(rates) <= Sort(rates)[|rates| / 2]
  {
    var sorted, middle := Sort(rates), |rates| / 2;
    SortAscends(rates);
    SortMembers(rates, middle);
    if |rates| % 2 == 0 {
      SortMembers(rates, middle - 1);
      assert sorted[middle - 1] <= sorted[middle];
    }
  }

  lemma {:induction false} FewBelowHalfMedian(rates: seq<real>)
    requires rates != [] && forall x :: x in rates ==> x > 0.0
    ensures Below(rates, Median(rates) * LOW_FRAME_RATE_FRACTION) <= |rates| / 2
  {
    var t := Median(rates) * LOW_FRAME_RATE_FRACTION;
    UpperHalfReachesMedian(rates);
    SortAscends(rates);
    SortBelow(rates, t);
    BelowAtMost(Sort(rates), t, |rates| / 2);
  }

  /** At most half of the measurable segments are ever called slow. */
  lemma {:induction false} AtMostHalfSlow(segments: seq<Declared>)
    ensures var rates := Rates(segments, |segments|);
      2 * SlowMeasurable(segments, |segments|, Median(rates)) <= |rates|
  {
    var rates := Rates(segments, |segments|);
    SlowAreBelow(segments, |segments|, Median(rates));
    RatesPositive(segments, |segments|);
    if rates != [] {
      FewBelowHalfMedian(rates);
    }
  }

  predicate Negative(segment: Declared) {
    segment.frames < 0 && segment.Duration() > 0 && segment.sizeBytes != 0
  }

  /** A negative frame count is never measurable, and always called slow once there is anything to compare with. */
  lemma {:induction false} NegativeCountsAreSlow(segment: Declared, baseline: real)
    requires Negative(segment)
    ensures !Measurable(segment) && (Slow(segment, baseline) <==> baseline > 0.0)
  {
    var frames, duration := segment.frames as real, segment.Duration() as real;
    assert frames < 0.0 && duration > 0.0;
    assert frames / duration < 0.0;
  }

  function Negatives(segments: seq<Declared>, n: nat): nat
    requires n <= |segments|
  {
    if n == 0 then 0 else Negatives(segments, n - 1) + (if Negative(segments[n - 1]) then 1 else 0)
  }

  /** Segments called slow among the first `n`, measurable or not. */
  function SlowOnes(segments: seq<Declared>, n: nat, baseline: real): nat
    requires n <= |segments|
  {
    if n == 0 then 0 else SlowOnes(segments, n - 1, baseline) + (if Slow(segments[n - 1], baseline) then 1 else 0)
  }

  lemma {:induction false} SlowIsMeasurableOrNegative(segment: Declared, baseline: real)
    ensures Slow(segment, baseline) <==> (Measurable(segment) && Slow(segment, baseline)) || (Negative(segment) && baseline > 0.0)
  {
    if Negative(segment) {
      NegativeCountsAreSlow(segment, baseline);
    }
  }

  lemma {:induction false} SlowOnesSplit(segments: seq<Declared>, n: nat, baseline: real)
    requires n <= |segments|
    ensures SlowOnes(segments, n, baseline)
      == SlowMeasurable(segments, n, baseline) + (if baseline > 0.0 then Negatives(segments, n) else 0)
  {
    if n > 0 {
      SlowOnesSplit(segments, n - 1, baseline);
      SlowIsMeasurableOrNegative(segments[n - 1], baseline);
    }
  }

  /** The segments called slow are at most half of the measurable ones, and besides, once one is measurable, every
      negative declaration. So without negative frame counts at most half of what the median is taken of is slow. */
  lemma {:induction false} SlowExactly(segments: seq<Declared>)
    ensures var n, rates := |segments|, Rates(segments, |segments|);
      && SlowOnes(segments, n, Median(rates)) == SlowMeasurable(segments, n, Median(rates)) + (if rates == [] then 0 else Negatives(segments, n))
      && (Negatives(segments, n) == 0 ==> 2 * SlowOnes(segments, n, Median(rates)) <= |rates|)
  {
    var n, rates := |segments|, Rates(segments, |segments|);
    SlowOnesSplit(segments, n, Median(rates));
    AtMostHalfSlow(segments);
    RatesPositive(segments, n);
    if rates != [] {
      UpperHalfReachesMedian(rates);
    }
  }

  lemma {:induction false} NegativesBeside(good: Declared, bad: Declared, n: nat, k: nat)
    requires Measurable(good) && Negative(bad) && k <= n
    ensures var segments := [good] + seq(n, _ => bad); Rates(segments, k + 1) == [Rate(good)] && Negatives(segments, k + 1) == k
  {
    var segments := [good] + seq(n, _ => bad);
    if k == 0 {
      assert Rates(segments, 0) == [] && segments[0] == good;
    } else {
      NegativesBeside(good, bad, n, k - 1);
      assert segments[k] == bad;
    }
  }

  /** Nothing rejects negative declarations, so the share of segments called slow has no bound below one: beside a single
      measurable segment, `n` of them are `n` slow ones. */
  lemma {:induction false} AllButOneSlow(good: Declared, bad: Declared, n: nat)
    requires Measurable(good) && Negative(bad)
    ensures var segments := [good] + seq(n, _ => bad);
      |segments| == n + 1 && SlowOnes(segments, n + 1, Median(Rates(segments, n + 1))) == n
  {
    var segments := [good] + seq(n, _ => bad);
    NegativesBeside(good, bad, n, n);
    SlowExactly(segments);
    AtMostHalfSlow(segments);
  }

  lemma {:induction false} MedianAtMost(segments: seq<Declared>, bound: real)
    requires Rates(segments, |segments|) != []
    requires forall k :: 0 <= k < |segments| && Measurable(segments[k]) ==> Rate(segments[k]) <= bound
    ensures Median(Rates(segments, |segments|)) <= bound
  {
    var rates := Rates(segments, |segments|);
    RatesPositive(segments, |segments|);
    RatesAreRates(segments, |segments|);
    UpperHalfReachesMedian(rates);
    SortMembers(rates, |rates| / 2);
  }

  /** A stream whose fastest segment is at most twice as fast as its slowest has no slow segment. */
  lemma {:induction false} EvenStreamsNeverSlow(segments: seq<Declared>, slowest: real, i: nat)
    requires i < |segments| && Measurable(segments[i])
    requires forall k :: 0 <= k < |segments| && Measurable(segments[k]) ==> slowest <= Rate(segments[k]) <= 2.0 * slowest
    ensures !Slow(segments[i], Median(Rates(segments, |segments|)))
  {
    RatesPositive(segments, |segments|);
    MedianAtMost(segments, 2.0 * slowest);
    var baseline := Median(Rates(segments, |segments|));
    assert baseline * LOW_FRAME_RATE_FRACTION <= slowest;
  }

  lemma {:induction false} RatesAreRates(segments: seq<Declared>, n: nat)
    requires n <= |segments|
    ensures forall x :: x in Rates(segments, n) ==> exists k :: 0 <= k < n && Measurable(segments[k]) && Rate(segments[k]) == x
  {
    if n > 0 {
      RatesAreRates(segments, n - 1);
      var before := Rates(segments, n - 1);
      forall x | x in Rates(segments, n) ensures exists k :: 0 <= k < n && Measurable(segments[k]) && Rate(segments[k]) == x {
        if x in before {
          var k :| 0 <= k < n - 1 && Measurable(segments[k]) && Rate(segments[k]) == x;
        } else {
          assert Measurable(segments[n - 1]) && Rate(segments[n - 1]) == x;
        }
      }
    }
  }

  // ---- Reconciliation ----

  datatype Inventory = NoInventory | Inventory(segments: seq<Declared>, complete: bool)

  datatype StreamCoverage = StreamCoverage(declared: nat, received: nat, missing: seq<int>, anomalies: seq<Anomaly>,
                                           hasInventory: bool, clientComplete: bool, declaredFrames: int) {
    predicate HasGaps() {
      |missing| > 0
    }
  }

  /** Declared segments that did not arrive, in declared order. */
  function Absent(segments: seq<Declared>, n: nat, arrived: set<int>): seq<int>
    requires n <= |segments|
  {
    if n == 0 then [] else Absent(segments, n - 1, arrived) + (if segments[n - 1].number in arrived then [] else [segments[n - 1].number])
  }

  function ArrivedFrames(segments: seq<Declared>, n: nat, arrived: set<int>): int
    requires n <= |segments|
  {
    if n == 0 then 0 else ArrivedFrames(segments, n - 1, arrived) + (if segments[n - 1].number in arrived then segments[n - 1].frames else 0)
  }

  function InsertInt(x: int, sorted: seq<int>): seq<int> {
    if sorted == [] || sorted[|sorted| - 1] <= x then sorted + [x]
    else InsertInt(x, sorted[..|sorted| - 1]) + [sorted[|sorted| - 1]]
  }

  function SortInts(xs: seq<int>): seq<int> {
    if xs == [] then [] else InsertInt(xs[|xs| - 1], SortInts(xs[..|xs| - 1]))
  }

  function Missings(numbers: seq<int>): seq<Anomaly> {
    if numbers == [] then [] else Missings(numbers[..|numbers| - 1]) + [Anomaly(numbers[|numbers| - 1], Missing)]
  }

  function ToNumbers(gaps: seq<Gap>): seq<int> {
    if gaps == [] then [] else ToNumbers(gaps[..|gaps| - 1]) + [gaps[|gaps| - 1].toNumber]
  }

  function Numbers(received: seq<Meta>): set<int> {
    set i | 0 <= i < |received| :: received[i].number
  }

  ghost predicate SomeReported(metas: seq<Meta>, n: nat)
    requires n <= |metas|
  {
    exists i :: 0 < i < n && Reported(GapBefore(metas, i))
  }

  ghost predicate SomeAbsent(segments: seq<Declared>, n: nat, arrived: set<int>)
    requires n <= |segments|
  {
    exists i :: 0 <= i < n && segments[i].number !in arrived
  }

  lemma {:induction false} GapsNonEmpty(metas: seq<Meta>, n: nat)
    requires n <= |metas|
    ensures |ToNumbers(Gaps(metas, n))| > 0 <==> SomeReported(metas, n)
  {
    if n > 1 {
      GapsNonEmpty(metas, n - 1);
      if SomeReported(metas, n - 1) {
        var i :| 0 < i < n - 1 && Reported(GapBefore(metas, i));
      } else if Reported(GapBefore(metas, n - 1)) {
        assert SomeReported(metas, n);
      }
    }
  }

  lemma {:induction false} SortIntsLength(xs: seq<int>)
    ensures |SortInts(xs)| == |xs|
  {
    if xs != [] {
      SortIntsLength(xs[..|xs| - 1]);
      InsertIntLength(xs[|xs| - 1], SortInts(xs[..|xs| - 1]));
    }
  }

  lemma {:induction false} InsertIntLength(x: int, sorted: seq<int>)
    ensures |InsertInt(x, sorted)| == |sorted| + 1
  {
    if sorted != [] && sorted[|sorted| - 1] > x {
      InsertIntLength(x, sorted[..|sorted| - 1]);
    }
  }

  lemma {:induction false} AbsentNonEmpty(segments: seq<Declared>, n: nat, arrived: set<int>)
    requires n <= |segments|
    ensures |Absent(segments, n, arrived)| > 0 <==> SomeAbsent(segments, n, arrived)
  {
    if n > 0 {
      AbsentNonEmpty(segments, n - 1, arrived);
    }
  }

  lemma {:induction false} MissingMeansGaps(inventory: Inventory, received: seq<Meta>)
    ensures |ToNumbers(Gaps(received, |received|))| > 0 <==> SomeReported(received, |received|)
    ensures inventory.Inventory? ==>
      var segments := inventory.segments;
      (|SortInts(Absent(segments, |segments|, Numbers(received)))| > 0) <==> SomeAbsent(segments, |segments|, Numbers(received))
  {
    GapsNonEmpty(received, |received|);
    if inventory.Inventory? {
      AbsentNonEmpty(inventory.segments, |inventory.segments|, Numbers(received));
      SortIntsLength(Absent(inventory.segments, |inventory.segments|, Numbers(received)));
    }
  }

  method Reconcile(inventory: Inventory, received: seq<Meta>) returns (coverage: StreamCoverage)
    ensures coverage.received == |received|
    ensures if inventory.NoInventory? || inventory.segments == [] then
        var late := ToNumbers(Gaps(received, |received|));
        coverage == StreamCoverage(0, |received|, late, Missings(late), false, false, 0)
      else
        var segments, arrived := inventory.segments, Numbers(received);
        var absent := Absent(segments, |segments|, arrived);
        coverage == StreamCoverage(|segments|, |received|, SortInts(absent),
          Missings(absent) + Verdicts(segments, |segments|, Median(Rates(segments, |segments|))),
          true, inventory.complete, ArrivedFrames(segments, |segments|, arrived))
    ensures coverage.HasGaps() <==>
      if inventory.NoInventory? || inventory.segments == [] then
        SomeReported(received, |received|)
      else
        SomeAbsent(inventory.segments, |inventory.segments|, Numbers(received))
  {
    var arrived := Numbers(received);
    var missing, anomalies := [], [];
    MissingMeansGaps(inventory, received);
    if inventory.NoInventory? || |inventory.segments| == 0 {
      var gaps, _ := AuditGaps(received);
      for i := 0 to |gaps|
        invariant missing == ToNumbers(gaps[..i]) && anomalies == Missings(missing)
      {
        assert gaps[..i + 1][..i] == gaps[..i] && (missing + [gaps[i].toNumber])[..|missing|] == missing;
        anomalies := anomalies + [Anomaly(gaps[i].toNumber, Missing)];
        missing := missing + [gaps[i].toNumber];
      }
      assert gaps[..|gaps|] == gaps;
      return StreamCoverage(0, |received|, missing, anomalies, false, false, 0);
    }
    var segments := inventory.segments;
    var frames := 0;
    for i := 0 to |segments|
      invariant missing == Absent(segments, i, arrived) && anomalies == Missings(missing)
      invariant frames == ArrivedFrames(segments, i, arrived)
    {
      if segments[i].number in arrived {
        frames := frames + segments[i].frames;
      }
      if segments[i].number !in arrived {
        assert (missing + [segments[i].number])[..|missing|] == missing;
        missing := missing + [segments[i].number];
        anomalies := anomalies + [Anomaly(segments[i].number, Missing)];
      }
    }
    var capture := CaptureAnomalies(segments);
    coverage := StreamCoverage(|segments|, |received|, SortInts(missing), anomalies + capture, true, inventory.complete, frames);
  }

  function DeclaredTimes(x: int, segments: seq<Declared>, n: nat): nat
    requires n <= |segments|
  {
    if n == 0 then 0 else DeclaredTimes(x, segments, n - 1) + (if segments[n - 1].number == x then 1 else 0)
  }

  ghost predicate Sorted(xs: seq<int>) {
    forall i, j :: 0 <= i <= j < |xs| ==> xs[i] <= xs[j]
  }

  lemma {:induction false} InsertIntTimes(x: int, sorted: seq<int>, y: int)
    ensures Times(y, InsertInt(x, sorted)) == Times(y, sorted) + (if x == y then 1 else 0)
  {
    var r := InsertInt(x, sorted);
    if sorted == [] || sorted[|sorted| - 1] <= x {
      assert r[..|r| - 1] == sorted;
    } else {
      InsertIntTimes(x, sorted[..|sorted| - 1], y);
      assert r[..|r| - 1] == InsertInt(x, sorted[..|sorted| - 1]);
    }
  }

  lemma {:induction false} InsertIntSorts(x: int, sorted: seq<int>)
    requires Sorted(sorted)
    ensures var r := InsertInt(x, sorted); Sorted(r) && forall i :: 0 <= i < |r| ==> r[i] == x || r[i] in sorted
  {
    if sorted != [] && sorted[|sorted| - 1] > x {
      var front, last := sorted[..|sorted| - 1], sorted[|sorted| - 1];
      InsertIntSorts(x, front);
      var r := InsertInt(x, front);
      forall i | 0 <= i < |r| ensures r[i] <= last && (r[i] == x || r[i] in sorted) {
        assert r[i] == x || r[i] in front;
      }
    }
  }

  lemma {:induction false} SortIntsSorts(xs: seq<int>, y: int)
    ensures Sorted(SortInts(xs)) && Times(y, SortInts(xs)) == Times(y, xs)
  {
    if xs != [] {
      SortIntsSorts(xs[..|xs| - 1], y);
      InsertIntSorts(xs[|xs| - 1], SortInts(xs[..|xs| - 1]));
      InsertIntTimes(xs[|xs| - 1], SortInts(xs[..|xs| - 1]), y);
    }
  }

  lemma {:induction false} AbsentTimes(segments: seq<Declared>, n: nat, arrived: set<int>, x: int)
    requires n <= |segments|
    ensures Times(x, Absent(segments, n, arrived)) == if x in arrived then 0 else DeclaredTimes(x, segments, n)
  {
    if n > 0 {
      AbsentTimes(segments, n - 1, arrived, x);
      var absent := Absent(segments, n, arrived);
      if segments[n - 1].number !in arrived {
        assert absent[..|absent| - 1] == Absent(segments, n - 1, arrived);
      } else {
        assert absent == Absent(segments, n - 1, arrived);
      }
    }
  }

  /** With an inventory the missing numbers are exactly the declared ones that did not arrive, as often as they were
      declared, in order. */
  lemma {:induction false} MissingExactly(segments: seq<Declared>, arrived: set<int>, x: int)
    ensures var missing := SortInts(Absent(segments, |segments|, arrived));
      Sorted(missing) && Times(x, missing) == (if x in arrived then 0 else DeclaredTimes(x, segments, |segments|))
  {
    SortIntsSorts(Absent(segments, |segments|, arrived), x);
    AbsentTimes(segments, |segments|, arrived, x);
  }

  /** One anomaly for each missing number, in order; a gap's is that of the segment after it. */
  lemma {:induction false} MissingsInOrder(numbers: seq<int>, i: nat)
    ensures |Missings(numbers)| == |numbers|
    ensures i < |numbers| ==> Missings(numbers)[i] == Anomaly(numbers[i], Missing)
  {
    if numbers != [] {
      MissingsInOrder(numbers[..|numbers| - 1], i);
    }
  }

  lemma {:induction false} NumbersInOrder(gaps: seq<Gap>, i: nat)
    ensures |ToNumbers(gaps)| == |gaps|
    ensures i < |gaps| ==> ToNumbers(gaps)[i] == gaps[i].toNumber
  {
    if gaps != [] {
      NumbersInOrder(gaps[..|gaps| - 1], i);
    }
  }

  function DeclaredFrames(segments: seq<Declared>, n: nat): int
    requires n <= |segments|
  {
    if n == 0 then 0 else DeclaredFrames(segments, n - 1) + segments[n - 1].frames
  }

  /** The frames counted as declared are those of the segments that arrived: with those of the segments that did not,
      they are all the frames declared. */
  lemma {:induction false} FramesAccounted(segments: seq<Declared>, n: nat, arrived: set<int>, lost: set<int>)
    requires n <= |segments| && arrived !! lost
    requires forall i :: 0 <= i < n ==> segments[i].number in arrived || segments[i].number in lost
    ensures ArrivedFrames(segments, n, arrived) + ArrivedFrames(segments, n, lost) == DeclaredFrames(segments, n)
    ensures lost == {} ==> ArrivedFrames(segments, n, arrived) == DeclaredFrames(segments, n)
  {
    if n > 0 {
      FramesAccounted(segments, n - 1, arrived, lost);
    }
  }
}
