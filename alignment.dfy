/**
 * The structural-alignment engine (detect_add_churn_drivers.py): for a weekly table of a
 * target (adds or churn) and a driver component of it, smooth both with 4-week rolling sums,
 * take the driver's share of the target and the 8-week rolling correlation of driver and
 * target, then score and classify how closely the driver tracks the target.
 */
module AddChurnDrivers {
  import opened Wrappers
  import opened Numeric
  import opened Correlation

  const RollingWindow: nat := 4
  const CorrWindow: nat := 8
  const MinPoints: nat := 12
  const CorrAligned: real := 0.60
  const ShareMin: real := 0.10
  const ScoreAligned: real := 0.65
  const ScoreHigh: real := 0.80
  const CorrWeight: real := 0.7
  const ShareWeight: real := 0.3

  /** One row of the table the spine is built from: the week, the target count and the driver count. */
  datatype WeekRow = WeekRow(week: int, target: nat, driver: nat)

  /**
   * One week of a detector's input frame, with every count column the frames carry. An
   * adds frame fills `adds`, `isRetail` and `isPortin`; a churn frame fills `churn`,
   * `isCompetitive` and `isFinancial`; a column a frame does not have is never read.
   */
  datatype WeeklyRecord = WeeklyRecord(
    week: int,
    adds: nat,
    churn: nat,
    isRetail: nat,
    isCompetitive: nat,
    isPortin: nat,
    isFinancial: nat)

  /** The count columns of a frame, named as the detectors name them. */
  datatype Column = Adds | Churn | IsRetail | IsCompetitive | IsPortin | IsFinancial

  /** A row of the spine after smoothing; `None` stands for NaN. */
  datatype SpineRow = SpineRow(
    week: int,
    target: nat,
    driver: nat,
    targetRw: real,
    driverRw: real,
    share: Option<real>,
    corr: Option<real>)

  datatype Confidence = High | Medium | Low

  datatype Metrics = Metrics(
    corrLatest: Option<real>,
    corrRecentAvg: Option<real>,
    shareLatest: Option<real>,
    shareRecentAvg: Option<real>,
    alignmentScore: real,
    targetLevelRecent: real,
    driverLevelRecent: real)

  /** What accompanies a verdict: a reason, the metrics, or the empty metrics of the stub. */
  datatype Details = Reason(reason: string) | WithMetrics(metrics: Metrics) | NoMetrics

  datatype DriverResult = DriverResult(driver: string, aligned: bool, confidence: Confidence, details: Details)

  datatype SegmentResult = SegmentResult(adds: DriverResult, churn: DriverResult)

  datatype Analysis = Analysis(postpaid: SegmentResult, prepaid: SegmentResult)

  // ---------------------------------------------------------------------------------------
  // Sorting by week
  // ---------------------------------------------------------------------------------------

  predicate SortedByWeek(rows: seq<WeekRow>)
  {
    forall i, j :: 0 <= i < j < |rows| ==> rows[i].week <= rows[j].week
  }

  function Insert(x: WeekRow, rows: seq<WeekRow>): (r: seq<WeekRow>)
    requires SortedByWeek(rows)
    ensures SortedByWeek(r)
    ensures multiset(r) == multiset(rows) + multiset{x}
  {
    if |rows| == 0 || x.week <= rows[0].week then
      [x] + rows
    else
      var rest := Insert(x, rows[1..]);
      assert rows == [rows[0]] + rows[1..];
      WeeksFrom(rows[0].week, x, rows[1..], rest);
      SortedCons(rows[0], rest);
      [rows[0]] + rest
  }

  lemma SortedCons(h: WeekRow, rest: seq<WeekRow>)
    requires SortedByWeek(rest)
    requires forall j :: 0 <= j < |rest| ==> h.week <= rest[j].week
    ensures SortedByWeek([h] + rest)
  {
  }

  /** Rows drawn from rows' and x, all of week lo or later, keep that bound. */
  lemma WeeksFrom(lo: int, x: WeekRow, rows': seq<WeekRow>, rest: seq<WeekRow>)
    requires lo <= x.week
    requires forall i :: 0 <= i < |rows'| ==> lo <= rows'[i].week
    requires multiset(rest) == multiset(rows') + multiset{x}
    ensures forall j :: 0 <= j < |rest| ==> lo <= rest[j].week
  {
    forall j | 0 <= j < |rest| ensures lo <= rest[j].week {
      assert rest[j] in multiset(rest);
      assert rest[j] == x || rest[j] in multiset(rows');
    }
  }

  /** `sort_values(week)`: the same rows, in non-decreasing week order. */
  function SortByWeek(rows: seq<WeekRow>): (r: seq<WeekRow>)
    ensures SortedByWeek(r)
    ensures multiset(r) == multiset(rows)
    ensures |r| == |rows|
  {
    if |rows| == 0 then []
    else
      assert rows == [rows[0]] + rows[1..];
      Insert(rows[0], SortByWeek(rows[1..]))
  }

  /** Sorting a table that is already in week order leaves it unchanged. */
  lemma {:induction false} SortByWeekIdempotent(rows: seq<WeekRow>)
    requires SortedByWeek(rows)
    ensures SortByWeek(rows) == rows
  {
    if |rows| > 0 {
      SortByWeekIdempotent(rows[1..]);
    }
  }

  // ---------------------------------------------------------------------------------------
  // The spine
  // ---------------------------------------------------------------------------------------

  function Targets(rows: seq<WeekRow>): (r: seq<real>)
    ensures |r| == |rows|
    ensures forall i :: 0 <= i < |r| ==> r[i] == rows[i].target as real
  {
    seq(|rows|, i requires 0 <= i < |rows| => rows[i].target as real)
  }

  function Drivers(rows: seq<WeekRow>): (r: seq<real>)
    ensures |r| == |rows|
    ensures forall i :: 0 <= i < |r| ==> r[i] == rows[i].driver as real
  {
    seq(|rows|, i requires 0 <= i < |rows| => rows[i].driver as real)
  }

  /** Spine row k comes from sorted row k + 3, and holds the sums of the 4 rows ending there. */
  ghost predicate RowFromWindow(row: SpineRow, sorted: seq<WeekRow>, i: nat)
    requires RollingWindow - 1 <= i < |sorted|
  {
    && row.week == sorted[i].week
    && row.target == sorted[i].target
    && row.driver == sorted[i].driver
    && row.targetRw == Sum(Window(Targets(sorted), i, RollingWindow))
    && row.driverRw == Sum(Window(Drivers(sorted), i, RollingWindow))
  }

  /** Every row of spine comes from the window of sorted ending three rows further on. */
  ghost predicate SmoothedFrom(spine: seq<SpineRow>, sorted: seq<WeekRow>)
  {
    && |sorted| == |spine| + RollingWindow - 1
    && forall k :: 0 <= k < |spine| ==> RowFromWindow(spine[k], sorted, k + RollingWindow - 1)
  }

  function TargetRws(spine: seq<SpineRow>): (r: seq<real>)
    ensures |r| == |spine|
    ensures forall k :: 0 <= k < |r| ==> r[k] == spine[k].targetRw
  {
    seq(|spine|, k requires 0 <= k < |spine| => spine[k].targetRw)
  }

  function DriverRws(spine: seq<SpineRow>): (r: seq<real>)
    ensures |r| == |spine|
    ensures forall k :: 0 <= k < |r| ==> r[k] == spine[k].driverRw
  {
    seq(|spine|, k requires 0 <= k < |spine| => spine[k].driverRw)
  }

  function Shares(spine: seq<SpineRow>): (r: seq<Option<real>>)
    ensures |r| == |spine|
    ensures forall k :: 0 <= k < |r| ==> r[k] == spine[k].share
  {
    seq(|spine|, k requires 0 <= k < |spine| => spine[k].share)
  }

  function Corrs(spine: seq<SpineRow>): (r: seq<Option<real>>)
    ensures |r| == |spine|
    ensures forall k :: 0 <= k < |r| ==> r[k] == spine[k].corr
  {
    seq(|spine|, k requires 0 <= k < |spine| => spine[k].corr)
  }

  /** Every correlation on the spine is a correlation: within [-1, 1]. */
  predicate CorrelationsInRange(spine: seq<SpineRow>)
  {
    forall k :: 0 <= k < |spine| && spine[k].corr.Some? ==> -1.0 <= spine[k].corr.value <= 1.0
  }

  /** The derived columns of spine row k, as the pandas code defines them. */
  ghost predicate ColumnsAt(spine: seq<SpineRow>, k: nat, sqrt: real -> real)
    requires IsSquareRoot(sqrt)
    requires k < |spine|
  {
    && spine[k].targetRw >= 0.0
    && spine[k].driverRw >= 0.0
    && (spine[k].share.None? <==> spine[k].targetRw == 0.0)
    && (spine[k].share.Some? ==> spine[k].share.value * spine[k].targetRw == spine[k].driverRw)
    && spine[k].corr == RollingCorrAt(DriverRws(spine), TargetRws(spine), CorrWindow, k, sqrt)
  }

  ghost predicate SpineColumns(spine: seq<SpineRow>, sqrt: real -> real)
    requires IsSquareRoot(sqrt)
  {
    forall k: nat :: k < |spine| ==> ColumnsAt(spine, k, sqrt)
  }

  /** Sorted row i for i >= 3 as a spine row, before the correlation column is added. */
  function SmoothedRow(sorted: seq<WeekRow>, i: nat): (r: SpineRow)
    requires RollingWindow - 1 <= i < |sorted|
    ensures RowFromWindow(r, sorted, i)
    ensures r.targetRw >= 0.0 && r.driverRw >= 0.0
    ensures r.share == SafeDiv(r.driverRw, r.targetRw)
  {
    var tw := Window(Targets(sorted), i, RollingWindow);
    var dw := Window(Drivers(sorted), i, RollingWindow);
    SumAtLeast(tw, 0.0);
    SumAtLeast(dw, 0.0);
    var t, d := Sum(tw), Sum(dw);
    SpineRow(sorted[i].week, sorted[i].target, sorted[i].driver, t, d, SafeDiv(d, t), None)
  }

  /** The spine with its rolling correlation column filled in. */
  function WithCorrelation(rows: seq<SpineRow>, sqrt: real -> real): (r: seq<SpineRow>)
    requires IsSquareRoot(sqrt)
    ensures |r| == |rows|
    ensures forall k :: 0 <= k < |r| ==> r[k] == rows[k].(corr := r[k].corr)
    ensures forall k :: 0 <= k < |r| ==> r[k].corr == RollingCorrAt(DriverRws(r), TargetRws(r), CorrWindow, k, sqrt)
  {
    var dv, tv := DriverRws(rows), TargetRws(rows);
    var r := seq(|rows|, k requires 0 <= k < |rows| => rows[k].(corr := RollingCorrAt(dv, tv, CorrWindow, k, sqrt)));
    assert TargetRws(r) == tv;
    assert DriverRws(r) == dv;
    r
  }

  /**
   * The smoothing half of `_build_spine`: 4-row rolling sums of target and driver over the
   * sorted rows, then `dropna` on both, which keeps sorted rows 3, 4, ... in order; each kept
   * row gets its share.
   */
  function Smooth(sorted: seq<WeekRow>): (r: seq<SpineRow>)
    ensures |r| == if |sorted| < RollingWindow - 1 then 0 else |sorted| - (RollingWindow - 1)
    ensures forall k :: 0 <= k < |r| ==> RowFromWindow(r[k], sorted, k + RollingWindow - 1)
    ensures forall k :: 0 <= k < |r| ==> r[k].targetRw >= 0.0 && r[k].driverRw >= 0.0
    ensures forall k :: 0 <= k < |r| ==> r[k].share == SafeDiv(r[k].driverRw, r[k].targetRw)
  {
    var trw := RollingSum(Targets(sorted), RollingWindow);
    var drw := RollingSum(Drivers(sorted), RollingWindow);
    var keep := CompleteIndices(trw, drw, |sorted|);
    CompleteIndicesAfterWarmup(trw, drw, RollingWindow - 1, |sorted|);
    seq(|keep|, k requires 0 <= k < |keep| => SmoothedRow(sorted, keep[k]))
  }

  lemma CorrelatedSpine(smoothed: seq<SpineRow>, sqrt: real -> real)
    requires IsSquareRoot(sqrt)
    requires forall k :: 0 <= k < |smoothed| ==> smoothed[k].targetRw >= 0.0 && smoothed[k].driverRw >= 0.0
    requires forall k :: 0 <= k < |smoothed| ==> smoothed[k].share == SafeDiv(smoothed[k].driverRw, smoothed[k].targetRw)
    ensures SpineColumns(WithCorrelation(smoothed, sqrt), sqrt)
    ensures CorrelationsInRange(WithCorrelation(smoothed, sqrt))
  {
    var spine := WithCorrelation(smoothed, sqrt);
    forall k: nat | k < |spine|
      ensures ColumnsAt(spine, k, sqrt)
      ensures spine[k].corr.Some? ==> -1.0 <= spine[k].corr.value <= 1.0
    {
      CorrelatedRow(smoothed, spine, k, sqrt);
    }
  }

  lemma CorrelatedRow(smoothed: seq<SpineRow>, spine: seq<SpineRow>, k: nat, sqrt: real -> real)
    requires IsSquareRoot(sqrt)
    requires k < |smoothed|
    requires smoothed[k].targetRw >= 0.0 && smoothed[k].driverRw >= 0.0
    requires smoothed[k].share == SafeDiv(smoothed[k].driverRw, smoothed[k].targetRw)
    requires spine == WithCorrelation(smoothed, sqrt)
    ensures ColumnsAt(spine, k, sqrt)
    ensures spine[k].corr.Some? ==> -1.0 <= spine[k].corr.value <= 1.0
  {
    assert spine[k] == smoothed[k].(corr := spine[k].corr);
    var c := RollingCorrAt(DriverRws(spine), TargetRws(spine), CorrWindow, k, sqrt);
    assert spine[k].corr == c;
  }

  lemma KeepsWindows(smoothed: seq<SpineRow>, spine: seq<SpineRow>, sorted: seq<WeekRow>)
    requires |smoothed| == |spine| && |sorted| == |smoothed| + RollingWindow - 1
    requires forall k :: 0 <= k < |spine| ==> spine[k] == smoothed[k].(corr := spine[k].corr)
    requires forall k :: 0 <= k < |smoothed| ==> RowFromWindow(smoothed[k], sorted, k + RollingWindow - 1)
    ensures SmoothedFrom(spine, sorted)
  {
  }

  /**
   * `_build_spine`: sort by week and smooth; fewer than 12 remaining rows is the
   * "insufficient" sentinel (`None`); otherwise add the 8-row rolling correlation of the
   * driver sums on the target sums.
   */
  function BuildSpine(rows: seq<WeekRow>, sqrt: real -> real): (r: Option<seq<SpineRow>>)
    requires IsSquareRoot(sqrt)
    ensures r.None? <==> |rows| < MinPoints + RollingWindow - 1
    ensures r.Some? ==> |r.value| == |rows| - (RollingWindow - 1)
    ensures r.Some? ==> SmoothedFrom(r.value, SortByWeek(rows))
    ensures r.Some? ==> SpineColumns(r.value, sqrt) && CorrelationsInRange(r.value)
  {
    var smoothed := Smooth(SortByWeek(rows));
    if |smoothed| < MinPoints then None
    else
      var spine := WithCorrelation(smoothed, sqrt);
      CorrelatedSpine(smoothed, sqrt);
      KeepsWindows(smoothed, spine, SortByWeek(rows));
      Some(spine)
  }

  // ---------------------------------------------------------------------------------------
  // Scoring and classification
  // ---------------------------------------------------------------------------------------

  /** `min(max(x, 0), 1)`. */
  function Clamp01(x: real): (r: real)
    ensures 0.0 <= r <= 1.0
    ensures 0.0 <= x <= 1.0 ==> r == x
    ensures x < 0.0 ==> r == 0.0
    ensures x > 1.0 ==> r == 1.0
  {
    if x < 0.0 then 0.0 else if x > 1.0 then 1.0 else x
  }

  /**
   * `_alignment_score`: 0.7 times the correlation mapped from [-1, 1] to [0, 1] plus 0.3 times
   * the share clamped to [0, 1]; a missing component contributes 0.
   */
  function AlignmentScore(corr: Option<real>, share: Option<real>): (r: real)
    ensures (corr.None? || -1.0 <= corr.value <= 1.0) ==> 0.0 <= r <= 1.0
    ensures corr.None? && share.None? ==> r == 0.0
    ensures corr.None? ==> r <= ShareWeight
  {
    var corrComponent := if corr.None? then 0.0 else (corr.value + 1.0) / 2.0;
    var shareComponent := if share.None? then 0.0 else Clamp01(share.value);
    CorrWeight * corrComponent + ShareWeight * shareComponent
  }

  /** The score sees the share only through its clamp to [0, 1]. */
  lemma AlignmentScoreClampsShare(corr: Option<real>, share: real)
    ensures AlignmentScore(corr, Some(share)) == AlignmentScore(corr, Some(Clamp01(share)))
  {
  }

  /** The score rises with the correlation. */
  lemma AlignmentScoreMonotoneInCorr(c1: real, c2: real, share: Option<real>)
    requires c1 <= c2
    ensures AlignmentScore(Some(c1), share) <= AlignmentScore(Some(c2), share)
  {
  }

  /**
   * The score gate is not implied by the other two: a correlation of exactly 0.60 and a share
   * of exactly 0.10 pass their gates but score 0.59.
   */
  lemma ScoreGateIsIndependent()
    ensures AtLeast(Some(0.6), CorrAligned) && AtLeast(Some(0.1), ShareMin)
    ensures AlignmentScore(Some(0.6), Some(0.1)) < ScoreAligned
  {
  }

  /** The three independent gates of `_summarize_alignment`; a missing average fails its gate. */
  function Aligned(corrAvg: Option<real>, shareAvg: Option<real>, score: real): (b: bool)
    ensures b ==> corrAvg.Some? && shareAvg.Some?
    ensures b ==> corrAvg.value >= CorrAligned && shareAvg.value >= ShareMin && score >= ScoreAligned
    ensures corrAvg.None? || shareAvg.None? ==> !b
  {
    AtLeast(corrAvg, CorrAligned) && AtLeast(shareAvg, ShareMin) && score >= ScoreAligned
  }

  /** The confidence buckets: high needs alignment and a score of at least 0.80. */
  function ConfidenceOf(aligned: bool, score: real): (c: Confidence)
    ensures c == High <==> aligned && score >= ScoreHigh
    ensures c == Medium <==> aligned && score < ScoreHigh
    ensures c == Low <==> !aligned
  {
    if aligned && score >= ScoreHigh then High
    else if aligned then Medium
    else Low
  }

  datatype Summary = Summary(aligned: bool, confidence: Confidence, metrics: Metrics)

  /**
   * `_summarize_alignment`: the latest correlation and share, their averages over the recent
   * rows (the last 8, or the whole spine when it is shorter), the recent levels of both sums,
   * the score, the gates and the confidence.
   */
  function SummarizeAlignment(spine: seq<SpineRow>): (r: Summary)
    requires |spine| > 0
    ensures r.metrics.corrLatest == spine[|spine| - 1].corr
    ensures r.metrics.shareLatest == spine[|spine| - 1].share
    ensures r.metrics.corrRecentAvg == MeanSkipNa(Tail(Corrs(spine), CorrWindow))
    ensures r.metrics.shareRecentAvg == MeanSkipNa(Tail(Shares(spine), CorrWindow))
    ensures r.metrics.targetLevelRecent == Mean(Tail(TargetRws(spine), CorrWindow))
    ensures r.metrics.driverLevelRecent == Mean(Tail(DriverRws(spine), CorrWindow))
    ensures r.metrics.alignmentScore == AlignmentScore(r.metrics.corrRecentAvg, r.metrics.shareRecentAvg)
    ensures CorrelationsInRange(spine) ==> 0.0 <= r.metrics.alignmentScore <= 1.0
    ensures r.aligned <==> Aligned(r.metrics.corrRecentAvg, r.metrics.shareRecentAvg, r.metrics.alignmentScore)
    ensures r.aligned ==> ScoreAligned <= r.metrics.alignmentScore
    ensures r.confidence == ConfidenceOf(r.aligned, r.metrics.alignmentScore)
  {
    var n := |spine|;
    var corrs, shares := Corrs(spine), Shares(spine);
    var corrLatest := spine[n - 1].corr;
    var corrAvg := RecentMean(corrs);
    var shareAvg := RecentMean(shares);
    var shareLatest := spine[n - 1].share;
    var targetLevel := Mean(Tail(TargetRws(spine), CorrWindow));
    var driverLevel := Mean(Tail(DriverRws(spine), CorrWindow));
    RecentCorrInRange(spine);
    var score := AlignmentScore(corrAvg, shareAvg);
    var aligned := Aligned(corrAvg, shareAvg, score);
    Summary(aligned, ConfidenceOf(aligned, score),
      Metrics(corrLatest, corrAvg, shareLatest, shareAvg, score, targetLevel, driverLevel))
  }

  /** The mean of the last CorrWindow entries when there are that many, else of all of them. */
  function RecentMean(xs: seq<Option<real>>): (r: Option<real>)
    ensures r == MeanSkipNa(Tail(xs, CorrWindow))
  {
    if |xs| >= CorrWindow then MeanSkipNa(Tail(xs, CorrWindow)) else MeanSkipNa(xs)
  }

  lemma RecentCorrInRange(spine: seq<SpineRow>)
    ensures CorrelationsInRange(spine) && MeanSkipNa(Tail(Corrs(spine), CorrWindow)).Some? ==>
              -1.0 <= MeanSkipNa(Tail(Corrs(spine), CorrWindow)).value <= 1.0
  {
    if CorrelationsInRange(spine) {
      MeanSkipNaWithin(Tail(Corrs(spine), CorrWindow), -1.0, 1.0);
    }
  }

  /**
   * The recent levels are averages of the last 8 rolling sums (or all of them on a shorter
   * spine), so they lie within any bounds those rows share, target and driver alike.
   */
  lemma RecentLevelsWithin(spine: seq<SpineRow>, tlo: real, thi: real, dlo: real, dhi: real)
    requires |spine| > 0
    requires forall k :: 0 <= k < |spine| && |spine| - CorrWindow <= k ==>
               tlo <= spine[k].targetRw <= thi && dlo <= spine[k].driverRw <= dhi
    ensures tlo <= SummarizeAlignment(spine).metrics.targetLevelRecent <= thi
    ensures dlo <= SummarizeAlignment(spine).metrics.driverLevelRecent <= dhi
  {
    var n := |spine|;
    var ts, ds := Tail(TargetRws(spine), CorrWindow), Tail(DriverRws(spine), CorrWindow);
    forall i | 0 <= i < |ts| ensures tlo <= ts[i] <= thi && dlo <= ds[i] <= dhi {
      assert ts[i] == spine[n - |ts| + i].targetRw;
      assert ds[i] == spine[n - |ts| + i].driverRw;
    }
    MeanWithin(ts, tlo, thi);
    MeanWithin(ds, dlo, dhi);
  }

  /** A driver that is a fixed fraction c of its target in every week. */
  predicate Proportional(rows: seq<WeekRow>, c: real)
  {
    forall r :: r in rows ==> r.driver as real == c * r.target as real
  }

  /** Smoothing keeps the proportion: every driver sum is c times its target sum. */
  lemma ProportionalSpine(sorted: seq<WeekRow>, spine: seq<SpineRow>, c: real)
    requires Proportional(sorted, c)
    requires SmoothedFrom(spine, sorted)
    ensures forall k :: 0 <= k < |spine| ==> spine[k].driverRw == c * spine[k].targetRw
  {
    forall k | 0 <= k < |spine| ensures spine[k].driverRw == c * spine[k].targetRw {
      ProportionalRowAt(sorted, spine, c, k);
    }
  }

  lemma ProportionalRowAt(sorted: seq<WeekRow>, spine: seq<SpineRow>, c: real, k: nat)
    requires Proportional(sorted, c)
    requires SmoothedFrom(spine, sorted)
    requires k < |spine|
    ensures spine[k].driverRw == c * spine[k].targetRw
  {
    ProportionalRow(spine[k], sorted, c, k + RollingWindow - 1);
  }

  /** On a built spine, a driver that is c times its target every week stays c times it. */
  lemma {:induction false} ProportionalBuiltSpine(rows: seq<WeekRow>, c: real, sqrt: real -> real, spine: seq<SpineRow>)
    requires IsSquareRoot(sqrt)
    requires Proportional(rows, c)
    requires BuildSpine(rows, sqrt) == Some(spine)
    ensures forall k :: 0 <= k < |spine| ==> spine[k].driverRw == c * spine[k].targetRw
  {
    var sorted := SortByWeek(rows);
    assert SmoothedFrom(spine, sorted);
    ProportionalSorted(rows, c);
    ProportionalSpine(sorted, spine, c);
  }

  lemma ProportionalSorted(rows: seq<WeekRow>, c: real)
    requires Proportional(rows, c)
    ensures Proportional(SortByWeek(rows), c)
  {
    var sorted := SortByWeek(rows);
    forall r | r in sorted ensures r in rows {
      assert r in multiset(sorted);
    }
  }

  lemma ProportionalRow(row: SpineRow, sorted: seq<WeekRow>, c: real, i: nat)
    requires Proportional(sorted, c)
    requires RollingWindow - 1 <= i < |sorted|
    requires RowFromWindow(row, sorted, i)
    ensures row.driverRw == c * row.targetRw
  {
    ProportionalWindow(sorted, c, i);
  }

  lemma ProportionalWindow(sorted: seq<WeekRow>, c: real, i: nat)
    requires Proportional(sorted, c)
    requires RollingWindow - 1 <= i < |sorted|
    ensures Sum(Window(Drivers(sorted), i, RollingWindow)) == c * Sum(Window(Targets(sorted), i, RollingWindow))
  {
    var tw, dw := Window(Targets(sorted), i, RollingWindow), Window(Drivers(sorted), i, RollingWindow);
    forall j | 0 <= j < |tw| ensures dw[j] == c * tw[j] {
      ProportionalAt(sorted, c, i + 1 - RollingWindow + j);
    }
    SumScaled(tw, dw, c);
  }

  lemma ProportionalAt(sorted: seq<WeekRow>, c: real, m: nat)
    requires Proportional(sorted, c)
    requires m < |sorted|
    ensures Drivers(sorted)[m] == c * Targets(sorted)[m]
  {
    assert sorted[m] in sorted;
  }

  /**
   * On a spine whose driver sums are c > 0 times the target sums, the rolling correlation at
   * a row whose 8 target sums are not all equal is exactly 1.
   */
  lemma ProportionalCorrelation(spine: seq<SpineRow>, c: real, k: nat, sqrt: real -> real)
    requires IsSquareRoot(sqrt)
    requires SpineColumns(spine, sqrt)
    requires c > 0.0
    requires forall j :: 0 <= j < |spine| ==> spine[j].driverRw == c * spine[j].targetRw
    requires CorrWindow - 1 <= k < |spine|
    requires !IsConstant(Window(TargetRws(spine), k, CorrWindow))
    ensures spine[k].corr == Some(1.0)
  {
    ProportionalWindows(spine, c, k);
    var dw := Window(DriverRws(spine), k, CorrWindow);
    var tw := Window(TargetRws(spine), k, CorrWindow);
    PearsonOfProportional(dw, tw, c, sqrt);
    CorrelationAt(spine, k, sqrt);
  }

  /** Past the first 7 rows, a spine row's correlation is the Pearson correlation of its windows. */
  lemma CorrelationAt(spine: seq<SpineRow>, k: nat, sqrt: real -> real)
    requires IsSquareRoot(sqrt)
    requires SpineColumns(spine, sqrt)
    requires CorrWindow - 1 <= k < |spine|
    ensures spine[k].corr == Pearson(Window(DriverRws(spine), k, CorrWindow), Window(TargetRws(spine), k, CorrWindow), sqrt)
  {
    assert ColumnsAt(spine, k, sqrt);
  }

  /** The correlation windows of a proportional spine are proportional too. */
  lemma ProportionalWindows(spine: seq<SpineRow>, c: real, k: nat)
    requires forall j :: 0 <= j < |spine| ==> spine[j].driverRw == c * spine[j].targetRw
    requires CorrWindow - 1 <= k < |spine|
    ensures forall i :: 0 <= i < CorrWindow ==>
              Window(DriverRws(spine), k, CorrWindow)[i] == c * Window(TargetRws(spine), k, CorrWindow)[i]
  {
  }

  /** A window that is c > 0 times a non-constant one correlates with it exactly. */
  lemma PearsonOfProportional(dw: seq<real>, tw: seq<real>, c: real, sqrt: real -> real)
    requires |dw| == |tw| > 0
    requires IsSquareRoot(sqrt)
    requires c > 0.0
    requires forall i :: 0 <= i < |dw| ==> dw[i] == c * tw[i]
    requires !IsConstant(tw)
    ensures Pearson(dw, tw, sqrt) == Some(1.0)
  {
    var inv := 1.0 / c;
    assert inv * c == 1.0;
    forall i | 0 <= i < |dw| ensures tw[i] == inv * dw[i] {
      assert inv * dw[i] == (inv * c) * tw[i];
    }
    var i, j :| 0 <= i < |tw| && 0 <= j < |tw| && tw[i] != tw[j];
    assert dw[i] == c * tw[i] && dw[j] == c * tw[j];
    PearsonOfPositiveMultiple(dw, tw, inv, sqrt);
  }

  lemma ProportionalShare(row: SpineRow, c: real)
    requires row.targetRw > 0.0 && row.driverRw == c * row.targetRw
    requires row.share.Some? <==> row.targetRw != 0.0
    requires row.share.Some? ==> row.share.value * row.targetRw == row.driverRw
    ensures row.share == Some(c)
  {
    RatioOfMultiple(row.share.value, row.driverRw, row.targetRw, c);
  }

  /** The ratio d / t of d == c * t is c. */
  lemma RatioOfMultiple(q: real, d: real, t: real, c: real)
    requires t > 0.0 && q * t == d && d == c * t
    ensures q == c
  {
    assert (q - c) * t == q * t - c * t;
    ProductZero(q - c, t);
  }

  /**
   * End to end on the spine: when the driver is c > 0 times the target and each of the last
   * 8 rows has a positive target sum and a non-constant correlation window, the recent
   * correlation averages 1 and the recent share is c, so the driver is aligned exactly when
   * c >= 0.10, with high confidence exactly when c >= 1/3.
   */
  lemma ProportionalDriverSummary(spine: seq<SpineRow>, c: real, sqrt: real -> real)
    requires IsSquareRoot(sqrt)
    requires |spine| >= MinPoints
    requires SpineColumns(spine, sqrt)
    requires c > 0.0
    requires forall j :: 0 <= j < |spine| ==> spine[j].driverRw == c * spine[j].targetRw
    requires forall k :: |spine| - CorrWindow <= k < |spine| ==> spine[k].targetRw > 0.0
    requires forall k :: |spine| - CorrWindow <= k < |spine| && CorrWindow - 1 <= k ==>
               !IsConstant(Window(TargetRws(spine), k, CorrWindow))
    ensures SummarizeAlignment(spine).metrics.corrRecentAvg == Some(1.0)
    ensures SummarizeAlignment(spine).metrics.shareRecentAvg == Some(c)
    ensures SummarizeAlignment(spine).aligned <==> c >= ShareMin
    ensures SummarizeAlignment(spine).confidence == High <==> c >= 1.0 / 3.0
  {
    RecentCorrelationIsOne(spine, c, sqrt);
    RecentShareIsProportion(spine, c, sqrt);
  }

  lemma RecentCorrelationIsOne(spine: seq<SpineRow>, c: real, sqrt: real -> real)
    requires IsSquareRoot(sqrt)
    requires |spine| >= MinPoints
    requires SpineColumns(spine, sqrt)
    requires c > 0.0
    requires forall j :: 0 <= j < |spine| ==> spine[j].driverRw == c * spine[j].targetRw
    requires forall k :: |spine| - CorrWindow <= k < |spine| && CorrWindow - 1 <= k ==>
               !IsConstant(Window(TargetRws(spine), k, CorrWindow))
    ensures MeanSkipNa(Tail(Corrs(spine), CorrWindow)) == Some(1.0)
  {
    var n := |spine|;
    var corrs := Tail(Corrs(spine), CorrWindow);
    forall i | 0 <= i < |corrs| ensures corrs[i].Some? ==> corrs[i] == Some(1.0)
    {
      var k := n - CorrWindow + i;
      if CorrWindow - 1 <= k {
        ProportionalCorrelation(spine, c, k, sqrt);
      } else {
        assert ColumnsAt(spine, k, sqrt);
      }
    }
    ProportionalCorrelation(spine, c, n - 1, sqrt);
    assert corrs[|corrs| - 1].Some?;
    MeanSkipNaOfConstant(corrs, 1.0);
  }

  lemma RecentShareIsProportion(spine: seq<SpineRow>, c: real, sqrt: real -> real)
    requires IsSquareRoot(sqrt)
    requires |spine| >= MinPoints
    requires SpineColumns(spine, sqrt)
    requires forall j :: 0 <= j < |spine| ==> spine[j].driverRw == c * spine[j].targetRw
    requires forall k :: |spine| - CorrWindow <= k < |spine| ==> spine[k].targetRw > 0.0
    ensures MeanSkipNa(Tail(Shares(spine), CorrWindow)) == Some(c)
  {
    var n := |spine|;
    var shares := Tail(Shares(spine), CorrWindow);
    forall i | 0 <= i < |shares| ensures shares[i] == Some(c) {
      ShareOfProportionalRow(spine, c, n - CorrWindow + i, sqrt);
    }
    assert shares[0].Some?;
    MeanSkipNaOfConstant(shares, c);
  }

  lemma ShareOfProportionalRow(spine: seq<SpineRow>, c: real, k: nat, sqrt: real -> real)
    requires IsSquareRoot(sqrt)
    requires SpineColumns(spine, sqrt)
    requires k < |spine|
    requires spine[k].targetRw > 0.0 && spine[k].driverRw == c * spine[k].targetRw
    ensures spine[k].share == Some(c)
  {
    assert ColumnsAt(spine, k, sqrt);
    ProportionalShare(spine[k], c);
  }

  // ---------------------------------------------------------------------------------------
  // The four checks and the entrypoint
  // ---------------------------------------------------------------------------------------

  /** The verdict on a built spine: its summary, reported under the name `driver`. */
  function Verdict(driver: string, spine: seq<SpineRow>): (r: DriverResult)
    requires |spine| > 0 && CorrelationsInRange(spine)
    ensures r.driver == driver && r.details.WithMetrics?
    ensures r.details.metrics == SummarizeAlignment(spine).metrics
    ensures 0.0 <= r.details.metrics.alignmentScore <= 1.0
    ensures r.aligned <==> Aligned(r.details.metrics.corrRecentAvg, r.details.metrics.shareRecentAvg, r.details.metrics.alignmentScore)
    ensures r.confidence == ConfidenceOf(r.aligned, r.details.metrics.alignmentScore)
  {
    var s := SummarizeAlignment(spine);
    DriverResult(driver, s.aligned, s.confidence, WithMetrics(s.metrics))
  }

  /** The pipeline shared by the three real checks, reporting under the name `driver`. */
  function DetectAlignment(driver: string, rows: seq<WeekRow>, sqrt: real -> real): (r: DriverResult)
    requires IsSquareRoot(sqrt)
    ensures r.driver == driver
    ensures r.details.Reason? <==> |rows| < MinPoints + RollingWindow - 1
    ensures r.details.Reason? ==> r == DriverResult(driver, false, Low, Reason("Insufficient data"))
    ensures !r.details.Reason? ==> BuildSpine(rows, sqrt).Some? && r == Verdict(driver, BuildSpine(rows, sqrt).value)
  {
    match BuildSpine(rows, sqrt)
    case None => DriverResult(driver, false, Low, Reason("Insufficient data"))
    case Some(spine) => Verdict(driver, spine)
  }

  /** The value of column `c` in a week of a frame. */
  function Col(rec: WeeklyRecord, c: Column): nat
  {
    match c
    case Adds => rec.adds
    case Churn => rec.churn
    case IsRetail => rec.isRetail
    case IsCompetitive => rec.isCompetitive
    case IsPortin => rec.isPortin
    case IsFinancial => rec.isFinancial
  }

  /** The columns `_build_spine` reads: the week, `target` as the target and `driver` as the driver. */
  function Project(frame: seq<WeeklyRecord>, target: Column, driver: Column): (r: seq<WeekRow>)
    ensures |r| == |frame|
    ensures forall k :: 0 <= k < |frame| ==>
              r[k] == WeekRow(frame[k].week, Col(frame[k], target), Col(frame[k], driver))
  {
    if |frame| == 0 then []
    else [WeekRow(frame[0].week, Col(frame[0], target), Col(frame[0], driver))] + Project(frame[1..], target, driver)
  }

  /** Two frames that agree, week by week, on the week and on the two columns a detector reads. */
  predicate AgreeOn(f1: seq<WeeklyRecord>, f2: seq<WeeklyRecord>, target: Column, driver: Column)
  {
    |f1| == |f2| &&
    forall k :: 0 <= k < |f1| ==>
      f1[k].week == f2[k].week &&
      Col(f1[k], target) == Col(f2[k], target) && Col(f1[k], driver) == Col(f2[k], driver)
  }

  lemma ProjectSeesOnlyItsColumns(f1: seq<WeeklyRecord>, f2: seq<WeeklyRecord>, target: Column, driver: Column)
    requires AgreeOn(f1, f2, target, driver)
    ensures Project(f1, target, driver) == Project(f2, target, driver)
  {
    var p1, p2 := Project(f1, target, driver), Project(f2, target, driver);
    assert |p1| == |p2|;
    forall k | 0 <= k < |p1| ensures p1[k] == p2[k] { }
  }

  /** Postpaid adds: target `adds`, driver `is_retail`. */
  function DetectPostpaidAddDriver(frame: seq<WeeklyRecord>, sqrt: real -> real): (r: DriverResult)
    requires IsSquareRoot(sqrt)
    ensures r == DetectAlignment("retail_add_growth", Project(frame, Adds, IsRetail), sqrt)
    ensures r.driver == "retail_add_growth"
    ensures r.details.Reason? <==> |frame| < 15
  {
    DetectAlignment("retail_add_growth", Project(frame, Adds, IsRetail), sqrt)
  }

  /** Postpaid churn: target `churn`, driver `is_competitive`. */
  function DetectPostpaidChurnDriver(frame: seq<WeeklyRecord>, sqrt: real -> real): (r: DriverResult)
    requires IsSquareRoot(sqrt)
    ensures r == DetectAlignment("competitive_churn_spike", Project(frame, Churn, IsCompetitive), sqrt)
    ensures r.driver == "competitive_churn_spike"
    ensures r.details.Reason? <==> |frame| < 15
  {
    DetectAlignment("competitive_churn_spike", Project(frame, Churn, IsCompetitive), sqrt)
  }

  /** Prepaid adds: target `adds`, driver `is_portin`. */
  function DetectPrepaidAddDriver(frame: seq<WeeklyRecord>, sqrt: real -> real): (r: DriverResult)
    requires IsSquareRoot(sqrt)
    ensures r == DetectAlignment("portin_add_growth", Project(frame, Adds, IsPortin), sqrt)
    ensures r.driver == "portin_add_growth"
    ensures r.details.Reason? <==> |frame| < 15
  {
    DetectAlignment("portin_add_growth", Project(frame, Adds, IsPortin), sqrt)
  }

  /**
   * Each detector reads only its own pair of columns: the postpaid adds verdict ignores
   * `is_portin` and the churn columns, the postpaid churn verdict ignores `is_financial`
   * and the adds columns, and the prepaid adds verdict ignores `is_retail`.
   */
  lemma DetectorsReadOnlyTheirColumns(f1: seq<WeeklyRecord>, f2: seq<WeeklyRecord>, sqrt: real -> real)
    requires IsSquareRoot(sqrt)
    ensures AgreeOn(f1, f2, Adds, IsRetail) ==> DetectPostpaidAddDriver(f1, sqrt) == DetectPostpaidAddDriver(f2, sqrt)
    ensures AgreeOn(f1, f2, Churn, IsCompetitive) ==> DetectPostpaidChurnDriver(f1, sqrt) == DetectPostpaidChurnDriver(f2, sqrt)
    ensures AgreeOn(f1, f2, Adds, IsPortin) ==> DetectPrepaidAddDriver(f1, sqrt) == DetectPrepaidAddDriver(f2, sqrt)
  {
    if AgreeOn(f1, f2, Adds, IsRetail) { ProjectSeesOnlyItsColumns(f1, f2, Adds, IsRetail); }
    if AgreeOn(f1, f2, Churn, IsCompetitive) { ProjectSeesOnlyItsColumns(f1, f2, Churn, IsCompetitive); }
    if AgreeOn(f1, f2, Adds, IsPortin) { ProjectSeesOnlyItsColumns(f1, f2, Adds, IsPortin); }
  }

  /** Prepaid churn has no structural driver: a constant result whatever the table holds. */
  function DetectPrepaidChurnDriver(frame: seq<WeeklyRecord>): (r: DriverResult)
    ensures r.driver == "no_structural_driver_detected"
    ensures !r.aligned && r.confidence == Low && r.details == NoMetrics
  {
    DriverResult("no_structural_driver_detected", false, Low, NoMetrics)
  }

  /** `detect_add_churn_drivers`: the four checks, nested by segment and by adds/churn. */
  function DetectAddChurnDrivers(
    postpaidAdds: seq<WeeklyRecord>, postpaidChurn: seq<WeeklyRecord>,
    prepaidAdds: seq<WeeklyRecord>, prepaidChurn: seq<WeeklyRecord>,
    sqrt: real -> real): (r: Analysis)
    requires IsSquareRoot(sqrt)
    ensures r.postpaid.adds == DetectPostpaidAddDriver(postpaidAdds, sqrt)
    ensures r.postpaid.churn == DetectPostpaidChurnDriver(postpaidChurn, sqrt)
    ensures r.prepaid.adds == DetectPrepaidAddDriver(prepaidAdds, sqrt)
    ensures r.prepaid.churn == DriverResult("no_structural_driver_detected", false, Low, NoMetrics)
  {
    Analysis(
      SegmentResult(DetectPostpaidAddDriver(postpaidAdds, sqrt), DetectPostpaidChurnDriver(postpaidChurn, sqrt)),
      SegmentResult(DetectPrepaidAddDriver(prepaidAdds, sqrt), DetectPrepaidChurnDriver(prepaidChurn)))
  }
}
