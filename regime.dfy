/**
 * The regime-shift engine (detect_subscription_drivers.py): from per-subscription records,
 * count distinct subscriptions per week in total and in a tier, smooth the counts, split the
 * weeks into an earlier and a later regime, and compare volume and tier share across them.
 */
module SubscriptionDrivers {
  import opened Wrappers
  import opened Numeric
  import opened Correlation
  import opened Tiers

  const SmoothWindow: nat := 4
  const CorrWindow: nat := 6
  const PremiumRegimeThreshold: real := 0.15
  const PrepaidMinRows: nat := 8
  const MinPostRows: nat := 4
  const PostpaidMinRows: nat := 16
  const RecentRows: nat := 8

  const PrepaidShareDelta: real := 0.10
  const PrepaidAddsRatio: real := 1.2
  const PrepaidCorr: real := 0.6
  const PostpaidShareDelta: real := 0.05
  const PostpaidAddsRatio: real := 1.2
  const PostpaidCorr: real := 0.5

  /** One subscription record of the master table. */
  datatype Record = Record(week: int, subscriptionId: string, productName: Option<string>, segment: string)

  /** Distinct-subscription counts of one week: all of them, and those in the tier. */
  datatype WeekCount = WeekCount(week: int, total: nat, tier: nat)

  /** A spine row after smoothing: 4-week sum of totals, the week's tier share and its 4-week mean. */
  datatype SmoothRow = SmoothRow(week: int, total: nat, tier: nat, adds4w: real, share: real, share4w: real)

  datatype Confidence = High | Low

  /** The metrics of an evaluated check; `None` stands for NaN (an empty earlier regime). */
  datatype ShiftMetrics = ShiftMetrics(
    addsRatio: real,
    shareDelta: Option<real>,
    recentCorrelation: Option<real>,
    addsBefore: Option<real>,
    addsAfter: real,
    shareBefore: Option<real>,
    shareAfter: real)

  datatype ShiftResult =
    | NotEvaluated(segment: string, reason: string)
    | Evaluated(segment: string, driver: string, detected: bool, confidence: Confidence, metrics: ShiftMetrics)

  datatype SubscriptionAnalysis = SubscriptionAnalysis(prepaid: ShiftResult, postpaid: ShiftResult)

  // ---------------------------------------------------------------------------------------
  // Weekly distinct counts
  // ---------------------------------------------------------------------------------------

  function SegmentRecords(df: seq<Record>, segment: string): (r: seq<Record>)
    ensures forall x :: x in r <==> x in df && x.segment == segment
    ensures |r| > 0 <==> exists x :: x in df && x.segment == segment
  {
    var r := Filter(df, (x: Record) => x.segment == segment);
    assert |r| > 0 ==> r[0] in r;
    r
  }

  function WeekSet(df: seq<Record>): set<int>
  {
    set x | x in df :: x.week
  }

  /** The subscription ids seen in week w: what `groupby(week)[id].nunique()` counts. */
  function IdsInWeek(df: seq<Record>, w: int): (r: set<string>)
    ensures forall x :: x in df && x.week == w ==> x.subscriptionId in r
    ensures r == {} <==> w !in WeekSet(df)
  {
    set x | x in df && x.week == w :: x.subscriptionId
  }

  predicate StrictlyIncreasing(ws: seq<int>)
  {
    forall i, j :: 0 <= i < j < |ws| ==> ws[i] < ws[j]
  }

  function InsertWeek(w: int, ws: seq<int>): (r: seq<int>)
    requires StrictlyIncreasing(ws)
    ensures StrictlyIncreasing(r)
    ensures forall x :: x in r <==> x == w || x in ws
  {
    if |ws| == 0 || w < ws[0] then [w] + ws
    else if w == ws[0] then ws
    else
      var rest := InsertWeek(w, ws[1..]);
      assert forall x :: x in ws <==> x == ws[0] || x in ws[1..];
      forall j | 0 <= j < |rest| ensures ws[0] < rest[j] {
        assert rest[j] in rest;
      }
      [ws[0]] + rest
  }

  /** The group keys of `groupby(week)`, ascending: each week of the table once. */
  function DistinctWeeks(df: seq<Record>): (r: seq<int>)
    ensures StrictlyIncreasing(r)
    ensures forall w :: w in r <==> w in WeekSet(df)
  {
    if |df| == 0 then []
    else
      assert WeekSet(df) == {df[0].week} + WeekSet(df[1..]) by {
        assert forall x :: x in df <==> x == df[0] || x in df[1..];
      }
      InsertWeek(df[0].week, DistinctWeeks(df[1..]))
  }

  /** `groupby(week)[id].nunique()` on the flagged records: one entry per week that has any. */
  function TierCounts(flagged: seq<Record>): (m: map<int, nat>)
    ensures forall w :: w in m <==> w in WeekSet(flagged)
    ensures forall w :: w in m ==> m[w] == |IdsInWeek(flagged, w)|
  {
    map w | w in WeekSet(flagged) :: |IdsInWeek(flagged, w)|
  }

  lemma NoRecordsNoIds(df: seq<Record>, w: int)
    requires w !in WeekSet(df)
    ensures IdsInWeek(df, w) == {}
  {
  }

  lemma SubsetCardinality(a: set<string>, b: set<string>)
    requires a <= b
    ensures |a| <= |b|
  {
    assert b == a + (b - a);
  }

  lemma FlaggedIdsWithin(df: seq<Record>, flag: Record -> bool, w: int)
    ensures IdsInWeek(Filter(df, flag), w) <= IdsInWeek(df, w)
    ensures |IdsInWeek(Filter(df, flag), w)| <= |IdsInWeek(df, w)|
  {
    SubsetCardinality(IdsInWeek(Filter(df, flag), w), IdsInWeek(df, w));
  }

  lemma WeekHasAnId(df: seq<Record>, w: int)
    requires w in WeekSet(df)
    ensures |IdsInWeek(df, w)| >= 1
  {
    var x :| x in df && x.week == w;
    assert x.subscriptionId in IdsInWeek(df, w);
  }

  /** The tier count of week w after the left merge on the weekly totals and `fillna(0)`. */
  function MergedTierCount(tierCounts: map<int, nat>, w: int): nat
  {
    if w in tierCounts then tierCounts[w] else 0
  }

  /**
   * Merging the grouped tier counts and filling the missing weeks with 0 gives, for every
   * week, the number of distinct flagged ids of that week.
   */
  lemma MergedCountIsDistinctFlaggedIds(flagged: seq<Record>, w: int)
    ensures MergedTierCount(TierCounts(flagged), w) == |IdsInWeek(flagged, w)|
  {
    if w !in WeekSet(flagged) {
      NoRecordsNoIds(flagged, w);
    }
  }

  /** `nunique` never exceeds the number of rows it counts over. */
  lemma {:induction false} DistinctIdsAtMostRows(df: seq<Record>, w: int)
    ensures |IdsInWeek(df, w)| <= |df|
  {
    if |df| > 0 {
      DistinctIdsAtMostRows(df[1..], w);
      var rest := IdsInWeek(df[1..], w);
      assert IdsInWeek(df, w) <= rest + {df[0].subscriptionId} by {
        assert forall x :: x in df ==> x == df[0] || x in df[1..];
      }
      SubsetCardinality(IdsInWeek(df, w), rest + {df[0].subscriptionId});
    }
  }

  /**
   * The weekly table: the total distinct ids per week, left-merged with the distinct ids of
   * the flagged records, a week without flagged records counting 0.
   */
  function WeeklyCounts(df: seq<Record>, flag: Record -> bool): (r: seq<WeekCount>)
    ensures |r| == |DistinctWeeks(df)|
    ensures forall k :: 0 <= k < |r| ==> r[k].week == DistinctWeeks(df)[k]
    ensures forall k :: 0 <= k < |r| ==> r[k].total == |IdsInWeek(df, r[k].week)|
    ensures forall k :: 0 <= k < |r| ==> r[k].tier == |IdsInWeek(Filter(df, flag), r[k].week)|
    ensures forall k :: 0 <= k < |r| ==> 1 <= r[k].total && r[k].tier <= r[k].total
  {
    var weeks := DistinctWeeks(df);
    var flagged := Filter(df, flag);
    var tierCounts := TierCounts(flagged);
    var r := seq(|weeks|, k requires 0 <= k < |weeks| =>
      WeekCount(weeks[k], |IdsInWeek(df, weeks[k])|, MergedTierCount(tierCounts, weeks[k])));
    forall k | 0 <= k < |r|
      ensures r[k].tier == |IdsInWeek(flagged, r[k].week)|
      ensures 1 <= r[k].total && r[k].tier <= r[k].total
    {
      var w := weeks[k];
      assert w in WeekSet(df);
      WeekHasAnId(df, w);
      FlaggedIdsWithin(df, flag, w);
      if w !in tierCounts {
        NoRecordsNoIds(flagged, w);
      }
    }
    r
  }

  /** A week with no flagged record gets a tier count of 0 from the merge. */
  lemma UnflaggedWeekCountsZero(df: seq<Record>, flag: Record -> bool, k: nat)
    requires k < |WeeklyCounts(df, flag)|
    requires forall x :: x in df && x.week == WeeklyCounts(df, flag)[k].week ==> !flag(x)
    ensures WeeklyCounts(df, flag)[k].tier == 0
  {
    var w := WeeklyCounts(df, flag)[k].week;
    NoRecordsNoIds(Filter(df, flag), w);
  }

  // ---------------------------------------------------------------------------------------
  // Smoothing
  // ---------------------------------------------------------------------------------------

  predicate ValidCounts(table: seq<WeekCount>)
  {
    forall k :: 0 <= k < |table| ==> 1 <= table[k].total && table[k].tier <= table[k].total
  }

  function Totals(table: seq<WeekCount>): (r: seq<real>)
    ensures |r| == |table|
    ensures forall k :: 0 <= k < |r| ==> r[k] == table[k].total as real
  {
    seq(|table|, k requires 0 <= k < |table| => table[k].total as real)
  }

  lemma ShareWithinUnit(tier: nat, total: nat)
    requires 1 <= total && tier <= total
    ensures 0.0 <= tier as real / total as real <= 1.0
  {
    var q := tier as real / total as real;
    assert q * total as real == tier as real;
  }

  /** The weekly tier share `tier / total`: a fraction, since the tier never exceeds the total. */
  function TierShares(table: seq<WeekCount>): (r: seq<real>)
    requires ValidCounts(table)
    ensures |r| == |table|
    ensures forall k :: 0 <= k < |r| ==> 0.0 <= r[k] <= 1.0
    ensures forall k :: 0 <= k < |r| ==> r[k] * table[k].total as real == table[k].tier as real
  {
    var r := seq(|table|, k requires 0 <= k < |table| => table[k].tier as real / table[k].total as real);
    forall k | 0 <= k < |r| ensures 0.0 <= r[k] <= 1.0 {
      ShareWithinUnit(table[k].tier, table[k].total);
    }
    r
  }

  /** Week i of the table (i >= 3) as a smoothed row. */
  function SmoothedRow(table: seq<WeekCount>, i: nat): (r: SmoothRow)
    requires ValidCounts(table)
    requires SmoothWindow - 1 <= i < |table|
    ensures r.week == table[i].week && r.total == table[i].total && r.tier == table[i].tier
    ensures r.adds4w == Sum(Window(Totals(table), i, SmoothWindow))
    ensures r.share4w == Mean(Window(TierShares(table), i, SmoothWindow))
    ensures r.adds4w >= SmoothWindow as real
    ensures 0.0 <= r.share4w <= 1.0
  {
    var totals := Window(Totals(table), i, SmoothWindow);
    var shares := Window(TierShares(table), i, SmoothWindow);
    SumAtLeast(totals, 1.0);
    MeanWithin(shares, 0.0, 1.0);
    SmoothRow(table[i].week, table[i].total, table[i].tier, Sum(totals), TierShares(table)[i], Mean(shares))
  }

  /**
   * The smoothing step: 4-row rolling sum of the totals, the tier share, its 4-row rolling
   * mean, and `dropna`, which keeps weeks 3, 4, ... of the table in order.
   */
  function Smooth(table: seq<WeekCount>): (r: seq<SmoothRow>)
    requires ValidCounts(table)
    ensures |r| == if |table| < SmoothWindow - 1 then 0 else |table| - (SmoothWindow - 1)
    ensures forall k :: 0 <= k < |r| ==> r[k] == SmoothedRow(table, k + SmoothWindow - 1)
  {
    var adds := RollingSum(Totals(table), SmoothWindow);
    var shares := RollingMean(TierShares(table), SmoothWindow);
    var keep := CompleteIndices(adds, shares, |table|);
    CompleteIndicesAfterWarmup(adds, shares, SmoothWindow - 1, |table|);
    seq(|keep|, k requires 0 <= k < |keep| => SmoothedRow(table, keep[k]))
  }

  /** Every smoothed row sums at least 4 weekly totals of at least 1 and has a share in [0, 1]. */
  predicate SmoothBounds(spine: seq<SmoothRow>)
  {
    forall k :: 0 <= k < |spine| ==> spine[k].adds4w >= SmoothWindow as real && 0.0 <= spine[k].share4w <= 1.0
  }

  /** The smoothed spine of a segment's records under a tier flag. */
  function Spine(records: seq<Record>, flag: Record -> bool): (r: seq<SmoothRow>)
    ensures SmoothBounds(r)
    ensures |r| == if |DistinctWeeks(records)| < SmoothWindow - 1 then 0 else |DistinctWeeks(records)| - (SmoothWindow - 1)
  {
    Smooth(WeeklyCounts(records, flag))
  }

  /**
   * Row k of the spine is week k + 3 of the weekly counts, smoothed: its 4-week adds sum the
   * distinct-id totals of weeks k..k+3 and its share averages their tier shares.
   */
  lemma SpineRowIsSmoothedWeek(records: seq<Record>, flag: Record -> bool, k: nat)
    requires k < |Spine(records, flag)|
    ensures Spine(records, flag)[k] == SmoothedRow(WeeklyCounts(records, flag), k + SmoothWindow - 1)
  {
  }

  function Adds4w(spine: seq<SmoothRow>): (r: seq<real>)
    ensures |r| == |spine|
    ensures forall k :: 0 <= k < |r| ==> r[k] == spine[k].adds4w
  {
    seq(|spine|, k requires 0 <= k < |spine| => spine[k].adds4w)
  }

  function Share4w(spine: seq<SmoothRow>): (r: seq<real>)
    ensures |r| == |spine|
    ensures forall k :: 0 <= k < |r| ==> r[k] == spine[k].share4w
  {
    seq(|spine|, k requires 0 <= k < |spine| => spine[k].share4w)
  }

  // ---------------------------------------------------------------------------------------
  // Regime comparison, shared by both checks
  // ---------------------------------------------------------------------------------------

  /** `later / earlier if earlier > 0 else 0`, where a NaN earlier mean compares false. */
  function AddsRatio(earlier: Option<real>, later: real): (r: real)
    ensures earlier.Some? && earlier.value > 0.0 ==> r * earlier.value == later
    ensures earlier.None? || earlier.value <= 0.0 ==> r == 0.0
  {
    if earlier.Some? && earlier.value > 0.0 then later / earlier.value else 0.0
  }

  /** `later - earlier`, NaN when the earlier regime is empty. */
  function ShareDelta(earlier: Option<real>, later: real): (r: Option<real>)
    ensures r.None? <==> earlier.None?
    ensures r.Some? ==> r.value + earlier.value == later
  {
    if earlier.Some? then Some(later - earlier.value) else None
  }

  /** The three gates, all required; a NaN share delta or correlation fails its gate. */
  function Gates(m: ShiftMetrics, shareDeltaMin: real, addsRatioMin: real, corrMin: real): (b: bool)
    ensures b ==> m.shareDelta.Some? && m.recentCorrelation.Some?
    ensures b ==> m.shareDelta.value >= shareDeltaMin && m.addsRatio >= addsRatioMin && m.recentCorrelation.value >= corrMin
    ensures m.shareDelta.None? || m.recentCorrelation.None? ==> !b
  {
    AtLeast(m.shareDelta, shareDeltaMin) && m.addsRatio >= addsRatioMin && AtLeast(m.recentCorrelation, corrMin)
  }

  /** The 6-row rolling correlation of share on volume, at the last row of the spine. */
  function RecentCorrelation(spine: seq<SmoothRow>, sqrt: real -> real): (r: Option<real>)
    requires |spine| > 0
    requires IsSquareRoot(sqrt)
    ensures r.Some? ==> -1.0 <= r.value <= 1.0
    ensures |spine| < CorrWindow ==> r.None?
  {
    RollingCorrAt(Share4w(spine), Adds4w(spine), CorrWindow, |spine| - 1, sqrt)
  }

  /**
   * On a spine of at least 6 rows the recent correlation is the Pearson correlation of the
   * last 6 smoothed shares against the last 6 smoothed volumes: missing exactly when either
   * window is constant.
   */
  lemma RecentCorrelationIsPearson(spine: seq<SmoothRow>, sqrt: real -> real)
    requires |spine| >= CorrWindow
    requires IsSquareRoot(sqrt)
    ensures RecentCorrelation(spine, sqrt) == Pearson(Tail(Share4w(spine), CorrWindow), Tail(Adds4w(spine), CorrWindow), sqrt)
    ensures RecentCorrelation(spine, sqrt).None? <==>
              IsConstant(Tail(Share4w(spine), CorrWindow)) || IsConstant(Tail(Adds4w(spine), CorrWindow))
  {
    WindowAtEndIsTail(Share4w(spine), CorrWindow);
    WindowAtEndIsTail(Adds4w(spine), CorrWindow);
  }

  /**
   * Compare an earlier regime with a non-empty later one and classify with the given gates;
   * confidence is high exactly when the driver is detected.
   */
  function CompareRegimes(
    segment: string, driver: string, earlier: seq<SmoothRow>, later: seq<SmoothRow>, corr: Option<real>,
    shareDeltaMin: real, addsRatioMin: real, corrMin: real): (r: ShiftResult)
    requires |later| > 0
    ensures r.Evaluated? && r.segment == segment && r.driver == driver
    ensures r.metrics.addsBefore == MeanOf(Adds4w(earlier))
    ensures r.metrics.addsAfter == Mean(Adds4w(later))
    ensures r.metrics.shareBefore == MeanOf(Share4w(earlier))
    ensures r.metrics.shareAfter == Mean(Share4w(later))
    ensures r.metrics.addsRatio == AddsRatio(r.metrics.addsBefore, r.metrics.addsAfter)
    ensures r.metrics.shareDelta == ShareDelta(r.metrics.shareBefore, r.metrics.shareAfter)
    ensures r.metrics.recentCorrelation == corr
    ensures r.detected <==> Gates(r.metrics, shareDeltaMin, addsRatioMin, corrMin)
    ensures r.confidence == High <==> r.detected
  {
    var addsBefore := MeanOf(Adds4w(earlier));
    var addsAfter := Mean(Adds4w(later));
    var shareBefore := MeanOf(Share4w(earlier));
    var shareAfter := Mean(Share4w(later));
    var m := ShiftMetrics(AddsRatio(addsBefore, addsAfter), ShareDelta(shareBefore, shareAfter), corr,
                          addsBefore, addsAfter, shareBefore, shareAfter);
    var detected := Gates(m, shareDeltaMin, addsRatioMin, corrMin);
    Evaluated(segment, driver, detected, if detected then High else Low, m)
  }

  // ---------------------------------------------------------------------------------------
  // Prepaid: premium shift, regimes split by the smoothed premium share
  // ---------------------------------------------------------------------------------------

  function IsPremiumRecord(x: Record): bool
  {
    IsHighTier(x.productName)
  }

  /** The weeks below the premium threshold, in order. */
  function PreRegime(spine: seq<SmoothRow>): (r: seq<SmoothRow>)
    ensures forall x :: x in r <==> x in spine && x.share4w < PremiumRegimeThreshold
  {
    Filter(spine, (x: SmoothRow) => x.share4w < PremiumRegimeThreshold)
  }

  /** The weeks at or above the premium threshold, in order. */
  function PostRegime(spine: seq<SmoothRow>): (r: seq<SmoothRow>)
    ensures forall x :: x in r <==> x in spine && x.share4w >= PremiumRegimeThreshold
  {
    Filter(spine, (x: SmoothRow) => x.share4w >= PremiumRegimeThreshold)
  }

  /** Every week falls in exactly one regime. */
  lemma RegimesPartition(spine: seq<SmoothRow>)
    ensures |PreRegime(spine)| + |PostRegime(spine)| == |spine|
    ensures multiset(PreRegime(spine)) + multiset(PostRegime(spine)) == multiset(spine)
    ensures forall x :: x in PreRegime(spine) ==> x in spine && x.share4w < PremiumRegimeThreshold
    ensures forall x :: x in PostRegime(spine) ==> x in spine && x.share4w >= PremiumRegimeThreshold
  {
    FilterPartition(spine, (x: SmoothRow) => x.share4w < PremiumRegimeThreshold,
                           (x: SmoothRow) => x.share4w >= PremiumRegimeThreshold);
  }

  /** The prepaid check on a smoothed spine of at least 8 rows. */
  function PremiumShift(spine: seq<SmoothRow>, sqrt: real -> real): (r: ShiftResult)
    requires |spine| >= PrepaidMinRows
    requires IsSquareRoot(sqrt)
    ensures r.NotEvaluated? <==> |PostRegime(spine)| < MinPostRows
    ensures r.NotEvaluated? ==> r == NotEvaluated("prepaid", "No premium regime")
    ensures r.Evaluated? ==> r == CompareRegimes("prepaid", "premium_shift", PreRegime(spine), PostRegime(spine),
                                  RecentCorrelation(spine, sqrt), PrepaidShareDelta, PrepaidAddsRatio, PrepaidCorr)
  {
    var pre, post := PreRegime(spine), PostRegime(spine);
    if |post| < MinPostRows then NotEvaluated("prepaid", "No premium regime")
    else
      CompareRegimes("prepaid", "premium_shift", pre, post, RecentCorrelation(spine, sqrt),
                     PrepaidShareDelta, PrepaidAddsRatio, PrepaidCorr)
  }

  /** `_detect_prepaid_driver`. */
  function DetectPrepaidDriver(df: seq<Record>, sqrt: real -> real): (r: ShiftResult)
    requires IsSquareRoot(sqrt)
    ensures r.segment == "prepaid"
    ensures r == NotEvaluated("prepaid", "No prepaid data") <==> forall x :: x in df ==> x.segment != "prepaid"
    ensures r == NotEvaluated("prepaid", "Insufficient data") <==>
              (exists x :: x in df && x.segment == "prepaid") &&
              |DistinctWeeks(SegmentRecords(df, "prepaid"))| < PrepaidMinRows + SmoothWindow - 1
    ensures r.Evaluated? ==> r.driver == "premium_shift" && (r.confidence == High <==> r.detected)
    ensures r.Evaluated? ==> (r.detected <==> Gates(r.metrics, PrepaidShareDelta, PrepaidAddsRatio, PrepaidCorr))
    ensures (exists x :: x in df && x.segment == "prepaid") &&
            |Spine(SegmentRecords(df, "prepaid"), IsPremiumRecord)| >= PrepaidMinRows ==>
              r == PremiumShift(Spine(SegmentRecords(df, "prepaid"), IsPremiumRecord), sqrt)
  {
    var records := SegmentRecords(df, "prepaid");
    if |records| == 0 then
      NotEvaluated("prepaid", "No prepaid data")
    else
      assert records[0] in records;
      var spine := Spine(records, IsPremiumRecord);
      if |spine| < PrepaidMinRows then NotEvaluated("prepaid", "Insufficient data")
      else PremiumShift(spine, sqrt)
  }

  /** Both regimes' tier shares are fractions, and the later one is at least 0.15. */
  lemma PremiumSharesBounded(spine: seq<SmoothRow>, sqrt: real -> real)
    requires |spine| >= PrepaidMinRows
    requires IsSquareRoot(sqrt)
    requires SmoothBounds(spine)
    requires PremiumShift(spine, sqrt).Evaluated?
    ensures PremiumRegimeThreshold <= PremiumShift(spine, sqrt).metrics.shareAfter <= 1.0
    ensures PremiumShift(spine, sqrt).metrics.shareBefore.Some? ==>
              0.0 <= PremiumShift(spine, sqrt).metrics.shareBefore.value < PremiumRegimeThreshold
  {
    var pre, post := PreRegime(spine), PostRegime(spine);
    RegimesPartition(spine);
    var ps := Share4w(post);
    forall k | 0 <= k < |ps| ensures PremiumRegimeThreshold <= ps[k] <= 1.0 {
      assert post[k] in post;
    }
    MeanWithin(ps, PremiumRegimeThreshold, 1.0);
    var qs := Share4w(pre);
    if |qs| > 0 {
      forall k | 0 <= k < |qs| ensures 0.0 <= qs[k] < PremiumRegimeThreshold {
        assert pre[k] in pre;
      }
      MeanAtLeast(qs, 0.0);
      MeanBelow(qs, PremiumRegimeThreshold);
    }
  }

  /**
   * Because the regimes are split by the share itself, the later regime's average share
   * always exceeds the earlier one's: a computed share delta is positive.
   */
  lemma PremiumShareDeltaPositive(spine: seq<SmoothRow>, sqrt: real -> real)
    requires |spine| >= PrepaidMinRows
    requires IsSquareRoot(sqrt)
    requires SmoothBounds(spine)
    requires PremiumShift(spine, sqrt).Evaluated?
    ensures PremiumShift(spine, sqrt).metrics.shareDelta.Some? ==> PremiumShift(spine, sqrt).metrics.shareDelta.value > 0.0
  {
    PremiumSharesBounded(spine, sqrt);
  }

  /** With no week below the threshold, the earlier regime is empty and nothing is detected. */
  lemma EmptyEarlierRegime(spine: seq<SmoothRow>, sqrt: real -> real)
    requires |spine| >= PrepaidMinRows
    requires IsSquareRoot(sqrt)
    requires PremiumShift(spine, sqrt).Evaluated?
    requires |PreRegime(spine)| == 0
    ensures PremiumShift(spine, sqrt).metrics.addsRatio == 0.0
    ensures PremiumShift(spine, sqrt).metrics.shareDelta.None?
    ensures !PremiumShift(spine, sqrt).detected
  {
  }

  // ---------------------------------------------------------------------------------------
  // Postpaid: value-mix shift, the last 8 weeks against the 8 before them
  // ---------------------------------------------------------------------------------------

  function IsValueRecord(x: Record): bool
  {
    IsValueTier(x.productName)
  }

  /** `iloc[-16:-8]`: the 8 rows just before the last 8. */
  function Previous(spine: seq<SmoothRow>): (r: seq<SmoothRow>)
    requires |spine| >= PostpaidMinRows
    ensures |r| == RecentRows
  {
    spine[|spine| - 2 * RecentRows..|spine| - RecentRows]
  }

  /** The recent and previous windows are adjacent and disjoint: together the last 16 rows. */
  lemma WindowsAdjacent(spine: seq<SmoothRow>)
    requires |spine| >= PostpaidMinRows
    ensures |Tail(spine, RecentRows)| == RecentRows
    ensures Previous(spine) + Tail(spine, RecentRows) == spine[|spine| - PostpaidMinRows..]
  {
  }

  /** The postpaid check on a smoothed spine of at least 16 rows. */
  function ValueMixShift(spine: seq<SmoothRow>, sqrt: real -> real): (r: ShiftResult)
    requires |spine| >= PostpaidMinRows
    requires IsSquareRoot(sqrt)
    ensures r == CompareRegimes("postpaid", "value_mix_shift", Previous(spine), Tail(spine, RecentRows),
                                RecentCorrelation(spine, sqrt), PostpaidShareDelta, PostpaidAddsRatio, PostpaidCorr)
    ensures r.Evaluated? && r.metrics.addsBefore.Some? && r.metrics.shareBefore.Some?
  {
    CompareRegimes("postpaid", "value_mix_shift", Previous(spine), Tail(spine, RecentRows),
                   RecentCorrelation(spine, sqrt), PostpaidShareDelta, PostpaidAddsRatio, PostpaidCorr)
  }

  /**
   * Every smoothed week has at least 4 subscriptions, so the previous window's mean volume is
   * positive and the `else 0` branch of the adds ratio is never taken.
   */
  lemma PostpaidRatioDefined(spine: seq<SmoothRow>, sqrt: real -> real)
    requires |spine| >= PostpaidMinRows
    requires IsSquareRoot(sqrt)
    requires SmoothBounds(spine)
    ensures ValueMixShift(spine, sqrt).metrics.addsBefore.value > 0.0
    ensures ValueMixShift(spine, sqrt).metrics.addsRatio * ValueMixShift(spine, sqrt).metrics.addsBefore.value
              == ValueMixShift(spine, sqrt).metrics.addsAfter
  {
    var prev := Adds4w(Previous(spine));
    forall k | 0 <= k < |prev| ensures SmoothWindow as real <= prev[k] {
      assert Previous(spine)[k] == spine[|spine| - 2 * RecentRows + k];
    }
    MeanAtLeast(prev, SmoothWindow as real);
  }

  /** `_detect_postpaid_driver`. */
  function DetectPostpaidDriver(df: seq<Record>, sqrt: real -> real): (r: ShiftResult)
    requires IsSquareRoot(sqrt)
    ensures r.segment == "postpaid"
    ensures r == NotEvaluated("postpaid", "No postpaid data") <==> forall x :: x in df ==> x.segment != "postpaid"
    ensures r == NotEvaluated("postpaid", "Insufficient data") <==>
              (exists x :: x in df && x.segment == "postpaid") &&
              |DistinctWeeks(SegmentRecords(df, "postpaid"))| < PostpaidMinRows + SmoothWindow - 1
    ensures r.Evaluated? ==> r.driver == "value_mix_shift" && (r.confidence == High <==> r.detected)
    ensures r.Evaluated? ==> (r.detected <==> Gates(r.metrics, PostpaidShareDelta, PostpaidAddsRatio, PostpaidCorr))
    ensures (exists x :: x in df && x.segment == "postpaid") &&
            |Spine(SegmentRecords(df, "postpaid"), IsValueRecord)| >= PostpaidMinRows ==>
              r == ValueMixShift(Spine(SegmentRecords(df, "postpaid"), IsValueRecord), sqrt)
  {
    var records := SegmentRecords(df, "postpaid");
    if |records| == 0 then
      NotEvaluated("postpaid", "No postpaid data")
    else
      assert records[0] in records;
      var spine := Spine(records, IsValueRecord);
      if |spine| < PostpaidMinRows then NotEvaluated("postpaid", "Insufficient data")
      else ValueMixShift(spine, sqrt)
  }

  /** `detect_subscription_drivers`: both checks on the same master table. */
  function DetectSubscriptionDrivers(df: seq<Record>, sqrt: real -> real): (r: SubscriptionAnalysis)
    requires IsSquareRoot(sqrt)
    ensures r.prepaid == DetectPrepaidDriver(df, sqrt) && r.postpaid == DetectPostpaidDriver(df, sqrt)
    ensures r.prepaid.segment == "prepaid" && r.postpaid.segment == "postpaid"
    ensures r.prepaid.Evaluated? ==> r.prepaid.driver == "premium_shift"
    ensures r.postpaid.Evaluated? ==> r.postpaid.driver == "value_mix_shift"
  {
    SubscriptionAnalysis(DetectPrepaidDriver(df, sqrt), DetectPostpaidDriver(df, sqrt))
  }
}
