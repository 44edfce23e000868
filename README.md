# Driver detection for a telecom KPI agent — a verified Dafny model

This project models the two deterministic "driver detection" engines of a telecom
KPI-monitoring agent and proves properties of them.

- **Alignment engine** (`detect_add_churn_drivers.py`, module `AddChurnDrivers`).
  It takes a weekly table of a target series and a candidate driver series. It sorts
  the table by week and takes 4-week rolling sums of both series. It drops the warm-up
  rows and refuses tables that leave fewer than 12 rows. It then computes the driver's
  share of the target, and an 8-week rolling Pearson correlation of driver against
  target. It summarises the last 8 weeks into a bounded alignment score, an "aligned"
  verdict with three gates, and a high/medium/low confidence. Three detectors use this
  pipeline, each on its own pair of a frame's count columns: postpaid `adds` vs.
  `is_retail`, postpaid `churn` vs. `is_competitive`, and prepaid `adds` vs.
  `is_portin`. The fourth, prepaid churn, is a fixed stub.
- **Regime-shift engine** (`detect_subscription_drivers.py`, modules `Tiers` and
  `SubscriptionDrivers`). It takes subscription records. It classifies product names
  into tiers: premium means "unlimited", or a leftmost `<digits>gb` allowance above
  50; value means the name contains `basic`, `save`, `4all` or `lifeline`. It counts
  distinct subscriptions per week, overall and per tier. It smooths those counts over
  4 weeks. For prepaid, it compares the weeks below and above a 15 % premium share.
  For postpaid, it compares the last 8 weeks with the 8 before. Each comparison
  reports an adds ratio, a share delta and a 6-week rolling correlation, against
  fixed thresholds.

Shared numeric pieces live in `Numeric` and `Correlation`:

- sums, means and pandas' NaN-skipping mean;
- division that yields "missing";
- rolling windows, `dropna`, `tail` and boolean row filters;
- Pearson correlation.

NaN is `None` of `Wrappers.Option`. A comparison with NaN is false (`AtLeast`).

Real numbers replace floating point. The square root the correlation needs is a
parameter `sqrt`, constrained by `Correlation.IsSquareRoot`. A rolling correlation is
missing before its window fills, or when one of its windows is constant. Otherwise it
lies in [-1, 1].
This is proved from the Cauchy–Schwarz inequality.

Properties the model makes explicit:

- An alignment verdict needs at least 15 weekly rows. Twelve rows, for example, are not
  enough: 4-week sums lose three warm-up rows, and the spine must keep 12
  (`AddChurnDrivers.DetectAlignment`).
- The premium rule reads only the leftmost `<digits>gb` match anywhere in the
  lower-cased name, not a leading number: "5GB + 100GB" is not premium
  (`Tiers.LeftmostAllowanceDecides`).
- The postpaid "previous" window always has a positive mean of 4-week adds, so the
  fallback ratio 0 of `detect_subscription_drivers.py:228` is never taken
  (`SubscriptionDrivers.PostpaidRatioDefined`). When no week lies below the premium
  threshold, the prepaid ratio falls back to 0, the share delta is NaN and nothing is detected
  (`SubscriptionDrivers.EmptyEarlierRegime`).

## Model

| member | source | states |
|---|---|---|
| `Numeric.SafeDiv` | detect_add_churn_drivers.py:44-45 | missing exactly when the divisor is zero; otherwise the quotient times the divisor gives the numerator back |
| `Numeric.MeanSkipNa` | detect_add_churn_drivers.py:94-96 | the mean of a column with NaN entries is missing exactly when every entry is missing |
| `Numeric.PresentAppend` | detect_add_churn_drivers.py:94-96 | the present values of a concatenation are those of the first part followed by those of the second, each kept once and in order |
| `Numeric.PresentSnoc` | detect_add_churn_drivers.py:94-96 | appending an entry appends its value when present and nothing when NaN |
| `Numeric.MeanSkipNaSkipsMissing` | detect_add_churn_drivers.py:94-96 | appending a NaN entry leaves the NaN-skipping mean unchanged |
| `Numeric.MeanSkipNaWithin` | detect_add_churn_drivers.py:94-96 | a NaN-skipping mean stays within any bounds that hold for the present entries |
| `Numeric.RollingSum` | detect_add_churn_drivers.py:69-70 | a w-row rolling sum is missing exactly on the first w-1 rows |
| `Numeric.RollingMean` | detect_subscription_drivers.py:100 | a w-row rolling mean is missing exactly on the first w-1 rows |
| `Numeric.RollingMeanTimesWidth` | detect_subscription_drivers.py:98-100 | where present, the rolling mean times the width is the rolling sum at the same row |
| `Numeric.CompleteIndices` | detect_add_churn_drivers.py:72 | `dropna` keeps exactly the rows at which both columns are present, in strictly increasing order |
| `Numeric.CompleteIndicesAfterWarmup` | detect_add_churn_drivers.py:72 | `dropna` on two columns missing on the same warm-up prefix keeps exactly the later rows, in order |
| `Numeric.Tail` | detect_add_churn_drivers.py:99-100 | `tail(k)` keeps the last min(k, n) rows in order |
| `Numeric.Filter` | detect_subscription_drivers.py:84 | a boolean mask keeps exactly the rows that satisfy it, and never more rows than the input |
| `Numeric.FilterSubMultiset` | detect_subscription_drivers.py:84 | a boolean mask keeps each row at most as often as the input holds it |
| `Numeric.MeanOf` | detect_subscription_drivers.py:122-126 | the mean of a column without NaN is NaN exactly when the column is empty; otherwise it times the row count is the sum |
| `Numeric.FilterPartition` | detect_subscription_drivers.py:112-113 | two complementary masks put every row on exactly one side: lengths add up and the multisets recombine |
| `Correlation.Spread` | detect_add_churn_drivers.py:81-85 | the sum of squared deviations is never negative |
| `Correlation.SpreadZeroIffConstant` | detect_add_churn_drivers.py:81-85 | the sum of squared deviations is zero exactly when every value in the window is the same |
| `Correlation.CoSpreadBound` | detect_add_churn_drivers.py:81-85 | the squared co-spread is at most the product of the spreads, which bounds every correlation |
| `Correlation.Pearson` | detect_add_churn_drivers.py:81-85 | the Pearson correlation is missing exactly when either window is constant, and otherwise lies in [-1, 1] |
| `Correlation.PearsonOfPositiveMultiple` | detect_add_churn_drivers.py:81-85 | a non-constant window against a positive multiple of itself correlates at exactly 1 |
| `Correlation.RollingCorrAt` | detect_subscription_drivers.py:132-138 | the rolling correlation at row i is present exactly when a full window exists and neither window is constant; it then lies in [-1, 1] |
| `AddChurnDrivers.SortByWeek` | detect_add_churn_drivers.py:66 | the rows come out ordered by week, as a permutation of the input |
| `AddChurnDrivers.SortByWeekIdempotent` | detect_add_churn_drivers.py:66 | sorting an already sorted table changes nothing |
| `AddChurnDrivers.WithCorrelation` | detect_add_churn_drivers.py:81-85 | each row keeps its other columns and gets the 8-row rolling correlation of driver sums against target sums ending at that row |
| `AddChurnDrivers.Smooth` | detect_add_churn_drivers.py:69-78 | after the warm-up drop, spine row k holds week k+3 with the 4-week sums ending there, both non-negative, and the share of those sums |
| `AddChurnDrivers.BuildSpine` | detect_add_churn_drivers.py:61-87 | refuses exactly the tables with fewer than 15 rows; otherwise it gives n-3 rows, each built from the sorted window ending at its week, with the share and 8-week correlation columns and every correlation in [-1, 1] |
| `AddChurnDrivers.ProportionalBuiltSpine` | detect_add_churn_drivers.py:66-78 | a driver that is a fixed multiple c of the target keeps that ratio in every row of the spine |
| `AddChurnDrivers.ProportionalCorrelation` | detect_add_churn_drivers.py:81-85 | with a positive proportional driver, every rolling correlation whose target window varies is exactly 1 |
| `AddChurnDrivers.Clamp01` | detect_add_churn_drivers.py:58 | the result lies in [0, 1], equals its argument inside it, and 0 or 1 below or above it |
| `AddChurnDrivers.AlignmentScore` | detect_add_churn_drivers.py:47-59 | the score lies in [0, 1] for any correlation in [-1, 1] or missing; it is 0 when both inputs are missing and at most 0.3 without a correlation |
| `AddChurnDrivers.AlignmentScoreClampsShare` | detect_add_churn_drivers.py:58 | only the share's value clamped to [0, 1] affects the score |
| `AddChurnDrivers.AlignmentScoreMonotoneInCorr` | detect_add_churn_drivers.py:53-59 | a higher correlation never lowers the score |
| `AddChurnDrivers.ScoreGateIsIndependent` | detect_add_churn_drivers.py:104-108 | the score gate is not implied by the other two: correlation 0.6 and share 0.1 pass their gates but score below 0.65 |
| `AddChurnDrivers.Aligned` | detect_add_churn_drivers.py:104-108 | aligned needs both averages present, the correlation at least 0.60, the share at least 0.10 and the score at least 0.65; a NaN average never aligns |
| `AddChurnDrivers.ConfidenceOf` | detect_add_churn_drivers.py:111-116 | high iff aligned with score at least 0.8; medium iff aligned below 0.8; low iff not aligned |
| `AddChurnDrivers.RecentMean` | detect_add_churn_drivers.py:94-96 | the `n >= 8` branch and the whole-column fallback both equal the NaN-skipping mean of the last min(8, n) entries |
| `AddChurnDrivers.SummarizeAlignment` | detect_add_churn_drivers.py:89-126 | latest values are the last row's; recent averages are NaN-skipping means of the last 8 rows; the recent levels are the means of the last 8 target and driver sums; the score is in [0, 1] for in-range correlations; aligned iff all three gates hold; confidence per the buckets |
| `AddChurnDrivers.Verdict` | detect_add_churn_drivers.py:139-151 | the metrics are the summary of the spine, with a score in [0, 1]; aligned iff the three gates hold on them; the confidence is the bucket of the verdict and score, so never medium at 0.8 or above |
| `AddChurnDrivers.RecentCorrInRange` | detect_add_churn_drivers.py:94 | the recent average correlation of a spine with in-range correlations is itself in [-1, 1] |
| `AddChurnDrivers.RecentLevelsWithin` | detect_add_churn_drivers.py:99-100 | the recent target level and the recent driver level lie within any bounds that hold for the target and driver rolling sums of the last 8 rows |
| `AddChurnDrivers.ProportionalDriverSummary` | detect_add_churn_drivers.py:89-116 | a driver that is c > 0 times the target has recent correlation 1 and recent share c; it is aligned iff c ≥ 0.10 and high confidence iff c ≥ 1/3 |
| `AddChurnDrivers.DetectAlignment` | detect_add_churn_drivers.py:133-151 | "Insufficient data" with aligned false and low confidence exactly when fewer than 15 rows; otherwise the verdict on the spine the table builds |
| `AddChurnDrivers.DetectPostpaidAddDriver` | detect_add_churn_drivers.py:133-151 | the shared alignment pipeline on the frame's `adds` column as target and its `is_retail` column as driver, reported under `retail_add_growth`, so refusing exactly the frames under 15 rows |
| `AddChurnDrivers.DetectPostpaidChurnDriver` | detect_add_churn_drivers.py:158-176 | the shared alignment pipeline on the frame's `churn` column as target and its `is_competitive` column as driver, reported under `competitive_churn_spike`, so refusing exactly the frames under 15 rows |
| `AddChurnDrivers.DetectPrepaidAddDriver` | detect_add_churn_drivers.py:183-201 | the shared alignment pipeline on the frame's `adds` column as target and its `is_portin` column as driver, reported under `portin_add_growth`, so refusing exactly the frames under 15 rows |
| `AddChurnDrivers.Project` | detect_add_churn_drivers.py:61-66 | one row per week of the frame, holding the week, the named target column and the named driver column |
| `AddChurnDrivers.ProjectSeesOnlyItsColumns` | detect_add_churn_drivers.py:61-66 | frames that agree on the week and the two named columns project to the same table |
| `AddChurnDrivers.DetectorsReadOnlyTheirColumns` | detect_add_churn_drivers.py:133-201 | each detector's verdict depends only on the week and its own two columns, so `is_portin` and `is_financial` in the postpaid frames never affect it |
| `AddChurnDrivers.DetectPrepaidChurnDriver` | detect_add_churn_drivers.py:208-214 | always the stub `no_structural_driver_detected`, not aligned, low confidence, no metrics |
| `AddChurnDrivers.DetectAddChurnDrivers` | detect_add_churn_drivers.py:221-237 | each segment and direction holds the result of its own detector on its own table, and prepaid churn is the stub |
| `Tiers.Lower` | detect_subscription_drivers.py:36 | same length, each character lower-cased and no upper-case letter left |
| `Tiers.LowerIdempotent` | detect_subscription_drivers.py:36 | lower-casing twice is the same as once |
| `Tiers.Contains` | detect_subscription_drivers.py:38 | true iff the pattern occurs at some position |
| `Tiers.SearchGb` | detect_subscription_drivers.py:41 | finds the leftmost `<digits>gb` match if any; none exactly when no position matches |
| `Tiers.MatchEndsRun` | detect_subscription_drivers.py:41-43 | the digits of a match are the whole digit run starting at its position |
| `Tiers.DigitsValue` | detect_subscription_drivers.py:43 | `int()` of k digits is a natural number below 10^k |
| `Tiers.DigitsValueAppend` | detect_subscription_drivers.py:43 | the value of two digit strings written one after the other is the first's value shifted by the second's length plus the second's value |
| `Tiers.DigitsValueLeadingZero` | detect_subscription_drivers.py:43 | a leading zero does not change the parsed allowance |
| `Tiers.ExtractGb` | detect_subscription_drivers.py:32-45 | nothing for a missing name; `unlimited` when the lower-cased name contains it; otherwise the value of the leftmost `<digits>gb` match, and nothing exactly when there is none |
| `Tiers.IsHighTier` | detect_subscription_drivers.py:48-57 | premium iff the name is present and says "unlimited" or its leftmost allowance exceeds 50 GB |
| `Tiers.LeftmostUnique` | detect_subscription_drivers.py:41 | the leftmost match is unique, so the allowance is well defined |
| `Tiers.UnlimitedNameIsHighTier` | detect_subscription_drivers.py:38-39 | "Unlimited Data Plan" is premium |
| `Tiers.SixtyGbIsHighTier` | detect_subscription_drivers.py:54-55 | "60GB Plan" is premium |
| `Tiers.FortyGbIsNotHighTier` | detect_subscription_drivers.py:54-57 | "40GB Plan" is not premium |
| `Tiers.AllowanceDecidesTier` | detect_subscription_drivers.py:41-57 | a name opening with any run of digits followed by "gb", and without "unlimited", is premium iff the number those digits spell exceeds 50 |
| `Tiers.EmptyOrMissingNameIsNotHighTier` | detect_subscription_drivers.py:33-34 | an empty or missing name is not premium |
| `Tiers.LeftmostAllowanceDecides` | detect_subscription_drivers.py:41-43 | "5GB + 100GB" is not premium: only the leftmost allowance counts |
| `Tiers.ContainsAny` | detect_subscription_drivers.py:178-183 | the alternation matches iff one of the fragments occurs |
| `Tiers.IsValueTier` | detect_subscription_drivers.py:178-183 | value tier iff the name is present and contains one of the four fragments, in any letter case |
| `Tiers.ValueTierExamples` | detect_subscription_drivers.py:178-183 | "BASIC Talk" and "Family 4All" are value tier; "Premium Max 60" and a missing name are not |
| `SubscriptionDrivers.SegmentRecords` | detect_subscription_drivers.py:66 | keeps exactly the records of the segment |
| `SubscriptionDrivers.IdsInWeek` | detect_subscription_drivers.py:77-79 | every record of the week contributes its id; the set is empty exactly when the week has no record |
| `SubscriptionDrivers.DistinctIdsAtMostRows` | detect_subscription_drivers.py:77-79 | the distinct-id count of a week never exceeds the number of records |
| `SubscriptionDrivers.DistinctWeeks` | detect_subscription_drivers.py:77-96 | the weeks of the grouped table, strictly increasing, exactly those present in the records |
| `SubscriptionDrivers.TierCounts` | detect_subscription_drivers.py:83-88 | one entry per week with a flagged record, holding the number of distinct flagged ids |
| `SubscriptionDrivers.WeeklyCounts` | detect_subscription_drivers.py:77-94 | one row per week in order; the total is the number of distinct ids that week, at least 1; the tier count is the number of distinct flagged ids, at most the total |
| `SubscriptionDrivers.UnflaggedWeekCountsZero` | detect_subscription_drivers.py:90-94 | a week without flagged records gets a tier count of 0 from the left merge and `fillna(0)` |
| `SubscriptionDrivers.MergedCountIsDistinctFlaggedIds` | detect_subscription_drivers.py:90-94 | after the left merge and `fillna(0)`, every week's tier count is the number of its distinct flagged ids, 0 included |
| `SubscriptionDrivers.TierShares` | detect_subscription_drivers.py:99 | every weekly tier share lies in [0, 1] and times the total gives the tier count |
| `SubscriptionDrivers.SmoothedRow` | detect_subscription_drivers.py:98-100 | 4-week adds are the window sum, at least 4; the 4-week share is the window mean, in [0, 1] |
| `SubscriptionDrivers.Smooth` | detect_subscription_drivers.py:98-102 | after the warm-up drop, row k is the smoothed row of week k+3 |
| `SubscriptionDrivers.Spine` | detect_subscription_drivers.py:77-102 | the spine has one row per distinct week after the first three, each with adds ≥ 4 and share in [0, 1] |
| `SubscriptionDrivers.SpineRowIsSmoothedWeek` | detect_subscription_drivers.py:77-102 | spine row k is week k+3 of the merged weekly counts, smoothed over weeks k..k+3 |
| `SubscriptionDrivers.AddsRatio` | detect_subscription_drivers.py:128 | later over earlier when the earlier mean is positive, else 0 (also when it is NaN) |
| `SubscriptionDrivers.ShareDelta` | detect_subscription_drivers.py:129 | later minus earlier; NaN exactly when the earlier mean is |
| `SubscriptionDrivers.Gates` | detect_subscription_drivers.py:140-144 | all three gates hold: share delta and correlation present and at their minimums, adds ratio at its minimum; a NaN delta or correlation fails |
| `SubscriptionDrivers.RecentCorrelation` | detect_subscription_drivers.py:132-138 | the last rolling correlation is in [-1, 1] when present, and missing on a spine shorter than 6 |
| `SubscriptionDrivers.RecentCorrelationIsPearson` | detect_subscription_drivers.py:132-138 | on a spine of at least 6 rows, the recent correlation is the Pearson correlation of the last 6 shares against the last 6 volumes, missing exactly when either is constant |
| `SubscriptionDrivers.CompareRegimes` | detect_subscription_drivers.py:122-160 | the metrics are the regime means, their ratio and delta; detected iff all three gates hold with NaN failing; high confidence iff detected |
| `SubscriptionDrivers.PreRegime` | detect_subscription_drivers.py:112 | exactly the spine rows whose smoothed premium share is below 15 % |
| `SubscriptionDrivers.PostRegime` | detect_subscription_drivers.py:113 | exactly the spine rows whose smoothed premium share is at least 15 % |
| `SubscriptionDrivers.RegimesPartition` | detect_subscription_drivers.py:112-113 | the pre and post regimes split the spine: every row on one side, below or at/above 15 % premium share |
| `SubscriptionDrivers.PremiumShift` | detect_subscription_drivers.py:111-160 | "No premium regime" exactly when fewer than 4 rows reach the threshold; otherwise the regime comparison with the prepaid thresholds |
| `SubscriptionDrivers.DetectPrepaidDriver` | detect_subscription_drivers.py:64-160 | "No prepaid data" iff no prepaid record; "Insufficient data" iff the spine is under 8 rows; otherwise the premium-shift comparison on the spine of the prepaid records, detected iff the gates hold, high iff detected |
| `SubscriptionDrivers.PremiumSharesBounded` | detect_subscription_drivers.py:122-126 | the post-regime share mean is in [0.15, 1] and the pre-regime one in [0, 0.15) |
| `SubscriptionDrivers.PremiumShareDeltaPositive` | detect_subscription_drivers.py:125-129 | whenever the premium share delta is defined it is positive |
| `SubscriptionDrivers.EmptyEarlierRegime` | detect_subscription_drivers.py:122-144 | with no week below the threshold the ratio is 0, the delta is NaN and nothing is detected |
| `SubscriptionDrivers.Previous` | detect_subscription_drivers.py:220 | the previous window has exactly 8 rows |
| `SubscriptionDrivers.WindowsAdjacent` | detect_subscription_drivers.py:219-220 | the previous and recent windows are adjacent and together form the last 16 rows |
| `SubscriptionDrivers.ValueMixShift` | detect_subscription_drivers.py:219-259 | the comparison of the previous 8 with the recent 8 rows under the postpaid thresholds; both earlier means are defined |
| `SubscriptionDrivers.PostpaidRatioDefined` | detect_subscription_drivers.py:222-228 | the previous adds mean is positive, so the ratio is recent over previous |
| `SubscriptionDrivers.DetectPostpaidDriver` | detect_subscription_drivers.py:167-259 | "No postpaid data" iff no postpaid record; "Insufficient data" iff the spine is under 16 rows; otherwise the value-mix comparison on the spine of the postpaid records, detected iff the gates hold, high iff detected |
| `SubscriptionDrivers.DetectSubscriptionDrivers` | detect_subscription_drivers.py:263-273 | the prepaid and postpaid entries are the two detectors' results on the same table, each labelled with its segment |

## Left out

- Floating point: values are exact reals. Rounding, `float()` conversions and the JSON
  dictionary shapes are not modelled; results are datatypes with the same fields.
- The square root is a parameter. `Correlation.IsSquareRoot` requires it to return the
  non-negative root. pandas' streaming rolling-correlation algorithm is not modelled.
  Neither is its tolerance that treats nearly constant windows as constant. The model
  treats only exactly constant windows as constant.
- NaN inputs: the weekly target and driver counts are natural numbers, and subscription
  ids and weeks are never null. A null id, which `nunique` would skip, is not modelled,
  so every grouped week has a total of at least 1.
- Weeks are integers standing for `week_start` dates.
- `AddChurnDrivers.AlignmentScore` fixes `corr_weight` and `share_weight` at their defaults
  0.7 and 0.3. They are the only weights the detectors pass.
- The detectors' frames are records of natural-number counts with every named column;
  a column a frame lacks is a `KeyError` in the source, which is not modelled.
- `AddChurnDrivers.SortByWeek`: pandas' default quicksort is not stable. The order of
  rows that share a week is therefore left open by the source; the model fixes one order.
- `Tiers.Lower` lower-cases ASCII letters only, and `Tiers.IsValueTier` and `Tiers.IsHighTier`
  therefore match case-insensitively on ASCII only. Python's Unicode lower-casing and
  `case=False` matching also fold letters such as `ſ` to `s`, so "baſic" is a value tier
  in the source but not in the model. `Tiers.IsDigit` accepts only ASCII
  digits, where Python's `\d` also accepts other Unicode decimal digits.
- `str()` of a product name that is not a string is not modelled; names are strings or
  missing.
- A complete synthetic series whose premium share steps from 5 % to 25 % is not
  proved to be detected end to end. The regime properties are proved for any spine
  instead.
- Narrative text, forecasting, data loading and the user interface around these
  engines are not part of this model.
