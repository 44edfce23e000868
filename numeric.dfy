/**
 * Numeric building blocks shared by both driver engines: sums and means of weekly series,
 * the NaN-skipping mean pandas uses, division that yields "missing" instead of faulting,
 * fixed-width rolling windows, the rows a `dropna` keeps, `tail`, and row filters.
 */
module Numeric {
  import opened Wrappers

  function Sum(xs: seq<real>): real
  {
    if |xs| == 0 then 0.0 else xs[0] + Sum(xs[1..])
  }

  /** Every element within [lo, hi] bounds the sum by n * lo and n * hi. */
  lemma {:induction false} SumBounds(xs: seq<real>, lo: real, hi: real)
    requires forall i :: 0 <= i < |xs| ==> lo <= xs[i] <= hi
    ensures lo * |xs| as real <= Sum(xs) <= hi * |xs| as real
  {
    if |xs| > 0 {
      SumBounds(xs[1..], lo, hi);
      assert lo * |xs| as real == lo + lo * |xs[1..]| as real;
      assert hi * |xs| as real == hi + hi * |xs[1..]| as real;
    }
  }

  lemma {:induction false} SumAtLeast(xs: seq<real>, lo: real)
    requires forall i :: 0 <= i < |xs| ==> lo <= xs[i]
    ensures lo * |xs| as real <= Sum(xs)
  {
    if |xs| > 0 {
      SumAtLeast(xs[1..], lo);
      assert lo * |xs| as real == lo + lo * |xs[1..]| as real;
    }
  }

  /** Elements all strictly below hi keep a non-empty sum strictly below n * hi. */
  lemma {:induction false} SumBelow(xs: seq<real>, hi: real)
    requires |xs| > 0
    requires forall i :: 0 <= i < |xs| ==> xs[i] < hi
    ensures Sum(xs) < hi * |xs| as real
  {
    if |xs| > 1 {
      SumBelow(xs[1..], hi);
    }
    assert hi * |xs| as real == hi + hi * |xs[1..]| as real;
  }

  /** Scaling every element scales the sum. */
  lemma {:induction false} SumScaled(xs: seq<real>, ys: seq<real>, c: real)
    requires |xs| == |ys|
    requires forall i :: 0 <= i < |xs| ==> ys[i] == c * xs[i]
    ensures Sum(ys) == c * Sum(xs)
  {
    if |xs| > 0 {
      SumScaled(xs[1..], ys[1..], c);
    }
  }

  /** Arithmetic mean of a non-empty series. */
  function Mean(xs: seq<real>): real
    requires |xs| > 0
  {
    Sum(xs) / |xs| as real
  }

  lemma MeanWithin(xs: seq<real>, lo: real, hi: real)
    requires |xs| > 0
    requires forall i :: 0 <= i < |xs| ==> lo <= xs[i] <= hi
    ensures lo <= Mean(xs) <= hi
  {
    SumBounds(xs, lo, hi);
    var n := |xs| as real;
    assert Mean(xs) * n == Sum(xs);
  }

  lemma MeanAtLeast(xs: seq<real>, lo: real)
    requires |xs| > 0
    requires forall i :: 0 <= i < |xs| ==> lo <= xs[i]
    ensures lo <= Mean(xs)
  {
    SumAtLeast(xs, lo);
    assert Mean(xs) * |xs| as real == Sum(xs);
  }

  lemma MeanBelow(xs: seq<real>, hi: real)
    requires |xs| > 0
    requires forall i :: 0 <= i < |xs| ==> xs[i] < hi
    ensures Mean(xs) < hi
  {
    SumBelow(xs, hi);
    assert Mean(xs) * |xs| as real == Sum(xs);
  }

  /** The mean of a series whose elements all equal v is v. */
  lemma MeanOfConstant(xs: seq<real>, v: real)
    requires |xs| > 0
    requires forall i :: 0 <= i < |xs| ==> xs[i] == v
    ensures Mean(xs) == v
  {
    MeanWithin(xs, v, v);
  }

  /** pandas `Series.mean()` on a series without NaN: NaN (here None) exactly when it is empty. */
  function MeanOf(xs: seq<real>): (r: Option<real>)
    ensures r.None? <==> |xs| == 0
    ensures r.Some? ==> r.value * |xs| as real == Sum(xs)
  {
    if |xs| == 0 then None else Some(Mean(xs))
  }

  /** The present values of a column, in order (what pandas' reductions see). */
  function Present(xs: seq<Option<real>>): (r: seq<real>)
    ensures |r| <= |xs|
    ensures forall y :: y in r <==> Some(y) in xs
  {
    if |xs| == 0 then []
    else (if xs[0].Some? then [xs[0].value] else []) + Present(xs[1..])
  }

  /**
   * Present distributes over concatenation; with `Present([]) == []` and the one-entry
   * case this fixes it on every column: each present value kept once, in order.
   */
  lemma {:induction false} PresentAppend(xs: seq<Option<real>>, ys: seq<Option<real>>)
    ensures Present(xs + ys) == Present(xs) + Present(ys)
  {
    if |xs| == 0 {
      assert xs + ys == ys;
    } else {
      assert (xs + ys)[1..] == xs[1..] + ys;
      PresentAppend(xs[1..], ys);
    }
  }

  /** Appending an entry to a column appends its value when present and nothing when NaN. */
  lemma PresentSnoc(xs: seq<Option<real>>, x: Option<real>)
    ensures Present(xs + [x]) == Present(xs) + (if x.Some? then [x.value] else [])
  {
    PresentAppend(xs, [x]);
    assert [x][1..] == [];
  }

  /** pandas `Series.mean()`: NaN entries are skipped; NaN when no entry is present. */
  function MeanSkipNa(xs: seq<Option<real>>): (r: Option<real>)
    ensures r.None? <==> forall i :: 0 <= i < |xs| ==> xs[i].None?
  {
    var ps := Present(xs);
    assert forall i :: 0 <= i < |xs| && xs[i].Some? ==> xs[i].value in ps;
    assert |ps| > 0 ==> ps[0] in ps && Some(ps[0]) in xs;
    MeanOf(ps)
  }

  /** A NaN entry changes nothing about a skipping mean. */
  lemma MeanSkipNaSkipsMissing(xs: seq<Option<real>>)
    ensures MeanSkipNa(xs + [None]) == MeanSkipNa(xs)
  {
    PresentSnoc(xs, None);
    assert Present(xs + [None]) == Present(xs);
    assert MeanSkipNa(xs + [None]) == MeanOf(Present(xs + [None]));
    assert MeanSkipNa(xs) == MeanOf(Present(xs));
  }

  lemma MeanSkipNaWithin(xs: seq<Option<real>>, lo: real, hi: real)
    requires forall i :: 0 <= i < |xs| && xs[i].Some? ==> lo <= xs[i].value <= hi
    ensures MeanSkipNa(xs).Some? ==> lo <= MeanSkipNa(xs).value <= hi
  {
    var ps := Present(xs);
    forall k | 0 <= k < |ps| ensures lo <= ps[k] <= hi {
      assert ps[k] in ps;
      assert Some(ps[k]) in xs;
    }
    if |ps| > 0 {
      MeanWithin(ps, lo, hi);
    }
  }

  lemma MeanSkipNaOfConstant(xs: seq<Option<real>>, v: real)
    requires forall i :: 0 <= i < |xs| && xs[i].Some? ==> xs[i].value == v
    ensures MeanSkipNa(xs).Some? ==> MeanSkipNa(xs).value == v
  {
    MeanSkipNaWithin(xs, v, v);
  }

  /** `np.where(d == 0, nan, n / d)`: missing exactly when the divisor is zero, never a fault. */
  function SafeDiv(n: real, d: real): (r: Option<real>)
    ensures r.None? <==> d == 0.0
    ensures r.Some? ==> r.value * d == n
  {
    if d == 0.0 then None else Some(n / d)
  }

  /** A pandas comparison `x >= t`, where a NaN `x` compares false. */
  predicate AtLeast(x: Option<real>, t: real)
  {
    x.Some? && x.value >= t
  }

  /** The w values of xs ending at position i. */
  function Window(xs: seq<real>, i: nat, w: nat): (r: seq<real>)
    requires w <= i + 1 <= |xs|
    ensures |r| == w
  {
    xs[i + 1 - w..i + 1]
  }

  /** The window ending at the last position is the tail of the same width. */
  lemma WindowAtEndIsTail(xs: seq<real>, w: nat)
    requires 0 < w <= |xs|
    ensures Window(xs, |xs| - 1, w) == Tail(xs, w)
  {
  }

  /** pandas `rolling(w).sum()`: NaN until w values are available. */
  function RollingSum(xs: seq<real>, w: nat): (r: seq<Option<real>>)
    requires w > 0
    ensures |r| == |xs|
    ensures forall i :: 0 <= i < |r| ==> (r[i].Some? <==> i >= w - 1)
  {
    seq(|xs|, i requires 0 <= i < |xs| => if i + 1 < w then None else Some(Sum(Window(xs, i, w))))
  }

  /** pandas `rolling(w).mean()` on a column without NaN. */
  function RollingMean(xs: seq<real>, w: nat): (r: seq<Option<real>>)
    requires w > 0
    ensures |r| == |xs|
    ensures forall i :: 0 <= i < |r| ==> (r[i].Some? <==> i >= w - 1)
  {
    seq(|xs|, i requires 0 <= i < |xs| => if i + 1 < w then None else Some(Mean(Window(xs, i, w))))
  }

  /** Where both are present, the rolling mean times the width is the rolling sum. */
  lemma RollingMeanTimesWidth(xs: seq<real>, w: nat, i: nat)
    requires 0 < w <= i + 1 <= |xs|
    ensures RollingMean(xs, w)[i].value * w as real == RollingSum(xs, w)[i].value
  {
    var m := Mean(Window(xs, i, w));
    assert m * w as real == Sum(Window(xs, i, w));
  }

  /**
   * The positions among the first n that `dropna` keeps for two derived columns:
   * those at which both are present, in increasing order.
   */
  function CompleteIndices(a: seq<Option<real>>, b: seq<Option<real>>, n: nat): (r: seq<nat>)
    requires n <= |a| == |b|
    ensures forall k :: 0 <= k < |r| ==> r[k] < n && a[r[k]].Some? && b[r[k]].Some?
    ensures forall j, k :: 0 <= j < k < |r| ==> r[j] < r[k]
    ensures forall i :: 0 <= i < n && a[i].Some? && b[i].Some? ==> i in r
  {
    if n == 0 then []
    else CompleteIndices(a, b, n - 1) + (if a[n - 1].Some? && b[n - 1].Some? then [n - 1] else [])
  }

  /**
   * When both columns are missing exactly on their first `warmup` positions, `dropna`
   * keeps the positions warmup, warmup + 1, ... in order.
   */
  lemma {:induction false} CompleteIndicesAfterWarmup(a: seq<Option<real>>, b: seq<Option<real>>, warmup: nat, n: nat)
    requires n <= |a| == |b|
    requires forall i :: 0 <= i < |a| ==> (a[i].Some? <==> i >= warmup)
    requires forall i :: 0 <= i < |b| ==> (b[i].Some? <==> i >= warmup)
    ensures |CompleteIndices(a, b, n)| == if n < warmup then 0 else n - warmup
    ensures forall k :: 0 <= k < |CompleteIndices(a, b, n)| ==> CompleteIndices(a, b, n)[k] == warmup + k
  {
    if n > 0 {
      CompleteIndicesAfterWarmup(a, b, warmup, n - 1);
    }
  }

  /** pandas `tail(k)`: the last k rows, or all of them when there are fewer. */
  function Tail<T>(xs: seq<T>, k: nat): (r: seq<T>)
    ensures |r| == if |xs| <= k then |xs| else k
    ensures forall i :: 0 <= i < |r| ==> r[i] == xs[|xs| - |r| + i]
  {
    if |xs| <= k then xs else xs[|xs| - k..]
  }

  /** Boolean-mask row selection, `df[mask]`: keeps the rows satisfying `keep`, in order. */
  function Filter<T(!new)>(xs: seq<T>, keep: T -> bool): (r: seq<T>)
    ensures |r| <= |xs|
    ensures forall x :: x in r <==> x in xs && keep(x)
  {
    if |xs| == 0 then []
    else (if keep(xs[0]) then [xs[0]] else []) + Filter(xs[1..], keep)
  }

  /** A mask keeps each row at most as often as the input holds it. */
  lemma {:induction false} FilterSubMultiset<T(!new)>(xs: seq<T>, keep: T -> bool)
    ensures multiset(Filter(xs, keep)) <= multiset(xs)
  {
    if |xs| > 0 {
      FilterSubMultiset(xs[1..], keep);
      assert xs == [xs[0]] + xs[1..];
    }
  }

  /** Two complementary masks split the rows: every row goes to exactly one side. */
  lemma {:induction false} FilterPartition<T(!new)>(xs: seq<T>, p: T -> bool, q: T -> bool)
    requires forall x :: q(x) <==> !p(x)
    ensures |Filter(xs, p)| + |Filter(xs, q)| == |xs|
    ensures multiset(Filter(xs, p)) + multiset(Filter(xs, q)) == multiset(xs)
  {
    if |xs| > 0 {
      FilterPartition(xs[1..], p, q);
      assert xs == [xs[0]] + xs[1..];
    }
  }
}
