/**
 * Pearson correlation as pandas' `rolling(w).corr(other)` computes it for one window.
 *
 * pandas divides the sample covariance by the product of the two sample standard
 * deviations; the 1/(n-1) factors cancel, so the value is the centred cross product over
 * the square root of the product of the centred sums of squares. A window whose values are
 * all equal has no spread and yields NaN (here None). Real numbers stand for floats, and
 * the square root is a parameter required to be exact (`IsSquareRoot`). With that, the
 * range [-1, 1] is proved, by the Cauchy-Schwarz inequality, rather than taken for granted.
 */
module Correlation {
  import opened Wrappers
  import opened Numeric

  /** `sqrt` returns the exact non-negative square root of every non-negative real. */
  ghost predicate IsSquareRoot(sqrt: real -> real)
  {
    forall x :: 0.0 <= x ==> 0.0 <= sqrt(x) && sqrt(x) * sqrt(x) == x
  }

  predicate IsConstant(xs: seq<real>)
  {
    forall i, j :: 0 <= i < |xs| && 0 <= j < |xs| ==> xs[i] == xs[j]
  }

  /** Deviations from the mean. */
  function Centered(xs: seq<real>): (r: seq<real>)
    requires |xs| > 0
    ensures |r| == |xs|
  {
    var m := Mean(xs);
    seq(|xs|, i requires 0 <= i < |xs| => xs[i] - m)
  }

  function Dot(a: seq<real>, b: seq<real>): real
    requires |a| == |b|
  {
    if |a| == 0 then 0.0 else a[0] * b[0] + Dot(a[1..], b[1..])
  }

  lemma {:induction false} DotSelfNonNegative(a: seq<real>)
    ensures Dot(a, a) >= 0.0
  {
    if |a| > 0 {
      DotSelfNonNegative(a[1..]);
    }
  }

  /** A sum of squares vanishes exactly when every term does. */
  lemma {:induction false} DotSelfZero(a: seq<real>)
    ensures Dot(a, a) == 0.0 <==> forall i :: 0 <= i < |a| ==> a[i] == 0.0
  {
    if |a| > 0 {
      var t := a[1..];
      DotSelfZero(t);
      DotSelfNonNegative(t);
      var x0 := a[0];
      assert Dot(a, a) == x0 * x0 + Dot(t, t);
      if x0 != 0.0 {
        SquarePositive(x0);
      } else {
        assert (forall i :: 0 <= i < |a| ==> a[i] == 0.0) <==> (forall i :: 0 <= i < |t| ==> t[i] == 0.0) by {
          if forall i :: 0 <= i < |t| ==> t[i] == 0.0 {
            forall i | 0 < i < |a| ensures a[i] == 0.0 {
              assert a[i] == t[i - 1];
            }
          }
        }
      }
    }
  }

  /** x * x under a name, so that facts about it are not lost in arithmetic normalisation. */
  function Square(x: real): real
  {
    x * x
  }

  lemma SquarePositive(x: real)
    requires x != 0.0
    ensures Square(x) > 0.0
  {
    assert x == (x * x) / x;
  }

  lemma ProductPositive(x: real, y: real)
    requires x > 0.0 && y > 0.0
    ensures x * y > 0.0
  {
  }

  lemma ProductZero(x: real, y: real)
    requires y != 0.0 && x * y == 0.0
    ensures x == 0.0
  {
    assert x == (x * y) / y;
  }

  lemma {:induction false} DotSymmetric(a: seq<real>, b: seq<real>)
    requires |a| == |b|
    ensures Dot(a, b) == Dot(b, a)
  {
    if |a| > 0 {
      DotSymmetric(a[1..], b[1..]);
    }
  }

  /** Scaling one side of a dot product scales the product. */
  lemma {:induction false} DotScaled(a: seq<real>, b: seq<real>, b0: seq<real>, c: real)
    requires |a| == |b| == |b0|
    requires forall i :: 0 <= i < |b| ==> b[i] == c * b0[i]
    ensures Dot(a, b) == c * Dot(a, b0)
  {
    if |a| > 0 {
      DotScaled(a[1..], b[1..], b0[1..], c);
    }
  }

  /** The terms t * b_i. */
  function Scale(t: real, b: seq<real>): (r: seq<real>)
    ensures |r| == |b|
    ensures forall i :: 0 <= i < |b| ==> r[i] == t * b[i]
  {
    seq(|b|, i requires 0 <= i < |b| => t * b[i])
  }

  /** The sum of the squared differences (a_i - u_i)^2. */
  function SquaredDistance(a: seq<real>, u: seq<real>): real
    requires |a| == |u|
  {
    if |a| == 0 then 0.0 else (a[0] - u[0]) * (a[0] - u[0]) + SquaredDistance(a[1..], u[1..])
  }

  lemma {:induction false} SquaredDistanceNonNegative(a: seq<real>, u: seq<real>)
    requires |a| == |u|
    ensures SquaredDistance(a, u) >= 0.0
  {
    if |a| > 0 {
      SquaredDistanceNonNegative(a[1..], u[1..]);
    }
  }

  /** The squared distance expands to a.a - 2 a.u + u.u, one term at a time. */
  lemma {:induction false} SquaredDistanceExpand(a: seq<real>, u: seq<real>)
    requires |a| == |u|
    ensures SquaredDistance(a, u) == Dot(a, a) - 2.0 * Dot(a, u) + Dot(u, u)
  {
    if |a| > 0 {
      SquaredDistanceExpand(a[1..], u[1..]);
      SquareOfDifference(a[0], u[0]);
    }
  }

  lemma SquareOfDifference(x: real, y: real)
    ensures (x - y) * (x - y) == x * x - 2.0 * (x * y) + y * y
  {
  }

  /** Scaling b by t scales b.b by t^2. */
  lemma ScaledSelfDot(b: seq<real>, t: real)
    ensures Dot(Scale(t, b), Scale(t, b)) == t * t * Dot(b, b)
  {
    var tb := Scale(t, b);
    DotScaled(tb, tb, b, t);
    ScaledCross(b, t);
    ScaleTwice(t, Dot(tb, tb), Dot(tb, b), Dot(b, b));
  }

  lemma ScaledCross(b: seq<real>, t: real)
    ensures Dot(Scale(t, b), b) == t * Dot(b, b)
  {
    DotScaled(b, Scale(t, b), b, t);
    DotSymmetric(Scale(t, b), b);
  }

  /** A sequence that is t times b term by term is Scale(t, b). */
  lemma IsScaled(b: seq<real>, tb: seq<real>, t: real)
    requires |b| == |tb|
    requires forall i :: 0 <= i < |b| ==> tb[i] == t * b[i]
    ensures tb == Scale(t, b)
  {
  }

  lemma ScaleTwice(t: real, x: real, y: real, z: real)
    requires x == t * y && y == t * z
    ensures x == t * t * z
  {
  }

  /** The quadratic a.a - 2 t a.b + t^2 b.b in t. */
  function Quadratic(a: seq<real>, b: seq<real>, t: real): real
    requires |a| == |b|
  {
    Dot(a, a) - 2.0 * t * Dot(a, b) + t * t * Dot(b, b)
  }

  /** The quadratic is the squared distance of a to t b, so it is never negative. */
  lemma QuadraticNonNegative(a: seq<real>, b: seq<real>, t: real)
    requires |a| == |b|
    ensures Quadratic(a, b, t) >= 0.0
  {
    SquaredDistanceExpand(a, Scale(t, b));
    SquaredDistanceNonNegative(a, Scale(t, b));
    DotScaled(a, Scale(t, b), b, t);
    ScaledSelfDot(b, t);
  }

  /** The scalar step of Cauchy-Schwarz: a non-negative quadratic at t = ab / bb. */
  lemma DiscriminantBound(aa: real, ab: real, bb: real, t: real)
    requires bb > 0.0 && t == ab / bb
    requires 0.0 <= aa - 2.0 * t * ab + t * t * bb
    ensures ab * ab <= aa * bb
  {
    assert t * bb == ab;
    assert t * t * bb == t * ab;
    assert 0.0 <= aa - t * ab;
    assert t * ab * bb <= aa * bb;
    assert t * ab * bb == ab * ab;
  }

  /** A spread vanishes exactly for a constant window. */
  lemma SpreadZeroIffConstant(xs: seq<real>)
    requires |xs| > 0
    ensures Spread(xs) == 0.0 <==> IsConstant(xs)
  {
    var cx := Centered(xs);
    DotSelfZero(cx);
    if IsConstant(xs) {
      MeanOfConstant(xs, xs[0]);
      assert forall i :: 0 <= i < |cx| ==> cx[i] == 0.0;
    } else {
      var i, j :| 0 <= i < |xs| && 0 <= j < |xs| && xs[i] != xs[j];
      assert cx[i] != 0.0 || cx[j] != 0.0;
    }
  }

  /** b / s lies in [-1, 1] when s is the non-negative root of an upper bound of b^2. */
  lemma RatioWithinUnit(b: real, s: real)
    requires s > 0.0
    requires b * b <= s * s
    ensures -1.0 <= b / s <= 1.0
  {
    var r := b / s;
    assert r * s == b;
    assert (s - b) * (s + b) == s * s - b * b;
    assert s - b < 0.0 && s + b > 0.0 ==> (s - b) * (s + b) < 0.0;
    assert s + b < 0.0 && s - b > 0.0 ==> (s - b) * (s + b) < 0.0;
    assert -s <= b <= s;
    assert (r - 1.0) * s == b - s;
    assert r - 1.0 > 0.0 ==> (r - 1.0) * s > 0.0;
    assert (r + 1.0) * s == b + s;
    assert r + 1.0 < 0.0 ==> (r + 1.0) * s < 0.0;
  }

  /** Centred sum of squares: (n - 1) times the sample variance; zero exactly for a constant window. */
  function Spread(xs: seq<real>): (r: real)
    requires |xs| > 0
    ensures r >= 0.0
  {
    DotSelfNonNegative(Centered(xs));
    Dot(Centered(xs), Centered(xs))
  }

  /** Centred cross product: (n - 1) times the sample covariance. */
  function CoSpread(xs: seq<real>, ys: seq<real>): real
    requires |xs| == |ys| > 0
  {
    Dot(Centered(xs), Centered(ys))
  }

  /** With both spreads positive, the normalised cross product lies in [-1, 1]. */
  lemma NormalisedWithinUnit(xs: seq<real>, ys: seq<real>, sqrt: real -> real)
    requires |xs| == |ys| > 0
    requires IsSquareRoot(sqrt)
    requires Spread(xs) > 0.0 && Spread(ys) > 0.0
    ensures sqrt(Spread(xs) * Spread(ys)) > 0.0
    ensures -1.0 <= CoSpread(xs, ys) / sqrt(Spread(xs) * Spread(ys)) <= 1.0
  {
    CoSpreadBound(xs, ys);
    ProductPositive(Spread(xs), Spread(ys));
    RootBound(CoSpread(xs, ys), Spread(xs) * Spread(ys), sqrt(Spread(xs) * Spread(ys)));
  }

  /** Cauchy-Schwarz for the centred windows, from the quadratic at t = CoSpread / Spread(ys). */
  lemma CoSpreadBound(xs: seq<real>, ys: seq<real>)
    requires |xs| == |ys| > 0
    requires Spread(ys) > 0.0
    ensures CoSpread(xs, ys) * CoSpread(xs, ys) <= Spread(xs) * Spread(ys)
  {
    var t := CoSpread(xs, ys) / Spread(ys);
    QuadraticNonNegative(Centered(xs), Centered(ys), t);
    DiscriminantBound(Spread(xs), CoSpread(xs, ys), Spread(ys), t);
  }

  /** b over the root s of p lies in [-1, 1] when b * b <= p. */
  lemma RootBound(b: real, p: real, s: real)
    requires p > 0.0 && s >= 0.0 && s * s == p
    requires b * b <= p
    ensures s > 0.0
    ensures -1.0 <= b / s <= 1.0
  {
    RatioWithinUnit(b, s);
  }

  /**
   * Pearson correlation of two equally long windows: None exactly when one of the windows is
   * constant, and otherwise a value in [-1, 1].
   */
  function Pearson(xs: seq<real>, ys: seq<real>, sqrt: real -> real): (r: Option<real>)
    requires |xs| == |ys| > 0
    requires IsSquareRoot(sqrt)
    ensures r.None? <==> IsConstant(xs) || IsConstant(ys)
    ensures r.Some? ==> -1.0 <= r.value <= 1.0
  {
    SpreadZeroIffConstant(xs);
    SpreadZeroIffConstant(ys);
    if Spread(xs) == 0.0 || Spread(ys) == 0.0 then None
    else
      NormalisedWithinUnit(xs, ys, sqrt);
      Some(CoSpread(xs, ys) / sqrt(Spread(xs) * Spread(ys)))
  }

  lemma SquareRootUnique(s: real, k: real)
    requires s >= 0.0 && k > 0.0
    requires s * s == k * k
    ensures s == k
  {
    assert (s - k) * (s + k) == s * s - k * k;
    ProductZero(s - k, s + k);
  }

  /**
   * A window that is a positive multiple of another, non-constant one correlates perfectly
   * with it.
   */
  lemma PearsonOfPositiveMultiple(xs: seq<real>, ys: seq<real>, c: real, sqrt: real -> real)
    requires |xs| == |ys| > 0
    requires IsSquareRoot(sqrt)
    requires c > 0.0
    requires forall i :: 0 <= i < |xs| ==> ys[i] == c * xs[i]
    requires !IsConstant(xs)
    ensures Pearson(xs, ys, sqrt) == Some(1.0)
  {
    ProportionalRatio(xs, ys, c, sqrt);
    PearsonWhenSpread(xs, ys, sqrt);
  }

  /** Both windows have spread, and their normalised cross term is exactly 1. */
  lemma ProportionalRatio(xs: seq<real>, ys: seq<real>, c: real, sqrt: real -> real)
    requires |xs| == |ys| > 0
    requires IsSquareRoot(sqrt)
    requires c > 0.0
    requires forall i :: 0 <= i < |xs| ==> ys[i] == c * xs[i]
    requires !IsConstant(xs)
    ensures Spread(xs) > 0.0 && Spread(ys) > 0.0
    ensures CoSpread(xs, ys) / sqrt(Spread(xs) * Spread(ys)) == 1.0
  {
    ProportionalSpreads(xs, ys, c);
    RootRatio(CoSpread(xs, ys), Spread(xs) * Spread(ys), sqrt(Spread(xs) * Spread(ys)));
  }

  /** For a window and c > 0 times it, the product of the spreads is the squared cross term. */
  lemma ProportionalSpreads(xs: seq<real>, ys: seq<real>, c: real)
    requires |xs| == |ys| > 0
    requires c > 0.0
    requires forall i :: 0 <= i < |xs| ==> ys[i] == c * xs[i]
    requires !IsConstant(xs)
    ensures Spread(xs) > 0.0 && Spread(ys) > 0.0 && CoSpread(xs, ys) > 0.0
    ensures Spread(xs) * Spread(ys) == CoSpread(xs, ys) * CoSpread(xs, ys)
  {
    SpreadsScale(xs, ys, c);
    ScaledProducts(Spread(xs), Spread(ys), CoSpread(xs, ys), c);
  }

  /** Scaling a window by c scales its spread by c * c and its cross term with the original by c. */
  lemma SpreadsScale(xs: seq<real>, ys: seq<real>, c: real)
    requires |xs| == |ys| > 0
    requires c > 0.0
    requires forall i :: 0 <= i < |xs| ==> ys[i] == c * xs[i]
    requires !IsConstant(xs)
    ensures Spread(xs) > 0.0
    ensures Spread(ys) == c * c * Spread(xs)
    ensures CoSpread(xs, ys) == c * Spread(xs)
  {
    var cx, cy := Centered(xs), Centered(ys);
    CenteredScaled(xs, ys, c);
    IsScaled(cx, cy, c);
    SpreadZeroIffConstant(xs);
    DotScaled(cx, cy, cx, c);
    ScaledSelfDot(cx, c);
  }

  /** sx * (c * c * sx) == (c * sx) * (c * sx), all positive. */
  lemma ScaledProducts(sx: real, sy: real, co: real, c: real)
    requires c > 0.0 && sx > 0.0
    requires sy == c * c * sx && co == c * sx
    ensures sy > 0.0 && co > 0.0
    ensures sx * sy == co * co
  {
    ProductPositive(c, c);
    ProductPositive(c * c, sx);
    ProductPositive(c, sx);
  }

  /** The value of a correlation whose windows both have spread. */
  lemma PearsonWhenSpread(xs: seq<real>, ys: seq<real>, sqrt: real -> real)
    requires |xs| == |ys| > 0
    requires IsSquareRoot(sqrt)
    requires Spread(xs) > 0.0 && Spread(ys) > 0.0
    ensures Pearson(xs, ys, sqrt) == Some(CoSpread(xs, ys) / sqrt(Spread(xs) * Spread(ys)))
  {
    NormalisedWithinUnit(xs, ys, sqrt);
  }

  /** k / s == 1 when s is the non-negative root of k * k. */
  lemma RootRatio(k: real, p: real, s: real)
    requires k > 0.0 && p == k * k
    requires s >= 0.0 && s * s == p
    ensures s > 0.0 && k / s == 1.0
  {
    SquareRootUnique(s, k);
    DivideBySelf(k);
  }

  lemma DivideBySelf(k: real)
    requires k > 0.0
    ensures k / k == 1.0
  {
  }

  /** Deviations from the mean scale with the series. */
  lemma CenteredScaled(xs: seq<real>, ys: seq<real>, c: real)
    requires |xs| == |ys| > 0
    requires forall i :: 0 <= i < |xs| ==> ys[i] == c * xs[i]
    ensures forall i :: 0 <= i < |xs| ==> Centered(ys)[i] == c * Centered(xs)[i]
  {
    var ones := seq(|xs|, i => 1.0);
    DotScaled(ones, ys, xs, c);
    DotOnesIsSum(ones, xs);
    DotOnesIsSum(ones, ys);
    assert Mean(ys) == c * Mean(xs);
  }

  lemma {:induction false} DotOnesIsSum(ones: seq<real>, zs: seq<real>)
    requires |ones| == |zs|
    requires forall i :: 0 <= i < |ones| ==> ones[i] == 1.0
    ensures Dot(ones, zs) == Sum(zs)
  {
    if |zs| > 0 {
      DotOnesIsSum(ones[1..], zs[1..]);
    }
  }

  /**
   * pandas `x.rolling(w).corr(y)` at row i: NaN until w rows are available, otherwise the
   * Pearson correlation of the two windows ending at row i.
   */
  function RollingCorrAt(xs: seq<real>, ys: seq<real>, w: nat, i: nat, sqrt: real -> real): (r: Option<real>)
    requires |xs| == |ys|
    requires 0 < w && i < |xs|
    requires IsSquareRoot(sqrt)
    ensures r.Some? <==> w <= i + 1 && !IsConstant(Window(xs, i, w)) && !IsConstant(Window(ys, i, w))
    ensures r.Some? ==> -1.0 <= r.value <= 1.0
  {
    if i + 1 < w then None else Pearson(Window(xs, i, w), Window(ys, i, w), sqrt)
  }
}
