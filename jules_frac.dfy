// Post-processing of the JULES surface-type fractions (`get_jules_frac`):
// the stacked fraction and surface-height grids are normalised per cell, a
// cell whose normalised snow/ice fraction exceeds one half becomes an
// all-ice cell, every other cell loses its ice, bare soil takes over, and
// the heights are replaced by weighted means. The arrays are updated in
// place exactly as numpy does, and `ice_orig`/`soil_orig` are views that
// read the live `frac` array.
//
// A grid is an `array2` indexed [type, cell]: the NLAT x NLON grid is
// flattened to one cell axis, so every numpy reduction along axis 0 is a
// function of one column.
module JulesFrac {
  import opened Wrappers

  /** A float64 as this code can meet it: a finite value, or the NaN of 0/0. */
  datatype Float = Fin(v: real) | NaN

  function Add(a: Float, b: Float): Float
  {
    if a.Fin? && b.Fin? then Fin(a.v + b.v) else NaN
  }

  function Mul(a: Float, b: Float): Float
  {
    if a.Fin? && b.Fin? then Fin(a.v * b.v) else NaN
  }

  /**
   * Division. A zero divisor gives NaN: with non-negative fractions a zero
   * column total means every entry is 0, so 0/0 is the only case that arises.
   */
  function Div(a: Float, b: Float): Float
  {
    if a.Fin? && b.Fin? && b.v != 0.0 then Fin(a.v / b.v) else NaN
  }

  /** `a > x`; a comparison with NaN is false. */
  predicate Gt(a: Float, x: real)
  {
    a.Fin? && a.v > x
  }

  /** A boolean mask used as a number: True is 1, False is 0. */
  function Indicator(b: bool): Float
  {
    if b then Fin(1.0) else Fin(0.0)
  }

  predicate AllFin(xs: seq<Float>)
  {
    forall t :: 0 <= t < |xs| ==> xs[t].Fin?
  }

  predicate NonNeg(xs: seq<Float>)
  {
    forall t :: 0 <= t < |xs| ==> xs[t].Fin? && xs[t].v >= 0.0
  }

  /** `np.sum` along the type axis; one NaN makes the sum NaN. */
  function Sum(xs: seq<Float>): Float
  {
    if |xs| == 0 then Fin(0.0) else Add(xs[0], Sum(xs[1..]))
  }

  function DivAll(xs: seq<Float>, d: Float): seq<Float>
  {
    seq(|xs|, t requires 0 <= t < |xs| => Div(xs[t], d))
  }

  function Scaled(xs: seq<Float>, k: Float): seq<Float>
  {
    seq(|xs|, t requires 0 <= t < |xs| => Mul(xs[t], k))
  }

  /** One column divided by its own total (`frac /= frac.sum(axis=0)`). */
  function Normalised(xs: seq<Float>): seq<Float>
  {
    DivAll(xs, Sum(xs))
  }

  function Zeros(n: nat): seq<Float>
  {
    seq(n, t => Fin(0.0))
  }

  /** The all-ice column: 1 in the last (snow/ice) slot, 0 elsewhere. */
  function OneHot(n: nat): seq<Float>
  {
    seq(n, t => if t == n - 1 then Fin(1.0) else Fin(0.0))
  }

  // ---------------------------------------------------------------------
  // One cell, as the code computes it
  // ---------------------------------------------------------------------

  /** An ice cell: the normalised last fraction exceeds one half. */
  predicate IsIce(f: seq<Float>)
    requires |f| >= 1
  {
    Gt(f[|f| - 1], 0.5)
  }

  /** After `frac *= not_ice` and `frac[-1] = ice` (the masked assignments of 1 and 0). */
  function IceMasked(f: seq<Float>): seq<Float>
    requires |f| >= 2
  {
    Scaled(f, Indicator(!IsIce(f)))[|f| - 1 := Indicator(IsIce(f))]
  }

  /**
   * The ice rule as written: `soil_orig + ice_orig` reads the live array,
   * so it adds the already-overwritten soil and ice slots.
   */
  function IceRuleAsWritten(f: seq<Float>): seq<Float>
    requires |f| >= 2
  {
    var g := IceMasked(f);
    g[|f| - 2 := Mul(Add(g[|f| - 2], g[|f| - 1]), Indicator(!IsIce(f)))]
  }

  /** The ice rule as its comment describes it: the original soil and ice fractions are added. */
  function IceRuleIntended(f: seq<Float>): seq<Float>
    requires |f| >= 2
  {
    var g := IceMasked(f);
    g[|f| - 2 := Mul(Add(f[|f| - 2], f[|f| - 1]), Indicator(!IsIce(f)))]
  }

  /** The fractions of one cell at the end of `get_jules_frac`. */
  function FracCell(x: seq<Float>): seq<Float>
    requires |x| >= 2
  {
    Normalised(IceRuleAsWritten(Normalised(x)))
  }

  /** The same, with the original ice fraction moved into bare soil. */
  function IntendedFracCell(x: seq<Float>): seq<Float>
    requires |x| >= 2
  {
    Normalised(IceRuleIntended(Normalised(x)))
  }

  function Products(h: seq<Float>, f: seq<Float>): seq<Float>
    requires |h| == |f|
  {
    seq(|h|, t requires 0 <= t < |h| => Mul(h[t], f[t]))
  }

  /** `sum(surf_hgt * frac) / sum(frac)`: the fraction-weighted mean height. */
  function WeightedMean(h: seq<Float>, f: seq<Float>): Float
    requires |h| == |f|
  {
    Div(Sum(Products(h, f)), Sum(f))
  }

  /** The soil/ice weighted height, 0 unless the soil and ice fractions add up to more than 0. */
  function SoilIceMean(h: seq<Float>, f: seq<Float>): Float
    requires |h| == |f| >= 2
  {
    var n := |f|;
    var s := Add(f[n - 2], f[n - 1]);
    if Gt(s, 0.0) then Div(Add(Mul(h[n - 2], f[n - 2]), Mul(h[n - 1], f[n - 1])), s) else Fin(0.0)
  }

  /** The heights of one cell at the end of `get_jules_frac` (original fractions `x`, heights `h`). */
  function HgtCell(x: seq<Float>, h: seq<Float>): seq<Float>
    requires |h| == |x| >= 2
  {
    var f := Normalised(x);
    var g := Scaled(h, Indicator(!IsIce(f)));
    if IsIce(f) then g[|x| - 1 := WeightedMean(h, f)] else g[|x| - 2 := SoilIceMean(h, f)]
  }

  // ---------------------------------------------------------------------
  // Real arithmetic
  // ---------------------------------------------------------------------

  lemma DivBounds(p: real, s: real, lo: real, hi: real)
    requires s > 0.0 && lo * s <= p <= hi * s
    ensures lo <= p / s <= hi
  {
    var q := p / s;
    assert q * s == p;
    assert (q - lo) * s >= 0.0;
    assert (hi - q) * s >= 0.0;
  }

  lemma FractionOf(p: real, s: real)
    requires 0.0 <= p <= s && s > 0.0
    ensures 0.0 <= p / s <= 1.0
  {
    DivBounds(p, s, 0.0, 1.0);
  }

  lemma MulNonNeg(a: real, b: real)
    requires a >= 0.0 && b >= 0.0
    ensures a * b >= 0.0
  {
  }

  lemma WeightedStep(h: real, f: real, lo: real, hi: real, p: real, s: real, total: real, weighted: real)
    requires lo <= h <= hi && f >= 0.0 && lo * s <= p <= hi * s
    requires total == f + s && weighted == h * f + p
    ensures lo * total <= weighted <= hi * total
  {
    MulNonNeg(h - lo, f);
    MulNonNeg(hi - h, f);
  }

  lemma SelfQuotient(d: real)
    requires d != 0.0
    ensures d / d == 1.0
  {
  }

  lemma MulMonotone(a: real, b: real, c: real)
    requires a <= b && c >= 0.0
    ensures a * c <= b * c
  {
    MulNonNeg(b - a, c);
  }

  lemma Distributes(c: real, a: real, b: real)
    ensures c * a + c * b == c * (a + b)
  {
  }

  lemma SumOfQuotients(a: real, b: real, d: real)
    requires d != 0.0
    ensures a / d + b / d == (a + b) / d
  {
  }

  // ---------------------------------------------------------------------
  // Sums
  // ---------------------------------------------------------------------

  lemma {:induction false} SumFinite(xs: seq<Float>)
    requires AllFin(xs)
    ensures Sum(xs).Fin?
  {
    if |xs| > 0 {
      SumFinite(xs[1..]);
    }
  }

  /** A sum of non-negative values is non-negative and bounds each of them. */
  lemma {:induction false} SumNonNeg(xs: seq<Float>)
    requires NonNeg(xs)
    ensures Sum(xs).Fin? && Sum(xs).v >= 0.0
    ensures forall t :: 0 <= t < |xs| ==> xs[t].v <= Sum(xs).v
  {
    if |xs| > 0 {
      SumNonNeg(xs[1..]);
      forall t | 0 < t < |xs|
        ensures xs[t].v <= Sum(xs).v
      {
        assert xs[t] == xs[1..][t - 1];
      }
    }
  }

  /** One NaN makes the whole sum NaN. */
  lemma {:induction false} SumWithNaN(xs: seq<Float>, i: nat)
    requires i < |xs| && xs[i].NaN?
    ensures Sum(xs) == NaN
  {
    if i > 0 {
      SumWithNaN(xs[1..], i - 1);
    }
  }

  /** Replacing one finite entry changes the sum by the difference. */
  lemma {:induction false} SumUpdate(xs: seq<Float>, i: nat, y: Float)
    requires AllFin(xs) && i < |xs| && y.Fin?
    ensures Sum(xs).Fin? && Sum(xs[i := y]) == Fin(Sum(xs).v - xs[i].v + y.v)
  {
    SumFinite(xs);
    if i == 0 {
      assert xs[i := y][1..] == xs[1..];
      SumFinite(xs[1..]);
    } else {
      assert xs[i := y][1..] == xs[1..][i - 1 := y];
      SumUpdate(xs[1..], i - 1, y);
    }
  }

  /** Dividing every entry by d divides the sum by d. */
  lemma {:induction false} SumDivided(xs: seq<Float>, d: real)
    requires AllFin(xs) && d != 0.0
    ensures Sum(xs).Fin? && Sum(DivAll(xs, Fin(d))) == Fin(Sum(xs).v / d)
  {
    SumFinite(xs);
    if |xs| > 0 {
      assert DivAll(xs, Fin(d))[1..] == DivAll(xs[1..], Fin(d));
      SumDivided(xs[1..], d);
      SumOfQuotients(xs[0].v, Sum(xs[1..]).v, d);
    }
  }

  lemma {:induction false} SumZeros(n: nat)
    ensures Sum(Zeros(n)) == Fin(0.0)
  {
    if n > 0 {
      assert Zeros(n)[1..] == Zeros(n - 1);
      SumZeros(n - 1);
    }
  }

  lemma {:induction false} ScaledByOne(xs: seq<Float>)
    ensures Scaled(xs, Fin(1.0)) == xs
  {
    assert forall t :: 0 <= t < |xs| ==> Scaled(xs, Fin(1.0))[t] == xs[t];
  }

  lemma {:induction false} DividedByOne(xs: seq<Float>)
    requires AllFin(xs)
    ensures DivAll(xs, Fin(1.0)) == xs
  {
    assert forall t :: 0 <= t < |xs| ==> DivAll(xs, Fin(1.0))[t] == xs[t];
  }

  // ---------------------------------------------------------------------
  // What one cell ends up with
  // ---------------------------------------------------------------------

  /** A cell with a positive total is normalised to fractions in [0, 1] that sum to 1. */
  lemma {:induction false} NormalisedIsFraction(x: seq<Float>)
    requires NonNeg(x) && Sum(x).Fin? && Sum(x).v > 0.0
    ensures NonNeg(Normalised(x)) && Sum(Normalised(x)) == Fin(1.0)
    ensures forall t :: 0 <= t < |x| ==> Normalised(x)[t].v <= 1.0
  {
    var total := Sum(x).v;
    SumNonNeg(x);
    forall t | 0 <= t < |x|
      ensures Normalised(x)[t] == Fin(x[t].v / total) && 0.0 <= x[t].v / total <= 1.0
    {
      FractionOf(x[t].v, total);
    }
    assert Sum(Normalised(x)) == Fin(1.0) by {
      assert Normalised(x) == DivAll(x, Fin(total));
      SumDivided(x, total);
      SelfQuotient(total);
    }
  }

  /** There is no guard on the first division: a cell whose fractions are all 0 ends up all NaN. */
  lemma {:induction false} ZeroTotalIsNaN(x: seq<Float>)
    requires |x| >= 2 && NonNeg(x) && Sum(x) == Fin(0.0)
    ensures forall t :: 0 <= t < |x| ==> Normalised(x)[t] == NaN
    ensures FracCell(x) == seq(|x|, t => NaN)
  {
    var n := |x|;
    SumNonNeg(x);
    var f := Normalised(x);
    assert !IsIce(f);
    var pre := IceRuleAsWritten(f);
    assert pre[n - 2] == NaN;
    SumWithNaN(pre, n - 2);
  }

  /** A column with its last (snow/ice) slot emptied. */
  function WithoutIce(f: seq<Float>): seq<Float>
    requires |f| >= 1
  {
    f[|f| - 1 := Fin(0.0)]
  }

  /** In an ice cell the rule leaves the all-ice column, as written and as intended. */
  lemma {:induction false} IceRuleOnIce(f: seq<Float>)
    requires |f| >= 2 && AllFin(f) && IsIce(f)
    ensures IceRuleAsWritten(f) == OneHot(|f|) && IceRuleIntended(f) == OneHot(|f|)
  {
    var n := |f|;
    var g := IceMasked(f);
    assert g == OneHot(n) by {
      assert Scaled(f, Fin(0.0)) == Zeros(n);
      assert Zeros(n)[n - 1 := Fin(1.0)] == OneHot(n);
    }
    assert Mul(Add(g[n - 2], g[n - 1]), Fin(0.0)) == Fin(0.0);
    assert Mul(Add(f[n - 2], f[n - 1]), Fin(0.0)) == Fin(0.0);
    assert g[n - 2 := Fin(0.0)] == g;
  }

  /**
   * Elsewhere the rule as written only empties the ice slot (bare soil is
   * left as it was), while the intended rule moves the ice fraction into
   * bare soil.
   */
  lemma {:induction false} IceRuleOffIce(f: seq<Float>)
    requires |f| >= 2 && AllFin(f) && !IsIce(f)
    ensures IceRuleAsWritten(f) == WithoutIce(f)
    ensures IceRuleIntended(f) == WithoutIce(f)[|f| - 2 := Fin(f[|f| - 2].v + f[|f| - 1].v)]
  {
    ScaledByOne(f);
    assert IceMasked(f) == WithoutIce(f);
    assert Mul(Add(f[|f| - 2], f[|f| - 1]), Fin(1.0)) == Fin(f[|f| - 2].v + f[|f| - 1].v);
  }

  lemma {:induction false} OneHotIsFraction(n: nat)
    requires n >= 1
    ensures Sum(OneHot(n)) == Fin(1.0) && Normalised(OneHot(n)) == OneHot(n)
  {
    assert OneHot(n) == Zeros(n)[n - 1 := Fin(1.0)];
    SumZeros(n);
    SumUpdate(Zeros(n), n - 1, Fin(1.0));
    DividedByOne(OneHot(n));
  }

  /**
   * Emptying the last slot of a unit column that held at most one half
   * leaves a total of 1 - ice >= 1/2; renormalising divides every other
   * slot by it and gives fractions in [0, 1] that sum to 1.
   */
  lemma {:induction false} DropLast(f: seq<Float>)
    requires |f| >= 2 && NonNeg(f) && Sum(f) == Fin(1.0) && f[|f| - 1].v <= 0.5
    ensures Sum(WithoutIce(f)) == Fin(1.0 - f[|f| - 1].v)
    ensures Normalised(WithoutIce(f))[|f| - 1] == Fin(0.0)
    ensures forall t :: 0 <= t < |f| - 1 ==> Normalised(WithoutIce(f))[t] == Fin(f[t].v / (1.0 - f[|f| - 1].v))
    ensures NonNeg(Normalised(WithoutIce(f))) && Sum(Normalised(WithoutIce(f))) == Fin(1.0)
    ensures forall t :: 0 <= t < |f| ==> Normalised(WithoutIce(f))[t].v <= 1.0
  {
    var n := |f|;
    SumUpdate(f, n - 1, Fin(0.0));
    SumDivided(WithoutIce(f), 1.0 - f[n - 1].v);
    SelfQuotient(1.0 - f[n - 1].v);
    forall t | 0 <= t < n - 1
      ensures 0.0 <= f[t].v / (1.0 - f[n - 1].v) <= 1.0
    {
      PairBound(f, t, n - 1);
      FractionOf(f[t].v, 1.0 - f[n - 1].v);
    }
  }

  /** Moving the ice fraction into bare soil keeps a unit column a unit column. */
  lemma {:induction false} MoveIntoSoil(f: seq<Float>)
    requires |f| >= 2 && AllFin(f) && Sum(f) == Fin(1.0)
    ensures var g := WithoutIce(f)[|f| - 2 := Fin(f[|f| - 2].v + f[|f| - 1].v)];
      Sum(g) == Fin(1.0) && Normalised(g) == g
  {
    var n := |f|;
    var g := WithoutIce(f);
    SumUpdate(f, n - 1, Fin(0.0));
    SumUpdate(g, n - 2, Fin(f[n - 2].v + f[n - 1].v));
    DividedByOne(g[n - 2 := Fin(f[n - 2].v + f[n - 1].v)]);
  }

  /** An ice cell becomes all ice: 1 in the snow/ice slot and 0 in every other. */
  lemma {:induction false} IceCellIsAllIce(x: seq<Float>)
    requires |x| >= 2 && NonNeg(x) && Sum(x).Fin? && Sum(x).v > 0.0
    requires IsIce(Normalised(x))
    ensures FracCell(x) == OneHot(|x|)
    ensures IntendedFracCell(x) == OneHot(|x|)
  {
    NormalisedIsFraction(x);
    IceRuleOnIce(Normalised(x));
    OneHotIsFraction(|x|);
  }

  /**
   * A cell that is not ice, as written: the ice slot becomes 0, every other
   * slot (bare soil included) keeps its normalised fraction, and the second
   * division by the remaining total 1 - ice, which is at least one half,
   * makes them sum to 1 again. The original ice fraction is not added to
   * bare soil.
   */
  lemma {:induction false} NonIceCellAsWritten(x: seq<Float>)
    requires |x| >= 2 && NonNeg(x) && Sum(x).Fin? && Sum(x).v > 0.0
    requires !IsIce(Normalised(x))
    ensures var f := Normalised(x);
      && f[|x| - 1].Fin? && 1.0 - f[|x| - 1].v >= 0.5
      && FracCell(x)[|x| - 1] == Fin(0.0)
      && (forall t :: 0 <= t < |x| - 1 ==> FracCell(x)[t] == Fin(f[t].v / (1.0 - f[|x| - 1].v)))
    ensures NonNeg(FracCell(x)) && Sum(FracCell(x)) == Fin(1.0)
    ensures forall t :: 0 <= t < |x| ==> FracCell(x)[t].v <= 1.0
  {
    NormalisedIsFraction(x);
    IceRuleOffIce(Normalised(x));
    DropLast(Normalised(x));
  }

  /** A cell that is not ice, as intended: bare soil takes the original ice fraction and nothing else is rescaled. */
  lemma {:induction false} NonIceCellIntended(x: seq<Float>)
    requires |x| >= 2 && NonNeg(x) && Sum(x).Fin? && Sum(x).v > 0.0
    requires !IsIce(Normalised(x))
    ensures var f := Normalised(x);
      && f[|x| - 2].Fin? && f[|x| - 1].Fin?
      && IntendedFracCell(x) == WithoutIce(f)[|x| - 2 := Fin(f[|x| - 2].v + f[|x| - 1].v)]
    ensures Sum(IntendedFracCell(x)) == Fin(1.0)
  {
    NormalisedIsFraction(x);
    IceRuleOffIce(Normalised(x));
    MoveIntoSoil(Normalised(x));
  }

  /** Every cell with a positive total ends with fractions in [0, 1] that sum to 1, and its ice slot is 1 exactly in ice cells. */
  lemma {:induction false} CellIsFraction(x: seq<Float>)
    requires |x| >= 2 && NonNeg(x) && Sum(x).Fin? && Sum(x).v > 0.0
    ensures NonNeg(FracCell(x)) && Sum(FracCell(x)) == Fin(1.0)
    ensures forall t :: 0 <= t < |x| ==> FracCell(x)[t].v <= 1.0
    ensures FracCell(x)[|x| - 1] == Fin(1.0) <==> IsIce(Normalised(x))
    ensures FracCell(x)[|x| - 1] == Fin(0.0) <==> !IsIce(Normalised(x))
  {
    var f := FracCell(x);
    if IsIce(Normalised(x)) {
      assert f == OneHot(|x|) by {
        IceCellIsAllIce(x);
      }
      OneHotIsFraction(|x|);
      assert f[|x| - 1] == Fin(1.0);
    } else {
      assert f[|x| - 1] == Fin(0.0) && NonNeg(f) && Sum(f) == Fin(1.0)
        && forall t :: 0 <= t < |x| ==> f[t].v <= 1.0
      by {
        NonIceCellAsWritten(x);
      }
    }
  }

  /** Two distinct non-negative entries add up to no more than the sum. */
  lemma {:induction false} PairBound(xs: seq<Float>, i: nat, j: nat)
    requires NonNeg(xs) && i < j < |xs|
    ensures Sum(xs).Fin? && xs[i].v + xs[j].v <= Sum(xs).v
  {
    SumNonNeg(xs);
    SumNonNeg(xs[1..]);
    if i == 0 {
      assert xs[j] == xs[1..][j - 1];
    } else {
      PairBound(xs[1..], i - 1, j - 1);
    }
  }

  /**
   * The views alias `frac`: a cell with fractions (0.5, 0.25, 0.25) is not
   * ice, and bare soil ends with 0.25 / 0.75 = 1/3 instead of the
   * 0.25 + 0.25 = 1/2 the comment promises.
   */
  lemma {:induction false} AliasingDropsIce(x: seq<Float>)
    requires |x| == 3 && x[0] == Fin(0.5) && x[1] == Fin(0.25) && x[2] == Fin(0.25)
    ensures FracCell(x)[1] == Fin(1.0 / 3.0)
    ensures IntendedFracCell(x)[1] == Fin(0.5)
  {
    assert Sum(x) == Fin(1.0) by {
      assert x[1..][1..][1..] == [];
      assert Sum(x[1..][1..]) == Fin(0.25);
      assert Sum(x[1..]) == Fin(0.5);
    }
    assert NonNeg(x);
    assert Normalised(x)[1] == Fin(0.25) && Normalised(x)[2] == Fin(0.25);
    NonIceCellAsWritten(x);
    OneThird(Normalised(x)[1].v, 1.0 - Normalised(x)[2].v);
    NonIceCellIntended(x);
  }

  lemma OneThird(a: real, d: real)
    requires a == 0.25 && d == 0.75
    ensures a / d == 1.0 / 3.0
  {
  }

  // ---------------------------------------------------------------------
  // Heights
  // ---------------------------------------------------------------------

  /** Raising the heights raises the weighted sum. */
  lemma {:induction false} WeightedSumMonotone(h: seq<Float>, g: seq<Float>, f: seq<Float>)
    requires |h| == |g| == |f| && AllFin(h) && AllFin(g) && NonNeg(f)
    requires forall t :: 0 <= t < |h| ==> h[t].v <= g[t].v
    ensures Sum(Products(h, f)).Fin? && Sum(Products(g, f)).Fin?
    ensures Sum(Products(h, f)).v <= Sum(Products(g, f)).v
  {
    if |h| > 0 {
      assert AllFin(h[1..]) && AllFin(g[1..]) && NonNeg(f[1..]) && forall t :: 0 <= t < |h| - 1 ==> h[1..][t].v <= g[1..][t].v by {
        forall t | 0 <= t < |h| - 1
          ensures h[1..][t] == h[t + 1] && g[1..][t] == g[t + 1] && f[1..][t] == f[t + 1]
        {
        }
      }
      WeightedSumMonotone(h[1..], g[1..], f[1..]);
      assert Products(h, f)[1..] == Products(h[1..], f[1..]);
      assert Products(g, f)[1..] == Products(g[1..], f[1..]);
      MulMonotone(h[0].v, g[0].v, f[0].v);
    }
  }

  /** With one height everywhere the weighted sum is that height times the total weight. */
  lemma {:induction false} WeightedSumConstant(c: real, f: seq<Float>)
    requires AllFin(f)
    ensures Sum(f).Fin? && Sum(Products(Constant(|f|, Fin(c)), f)) == Fin(c * Sum(f).v)
  {
    SumFinite(f);
    if |f| > 0 {
      assert AllFin(f[1..]);
      WeightedSumConstant(c, f[1..]);
      assert Products(Constant(|f|, Fin(c)), f)[1..] == Products(Constant(|f| - 1, Fin(c)), f[1..]);
      Distributes(c, f[0].v, Sum(f[1..]).v);
    }
  }

  /** Where the fractions sum to 1, the weighted mean lies between the lowest and the highest height. */
  lemma {:induction false} WeightedMeanBounds(h: seq<Float>, f: seq<Float>, lo: real, hi: real)
    requires |h| == |f| && AllFin(h) && NonNeg(f) && Sum(f) == Fin(1.0)
    requires forall t :: 0 <= t < |h| ==> lo <= h[t].v <= hi
    ensures WeightedMean(h, f).Fin? && lo <= WeightedMean(h, f).v <= hi
  {
    var lows, highs := Constant(|f|, Fin(lo)), Constant(|f|, Fin(hi));
    assert Sum(Products(lows, f)) == Fin(lo) && Sum(Products(highs, f)) == Fin(hi) by {
      WeightedSumConstant(lo, f);
      WeightedSumConstant(hi, f);
    }
    var sp := Sum(Products(h, f));
    assert sp.Fin? && lo <= sp.v <= hi by {
      WeightedSumMonotone(lows, h, f);
      WeightedSumMonotone(h, highs, f);
    }
    assert WeightedMean(h, f) == Fin(sp.v / 1.0);
  }

  /** The soil/ice height is 0 where soil + ice is not positive, and otherwise lies between the two heights. */
  lemma {:induction false} SoilIceMeanBounds(h: seq<Float>, f: seq<Float>, lo: real, hi: real)
    requires |h| == |f| >= 2 && AllFin(h) && NonNeg(f)
    requires lo <= h[|h| - 2].v <= hi && lo <= h[|h| - 1].v <= hi
    ensures var r := SoilIceMean(h, f);
      && (f[|f| - 2].v + f[|f| - 1].v == 0.0 ==> r == Fin(0.0))
      && (f[|f| - 2].v + f[|f| - 1].v > 0.0 ==> r.Fin? && lo <= r.v <= hi)
  {
    var n := |f|;
    var s := f[n - 2].v + f[n - 1].v;
    if s > 0.0 {
      WeightedStep(h[n - 1].v, f[n - 1].v, lo, hi, 0.0, 0.0, f[n - 1].v, h[n - 1].v * f[n - 1].v);
      WeightedStep(h[n - 2].v, f[n - 2].v, lo, hi, h[n - 1].v * f[n - 1].v, f[n - 1].v, s, h[n - 2].v * f[n - 2].v + h[n - 1].v * f[n - 1].v);
      DivBounds(h[n - 2].v * f[n - 2].v + h[n - 1].v * f[n - 1].v, s, lo, hi);
    }
  }

  /** In an ice cell the ice slot gets the all-type weighted mean height and every other slot 0. */
  lemma {:induction false} IceCellHeights(x: seq<Float>, h: seq<Float>)
    requires |h| == |x| >= 2 && NonNeg(x) && AllFin(h) && IsIce(Normalised(x))
    ensures HgtCell(x, h)[|x| - 1] == WeightedMean(h, Normalised(x))
    ensures forall t :: 0 <= t < |x| - 1 ==> HgtCell(x, h)[t] == Fin(0.0)
  {
  }

  /** Elsewhere bare soil gets the soil/ice weighted height and every other slot keeps its height. */
  lemma {:induction false} NonIceCellHeights(x: seq<Float>, h: seq<Float>)
    requires |h| == |x| >= 2 && !IsIce(Normalised(x))
    ensures HgtCell(x, h) == h[|x| - 2 := SoilIceMean(h, Normalised(x))]
  {
    ScaledByOne(h);
  }

  // ---------------------------------------------------------------------
  // The arrays
  // ---------------------------------------------------------------------

  /** Column `c` of a [type, cell] grid. */
  function Col(a: array2<Float>, c: int): seq<Float>
    reads a
    requires 0 <= c < a.Length1
  {
    seq(a.Length0, t requires 0 <= t < a.Length0 reads a => a[t, c])
  }

  function Cols(a: array2<Float>): seq<seq<Float>>
    reads a
  {
    seq(a.Length1, c requires 0 <= c < a.Length1 reads a => Col(a, c))
  }

  /** A numpy view of one row: reading it reads the array as it is now. */
  datatype View = View(a: array2<Float>, row: int)
  {
    function At(c: int): Float
      reads a
      requires 0 <= row < a.Length0 && 0 <= c < a.Length1
    {
      a[row, c]
    }
  }

  /** `a /= a.sum(axis=0)`. */
  method NormaliseColumns(a: array2<Float>)
    modifies a
    ensures forall c :: 0 <= c < a.Length1 ==> Col(a, c) == Normalised(old(Col(a, c)))
  {
    ghost var before := Cols(a);
    var sums := seq(a.Length1, c requires 0 <= c < a.Length1 reads a => Sum(Col(a, c)));
    forall t, c | 0 <= t < a.Length0 && 0 <= c < a.Length1 {
      a[t, c] := Div(a[t, c], sums[c]);
    }
    forall c | 0 <= c < a.Length1
      ensures Col(a, c) == Normalised(before[c])
    {
      assert sums[c] == Sum(before[c]);
    }
  }

  /** `a *= keep[None, ...]`. */
  method ScaleColumns(a: array2<Float>, keep: seq<bool>)
    requires |keep| == a.Length1
    modifies a
    ensures forall c :: 0 <= c < a.Length1 ==> Col(a, c) == Scaled(old(Col(a, c)), Indicator(keep[c]))
  {
    ghost var before := Cols(a);
    forall t, c | 0 <= t < a.Length0 && 0 <= c < a.Length1 {
      a[t, c] := Mul(a[t, c], Indicator(keep[c]));
    }
    forall c | 0 <= c < a.Length1
      ensures Col(a, c) == Scaled(before[c], Indicator(keep[c]))
    {
    }
  }

  /** `a[row][where] = vals[where]`. */
  method AssignWhere(a: array2<Float>, row: int, where: seq<bool>, vals: seq<Float>)
    requires 0 <= row < a.Length0 && |where| == |vals| == a.Length1
    modifies a
    ensures forall c :: 0 <= c < a.Length1 ==>
      Col(a, c) == if where[c] then old(Col(a, c))[row := vals[c]] else old(Col(a, c))
  {
    ghost var before := Cols(a);
    forall c | 0 <= c < a.Length1 && where[c] {
      a[row, c] := vals[c];
    }
    forall c | 0 <= c < a.Length1
      ensures Col(a, c) == if where[c] then before[c][row := vals[c]] else before[c]
    {
    }
  }

  /** `a[row] = vals`. */
  method AssignRow(a: array2<Float>, row: int, vals: seq<Float>)
    requires 0 <= row < a.Length0 && |vals| == a.Length1
    modifies a
    ensures forall c :: 0 <= c < a.Length1 ==> Col(a, c) == old(Col(a, c))[row := vals[c]]
  {
    ghost var before := Cols(a);
    forall c | 0 <= c < a.Length1 {
      a[row, c] := vals[c];
    }
    forall c | 0 <= c < a.Length1
      ensures Col(a, c) == before[c][row := vals[c]]
    {
    }
  }

  function Not(b: seq<bool>): seq<bool>
  {
    seq(|b|, c requires 0 <= c < |b| => !b[c])
  }

  function Constant(n: nat, x: Float): seq<Float>
  {
    seq(n, c => x)
  }

  /**
   * Lines 53-62: the ice mask is read through the view of the last row,
   * every fraction and height of an ice cell is zeroed, and the last row
   * becomes the mask.
   */
  method MaskIce(frac: array2<Float>, hgt: array2<Float>, iceOrig: View) returns (ice: seq<bool>)
    requires frac != hgt && frac.Length0 >= 2 && hgt.Length0 == frac.Length0 && hgt.Length1 == frac.Length1
    requires iceOrig == View(frac, frac.Length0 - 1)
    modifies frac, hgt
    ensures |ice| == frac.Length1
    ensures forall c :: 0 <= c < frac.Length1 ==> ice[c] == IsIce(old(Col(frac, c)))
    ensures forall c :: 0 <= c < frac.Length1 ==> Col(frac, c) == IceMasked(old(Col(frac, c)))
    ensures forall c :: 0 <= c < frac.Length1 ==> Col(hgt, c) == Scaled(old(Col(hgt, c)), Indicator(!ice[c]))
  {
    var n, cells := frac.Length0, frac.Length1;
    ice := seq(cells, c requires 0 <= c < cells reads frac => Gt(iceOrig.At(c), 0.5));
    forall c | 0 <= c < cells
      ensures ice[c] == IsIce(Col(frac, c))
    {
      assert Col(frac, c)[n - 1] == frac[n - 1, c];
    }
    var notIce := Not(ice);
    ScaleColumns(frac, notIce);
    ScaleColumns(hgt, notIce);
    label Scaled:
    SetIceRow(frac, ice);
    forall c | 0 <= c < cells
      ensures Col(frac, c) == IceMasked(old(Col(frac, c)))
    {
      var f0, fa := old(Col(frac, c)), old@Scaled(Col(frac, c));
      assert fa == Scaled(f0, Indicator(!ice[c]));
      assert Col(frac, c) == fa[n - 1 := Indicator(ice[c])];
    }
  }

  /** `frac[-1][ice] = 1` and then `frac[-1][~ice] = 0`: the last row becomes the mask. */
  method SetIceRow(frac: array2<Float>, ice: seq<bool>)
    requires frac.Length0 >= 1 && |ice| == frac.Length1
    modifies frac
    ensures forall c :: 0 <= c < frac.Length1 ==> Col(frac, c) == old(Col(frac, c))[frac.Length0 - 1 := Indicator(ice[c])]
  {
    var n, cells := frac.Length0, frac.Length1;
    AssignWhere(frac, n - 1, ice, Constant(cells, Fin(1.0)));
    AssignWhere(frac, n - 1, Not(ice), Constant(cells, Fin(0.0)));
  }

  /**
   * The ice rule as written (lines 50-64): `ice_orig` and `soil_orig` are
   * views of the last two rows, so bare soil is set from rows that the
   * masking has already overwritten.
   */
  method IceRule(frac: array2<Float>, hgt: array2<Float>) returns (ice: seq<bool>)
    requires frac != hgt && frac.Length0 >= 2 && hgt.Length0 == frac.Length0 && hgt.Length1 == frac.Length1
    modifies frac, hgt
    ensures |ice| == frac.Length1
    ensures forall c :: 0 <= c < frac.Length1 ==> ice[c] == IsIce(old(Col(frac, c)))
    ensures forall c :: 0 <= c < frac.Length1 ==> Col(frac, c) == IceRuleAsWritten(old(Col(frac, c)))
    ensures forall c :: 0 <= c < frac.Length1 ==> Col(hgt, c) == Scaled(old(Col(hgt, c)), Indicator(!ice[c]))
  {
    var n, cells := frac.Length0, frac.Length1;
    var iceOrig := View(frac, n - 1);
    var soilOrig := View(frac, n - 2);
    ice := MaskIce(frac, hgt, iceOrig);
    label Masked:
    var bare := seq(cells, c requires 0 <= c < cells reads frac =>
      Mul(Add(soilOrig.At(c), iceOrig.At(c)), Indicator(!ice[c])));
    forall c | 0 <= c < cells
      ensures bare[c] == Mul(Add(Col(frac, c)[n - 2], Col(frac, c)[n - 1]), Indicator(!ice[c]))
    {
      assert soilOrig.At(c) == Col(frac, c)[n - 2] && iceOrig.At(c) == Col(frac, c)[n - 1];
    }
    AssignRow(frac, n - 2, bare);
    forall c | 0 <= c < cells
      ensures Col(frac, c) == IceRuleAsWritten(old(Col(frac, c)))
    {
      AsWrittenFromMasked(old(Col(frac, c)), old@Masked(Col(frac, c)), bare[c]);
    }
  }

  /** The as-written rule is the masked column with bare soil set from the masked soil and ice slots. */
  lemma AsWrittenFromMasked(f: seq<Float>, g: seq<Float>, b: Float)
    requires |f| >= 2 && g == IceMasked(f)
    requires b == Mul(Add(g[|f| - 2], g[|f| - 1]), Indicator(!IsIce(f)))
    ensures IceRuleAsWritten(f) == g[|f| - 2 := b]
  {
  }

  /**
   * The ice rule as the comment at line 63 describes it: `ice_orig` and
   * `soil_orig` taken as copies before the masking, so bare soil receives
   * the original soil and ice fractions.
   */
  method IceRuleCopied(frac: array2<Float>, hgt: array2<Float>) returns (ice: seq<bool>)
    requires frac != hgt && frac.Length0 >= 2 && hgt.Length0 == frac.Length0 && hgt.Length1 == frac.Length1
    modifies frac, hgt
    ensures |ice| == frac.Length1
    ensures forall c :: 0 <= c < frac.Length1 ==> ice[c] == IsIce(old(Col(frac, c)))
    ensures forall c :: 0 <= c < frac.Length1 ==> Col(frac, c) == IceRuleIntended(old(Col(frac, c)))
    ensures forall c :: 0 <= c < frac.Length1 ==> Col(hgt, c) == Scaled(old(Col(hgt, c)), Indicator(!ice[c]))
  {
    var n, cells := frac.Length0, frac.Length1;
    var iceOrig := seq(cells, c requires 0 <= c < cells reads frac => frac[n - 1, c]);
    var soilOrig := seq(cells, c requires 0 <= c < cells reads frac => frac[n - 2, c]);
    ghost var f0 := Cols(frac);
    ice := MaskIce(frac, hgt, View(frac, n - 1));
    ghost var f1 := Cols(frac);
    var bare := seq(cells, c requires 0 <= c < cells => Mul(Add(soilOrig[c], iceOrig[c]), Indicator(!ice[c])));
    AssignRow(frac, n - 2, bare);
    forall c | 0 <= c < cells
      ensures Col(frac, c) == IceRuleIntended(f0[c])
    {
      assert f1[c] == IceMasked(f0[c]) && ice[c] == IsIce(f0[c]);
      assert bare[c] == Mul(Add(f0[c][n - 2], f0[c][n - 1]), Indicator(!ice[c]));
      assert Col(frac, c) == f1[c][n - 2 := bare[c]];
    }
  }

  /** `np.stack` of an empty list. */
  const NoArrays := "need at least one array to stack"

  /** `frac[-2]` on a single surface type. */
  const NoSoilRow := "index -2 is out of bounds for axis 0 with size 1"

  /** Where the output is masked: `np.logical_not(LAND_FRAC)`, true exactly where the land fraction is 0. */
  predicate IsLandMask(mask: seq<bool>, land: seq<real>)
  {
    |mask| == |land| && forall c :: 0 <= c < |land| ==> (mask[c] <==> land[c] == 0.0)
  }

  /**
   * `get_jules_frac` on the stacked fraction and height grids, which it
   * updates in place: fewer than two surface types raise, and otherwise
   * every cell ends with the fractions `FracCell` and the heights `HgtCell`
   * of its original column, and the result is the land mask both grids
   * are returned under.
   */
  method GetJulesFrac(frac: array2<Float>, hgt: array2<Float>, land: seq<real>) returns (r: Result<seq<bool>>)
    requires frac != hgt && hgt.Length0 == frac.Length0 && hgt.Length1 == frac.Length1 && |land| == frac.Length1
    modifies frac, hgt
    ensures frac.Length0 == 0 ==> r == Err(ValueError(NoArrays))
    ensures frac.Length0 == 1 ==> r == Err(IndexError(NoSoilRow))
    ensures frac.Length0 < 2 ==> unchanged(frac) && unchanged(hgt)
    ensures frac.Length0 >= 2 ==> r.Ok? && IsLandMask(r.value, land)
    ensures frac.Length0 >= 2 ==> forall c :: 0 <= c < frac.Length1 ==>
      Col(frac, c) == FracCell(old(Col(frac, c))) && Col(hgt, c) == HgtCell(old(Col(frac, c)), old(Col(hgt, c)))
  {
    if frac.Length0 == 0 {
      return Err(ValueError(NoArrays));
    }
    if frac.Length0 == 1 {
      return Err(IndexError(NoSoilRow));
    }
    var n, cells := frac.Length0, frac.Length1;
    NormaliseColumns(frac);
    label Normalised:
    var mean := seq(cells, c requires 0 <= c < cells reads frac, hgt => WeightedMean(Col(hgt, c), Col(frac, c)));
    var soilIce := seq(cells, c requires 0 <= c < cells reads frac, hgt => SoilIceMean(Col(hgt, c), Col(frac, c)));
    var ice := IceRule(frac, hgt);
    label Ruled:
    SetHeights(hgt, ice, mean, soilIce);
    NormaliseColumns(frac);
    r := Ok(seq(cells, c requires 0 <= c < cells => land[c] == 0.0));
    forall c | 0 <= c < cells
      ensures Col(frac, c) == FracCell(old(Col(frac, c))) && Col(hgt, c) == HgtCell(old(Col(frac, c)), old(Col(hgt, c)))
    {
      var f0, h0 := old(Col(frac, c)), old(Col(hgt, c));
      var f1 := old@Normalised(Col(frac, c));
      assert f1 == Normalised(f0);
      assert old@Normalised(Col(hgt, c)) == h0;
      assert mean[c] == WeightedMean(h0, f1) && soilIce[c] == SoilIceMean(h0, f1);
      var f2, h2 := old@Ruled(Col(frac, c)), old@Ruled(Col(hgt, c));
      assert f2 == IceRuleAsWritten(f1) && ice[c] == IsIce(f1) && h2 == Scaled(h0, Indicator(!ice[c]));
      assert Col(hgt, c) == if ice[c] then h2[n - 1 := mean[c]] else h2[n - 2 := soilIce[c]];
      assert Col(frac, c) == Normalised(f2);
      HgtSteps(f0, h0, h2, mean[c], soilIce[c], ice[c], Col(hgt, c));
    }
  }

  /** `hgt[-1][ice] = mean[ice]` and then `hgt[-2][~ice] = soil_ice[~ice]`. */
  method SetHeights(hgt: array2<Float>, ice: seq<bool>, mean: seq<Float>, soilIce: seq<Float>)
    requires hgt.Length0 >= 2 && |ice| == |mean| == |soilIce| == hgt.Length1
    modifies hgt
    ensures forall c :: 0 <= c < hgt.Length1 ==>
      Col(hgt, c) == if ice[c] then old(Col(hgt, c))[hgt.Length0 - 1 := mean[c]]
                     else old(Col(hgt, c))[hgt.Length0 - 2 := soilIce[c]]
  {
    AssignWhere(hgt, hgt.Length0 - 1, ice, mean);
    AssignWhere(hgt, hgt.Length0 - 2, Not(ice), soilIce);
  }

  /** The height updates of one column, in the order the code makes them, give `HgtCell`. */
  lemma HgtSteps(x: seq<Float>, h: seq<Float>, g: seq<Float>, m: Float, s: Float, ice: bool, final: seq<Float>)
    requires |h| == |x| >= 2 && ice == IsIce(Normalised(x)) && g == Scaled(h, Indicator(!ice))
    requires m == WeightedMean(h, Normalised(x)) && s == SoilIceMean(h, Normalised(x))
    requires final == if ice then g[|x| - 1 := m] else g[|x| - 2 := s]
    ensures final == HgtCell(x, h)
  {
  }

  /** `get_jules_frac` with the ice rule copying its views: the fractions are `IntendedFracCell`. */
  method GetJulesFracCorrected(frac: array2<Float>, hgt: array2<Float>, land: seq<real>) returns (r: Result<seq<bool>>)
    requires frac != hgt && hgt.Length0 == frac.Length0 && hgt.Length1 == frac.Length1 && |land| == frac.Length1
    modifies frac, hgt
    ensures frac.Length0 == 0 ==> r == Err(ValueError(NoArrays))
    ensures frac.Length0 == 1 ==> r == Err(IndexError(NoSoilRow))
    ensures frac.Length0 < 2 ==> unchanged(frac) && unchanged(hgt)
    ensures frac.Length0 >= 2 ==> r.Ok? && IsLandMask(r.value, land)
    ensures frac.Length0 >= 2 ==> forall c :: 0 <= c < frac.Length1 ==>
      Col(frac, c) == IntendedFracCell(old(Col(frac, c))) && Col(hgt, c) == HgtCell(old(Col(frac, c)), old(Col(hgt, c)))
  {
    if frac.Length0 == 0 {
      return Err(ValueError(NoArrays));
    }
    if frac.Length0 == 1 {
      return Err(IndexError(NoSoilRow));
    }
    var n, cells := frac.Length0, frac.Length1;
    NormaliseColumns(frac);
    label Normalised:
    var mean := seq(cells, c requires 0 <= c < cells reads frac, hgt => WeightedMean(Col(hgt, c), Col(frac, c)));
    var soilIce := seq(cells, c requires 0 <= c < cells reads frac, hgt => SoilIceMean(Col(hgt, c), Col(frac, c)));
    var ice := IceRuleCopied(frac, hgt);
    label Ruled:
    SetHeights(hgt, ice, mean, soilIce);
    NormaliseColumns(frac);
    r := Ok(seq(cells, c requires 0 <= c < cells => land[c] == 0.0));
    forall c | 0 <= c < cells
      ensures Col(frac, c) == IntendedFracCell(old(Col(frac, c))) && Col(hgt, c) == HgtCell(old(Col(frac, c)), old(Col(hgt, c)))
    {
      var f0, h0 := old(Col(frac, c)), old(Col(hgt, c));
      var f1 := old@Normalised(Col(frac, c));
      assert f1 == Normalised(f0);
      assert old@Normalised(Col(hgt, c)) == h0;
      assert mean[c] == WeightedMean(h0, f1) && soilIce[c] == SoilIceMean(h0, f1);
      var f2, h2 := old@Ruled(Col(frac, c)), old@Ruled(Col(hgt, c));
      assert f2 == IceRuleIntended(f1) && ice[c] == IsIce(f1) && h2 == Scaled(h0, Indicator(!ice[c]));
      assert Col(hgt, c) == if ice[c] then h2[n - 1 := mean[c]] else h2[n - 2 := soilIce[c]];
      assert Col(frac, c) == Normalised(f2);
      HgtSteps(f0, h0, h2, mean[c], soilIce[c], ice[c], Col(hgt, c));
    }
  }
}
