// The pedotransfer functions behind the soil hydraulic parameters, on
// single real values: Cosby et al. (1984) regressions with the
// Brooks-Corey retention curve, the van Genuchten (1980) retention curve
// with the Tomasella-Hodnett regressions or the Zhang-Schaap per-class
// parameters, and the USDA texture-triangle classes those parameters are
// looked up by. The map-algebra expressions that apply them cell by cell
// are in SoilProps; this module says what they compute.
module Pedotransfer {
  import opened RealMath
  import Constants

  // ---- Cosby et al. (1984) and Brooks-Corey ----

  /** Brooks-Corey b from clay and sand percentages. */
  function CosbyB(clay: real, sand: real): real
  {
    3.10 + 0.157 * clay - 0.003 * sand
  }

  /** The exponent of 10 in the Cosby air-entry suction. */
  function CosbyPsiExponent(clay: real, sand: real): real
  {
    2.17 - 0.0063 * clay - 0.0158 * sand
  }

  /** Air-entry suction psi_m in metres: 0.01 * 10^(2.17 - 0.0063 clay - 0.0158 sand). */
  function CosbyPsi(m: Math, clay: real, sand: real): real
  {
    0.01 * m.pow10(CosbyPsiExponent(clay, sand))
  }

  /** Saturated hydraulic conductivity: 25.4/3600 * 10^(-0.60 - 0.0064 clay + 0.0126 sand). */
  function CosbyKsat(m: Math, clay: real, sand: real): real
  {
    (25.4 / (60.0 * 60.0)) * m.pow10(-0.60 - 0.0064 * clay + 0.0126 * sand)
  }

  /** Saturated water content: 0.01 * (50.5 - 0.037 clay - 0.142 sand). */
  function CosbyThetaSat(clay: real, sand: real): real
  {
    0.01 * (50.5 - 0.037 * clay - 0.142 * sand)
  }

  /** The Cosby residual water content, zero everywhere. */
  const CosbyThetaRes: real := 0.0

  /** Brooks-Corey water content at a suction: theta_sat * (psi_m / suction)^(1/b). */
  function BrooksCorey(m: Math, thetaSat: real, psi: real, b: real, suction: real): real
    requires suction != 0.0 && b != 0.0
  {
    thetaSat * m.pow(psi / suction, 1.0 / b)
  }

  /**
   * A texture with non-negative clay and sand percentages that add to at
   * most 100. The Cosby coefficients are fitted to percentages; the
   * SoilGrids maps the Cosby steps read are stored in g/kg (ten times the
   * percentage), so the ranges below bound the formulas on percentage
   * textures and not the values the steps compute from those maps.
   */
  predicate Texture(clay: real, sand: real)
  {
    0.0 <= clay && 0.0 <= sand && clay + sand <= 100.0
  }

  /** Over the texture triangle in percent, b lies between 2.8 (pure sand) and 18.8 (pure clay). */
  lemma CosbyBRange(clay: real, sand: real)
    requires Texture(clay, sand)
    ensures 2.8 <= CosbyB(clay, sand) <= 18.8
  {
  }

  /** Over the texture triangle in percent, theta_sat lies between 0.363 (pure sand) and 0.505 (no clay or sand). */
  lemma CosbyThetaSatRange(clay: real, sand: real)
    requires Texture(clay, sand)
    ensures 0.363 <= CosbyThetaSat(clay, sand) <= 0.505
  {
  }

  /**
   * For non-negative clay and sand the air-entry suction is positive and
   * below 0.01 * 10^2.5 < 3.17 m, so below the critical-point suction.
   */
  lemma CosbyPsiBelowCritical(m: Math, clay: real, sand: real)
    requires Lawful(m)
    requires 0.0 <= clay && 0.0 <= sand
    ensures 0.0 < CosbyPsi(m, clay, sand) < 3.17
    ensures CosbyPsi(m, clay, sand) < Constants.CriticalPointSuction
  {
    Pow10TwoAndAHalf(m);
    assert m.pow10(CosbyPsiExponent(clay, sand)) < m.pow10(2.5);
  }

  /** The Cosby conductivity is positive. */
  lemma CosbyKsatPositive(m: Math, clay: real, sand: real)
    requires Lawful(m)
    ensures CosbyKsat(m, clay, sand) > 0.0
  {
    assert m.pow10(-0.60 - 0.0064 * clay + 0.0126 * sand) > 0.0;
  }

  /**
   * A higher suction leaves less water: with psi_m > 0, b > 0 and
   * theta_sat >= 0, the wilting-point content (152.9 m) is at most the
   * critical-point content (3.364 m).
   */
  lemma BrooksCoreyOrdered(m: Math, thetaSat: real, psi: real, b: real)
    requires Lawful(m)
    requires psi > 0.0 && b > 0.0 && thetaSat >= 0.0
    ensures BrooksCorey(m, thetaSat, psi, b, Constants.WiltingPointSuction) <=
            BrooksCorey(m, thetaSat, psi, b, Constants.CriticalPointSuction)
  {
    var wilt, crit := psi / Constants.WiltingPointSuction, psi / Constants.CriticalPointSuction;
    assert 0.0 < wilt < crit;
    assert m.pow(wilt, 1.0 / b) < m.pow(crit, 1.0 / b);
    MulMonotone(thetaSat, m.pow(wilt, 1.0 / b), m.pow(crit, 1.0 / b));
  }

  /**
   * Below the air-entry suction's own level the curve stays within
   * [0, theta_sat]: for 0 < psi_m < suction the content is a fraction of
   * theta_sat.
   */
  lemma BrooksCoreyWithinSaturation(m: Math, thetaSat: real, psi: real, b: real, suction: real)
    requires Lawful(m)
    requires 0.0 < psi < suction && b > 0.0 && thetaSat >= 0.0
    ensures 0.0 <= BrooksCorey(m, thetaSat, psi, b, suction) <= thetaSat
  {
    var x, e := psi / suction, 1.0 / b;
    FractionBelowOne(psi, suction);
    assert 0.0 < x < 1.0 && e > 0.0;
    var y := m.pow(x, e);
    assert 0.0 < y by {
      assert x > 0.0;
    }
    assert y < 1.0 by {
      assert m.pow(1.0, e) == 1.0;
    }
    MulMonotone(thetaSat, y, 1.0);
    MulMonotone(thetaSat, 0.0, y);
  }

  /**
   * The Cosby hydraulic parameters of any texture are ordered as a
   * retention curve must be: theta_res = 0 <= theta_wilt <= theta_crit
   * <= theta_sat, with theta_sat in [0.363, 0.505] and b in [2.8, 18.8].
   */
  lemma CosbyRetentionOrdered(m: Math, clay: real, sand: real)
    requires Lawful(m) && Texture(clay, sand)
    ensures var thetaSat, psi, b := CosbyThetaSat(clay, sand), CosbyPsi(m, clay, sand), CosbyB(clay, sand);
      var crit := BrooksCorey(m, thetaSat, psi, b, Constants.CriticalPointSuction);
      var wilt := BrooksCorey(m, thetaSat, psi, b, Constants.WiltingPointSuction);
      CosbyThetaRes <= wilt <= crit <= thetaSat
  {
    var thetaSat, psi, b := CosbyThetaSat(clay, sand), CosbyPsi(m, clay, sand), CosbyB(clay, sand);
    CosbyBRange(clay, sand);
    CosbyThetaSatRange(clay, sand);
    CosbyPsiBelowCritical(m, clay, sand);
    BrooksCoreyOrdered(m, thetaSat, psi, b);
    BrooksCoreyWithinSaturation(m, thetaSat, psi, b, Constants.CriticalPointSuction);
    BrooksCoreyWithinSaturation(m, thetaSat, psi, b, Constants.WiltingPointSuction);
  }

  lemma FractionBelowOne(p: real, q: real)
    requires 0.0 < p < q
    ensures 0.0 < p / q < 1.0
  {
    var r := p / q;
    assert r * q == p;
    if r <= 0.0 {
      assert false;
    } else if r >= 1.0 {
      assert false;
    }
  }

  lemma MulMonotone(c: real, x: real, y: real)
    requires c >= 0.0 && x <= y
    ensures c * x <= c * y
  {
  }

  // ---- van Genuchten (1980) ----

  /** Air-entry suction from alpha: psi = 1 / alpha. */
  function VgPsi(alpha: real): real
    requires alpha != 0.0
  {
    1.0 / alpha
  }

  /** The Brooks-Corey b equivalent of n: b = 1 / (n - 1). */
  function VgB(n: real): real
    requires n != 1.0
  {
    1.0 / (n - 1.0)
  }

  /** Effective saturation at a suction: (1 + (alpha * suction)^n)^(1/n - 1). */
  function Se(m: Math, alpha: real, n: real, suction: real): real
    requires n != 0.0
  {
    m.pow(1.0 + m.pow(alpha * suction, n), 1.0 / n - 1.0)
  }

  /** Water content at a suction: Se * (theta_sat - theta_res) + theta_res. */
  function VgTheta(m: Math, alpha: real, n: real, thetaSat: real, thetaRes: real, suction: real): real
    requires n != 0.0
  {
    Se(m, alpha, n, suction) * (thetaSat - thetaRes) + thetaRes
  }

  /** For alpha > 0 and n > 1 the derived suction and b are positive. */
  lemma VgDerivedPositive(alpha: real, n: real)
    requires alpha > 0.0 && n > 1.0
    ensures VgPsi(alpha) > 0.0 && VgB(n) > 0.0
  {
  }

  /** For alpha > 0, n > 1 and a positive suction, the effective saturation lies strictly between 0 and 1. */
  lemma SeRange(m: Math, alpha: real, n: real, suction: real)
    requires Lawful(m)
    requires alpha > 0.0 && n > 1.0 && suction > 0.0
    ensures 0.0 < Se(m, alpha, n, suction) < 1.0
  {
    var a := m.pow(alpha * suction, n);
    assert a > 0.0;
    var e := 1.0 / n - 1.0;
    assert 1.0 / n < 1.0;
    assert m.pow(1.0 + a, e) < m.pow(1.0, e);
  }

  /** With theta_res < theta_sat the water content lies strictly between them. */
  lemma VgThetaRange(m: Math, alpha: real, n: real, thetaSat: real, thetaRes: real, suction: real)
    requires Lawful(m)
    requires alpha > 0.0 && n > 1.0 && suction > 0.0 && thetaRes < thetaSat
    ensures thetaRes < VgTheta(m, alpha, n, thetaSat, thetaRes, suction) < thetaSat
  {
    var s := Se(m, alpha, n, suction);
    SeRange(m, alpha, n, suction);
    Between(s, thetaSat, thetaRes);
  }

  /** A convex combination: for 0 < s < 1, s * (hi - lo) + lo lies strictly between lo and hi. */
  lemma Between(s: real, hi: real, lo: real)
    requires 0.0 < s < 1.0 && lo < hi
    ensures lo < s * (hi - lo) + lo < hi
  {
    ProductPositive(1.0 - s, hi - lo);
    ProductPositive(s, hi - lo);
  }

  /** Multiplication, named so that a product of computed factors is one term. */
  function Product(a: real, b: real): real
  {
    a * b
  }

  lemma ProductPositive(a: real, b: real)
    requires a > 0.0 && b > 0.0
    ensures Product(a, b) > 0.0
  {
  }

  /** The effective saturation falls as the suction rises. */
  lemma SeDecreasing(m: Math, alpha: real, n: real, s1: real, s2: real)
    requires Lawful(m)
    requires alpha > 0.0 && n > 1.0 && 0.0 < s1 < s2
    ensures Se(m, alpha, n, s2) < Se(m, alpha, n, s1)
  {
    var x1, x2 := alpha * s1, alpha * s2;
    assert 0.0 < x1 < x2;
    var a1, a2 := m.pow(x1, n), m.pow(x2, n);
    assert 0.0 < a1 < a2;
    var e := 1.0 / n - 1.0;
    assert 1.0 / n < 1.0;
    assert m.pow(1.0 + a2, e) < m.pow(1.0 + a1, e);
  }

  /** The wilting-point content lies below the critical-point content. */
  lemma VgOrdered(m: Math, alpha: real, n: real, thetaSat: real, thetaRes: real)
    requires Lawful(m)
    requires alpha > 0.0 && n > 1.0 && thetaRes < thetaSat
    ensures VgTheta(m, alpha, n, thetaSat, thetaRes, Constants.WiltingPointSuction) <
            VgTheta(m, alpha, n, thetaSat, thetaRes, Constants.CriticalPointSuction)
  {
    var sc := Se(m, alpha, n, Constants.CriticalPointSuction);
    var sw := Se(m, alpha, n, Constants.WiltingPointSuction);
    assert sw < sc by {
      SeDecreasing(m, alpha, n, Constants.CriticalPointSuction, Constants.WiltingPointSuction);
    }
    var d := thetaSat - thetaRes;
    assert VgTheta(m, alpha, n, thetaSat, thetaRes, Constants.WiltingPointSuction) == sw * d + thetaRes;
    assert VgTheta(m, alpha, n, thetaSat, thetaRes, Constants.CriticalPointSuction) == sc * d + thetaRes;
    ScaledOrder(sw, sc, d);
  }

  lemma ScaledOrder(a: real, b: real, d: real)
    requires a < b && d > 0.0
    ensures a * d < b * d
  {
  }

  // ---- Tomasella-Hodnett ----

  /**
   * The Tomasella-Hodnett n. `soc10` is the value the expression's
   * `soil_organic_carbon / 10` takes (an integer quotient when the map
   * holds integers).
   */
  function ThN(m: Math, clay: real, sand: real, silt: real, soc10: real, ph: real): real
  {
    m.exp(ThNExponent(clay, sand, silt, soc10, ph))
  }

  /** The argument of exp in the Tomasella-Hodnett n. */
  function ThNExponent(clay: real, sand: real, silt: real, soc10: real, ph: real): real
  {
    (62.986 - 0.833 * clay - 0.529 * soc10 + 0.593 * ph / 10.0 + 0.007 * clay * clay - 0.014 * sand * silt) / 100.0
  }

  /** The Tomasella-Hodnett alpha: 9.80665 * exp((...) / 100). */
  function ThAlpha(m: Math, silt: real, soc10: real, cec: real, ph: real): real
  {
    9.80665 * m.exp(ThAlphaExponent(silt, soc10, cec, ph))
  }

  /** The argument of exp in the Tomasella-Hodnett alpha. */
  function ThAlphaExponent(silt: real, soc10: real, cec: real, ph: real): real
  {
    (-2.294 - 3.526 * silt + 2.440 * soc10 - 0.076 * cec - 11.331 * ph / 10.0 + 0.019 * silt * silt) / 100.0
  }

  /** The Tomasella-Hodnett saturated water content. */
  function ThThetaSat(clay: real, sand: real, bulkDensity: real, cec: real, ph: real): real
  {
    0.01 * (81.799 + 0.099 * clay - 31.42 * bulkDensity * 0.001 + 0.018 * cec + 0.451 * ph / 10.0
            - 0.0005 * sand * clay)
  }

  /** The Tomasella-Hodnett residual water content. */
  function ThThetaRes(clay: real, sand: real, cec: real, ph: real): real
  {
    0.01 * (22.733 - 0.164 * sand + 0.235 * cec - 0.831 * ph / 10.0 + 0.0018 * clay * clay
            + 0.0026 * sand * clay)
  }

  /** Both exponential regressions are positive, so psi = 1/alpha is defined. */
  lemma ThPositive(m: Math, clay: real, sand: real, silt: real, soc10: real, ph: real, cec: real)
    requires Lawful(m)
    ensures ThN(m, clay, sand, silt, soc10, ph) > 0.0
    ensures ThAlpha(m, silt, soc10, cec, ph) > 0.0
  {
    var x := (-2.294 - 3.526 * silt + 2.440 * soc10 - 0.076 * cec - 11.331 * ph / 10.0 + 0.019 * silt * silt) / 100.0;
    assert m.exp(x) > 0.0;
  }

  /**
   * The regression for n can fall below 1, where b = 1/(n - 1) is negative
   * and the van Genuchten bounds above do not apply: 10% clay, 45% sand,
   * 45% silt, soc/10 = 60 and pH 7 give an exponent below zero.
   */
  lemma ThNBelowOne(m: Math)
    requires Lawful(m)
    ensures ThN(m, 10.0, 45.0, 45.0, 60.0, 70.0) < 1.0
  {
    ExpBelowOne(m, (62.986 - 0.833 * 10.0 - 0.529 * 60.0 + 0.593 * 70.0 / 10.0
                    + 0.007 * 10.0 * 10.0 - 0.014 * 45.0 * 45.0) / 100.0);
  }

  /** e^x < 1 for x < 0, from e^0 = 1 and monotonicity. */
  lemma ExpBelowOne(m: Math, x: real)
    requires Lawful(m) && x < 0.0
    ensures m.exp(x) < 1.0
  {
    assert m.exp(x) < m.exp(0.0);
  }

  // ---- the USDA texture triangle ----

  /** The twelve USDA texture classes. */
  datatype TextureClass =
    | Clay | SandyClay | SiltyClay | SandyClayLoam | ClayLoam | SiltyClayLoam
    | SandyLoam | Loam | SiltLoam | Silt | LoamySand | Sand

  /** Closed percentage intervals of sand, silt and clay. */
  datatype Limits = Limits(sandMin: real, sandMax: real, siltMin: real, siltMax: real, clayMin: real, clayMax: real)

  /** The limits each class's indicator tests. */
  function ClassLimits(t: TextureClass): Limits
  {
    match t
    case Clay => Limits(0.0, 45.0, 0.0, 40.0, 40.0, 100.0)
    case SandyClay => Limits(45.0, 65.0, 0.0, 20.0, 35.0, 55.0)
    case SiltyClay => Limits(0.0, 20.0, 40.0, 60.0, 40.0, 60.0)
    case SandyClayLoam => Limits(45.0, 80.0, 0.0, 28.0, 20.0, 35.0)
    case ClayLoam => Limits(20.0, 45.0, 15.0, 53.0, 27.0, 40.0)
    case SiltyClayLoam => Limits(0.0, 20.0, 40.0, 73.0, 27.0, 40.0)
    case SandyLoam => Limits(43.0, 85.0, 0.0, 50.0, 0.0, 20.0)
    case Loam => Limits(23.0, 52.0, 28.0, 50.0, 7.0, 27.0)
    case SiltLoam => Limits(0.0, 50.0, 50.0, 88.0, 0.0, 27.0)
    case Silt => Limits(0.0, 20.0, 80.0, 100.0, 0.0, 12.0)
    case LoamySand => Limits(70.0, 90.0, 0.0, 30.0, 0.0, 15.0)
    case Sand => Limits(85.0, 100.0, 0.0, 15.0, 0.0, 10.0)
  }

  /** The name a class's indicator map carries (`usda_<name>_<horizon>_<region>`). */
  function ClassName(t: TextureClass): string
  {
    match t
    case Clay => "clay"
    case SandyClay => "sandy_clay"
    case SiltyClay => "silty_clay"
    case SandyClayLoam => "sandy_clay_loam"
    case ClayLoam => "clay_loam"
    case SiltyClayLoam => "silty_clay_loam"
    case SandyLoam => "sandy_loam"
    case Loam => "loam"
    case SiltLoam => "silt_loam"
    case Silt => "silt"
    case LoamySand => "loamy_sand"
    case Sand => "sand"
  }

  /** Whether a texture lies within all three of a class's intervals. */
  predicate InClass(t: TextureClass, sand: real, silt: real, clay: real)
  {
    var l := ClassLimits(t);
    l.sandMin <= sand <= l.sandMax && l.siltMin <= silt <= l.siltMax && l.clayMin <= clay <= l.clayMax
  }

  /** The order the indicator maps are computed in. */
  const ComputeOrder: seq<TextureClass> :=
    [Clay, SandyClay, SiltyClay, SandyClayLoam, ClayLoam, SiltyClayLoam, SandyLoam, Loam, SiltLoam, Silt, LoamySand, Sand]

  /** The order the Zhang-Schaap equation multiplies the indicators by the factor lists. */
  const FactorOrder: seq<TextureClass> :=
    [Clay, SiltyClay, SandyClay, ClayLoam, SiltyClayLoam, SandyClayLoam, Loam, SiltLoam, SandyLoam, Silt, LoamySand, Sand]

  /** The equation pairs each factor with the class the factor table lists at that position. */
  lemma FactorOrderMatchesTable()
    ensures |FactorOrder| == |Constants.TextureClasses|
    ensures forall j :: 0 <= j < |FactorOrder| ==> ClassName(FactorOrder[j]) == Constants.TextureClasses[j]
  {
  }

  /** Where each class sits in the factor order. */
  function FactorIndex(t: TextureClass): (j: nat)
    ensures j < |FactorOrder| && FactorOrder[j] == t
  {
    match t
    case Clay => 0
    case SiltyClay => 1
    case SandyClay => 2
    case ClayLoam => 3
    case SiltyClayLoam => 4
    case SandyClayLoam => 5
    case Loam => 6
    case SiltLoam => 7
    case SandyLoam => 8
    case Silt => 9
    case LoamySand => 10
    case Sand => 11
  }

  /**
   * The equation uses every computed indicator exactly once: both orders
   * list each of the twelve classes, and neither lists one twice.
   */
  lemma FactorOrderPermutesComputeOrder()
    ensures forall t: TextureClass :: t in FactorOrder && t in ComputeOrder
    ensures |FactorOrder| == |ComputeOrder|
    ensures forall i, j :: 0 <= i < j < |FactorOrder| ==> FactorOrder[i] != FactorOrder[j]
    ensures forall i, j :: 0 <= i < j < |ComputeOrder| ==> ComputeOrder[i] != ComputeOrder[j]
  {
    forall t: TextureClass
      ensures t in FactorOrder && t in ComputeOrder
    {
      assert FactorOrder[FactorIndex(t)] == t;
      assert t in ComputeOrder;
    }
    forall i, j | 0 <= i < j < |FactorOrder|
      ensures FactorOrder[i] != FactorOrder[j]
    {
      assert FactorIndex(FactorOrder[i]) == i;
      assert FactorIndex(FactorOrder[j]) == j;
    }
  }

  /**
   * The classes are tested independently rather than as an if-elif
   * chain, so they overlap: 75% sand, 15% silt and 10% clay is both a
   * sandy loam and a loamy sand.
   */
  lemma ClassesOverlap()
    ensures InClass(SandyLoam, 75.0, 15.0, 10.0) && InClass(LoamySand, 75.0, 15.0, 10.0)
    ensures !InClass(Sand, 75.0, 15.0, 10.0)
  {
  }

  // ---- the Zhang-Schaap lookup ----

  /** sum_j indicators[j] * factors[j]. */
  function WeightedSum(indicators: seq<real>, factors: seq<real>): real
    requires |indicators| == |factors|
  {
    if |indicators| == 0 then 0.0
    else WeightedSum(indicators[..|indicators| - 1], factors[..|factors| - 1]) +
         indicators[|indicators| - 1] * factors[|factors| - 1]
  }

  /** The indicator values of a texture, in the factor order. */
  function Indicators(sand: real, silt: real, clay: real): (r: seq<real>)
    ensures |r| == |FactorOrder|
    ensures forall j :: 0 <= j < |r| ==> r[j] == (if InClass(FactorOrder[j], sand, silt, clay) then 1.0 else 0.0)
  {
    seq(|FactorOrder|, j requires 0 <= j < |FactorOrder| => if InClass(FactorOrder[j], sand, silt, clay) then 1.0 else 0.0)
  }

  /** With no indicator set the weighted sum is 0. */
  lemma {:induction false} WeightedSumNone(indicators: seq<real>, factors: seq<real>)
    requires |indicators| == |factors|
    requires forall j :: 0 <= j < |indicators| ==> indicators[j] == 0.0
    ensures WeightedSum(indicators, factors) == 0.0
  {
    if |indicators| > 0 {
      WeightedSumNone(indicators[..|indicators| - 1], factors[..|factors| - 1]);
    }
  }

  /** With exactly the k-th indicator set to 1 the weighted sum is the k-th factor. */
  lemma {:induction false} WeightedSumOne(indicators: seq<real>, factors: seq<real>, k: nat)
    requires |indicators| == |factors| && k < |indicators|
    requires indicators[k] == 1.0
    requires forall j :: 0 <= j < |indicators| && j != k ==> indicators[j] == 0.0
    ensures WeightedSum(indicators, factors) == factors[k]
  {
    var n := |indicators|;
    if k == n - 1 {
      WeightedSumNone(indicators[..n - 1], factors[..n - 1]);
    } else {
      WeightedSumOne(indicators[..n - 1], factors[..n - 1], k);
    }
  }

  /** Two indicators set to 1 and the rest 0: the weighted sum adds the two factors. */
  lemma {:induction false} WeightedSumTwo(indicators: seq<real>, factors: seq<real>, k1: nat, k2: nat)
    requires |indicators| == |factors| && k1 < k2 < |indicators|
    requires indicators[k1] == 1.0 && indicators[k2] == 1.0
    requires forall j :: 0 <= j < |indicators| && j != k1 && j != k2 ==> indicators[j] == 0.0
    ensures WeightedSum(indicators, factors) == factors[k1] + factors[k2]
  {
    var n := |indicators|;
    if k2 == n - 1 {
      WeightedSumOne(indicators[..n - 1], factors[..n - 1], k1);
    } else {
      WeightedSumTwo(indicators[..n - 1], factors[..n - 1], k1, k2);
    }
  }

  /** A Zhang-Schaap parameter at a texture: its factors summed over every class the texture falls in. */
  function ZhangSchaap(factors: seq<real>, sand: real, silt: real, clay: real): real
    requires |factors| == |FactorOrder|
  {
    WeightedSum(Indicators(sand, silt, clay), factors)
  }

  /** A texture in exactly one class takes that class's factor. */
  lemma ZhangSchaapOneClass(factors: seq<real>, sand: real, silt: real, clay: real, k: nat)
    requires |factors| == |FactorOrder| && k < |FactorOrder|
    requires InClass(FactorOrder[k], sand, silt, clay)
    requires forall j :: 0 <= j < |FactorOrder| && j != k ==> !InClass(FactorOrder[j], sand, silt, clay)
    ensures ZhangSchaap(factors, sand, silt, clay) == factors[k]
  {
    WeightedSumOne(Indicators(sand, silt, clay), factors, k);
  }

  /** A texture in no class takes 0, whatever the factors. */
  lemma ZhangSchaapNoClass(factors: seq<real>, sand: real, silt: real, clay: real)
    requires |factors| == |FactorOrder|
    requires forall j :: 0 <= j < |FactorOrder| ==> !InClass(FactorOrder[j], sand, silt, clay)
    ensures ZhangSchaap(factors, sand, silt, clay) == 0.0
  {
    WeightedSumNone(Indicators(sand, silt, clay), factors);
  }

  /**
   * The overlapping texture of `ClassesOverlap` takes the sum of the
   * sandy-loam and loamy-sand factors: for n that is above 3, not a
   * class's n.
   */
  lemma ZhangSchaapOverlap(factors: seq<real>)
    requires |factors| == |FactorOrder|
    ensures ZhangSchaap(factors, 75.0, 15.0, 10.0) == factors[8] + factors[10]
  {
    var ind := Indicators(75.0, 15.0, 10.0);
    forall j | 0 <= j < |ind| && j != 8 && j != 10
      ensures ind[j] == 0.0
    {
      assert !InClass(FactorOrder[j], 75.0, 15.0, 10.0);
    }
    WeightedSumTwo(ind, factors, 8, 10);
  }

  /**
   * Where a texture falls in exactly one class, the Zhang-Schaap van
   * Genuchten parameters are that class's, so the derived suction and b
   * are positive and the water contents are ordered.
   */
  lemma ZhangSchaapOneClassRetention(m: Math, sand: real, silt: real, clay: real, k: nat)
    requires Lawful(m) && k < |FactorOrder|
    requires InClass(FactorOrder[k], sand, silt, clay)
    requires forall j :: 0 <= j < |FactorOrder| && j != k ==> !InClass(FactorOrder[j], sand, silt, clay)
    ensures var f := Constants.ZhangSchaapFactors;
      var alpha, n := ZhangSchaap(f["alpha"], sand, silt, clay), ZhangSchaap(f["n"], sand, silt, clay);
      var thetaSat, thetaRes := ZhangSchaap(f["theta_sat"], sand, silt, clay), ZhangSchaap(f["theta_res"], sand, silt, clay);
      alpha > 0.0 && n > 1.0 && VgPsi(alpha) > 0.0 && VgB(n) > 0.0 &&
      thetaRes < VgTheta(m, alpha, n, thetaSat, thetaRes, Constants.WiltingPointSuction)
               < VgTheta(m, alpha, n, thetaSat, thetaRes, Constants.CriticalPointSuction) < thetaSat
  {
    var f := Constants.ZhangSchaapFactors;
    Constants.ZhangSchaapWellFormed();
    ZhangSchaapOneClass(f["alpha"], sand, silt, clay, k);
    ZhangSchaapOneClass(f["n"], sand, silt, clay, k);
    ZhangSchaapOneClass(f["theta_sat"], sand, silt, clay, k);
    ZhangSchaapOneClass(f["theta_res"], sand, silt, clay, k);
    var alpha, n, thetaSat, thetaRes := f["alpha"][k], f["n"][k], f["theta_sat"][k], f["theta_res"][k];
    VgDerivedPositive(alpha, n);
    VgOrdered(m, alpha, n, thetaSat, thetaRes);
    VgThetaRange(m, alpha, n, thetaSat, thetaRes, Constants.WiltingPointSuction);
    VgThetaRange(m, alpha, n, thetaSat, thetaRes, Constants.CriticalPointSuction);
  }
}
