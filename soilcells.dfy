// The map-algebra expressions of the soil pedotransfer functions, one cell
// at a time. Each expression is written with the r.mapcalc operators of
// MapCalc over the cells of its input maps, in the order the maps first
// appear in the expression; each is tied to the real-valued formula of
// Pedotransfer it implements, and null inputs give null outputs.
module SoilCells {
  import opened Raster
  import opened MapCalc
  import opened RealMath
  import opened Pedotransfer
  import Constants

  // ---- Cosby et al. (1984) and Brooks-Corey: inputs [clay, sand] ----

  /** `3.10 + 0.157 * clay - 0.003 * sand`. */
  function CosbyBCell(cs: seq<Cell>): (c: Cell)
    ensures c.Val? <==> At(cs, 0).Val? && At(cs, 1).Val?
    ensures c.Val? ==> c.v == CosbyB(At(cs, 0).v, At(cs, 1).v)
  {
    Sub(Add(Val(3.10), Mul(Val(0.157), At(cs, 0))), Mul(Val(0.003), At(cs, 1)))
  }

  /** `0.01 * (10 ^ (2.17 - (0.0063 * clay) - (0.0158 * sand)))`. */
  function CosbyPsiCell(m: Math, cs: seq<Cell>): (c: Cell)
    ensures c.Val? <==> At(cs, 0).Val? && At(cs, 1).Val?
    ensures c.Val? ==> c.v == CosbyPsi(m, At(cs, 0).v, At(cs, 1).v)
  {
    Mul(Val(0.01), Pow10(m, Sub(Sub(Val(2.17), Mul(Val(0.0063), At(cs, 0))), Mul(Val(0.0158), At(cs, 1)))))
  }

  /** `(25.4 / (60 * 60)) * (10 ^ (-0.60 - (0.0064 * clay) + (0.0126 * sand)))`. */
  function CosbyKsatCell(m: Math, cs: seq<Cell>): (c: Cell)
    ensures c.Val? <==> At(cs, 0).Val? && At(cs, 1).Val?
    ensures c.Val? ==> c.v == CosbyKsat(m, At(cs, 0).v, At(cs, 1).v)
  {
    Mul(Div(Val(25.4), Mul(Val(60.0), Val(60.0))),
        Pow10(m, Add(Sub(Val(-0.60), Mul(Val(0.0064), At(cs, 0))), Mul(Val(0.0126), At(cs, 1)))))
  }

  /** `0.01 * (50.5 - 0.037 * clay - 0.142 * sand)`. */
  function CosbyThetaSatCell(cs: seq<Cell>): (c: Cell)
    ensures c.Val? <==> At(cs, 0).Val? && At(cs, 1).Val?
    ensures c.Val? ==> c.v == CosbyThetaSat(At(cs, 0).v, At(cs, 1).v)
  {
    Mul(Val(0.01), Sub(Sub(Val(50.5), Mul(Val(0.037), At(cs, 0))), Mul(Val(0.142), At(cs, 1))))
  }

  /** `0`: no inputs, the Cosby residual water content in every cell. */
  function ZeroCell(cs: seq<Cell>): (c: Cell)
    ensures c == Val(CosbyThetaRes)
  {
    Val(0.0)
  }

  /**
   * `theta_sat * (psi_m / suction) ^ (1 / b)`: inputs [theta_sat, psi_m, b].
   * Defined where every input is and b is not 0 (a division by zero gives
   * null); with a non-negative suction ratio it is the Brooks-Corey value.
   */
  function BrooksCoreyCell(m: Math, suction: real, cs: seq<Cell>): (c: Cell)
    requires suction > 0.0
    ensures c.Val? ==> At(cs, 0).Val? && At(cs, 1).Val? && At(cs, 2).Val? && At(cs, 2).v != 0.0
    ensures At(cs, 0).Val? && At(cs, 1).Val? && At(cs, 2).Val? && At(cs, 2).v != 0.0 && At(cs, 1).v >= 0.0 ==>
      c == Val(BrooksCorey(m, At(cs, 0).v, At(cs, 1).v, At(cs, 2).v, suction))
  {
    Mul(At(cs, 0), Pow(m, Div(At(cs, 1), Val(suction)), Div(Val(1.0), At(cs, 2))))
  }

  /**
   * The Cosby maps of one cell with a texture in the triangle: the
   * critical and wilting water contents are defined and
   * 0 = theta_res <= theta_wilt <= theta_crit <= theta_sat.
   */
  lemma CosbyCellsOrdered(m: Math, clay: real, sand: real)
    requires Lawful(m) && Texture(clay, sand)
    ensures var cs := [Val(clay), Val(sand)];
      var ins := [CosbyThetaSatCell(cs), CosbyPsiCell(m, cs), CosbyBCell(cs)];
      var crit := BrooksCoreyCell(m, Constants.CriticalPointSuction, ins);
      var wilt := BrooksCoreyCell(m, Constants.WiltingPointSuction, ins);
      crit.Val? && wilt.Val? && ZeroCell([]).v <= wilt.v <= crit.v <= ins[0].v
  {
    var cs := [Val(clay), Val(sand)];
    CosbyBRange(clay, sand);
    CosbyPsiBelowCritical(m, clay, sand);
    CosbyRetentionOrdered(m, clay, sand);
  }

  // ---- van Genuchten ----

  /** `1 / alpha`: inputs [alpha]; null where alpha is 0. */
  function VgPsiCell(cs: seq<Cell>): (c: Cell)
    ensures c.Val? <==> At(cs, 0).Val? && At(cs, 0).v != 0.0
    ensures c.Val? ==> c.v == VgPsi(At(cs, 0).v)
  {
    Div(Val(1.0), At(cs, 0))
  }

  /** `1 / (n - 1)`: inputs [n]; null where n is 1. */
  function VgBCell(cs: seq<Cell>): (c: Cell)
    ensures c.Val? <==> At(cs, 0).Val? && At(cs, 0).v != 1.0
    ensures c.Val? ==> c.v == VgB(At(cs, 0).v)
  {
    Div(Val(1.0), Sub(At(cs, 0), Val(1.0)))
  }

  /** `A = (alpha * suction) ^ n`: inputs [alpha, n]. */
  function VgACell(m: Math, suction: real, cs: seq<Cell>): Cell
  {
    Pow(m, Mul(At(cs, 0), Val(suction)), At(cs, 1))
  }

  /** `Se = (1 + A) ^ ((1 / n) - 1)`: inputs [A, n]. */
  function VgSeCell(m: Math, cs: seq<Cell>): Cell
  {
    Pow(m, Add(Val(1.0), At(cs, 0)), Sub(Div(Val(1.0), At(cs, 1)), Val(1.0)))
  }

  /** `theta = (Se * (theta_sat - theta_res)) + theta_res`: inputs [Se, theta_sat, theta_res]. */
  function VgThetaCell(cs: seq<Cell>): Cell
  {
    Add(Mul(At(cs, 0), Sub(At(cs, 1), At(cs, 2))), At(cs, 2))
  }

  /**
   * The three expressions of the van Genuchten equation, chained through
   * the A and Se maps, compute the van Genuchten water content of the
   * cell's alpha, n, theta_sat and theta_res; with theta_res < theta_sat it
   * lies strictly between the two.
   */
  lemma VgCellsChain(m: Math, alpha: real, n: real, thetaSat: real, thetaRes: real, suction: real)
    requires Lawful(m) && alpha > 0.0 && n > 1.0 && suction > 0.0
    ensures var a := VgACell(m, suction, [Val(alpha), Val(n)]);
      var se := VgSeCell(m, [a, Val(n)]);
      VgThetaCell([se, Val(thetaSat), Val(thetaRes)]) == Val(VgTheta(m, alpha, n, thetaSat, thetaRes, suction))
    ensures thetaRes < thetaSat ==> thetaRes < VgTheta(m, alpha, n, thetaSat, thetaRes, suction) < thetaSat
  {
    var a := VgACell(m, suction, [Val(alpha), Val(n)]);
    assert alpha * suction > 0.0;
    assert a == Val(m.pow(alpha * suction, n));
    var se := VgSeCell(m, [a, Val(n)]);
    assert 1.0 + a.v > 0.0;
    assert se == Val(Se(m, alpha, n, suction));
    if thetaRes < thetaSat {
      VgThetaRange(m, alpha, n, thetaSat, thetaRes, suction);
    }
  }

  /**
   * Of the van Genuchten pair computed from the same maps, the wilting
   * point (152.9 m) holds strictly less water than the critical point
   * (3.364 m) when theta_res < theta_sat.
   */
  lemma VgCellsOrdered(m: Math, alpha: real, n: real, thetaSat: real, thetaRes: real)
    requires Lawful(m) && alpha > 0.0 && n > 1.0 && thetaRes < thetaSat
    ensures var crit := VgSeCell(m, [VgACell(m, Constants.CriticalPointSuction, [Val(alpha), Val(n)]), Val(n)]);
      var wilt := VgSeCell(m, [VgACell(m, Constants.WiltingPointSuction, [Val(alpha), Val(n)]), Val(n)]);
      VgThetaCell([wilt, Val(thetaSat), Val(thetaRes)]).v < VgThetaCell([crit, Val(thetaSat), Val(thetaRes)]).v
  {
    VgCellsChain(m, alpha, n, thetaSat, thetaRes, Constants.CriticalPointSuction);
    VgCellsChain(m, alpha, n, thetaSat, thetaRes, Constants.WiltingPointSuction);
    VgOrdered(m, alpha, n, thetaSat, thetaRes);
  }

  // ---- Tomasella-Hodnett ----

  /**
   * `exp((62.986 - (0.833 * clay) - (0.529 * (soc / 10)) + (0.593 * ph / 10)
   * + (0.007 * clay * clay) - (0.014 * sand * silt)) / 100)`:
   * inputs [clay, soc, ph, sand, silt].
   */
  function ThNCell(m: Math, sem: DivSemantics, cs: seq<Cell>): (c: Cell)
    ensures c.Val? <==> At(cs, 0).Val? && At(cs, 1).Val? && At(cs, 2).Val? && At(cs, 3).Val? && At(cs, 4).Val?
    ensures c.Val? ==> c.v == ThN(m, At(cs, 0).v, At(cs, 3).v, At(cs, 4).v, Quot(sem, At(cs, 1), 10).v, At(cs, 2).v)
  {
    var clay, soc, ph, sand, silt := At(cs, 0), At(cs, 1), At(cs, 2), At(cs, 3), At(cs, 4);
    var arg := Div(Sub(Add(Add(Sub(Sub(Val(62.986), Mul(Val(0.833), clay)), Mul(Val(0.529), Quot(sem, soc, 10))),
                               Div(Mul(Val(0.593), ph), Val(10.0))),
                           Mul(Mul(Val(0.007), clay), clay)),
                       Mul(Mul(Val(0.014), sand), silt)),
                   Val(100.0));
    assert arg.Val? ==> arg.v == ThNExponent(clay.v, sand.v, silt.v, Quot(sem, soc, 10).v, ph.v);
    Exp(m, arg)
  }

  /**
   * `9.80665 * exp((-2.294 - (3.526 * silt) + (2.440 * (soc / 10)) - (0.076 * cec)
   * - (11.331 * ph / 10) + (0.019 * silt * silt)) / 100)`: inputs [silt, soc, cec, ph].
   */
  function ThAlphaCell(m: Math, sem: DivSemantics, cs: seq<Cell>): (c: Cell)
    ensures c.Val? <==> At(cs, 0).Val? && At(cs, 1).Val? && At(cs, 2).Val? && At(cs, 3).Val?
    ensures c.Val? ==> c.v == ThAlpha(m, At(cs, 0).v, Quot(sem, At(cs, 1), 10).v, At(cs, 2).v, At(cs, 3).v)
  {
    var silt, soc, cec, ph := At(cs, 0), At(cs, 1), At(cs, 2), At(cs, 3);
    var arg := Div(Add(Sub(Sub(Add(Sub(Val(-2.294), Mul(Val(3.526), silt)), Mul(Val(2.440), Quot(sem, soc, 10))),
                               Mul(Val(0.076), cec)),
                           Div(Mul(Val(11.331), ph), Val(10.0))),
                       Mul(Mul(Val(0.019), silt), silt)),
                   Val(100.0));
    assert arg.Val? ==> arg.v == ThAlphaExponent(silt.v, Quot(sem, soc, 10).v, cec.v, ph.v);
    Mul(Val(9.80665), Exp(m, arg))
  }

  /**
   * `0.01 * (81.799 + (0.099 * clay) - (31.42 * bd * 0.001) + (0.018 * cec)
   * + (0.451 * ph / 10) - (0.0005 * sand * clay))`: inputs [clay, bd, cec, ph, sand].
   */
  function ThThetaSatCell(cs: seq<Cell>): (c: Cell)
    ensures c.Val? <==> At(cs, 0).Val? && At(cs, 1).Val? && At(cs, 2).Val? && At(cs, 3).Val? && At(cs, 4).Val?
    ensures c.Val? ==> c.v == ThThetaSat(At(cs, 0).v, At(cs, 4).v, At(cs, 1).v, At(cs, 2).v, At(cs, 3).v)
  {
    var clay, bd, cec, ph, sand := At(cs, 0), At(cs, 1), At(cs, 2), At(cs, 3), At(cs, 4);
    Mul(Val(0.01),
        Sub(Add(Add(Sub(Add(Val(81.799), Mul(Val(0.099), clay)), Mul(Mul(Val(31.42), bd), Val(0.001))),
                    Mul(Val(0.018), cec)),
                Div(Mul(Val(0.451), ph), Val(10.0))),
            Mul(Mul(Val(0.0005), sand), clay)))
  }

  /**
   * `0.01 * (22.733 - (0.164 * sand) + (0.235 * cec) - (0.831 * ph / 10)
   * + (0.0018 * clay * clay) + (0.0026 * sand * clay))`: inputs [sand, cec, ph, clay].
   */
  function ThThetaResCell(cs: seq<Cell>): (c: Cell)
    ensures c.Val? <==> At(cs, 0).Val? && At(cs, 1).Val? && At(cs, 2).Val? && At(cs, 3).Val?
    ensures c.Val? ==> c.v == ThThetaRes(At(cs, 3).v, At(cs, 0).v, At(cs, 1).v, At(cs, 2).v)
  {
    var sand, cec, ph, clay := At(cs, 0), At(cs, 1), At(cs, 2), At(cs, 3);
    Mul(Val(0.01),
        Add(Add(Sub(Add(Sub(Val(22.733), Mul(Val(0.164), sand)), Mul(Val(0.235), cec)),
                    Div(Mul(Val(0.831), ph), Val(10.0))),
                Mul(Mul(Val(0.0018), clay), clay)),
            Mul(Mul(Val(0.0026), sand), clay)))
  }

  /**
   * Where every input has a value the Tomasella-Hodnett alpha and n maps
   * are positive, so `1 / alpha` is defined there.
   */
  lemma ThCellsPositive(m: Math, sem: DivSemantics, clay: real, soc: real, ph: real, sand: real, silt: real, cec: real)
    requires Lawful(m)
    ensures ThNCell(m, sem, [Val(clay), Val(soc), Val(ph), Val(sand), Val(silt)]).v > 0.0
    ensures ThAlphaCell(m, sem, [Val(silt), Val(soc), Val(cec), Val(ph)]).v > 0.0
    ensures VgPsiCell([ThAlphaCell(m, sem, [Val(silt), Val(soc), Val(cec), Val(ph)])]).Val?
  {
    var soc10 := Quot(sem, Val(soc), 10).v;
    ThPositive(m, clay, sand, silt, soc10, ph, cec);
  }

  // ---- USDA texture classes and the Zhang-Schaap lookup ----

  /**
   * `if((sand >= a) & (sand <= b) & (silt >= c) & (silt <= d) & (clay >= e)
   * & (clay <= f), 1, 0)` with the class's limits: inputs [sand, silt, clay].
   * `&` on the 0/1 results of comparisons is `&&`.
   */
  function TextureCell(t: TextureClass, cs: seq<Cell>): (c: Cell)
    ensures c.Val? <==> At(cs, 0).Val? && At(cs, 1).Val? && At(cs, 2).Val?
    ensures c.Val? ==> c.v == (if InClass(t, At(cs, 0).v, At(cs, 1).v, At(cs, 2).v) then 1.0 else 0.0)
  {
    var l := ClassLimits(t);
    var sand, silt, clay := At(cs, 0), At(cs, 1), At(cs, 2);
    If(And(And(And(And(And(AtLeast(sand, Val(l.sandMin)), AtMost(sand, Val(l.sandMax))),
                       AtLeast(silt, Val(l.siltMin))), AtMost(silt, Val(l.siltMax))),
               AtLeast(clay, Val(l.clayMin))), AtMost(clay, Val(l.clayMax))),
       Val(1.0), Val(0.0))
  }

  /**
   * `u_0 * f_0 + u_1 * f_1 + ... + u_(k-1) * f_(k-1)`, summed left to right:
   * the first k terms of the Zhang-Schaap equation over the indicator
   * cells `cs`.
   */
  function WeightedCell(cs: seq<Cell>, factors: seq<real>, k: nat): Cell
    requires 1 <= k <= |factors|
  {
    if k == 1 then Mul(At(cs, 0), Val(factors[0]))
    else Add(WeightedCell(cs, factors, k - 1), Mul(At(cs, k - 1), Val(factors[k - 1])))
  }

  /** The Zhang-Schaap equation with one factor list: inputs the twelve indicator maps in factor order. */
  function ZhangSchaapCell(factors: seq<real>, cs: seq<Cell>): Cell
    requires |factors| == |FactorOrder|
  {
    WeightedCell(cs, factors, |factors|)
  }

  /** The values of a list of cells that all have one. */
  function Values(cs: seq<Cell>): (vs: seq<real>)
    requires forall j :: 0 <= j < |cs| ==> cs[j].Val?
    ensures |vs| == |cs| && forall j :: 0 <= j < |cs| ==> vs[j] == cs[j].v
  {
    seq(|cs|, j requires 0 <= j < |cs| => cs[j].v)
  }

  /**
   * The first k terms of the expression: null if an indicator among them
   * is null, otherwise the weighted sum of their values.
   */
  lemma {:induction false} WeightedCellSum(cs: seq<Cell>, factors: seq<real>, k: nat)
    requires 1 <= k <= |factors| && k <= |cs|
    ensures (exists j :: 0 <= j < k && cs[j].Null?) ==> WeightedCell(cs, factors, k).Null?
    ensures (forall j :: 0 <= j < k ==> cs[j].Val?) ==>
      WeightedCell(cs, factors, k) == Val(WeightedSum(Values(cs[..k]), factors[..k]))
  {
    if k == 1 {
      if cs[0].Val? {
        assert Values(cs[..1]) == [cs[0].v];
        assert WeightedSum([cs[0].v], factors[..1]) == WeightedSum([], []) + cs[0].v * factors[0];
      }
    } else {
      WeightedCellSum(cs, factors, k - 1);
      if forall j :: 0 <= j < k ==> cs[j].Val? {
        var vs := Values(cs[..k]);
        assert vs[..k - 1] == Values(cs[..k - 1]);
        assert factors[..k][..k - 1] == factors[..k - 1];
      }
    }
  }

  /** The twelve indicator cells of a texture, in factor order. */
  function IndicatorCells(sand: real, silt: real, clay: real): (cs: seq<Cell>)
    ensures |cs| == |FactorOrder|
    ensures forall j :: 0 <= j < |cs| ==> cs[j] == TextureCell(FactorOrder[j], [Val(sand), Val(silt), Val(clay)])
  {
    seq(|FactorOrder|, j requires 0 <= j < |FactorOrder| => TextureCell(FactorOrder[j], [Val(sand), Val(silt), Val(clay)]))
  }

  /**
   * Computing the indicator maps and then the Zhang-Schaap equation over
   * them gives, at a cell with sand, silt and clay values, the
   * Zhang-Schaap parameter of that texture; a null indicator nulls it.
   */
  lemma ZhangSchaapCells(factors: seq<real>, sand: real, silt: real, clay: real)
    requires |factors| == |FactorOrder|
    ensures ZhangSchaapCell(factors, IndicatorCells(sand, silt, clay)) == Val(ZhangSchaap(factors, sand, silt, clay))
  {
    var cs := IndicatorCells(sand, silt, clay);
    WeightedCellSum(cs, factors, |factors|);
    assert cs[..|factors|] == cs;
    assert factors[..|factors|] == factors;
    assert Values(cs) == Indicators(sand, silt, clay);
  }

  /** A null indicator, as where the mask excludes a cell, nulls the parameter. */
  lemma ZhangSchaapCellNull(factors: seq<real>, cs: seq<Cell>, k: nat)
    requires |factors| == |FactorOrder| && |cs| == |factors| && k < |cs| && cs[k].Null?
    ensures ZhangSchaapCell(factors, cs).Null?
  {
    WeightedCellSum(cs, factors, |factors|);
  }
}
