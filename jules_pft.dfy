// Poulter2015JulesPFT and its two groupings: the fourteen crosswalk
// fraction maps of the reference year are combined into the 5-PFT (nine
// surface types) or 9-PFT (thirteen surface types) JULES scheme, each type
// computed on the land-cover map's native grid and then averaged onto the
// target grid.
module JulesPft {
  import opened Wrappers
  import opened Strings
  import opened Raster
  import opened Grass
  import opened MapCalc
  import opened Crosswalk
  import Landcover
  import Ancillary
  import GrassUtils

  /** The two JULES schemes the factory builds. */
  datatype Grouping = Five | Nine

  /** The JULES surface types of the two schemes. */
  datatype SurfaceType =
    | TreeBroadleaf | TreeNeedleleaf | Shrub
    | TreeBroadleafEvergreenTropical | TreeBroadleafEvergreenTemperate | TreeBroadleafDeciduous
    | TreeNeedleleafEvergreen | TreeNeedleleafDeciduous | ShrubEvergreen | ShrubDeciduous
    | C3Grass | C4Grass | Urban | Water | BareSoil | SnowIce

  /** A type's name, as the schemes list it and as its maps are named. */
  function TypeName(t: SurfaceType): string
  {
    match t
    case TreeBroadleaf => "tree_broadleaf"
    case TreeNeedleleaf => "tree_needleleaf"
    case Shrub => "shrub"
    case TreeBroadleafEvergreenTropical => "tree_broadleaf_evergreen_tropical"
    case TreeBroadleafEvergreenTemperate => "tree_broadleaf_evergreen_temperate"
    case TreeBroadleafDeciduous => "tree_broadleaf_deciduous"
    case TreeNeedleleafEvergreen => "tree_needleleaf_evergreen"
    case TreeNeedleleafDeciduous => "tree_needleleaf_deciduous"
    case ShrubEvergreen => "shrub_evergreen"
    case ShrubDeciduous => "shrub_deciduous"
    case C3Grass => "c3_grass"
    case C4Grass => "c4_grass"
    case Urban => "urban"
    case Water => "water"
    case BareSoil => "bare_soil"
    case SnowIce => "snow_ice"
  }

  /** No type's name starts with the letter the land-cover maps start with. */
  lemma TypeNameInitial(t: SurfaceType)
    ensures |TypeName(t)| > 0 && TypeName(t)[0] != 'e'
  {
  }

  /** No two types share a name. */
  lemma TypeNamesApart(s: SurfaceType, t: SurfaceType)
    requires s != t
    ensures TypeName(s) != TypeName(t)
  {
  }

  /** The surface-type names of a scheme, in the order `write` lists them. */
  function JulesNames(g: Grouping): (ns: seq<string>)
    ensures g == Five ==> |ns| == 9
    ensures g == Nine ==> |ns| == 13
  {
    seq(|Types(g)|, i requires 0 <= i < |Types(g)| => TypeName(Types(g)[i]))
  }

  /** The six types both schemes end with. */
  function SharedTypes(): seq<SurfaceType>
  {
    [C3Grass, C4Grass, SurfaceType.Urban, SurfaceType.Water, SurfaceType.BareSoil, SurfaceType.SnowIce]
  }

  /** The types of a scheme's name list before the shared ones. */
  function HeadTypes(g: Grouping): seq<SurfaceType>
  {
    match g
    case Five => [TreeBroadleaf, TreeNeedleleaf, Shrub]
    case Nine => [TreeBroadleafEvergreenTropical, TreeBroadleafEvergreenTemperate,
                  TreeBroadleafDeciduous, TreeNeedleleafEvergreen, TreeNeedleleafDeciduous,
                  ShrubEvergreen, ShrubDeciduous]
  }

  /** The types of a scheme, in the order of its name list. */
  function Types(g: Grouping): seq<SurfaceType>
  {
    HeadTypes(g) + SharedTypes()
  }

  /** A scheme's name list names no type twice. */
  lemma JulesNamesDistinct(g: Grouping)
    ensures forall i, j :: 0 <= i < j < |JulesNames(g)| ==> JulesNames(g)[i] != JulesNames(g)[j]
  {
    forall i, j | 0 <= i < j < |JulesNames(g)|
      ensures JulesNames(g)[i] != JulesNames(g)[j]
    {
      TypeNamesApart(Types(g)[i], Types(g)[j]);
    }
  }

  /** The types a scheme's `compute` produces before the shared ones, in call order. */
  function HeadOrder(g: Grouping): seq<SurfaceType>
  {
    match g
    case Five => [TreeBroadleaf, TreeNeedleleaf, Shrub]
    case Nine => [TreeBroadleafEvergreenTropical, TreeBroadleafEvergreenTemperate,
                  TreeBroadleafDeciduous, TreeNeedleleafDeciduous, TreeNeedleleafEvergreen,
                  ShrubEvergreen, ShrubDeciduous]
  }

  /** The order in which a scheme's `compute` produces its types. */
  function ComputeOrder(g: Grouping): seq<SurfaceType>
  {
    HeadOrder(g) + SharedTypes()
  }

  /** Exchanging two entries keeps a list's elements. */
  lemma SwapPermutes(s: seq<SurfaceType>, i: nat, j: nat)
    requires i < |s| && j < |s|
    ensures multiset(s[i := s[j]][j := s[i]]) == multiset(s)
  {
  }

  /** `compute` produces every type of the scheme exactly once. */
  lemma ComputeOrderIsPermutation(g: Grouping)
    ensures multiset(ComputeOrder(g)) == multiset(Types(g))
  {
    var h := HeadTypes(g);
    if g == Nine {
      assert HeadOrder(Nine) == h[3 := h[4]][4 := h[3]];
      SwapPermutes(h, 3, 4);
    }
    assert multiset(ComputeOrder(g)) == multiset(HeadOrder(g)) + multiset(SharedTypes());
  }

  /**
   * `LandCoverFractionFactory.create_landcover_fraction`: the Poulter
   * scheme with 5 or 9 PFTs; any other method or PFT count gives nothing.
   */
  function Factory(methodName: string, npft: int): (r: Option<Grouping>)
    ensures r.Some? <==> methodName == "Poulter" && (npft == 5 || npft == 9)
    ensures r == Some(Five) <==> methodName == "Poulter" && npft == 5
    ensures r == Some(Nine) <==> methodName == "Poulter" && npft == 9
  {
    if methodName == "Poulter" then
      if npft == 5 then Some(Five) else if npft == 9 then Some(Nine) else None
    else None
  }

  // ---- the per-cell expressions ----

  /** The constant map value 1 of the expressions `1 - x`. */
  const One: Cell := Val(1.0)

  /** `out = a + b`: inputs [a, b]. */
  function Sum2(cs: seq<Cell>): Cell
  {
    Add(At(cs, 0), At(cs, 1))
  }

  /** `out = a + b + c + d` (left to right): inputs [a, b, c, d]. */
  function Sum4(cs: seq<Cell>): Cell
  {
    Add(Add(Add(At(cs, 0), At(cs, 1)), At(cs, 2)), At(cs, 3))
  }

  /** `(natural_grass * (1 - c4_natural)) + (crops * (1 - c4_crop))`: inputs [grass, crops, c4 natural, c4 crop]. */
  function C3Share(cs: seq<Cell>): Cell
  {
    Add(Mul(At(cs, 0), Sub(One, At(cs, 2))), Mul(At(cs, 1), Sub(One, At(cs, 3))))
  }

  /** `(natural_grass * c4_natural) + (crops * c4_crop)`: inputs [grass, crops, c4 natural, c4 crop]. */
  function C4Share(cs: seq<Cell>): Cell
  {
    Add(Mul(At(cs, 0), At(cs, 2)), Mul(At(cs, 1), At(cs, 3)))
  }

  /** `tbe * tropical`: inputs [broadleaf evergreen, tropical-forest indicator]. */
  function Tropical(cs: seq<Cell>): Cell
  {
    Mul(At(cs, 0), At(cs, 1))
  }

  /** `tbe * (1 - tropical)`: inputs [broadleaf evergreen, tropical-forest indicator]. */
  function Temperate(cs: seq<Cell>): Cell
  {
    Mul(At(cs, 0), Sub(One, At(cs, 1)))
  }

  /**
   * The C3/C4 split conserves grass: wherever every input has a value, C3
   * plus C4 is natural grass plus crops whatever the C4 fractions are; a
   * null input nulls both. With C4 fractions in [0, 1] and non-negative
   * grass, each part lies between 0 and the grass total.
   */
  lemma GrassSplit(ng: Cell, crops: Cell, c4n: Cell, c4c: Cell)
    ensures var cs := [ng, crops, c4n, c4c];
      (C3Share(cs).Val? <==> ng.Val? && crops.Val? && c4n.Val? && c4c.Val?) &&
      (C4Share(cs).Val? <==> C3Share(cs).Val?)
    ensures var cs := [ng, crops, c4n, c4c];
      C3Share(cs).Val? ==> C3Share(cs).v + C4Share(cs).v == ng.v + crops.v
    ensures var cs := [ng, crops, c4n, c4c];
      C3Share(cs).Val? && 0.0 <= ng.v && 0.0 <= crops.v && 0.0 <= c4n.v <= 1.0 && 0.0 <= c4c.v <= 1.0 ==>
        0.0 <= C3Share(cs).v <= ng.v + crops.v && 0.0 <= C4Share(cs).v <= ng.v + crops.v
  {
    var cs := [ng, crops, c4n, c4c];
    if C3Share(cs).Val? {
      var a, b, x, y := ng.v, crops.v, c4n.v, c4c.v;
      assert C3Share(cs).v == a * (1.0 - x) + b * (1.0 - y);
      assert C4Share(cs).v == a * x + b * y;
      if 0.0 <= a && 0.0 <= b && 0.0 <= x <= 1.0 && 0.0 <= y <= 1.0 {
        assert 0.0 <= a * x <= a && 0.0 <= a * (1.0 - x) <= a;
        assert 0.0 <= b * y <= b && 0.0 <= b * (1.0 - y) <= b;
      }
    }
  }

  /**
   * The tropical/temperate split conserves broadleaf evergreen forest, and
   * with a 0/1 biome indicator exactly one part receives all of it.
   */
  lemma BroadleafSplit(tbe: Cell, tropical: Cell)
    ensures var cs := [tbe, tropical];
      (Tropical(cs).Val? <==> tbe.Val? && tropical.Val?) && (Temperate(cs).Val? <==> Tropical(cs).Val?)
    ensures var cs := [tbe, tropical];
      Tropical(cs).Val? ==> Tropical(cs).v + Temperate(cs).v == tbe.v
    ensures var cs := [tbe, tropical];
      tbe.Val? && tropical == Val(1.0) ==> Tropical(cs) == tbe && Temperate(cs) == Val(0.0)
    ensures var cs := [tbe, tropical];
      tbe.Val? && tropical == Val(0.0) ==> Tropical(cs) == Val(0.0) && Temperate(cs) == tbe
  {
  }

  // ---- grouping conserves the crosswalk total ----

  /** The value of a cell, 0 for null. */
  function V(c: Cell): real
  {
    if c.Val? then c.v else 0.0
  }

  /** The sum of the fourteen crosswalk fractions f(p), in table order. */
  function PftSum(f: Pft -> real): real
  {
    f(TreesBroadleafEvergreen) + f(TreesBroadleafDeciduous) + f(TreesNeedleleafEvergreen) + f(TreesNeedleleafDeciduous) +
    f(ShrubsBroadleafEvergreen) + f(ShrubsBroadleafDeciduous) + f(ShrubsNeedleleafEvergreen) + f(ShrubsNeedleleafDeciduous) +
    f(NaturalGrass) + f(Crops) + f(Crosswalk.BareSoil) + f(Crosswalk.Water) + f(Crosswalk.Urban) + f(Crosswalk.SnowIce)
  }

  /** Cell i of the map named k; null when the map is missing or has fewer cells. */
  function CellOf(maps: map<string, Map>, k: string, i: nat): (c: Cell)
    ensures c.Val? ==> k in maps && i < |maps[k].cells| && c == maps[k].cells[i]
  {
    if k in maps && i < |maps[k].cells| then maps[k].cells[i] else Null
  }

  /** The cells i of the maps named ks, in order. */
  function Args(maps: map<string, Map>, ks: seq<string>, i: nat): (cs: seq<Cell>)
    ensures |cs| == |ks| && forall j :: 0 <= j < |ks| ==> cs[j] == CellOf(maps, ks[j], i)
  {
    seq(|ks|, j requires 0 <= j < |ks| => CellOf(maps, ks[j], i))
  }

  /** v summed over the types ts. */
  function TypeTotal(ts: seq<SurfaceType>, v: SurfaceType -> real): real
  {
    if |ts| == 0 then 0.0 else v(ts[0]) + TypeTotal(ts[1..], v)
  }

  /** Summing over two lists is summing over their concatenation. */
  lemma {:induction false} TypeTotalAppend(a: seq<SurfaceType>, b: seq<SurfaceType>, v: SurfaceType -> real)
    ensures TypeTotal(a + b, v) == TypeTotal(a, v) + TypeTotal(b, v)
  {
    if |a| == 0 {
      assert a + b == b;
    } else {
      assert (a + b)[1..] == a[1..] + b;
      TypeTotalAppend(a[1..], b, v);
    }
  }

  /** Summing from position k is the value at k plus summing from k + 1. */
  lemma TypeTotalStep(ts: seq<SurfaceType>, k: nat, v: SurfaceType -> real)
    requires k < |ts|
    ensures TypeTotal(ts[k..], v) == v(ts[k]) + TypeTotal(ts[k + 1..], v)
  {
    assert ts[k..][1..] == ts[k + 1..];
  }

  /** Summing over the shared types, written out. */
  lemma SharedTotal(v: SurfaceType -> real)
    ensures TypeTotal(SharedTypes(), v) ==
            v(C3Grass) + v(C4Grass) + v(SurfaceType.Urban) + v(SurfaceType.Water) + v(SurfaceType.BareSoil) + v(SurfaceType.SnowIce)
  {
    var ts := SharedTypes();
    assert ts[0..] == ts && ts[6..] == [];
    TypeTotalStep(ts, 0, v); TypeTotalStep(ts, 1, v); TypeTotalStep(ts, 2, v);
    TypeTotalStep(ts, 3, v); TypeTotalStep(ts, 4, v); TypeTotalStep(ts, 5, v);
  }

  /** Summing over a scheme's own types, written out. */
  lemma HeadTotal(g: Grouping, v: SurfaceType -> real)
    ensures g == Five ==> TypeTotal(HeadTypes(g), v) == v(TreeBroadleaf) + v(TreeNeedleleaf) + v(Shrub)
    ensures g == Nine ==>
      TypeTotal(HeadTypes(g), v) ==
      v(TreeBroadleafEvergreenTropical) + v(TreeBroadleafEvergreenTemperate) + v(TreeBroadleafDeciduous) +
      v(TreeNeedleleafEvergreen) + v(TreeNeedleleafDeciduous) + v(ShrubEvergreen) + v(ShrubDeciduous)
  {
    var ts := HeadTypes(g);
    assert ts[0..] == ts && ts[|ts|..] == [];
    TypeTotalStep(ts, 0, v); TypeTotalStep(ts, 1, v); TypeTotalStep(ts, 2, v);
    if g == Nine {
      TypeTotalStep(ts, 3, v); TypeTotalStep(ts, 4, v); TypeTotalStep(ts, 5, v); TypeTotalStep(ts, 6, v);
    }
  }

  /** The fourteen fractions, grouped as the two schemes' own types and the shared types take them. */
  lemma PftSumParts(f: Pft -> real)
    ensures PftSum(f) ==
      (f(TreesBroadleafEvergreen) + f(TreesBroadleafDeciduous) + f(TreesNeedleleafEvergreen) + f(TreesNeedleleafDeciduous) +
       f(ShrubsBroadleafEvergreen) + f(ShrubsBroadleafDeciduous) + f(ShrubsNeedleleafEvergreen) + f(ShrubsNeedleleafDeciduous)) +
      (f(NaturalGrass) + f(Crops) + f(Crosswalk.Urban) + f(Crosswalk.Water) + f(Crosswalk.BareSoil) + f(Crosswalk.SnowIce))
  {
  }

  /** A crosswalk fraction as a cell. */
  function F(f: Pft -> real, p: Pft): Cell
  {
    Val(f(p))
  }

  /** The nine 5-PFT types at one native cell, summed, as `compute` combines the crosswalk fractions f. */
  function FiveTotal(f: Pft -> real, c4n: real, c4c: real): real
  {
    var grass := [F(f, NaturalGrass), F(f, Crops), Val(c4n), Val(c4c)];
    V(Sum2([F(f, TreesBroadleafDeciduous), F(f, TreesBroadleafEvergreen)])) +
    V(Sum2([F(f, TreesNeedleleafDeciduous), F(f, TreesNeedleleafEvergreen)])) +
    V(Sum4([F(f, ShrubsBroadleafDeciduous), F(f, ShrubsBroadleafEvergreen), F(f, ShrubsNeedleleafDeciduous), F(f, ShrubsNeedleleafEvergreen)])) +
    V(C3Share(grass)) + V(C4Share(grass)) +
    V(Copy([F(f, Crosswalk.Urban)])) + V(Copy([F(f, Crosswalk.Water)])) + V(Copy([F(f, Crosswalk.BareSoil)])) + V(Copy([F(f, Crosswalk.SnowIce)]))
  }

  /** The thirteen 9-PFT types at one native cell, summed (shrub_evergreen as intended). */
  function NineTotal(f: Pft -> real, tropical: real, c4n: real, c4c: real): real
  {
    var grass := [F(f, NaturalGrass), F(f, Crops), Val(c4n), Val(c4c)];
    var tbe := [F(f, TreesBroadleafEvergreen), Val(tropical)];
    V(Tropical(tbe)) + V(Temperate(tbe)) +
    V(Copy([F(f, TreesBroadleafDeciduous)])) + V(Copy([F(f, TreesNeedleleafDeciduous)])) + V(Copy([F(f, TreesNeedleleafEvergreen)])) +
    V(Sum2([F(f, ShrubsBroadleafEvergreen), F(f, ShrubsNeedleleafEvergreen)])) +
    V(Sum2([F(f, ShrubsBroadleafDeciduous), F(f, ShrubsNeedleleafDeciduous)])) +
    V(C3Share(grass)) + V(C4Share(grass)) +
    V(Copy([F(f, Crosswalk.Urban)])) + V(Copy([F(f, Crosswalk.Water)])) + V(Copy([F(f, Crosswalk.BareSoil)])) + V(Copy([F(f, Crosswalk.SnowIce)]))
  }

  /** The nine 5-PFT types together hold exactly the fourteen crosswalk fractions, whatever the C4 fractions. */
  lemma FiveConserves(f: Pft -> real, c4n: real, c4c: real)
    ensures FiveTotal(f, c4n, c4c) == PftSum(f)
  {
    GrassSplit(F(f, NaturalGrass), F(f, Crops), Val(c4n), Val(c4c));
  }

  /** The thirteen 9-PFT types together hold exactly the fourteen crosswalk fractions, whatever the biome indicator. */
  lemma NineConserves(f: Pft -> real, tropical: real, c4n: real, c4c: real)
    ensures NineTotal(f, tropical, c4n, c4c) == PftSum(f)
  {
    GrassSplit(F(f, NaturalGrass), F(f, Crops), Val(c4n), Val(c4c));
    BroadleafSplit(F(f, TreesBroadleafEvergreen), Val(tropical));
  }

  /** The crosswalk fraction of each PFT at a land-cover class, with real division. */
  function ClassFractions(c: int): Pft -> real
  {
    p => V(PftFraction(RealDivision, p, Val(c as real)))
  }

  /** f summed over ps[i..]. */
  function SumFrom(ps: seq<Pft>, f: Pft -> real, i: nat): real
    decreases |ps| - i
  {
    if i >= |ps| then 0.0 else f(ps[i]) + SumFrom(ps, f, i + 1)
  }

  lemma {:induction false} FractionTotalIsSum(ps: seq<Pft>, c: int, i: nat)
    ensures FractionTotalFrom(RealDivision, ps, c, i) == SumFrom(ps, ClassFractions(c), i)
    decreases |ps| - i
  {
    if i < |ps| {
      FractionTotalIsSum(ps, c, i + 1);
    }
  }

  /** Summing over the table's PFT list is summing the fourteen fractions. */
  lemma SumOverPfts(f: Pft -> real)
    ensures SumFrom(Pfts, f, 0) == PftSum(f)
  {
    var t := (i: nat) => SumFrom(Pfts, f, i);
    assert t(14) == 0.0;
    assert t(13) == f(Crosswalk.SnowIce);
    assert t(11) == f(Crosswalk.Water) + f(Crosswalk.Urban) + t(13);
    assert t(9) == f(Crops) + f(Crosswalk.BareSoil) + t(11);
    assert t(7) == f(ShrubsNeedleleafDeciduous) + f(NaturalGrass) + t(9);
    assert t(5) == f(ShrubsBroadleafDeciduous) + f(ShrubsNeedleleafEvergreen) + t(7);
    assert t(3) == f(TreesNeedleleafDeciduous) + f(ShrubsBroadleafEvergreen) + t(5);
    assert t(1) == f(TreesBroadleafDeciduous) + f(TreesNeedleleafEvergreen) + t(3);
  }

  /**
   * At the native grid, every land-cover class the crosswalk lists is
   * fully covered by the JULES types of either scheme: the types sum to 1,
   * and to 0 for an unlisted class.
   */
  lemma GroupsSumToOne(c: int, tropical: real, c4n: real, c4c: real)
    ensures var total := FiveTotal(ClassFractions(c), c4n, c4c);
      (total == 1.0 <==> exists p: Pft :: c in Codes(p)) && (total == 0.0 || total == 1.0)
    ensures NineTotal(ClassFractions(c), tropical, c4n, c4c) == FiveTotal(ClassFractions(c), c4n, c4c)
  {
    FiveConserves(ClassFractions(c), c4n, c4c);
    NineConserves(ClassFractions(c), tropical, c4n, c4c);
    FractionTotalIsSum(Pfts, c, 0);
    SumOverPfts(ClassFractions(c));
    FractionsSumToOne(c);
  }

  /** Averaging onto the target grid commutes with the grouping sums of maps null in the same cells. */
  lemma GroupThenAverage(a: seq<Cell>, b: seq<Cell>)
    requires SameNulls(a, b) && Count(a) > 0
    ensures Mean(AddCells(a, b)) == Add(Mean(a), Mean(b))
  {
    MeanAdd(a, b);
  }

  // ---- the engine sequence ----

  /** A surface type's map on the native grid and on the target grid (`<pft>_<year>_<region>_native`, `.tif`). */
  function JulesName(pft: string, year: int, region: string, suffix: string): string
  {
    pft + "_" + IntToString(year) + "_" + region + suffix
  }

  /** One year's names of a scheme, keyed by surface type. */
  function JulesYearNames(year: int, pfts: seq<string>, region: string, suffix: string): map<string, string>
  {
    map p | p in pfts :: JulesName(p, year, region, suffix)
  }

  /** Every year's names of a scheme, keyed by year. */
  function JulesMapNames(years: seq<int>, pfts: seq<string>, region: string, suffix: string): map<int, map<string, string>>
  {
    map y | y in years :: JulesYearNames(y, pfts, region, suffix)
  }

  lemma JulesYearNamesSnoc(year: int, pfts: seq<string>, region: string, suffix: string, p: string)
    ensures JulesYearNames(year, pfts + [p], region, suffix) == JulesYearNames(year, pfts, region, suffix)[p := JulesName(p, year, region, suffix)]
  {
  }

  lemma JulesMapNamesSnoc(years: seq<int>, y: int, pfts: seq<string>, region: string, suffix: string)
    ensures JulesMapNames(years + [y], pfts, region, suffix) == JulesMapNames(years, pfts, region, suffix)[y := JulesYearNames(y, pfts, region, suffix)]
  {
  }

  /** A surface type as `compute` derives it: its name, its input maps and its `r.mapcalc` expression. */
  datatype Recipe = Recipe(pft: SurfaceType, inputs: seq<string>, f: seq<Cell> -> Cell)

  /** Two types' names in one year and region differ unless type and suffix are the same. */
  lemma JulesNamesDiffer(p: string, q: string, year: int, region: string, s: string, t: string)
    requires s == "_native" || s == ".tif"
    requires t == "_native" || t == ".tif"
    requires p != q || s != t
    ensures JulesName(p, year, region, s) != JulesName(q, year, region, t)
  {
    var a, b := JulesName(p, year, region, s), JulesName(q, year, region, t);
    if s != t {
      assert a[|a| - 1] == s[|s| - 1] && b[|b| - 1] == t[|t| - 1];
    } else if |p| == |q| {
      var k :| 0 <= k < |p| && p[k] != q[k];
      assert a[k] == p[k] && b[k] == q[k];
    } else {
      assert |a| - |p| == |b| - |q|;
    }
  }

  /** A JULES name starts with its type's first letter. */
  lemma NotJulesName(k: string, p: string, year: int, region: string, s: string)
    requires |p| > 0 && |k| > 0 && k[0] != p[0]
    ensures k != JulesName(p, year, region, s)
  {
    assert JulesName(p, year, region, s)[0] == p[0];
  }

  /** The inputs other datasets supply: the 2015 C4 fraction maps and the tropical-forest biome indicator. */
  datatype InputMaps = InputMaps(c4Natural: string, c4Crop: string, tropicalForest: string)

  /**
   * The catalogue after `compute_shrub_evergreen` as written: the sum is
   * computed straight into the target name on the native grid, and the
   * resample reads the native name, which nothing wrote.
   */
  function ShrubEvergreenAsWrittenMaps(maps: map<string, Map>, mask: Option<Mask>, native: Region,
                                       inputs: seq<string>, nativeOut: string, targetOut: string, overwrite: bool)
    : Option<map<string, Map>>
  {
    match CalcOutcome(maps, mask, native, inputs, Sum2)
    case Exact(m1) => if nativeOut in maps then None else Some(Store(maps, targetOut, m1, overwrite))
    case _ => None
  }

  /**
   * As written, when neither map exists yet, the target map is left on the
   * native grid and no native map is made; the intended step makes both,
   * with the target map on the target grid.
   */
  lemma ShrubEvergreenOnNativeGrid(maps: map<string, Map>, mask: Option<Mask>, native: Region, target: Region,
                                   inputs: seq<string>, nativeOut: string, targetOut: string, overwrite: bool)
    requires nativeOut !in maps && targetOut !in maps && nativeOut != targetOut && native != target
    requires CalcOutcome(maps, mask, native, inputs, Sum2).Exact?
    requires Ancillary.StepMaps(maps, mask, native, target, inputs, Sum2, nativeOut, targetOut, overwrite).Some?
    ensures var w := ShrubEvergreenAsWrittenMaps(maps, mask, native, inputs, nativeOut, targetOut, overwrite);
      w.Some? && targetOut in w.value && w.value[targetOut].region == native && nativeOut !in w.value
    ensures var s := Ancillary.StepMaps(maps, mask, native, target, inputs, Sum2, nativeOut, targetOut, overwrite).value;
      targetOut in s && s[targetOut].region == target && nativeOut in s && s[nativeOut].region == native
  {
  }

  /**
   * `Poulter2015JulesPFT` and its 5-PFT and 9-PFT subclasses. Construction
   * runs the crosswalk computation for every land-cover year and names
   * the scheme's maps; it does not call the base constructor, so the mask
   * is left as it is.
   */
  class JulesPfts {
    const config: Ancillary.RegionConfig
    const grouping: Grouping
    const years: seq<int>
    const pftNames: seq<string>
    const overwrite: bool
    const inputs: InputMaps
    var mapnamesNative: map<int, map<string, string>>
    var mapnames: map<int, map<string, string>>

    /** The object's fields; `Create` does the engine work of `__init__`. */
    constructor(config: Ancillary.RegionConfig, grouping: Grouping, years: seq<int>, inputs: InputMaps, overwrite: bool)
      ensures this.config == config && this.grouping == grouping && this.years == years
      ensures this.inputs == inputs && this.overwrite == overwrite && pftNames == JulesNames(grouping)
      ensures mapnamesNative == JulesMapNames(years, pftNames, config.name, "_native")
      ensures mapnames == JulesMapNames(years, pftNames, config.name, ".tif")
    {
      this.config := config;
      this.grouping := grouping;
      this.years := years;
      this.pftNames := JulesNames(grouping);
      this.inputs := inputs;
      this.overwrite := overwrite;
      new;
      SetMapnames();
    }

    /** `_set_mapnames`: the native and target name of every (year, type). */
    method SetMapnames()
      modifies this
      ensures mapnamesNative == JulesMapNames(years, pftNames, config.name, "_native")
      ensures mapnames == JulesMapNames(years, pftNames, config.name, ".tif")
    {
      var native: map<int, map<string, string>> := map[];
      var target: map<int, map<string, string>> := map[];
      var i := 0;
      while i < |years|
        invariant 0 <= i <= |years|
        invariant native == JulesMapNames(years[..i], pftNames, config.name, "_native")
        invariant target == JulesMapNames(years[..i], pftNames, config.name, ".tif")
      {
        var yn := YearMapnames(years[i], "_native");
        var yt := YearMapnames(years[i], ".tif");
        JulesMapNamesSnoc(years[..i], years[i], pftNames, config.name, "_native");
        JulesMapNamesSnoc(years[..i], years[i], pftNames, config.name, ".tif");
        native := native[years[i] := yn];
        target := target[years[i] := yt];
        assert years[..i + 1] == years[..i] + [years[i]];
        i := i + 1;
      }
      assert years[..i] == years;
      mapnamesNative := native;
      mapnames := target;
    }

    /** The inner loop of `_set_mapnames` for one kind of name. */
    method YearMapnames(year: int, suffix: string) returns (ym: map<string, string>)
      ensures ym == JulesYearNames(year, pftNames, config.name, suffix)
    {
      ym := map[];
      var j := 0;
      while j < |pftNames|
        invariant 0 <= j <= |pftNames|
        invariant ym == JulesYearNames(year, pftNames[..j], config.name, suffix)
      {
        var p := pftNames[j];
        JulesYearNamesSnoc(year, pftNames[..j], config.name, suffix, p);
        ym := ym[p := p + "_" + IntToString(year) + "_" + config.name + suffix];
        assert pftNames[..j + 1] == pftNames[..j] + [p];
        j := j + 1;
      }
      assert pftNames[..j] == pftNames;
    }

    /** The native-grid map of a surface type in the reference year. */
    function NativeName(pft: SurfaceType): string
    {
      JulesName(TypeName(pft), Landcover.ReferenceYear, config.name, "_native")
    }

    /** The target-grid map of a surface type in the reference year. */
    function TargetName(pft: SurfaceType): string
    {
      JulesName(TypeName(pft), Landcover.ReferenceYear, config.name, ".tif")
    }

    /** The reference year's crosswalk fraction map of a PFT (`self.pfts.mapnames[2015][p]`). */
    function CrosswalkMap(p: Pft): string
    {
      Landcover.PftMapName(Landcover.ReferenceYear, Name(p))
    }

    /** The 2015 land-cover map, whose grid is the native grid. */
    function LandCoverMap(): string
    {
      Landcover.LandCoverName(Landcover.ReferenceYear)
    }

    /** Only the type's two maps differ between the catalogues. */
    ghost predicate KeptBut(before: map<string, Map>, after: map<string, Map>, pft: SurfaceType)
    {
      forall k :: k != NativeName(pft) && k != TargetName(pft) ==>
        (k in after <==> k in before) && (k in after ==> after[k] == before[k])
    }

    /** The log grew by one step computing the type, and kept resamples on the target region. */
    ghost predicate Stepped(before: seq<Command>, after: seq<Command>, pft: SurfaceType)
    {
      Ancillary.Calcs(after) == Ancillary.Calcs(before) + [NativeName(pft)] &&
      (Ancillary.ResampledOnTarget(before, config) ==> Ancillary.ResampledOnTarget(after, config))
    }

    /**
     * The catalogue after computing a type, when every command has a
     * known result: the native map is the recipe over its inputs on the
     * native grid, the target map its block average on the target grid.
     */
    ghost predicate Computed(region: Region, before: map<string, Map>, mask: Option<Mask>, after: map<string, Map>,
                             r: Recipe)
    {
      var s := Ancillary.StepMaps(before, mask, Ancillary.NativeRegion(region, before, LandCoverMap(), config),
                                  Ancillary.TargetRegion(config), r.inputs, r.f, NativeName(r.pft), TargetName(r.pft), overwrite);
      s.Some? ==> after == s.value
    }

    /**
     * One `compute_<type>(2015)`: set the native region from the 2015
     * land-cover map, compute the native map from the inputs, set the
     * target region and average the native map into the target map.
     */
    method Step(e: Engine, r: Recipe)
      modifies e
      ensures e.region == Ancillary.TargetRegion(config)
      ensures e.mask == old(e.mask) && e.saved == old(e.saved) && e.files == old(e.files)
      ensures e.log == old(e.log) + Ancillary.StepLog(Ancillary.NativeRequest(old(e.region), old(e.maps), LandCoverMap(), config),
                                                      config, LandCoverMap(), r.inputs, NativeName(r.pft), TargetName(r.pft))
      ensures Stepped(old(e.log), e.log, r.pft) && KeptBut(old(e.maps), e.maps, r.pft)
      ensures Computed(old(e.region), old(e.maps), old(e.mask), e.maps, r)
    {
      ghost var native := Ancillary.NativeRequest(e.region, e.maps, LandCoverMap(), config);
      Ancillary.StepLogShape(native, config, LandCoverMap(), r.inputs, NativeName(r.pft), TargetName(r.pft), e.log);
      Ancillary.NativeStep(e, config, LandCoverMap(), r.inputs, r.f, NativeName(r.pft), TargetName(r.pft), overwrite);
    }

    /** A type that adds two crosswalk PFTs. */
    function SumRecipe(pft: SurfaceType, a: Pft, b: Pft): Recipe
    {
      Recipe(pft, [CrosswalkMap(a), CrosswalkMap(b)], Sum2)
    }

    /** `tree_broadleaf = deciduous + evergreen broadleaf trees`. */
    function TreeBroadleafRecipe(): Recipe
    {
      SumRecipe(TreeBroadleaf, TreesBroadleafDeciduous, TreesBroadleafEvergreen)
    }

    /** `tree_needleleaf = deciduous + evergreen needleleaf trees`. */
    function TreeNeedleleafRecipe(): Recipe
    {
      SumRecipe(TreeNeedleleaf, TreesNeedleleafDeciduous, TreesNeedleleafEvergreen)
    }

    /** `shrub` = the sum of the four shrub PFTs. */
    function ShrubRecipe(): Recipe
    {
      Recipe(Shrub, [CrosswalkMap(ShrubsBroadleafDeciduous), CrosswalkMap(ShrubsBroadleafEvergreen),
                     CrosswalkMap(ShrubsNeedleleafDeciduous), CrosswalkMap(ShrubsNeedleleafEvergreen)], Sum4)
    }

    /** `c3_grass` = the C3 share of natural grass and crops. */
    function C3GrassRecipe(): Recipe
    {
      Recipe(C3Grass, [CrosswalkMap(NaturalGrass), CrosswalkMap(Crops), inputs.c4Natural, inputs.c4Crop], C3Share)
    }

    /** `c4_grass` = the C4 share of natural grass and crops. */
    function C4GrassRecipe(): Recipe
    {
      Recipe(C4Grass, [CrosswalkMap(NaturalGrass), CrosswalkMap(Crops), inputs.c4Natural, inputs.c4Crop], C4Share)
    }

    /** A type that copies one crosswalk PFT. */
    function CopyRecipe(pft: SurfaceType, source: Pft): Recipe
    {
      Recipe(pft, [CrosswalkMap(source)], Copy)
    }

    /** `tree_broadleaf_evergreen_tropical` = broadleaf evergreen trees where the biome is tropical forest. */
    function TropicalRecipe(): Recipe
    {
      Recipe(TreeBroadleafEvergreenTropical, [CrosswalkMap(TreesBroadleafEvergreen), inputs.tropicalForest], Tropical)
    }

    /** `tree_broadleaf_evergreen_temperate` = broadleaf evergreen trees elsewhere. */
    function TemperateRecipe(): Recipe
    {
      Recipe(TreeBroadleafEvergreenTemperate, [CrosswalkMap(TreesBroadleafEvergreen), inputs.tropicalForest], Temperate)
    }

    /** `shrub_evergreen` = broadleaf + needleleaf evergreen shrubs. */
    function ShrubEvergreenRecipe(): Recipe
    {
      SumRecipe(ShrubEvergreen, ShrubsBroadleafEvergreen, ShrubsNeedleleafEvergreen)
    }

    /** `shrub_deciduous` = broadleaf + needleleaf deciduous shrubs. */
    function ShrubDeciduousRecipe(): Recipe
    {
      SumRecipe(ShrubDeciduous, ShrubsBroadleafDeciduous, ShrubsNeedleleafDeciduous)
    }

    /** `compute_tree_broadleaf` (5 PFTs): deciduous plus evergreen broadleaf trees. */
    method ComputeTreeBroadleaf(e: Engine, ghost log0: seq<Command>, ghost maps0: map<string, Map>, ghost done: seq<Recipe>)
      requires Reached(log0, maps0, e.mask, e.log, e.maps, done)
      modifies e
      ensures e.region == Ancillary.TargetRegion(config) && e.mask == old(e.mask) && e.saved == old(e.saved) && e.files == old(e.files)
      ensures Reached(log0, maps0, e.mask, e.log, e.maps, done + [TreeBroadleafRecipe()])
      ensures Computed(old(e.region), old(e.maps), old(e.mask), e.maps, TreeBroadleafRecipe())
    {
      Step(e, TreeBroadleafRecipe());
      Advance(log0, maps0, e.mask, old(e.region), old(e.log), old(e.maps), e.log, e.maps, done, TreeBroadleafRecipe());
    }

    /** `compute_tree_needleleaf` (5 PFTs): deciduous plus evergreen needleleaf trees. */
    method ComputeTreeNeedleleaf(e: Engine, ghost log0: seq<Command>, ghost maps0: map<string, Map>, ghost done: seq<Recipe>)
      requires Reached(log0, maps0, e.mask, e.log, e.maps, done)
      modifies e
      ensures e.region == Ancillary.TargetRegion(config) && e.mask == old(e.mask) && e.saved == old(e.saved) && e.files == old(e.files)
      ensures Reached(log0, maps0, e.mask, e.log, e.maps, done + [TreeNeedleleafRecipe()])
      ensures Computed(old(e.region), old(e.maps), old(e.mask), e.maps, TreeNeedleleafRecipe())
    {
      Step(e, TreeNeedleleafRecipe());
      Advance(log0, maps0, e.mask, old(e.region), old(e.log), old(e.maps), e.log, e.maps, done, TreeNeedleleafRecipe());
    }

    /** `compute_shrub` (5 PFTs): the four shrub PFTs. */
    method ComputeShrub(e: Engine, ghost log0: seq<Command>, ghost maps0: map<string, Map>, ghost done: seq<Recipe>)
      requires Reached(log0, maps0, e.mask, e.log, e.maps, done)
      modifies e
      ensures e.region == Ancillary.TargetRegion(config) && e.mask == old(e.mask) && e.saved == old(e.saved) && e.files == old(e.files)
      ensures Reached(log0, maps0, e.mask, e.log, e.maps, done + [ShrubRecipe()])
      ensures Computed(old(e.region), old(e.maps), old(e.mask), e.maps, ShrubRecipe())
    {
      Step(e, ShrubRecipe());
      Advance(log0, maps0, e.mask, old(e.region), old(e.log), old(e.maps), e.log, e.maps, done, ShrubRecipe());
    }

    /** `compute_c3_grass`: the C3 share of natural grass and crops. */
    method ComputeC3Grass(e: Engine, ghost log0: seq<Command>, ghost maps0: map<string, Map>, ghost done: seq<Recipe>)
      requires Reached(log0, maps0, e.mask, e.log, e.maps, done)
      modifies e
      ensures e.region == Ancillary.TargetRegion(config) && e.mask == old(e.mask) && e.saved == old(e.saved) && e.files == old(e.files)
      ensures Reached(log0, maps0, e.mask, e.log, e.maps, done + [C3GrassRecipe()])
      ensures Computed(old(e.region), old(e.maps), old(e.mask), e.maps, C3GrassRecipe())
    {
      Step(e, C3GrassRecipe());
      Advance(log0, maps0, e.mask, old(e.region), old(e.log), old(e.maps), e.log, e.maps, done, C3GrassRecipe());
    }

    /** `compute_c4_grass`: the C4 share of natural grass and crops. */
    method ComputeC4Grass(e: Engine, ghost log0: seq<Command>, ghost maps0: map<string, Map>, ghost done: seq<Recipe>)
      requires Reached(log0, maps0, e.mask, e.log, e.maps, done)
      modifies e
      ensures e.region == Ancillary.TargetRegion(config) && e.mask == old(e.mask) && e.saved == old(e.saved) && e.files == old(e.files)
      ensures Reached(log0, maps0, e.mask, e.log, e.maps, done + [C4GrassRecipe()])
      ensures Computed(old(e.region), old(e.maps), old(e.mask), e.maps, C4GrassRecipe())
    {
      Step(e, C4GrassRecipe());
      Advance(log0, maps0, e.mask, old(e.region), old(e.log), old(e.maps), e.log, e.maps, done, C4GrassRecipe());
    }

    /**
     * The one-PFT copies: `compute_urban`, `compute_water`,
     * `compute_bare_soil`, `compute_snow_ice` and the 9-PFT tree types.
     */
    method ComputeCopy(e: Engine, pft: SurfaceType, source: Pft, ghost log0: seq<Command>, ghost maps0: map<string, Map>, ghost done: seq<Recipe>)
      requires Reached(log0, maps0, e.mask, e.log, e.maps, done)
      modifies e
      ensures e.region == Ancillary.TargetRegion(config) && e.mask == old(e.mask) && e.saved == old(e.saved) && e.files == old(e.files)
      ensures Reached(log0, maps0, e.mask, e.log, e.maps, done + [CopyRecipe(pft, source)])
      ensures Computed(old(e.region), old(e.maps), old(e.mask), e.maps, CopyRecipe(pft, source))
    {
      Step(e, CopyRecipe(pft, source));
      Advance(log0, maps0, e.mask, old(e.region), old(e.log), old(e.maps), e.log, e.maps, done, CopyRecipe(pft, source));
    }

    /** `compute_tree_broadleaf_evergreen_tropical` (9 PFTs). */
    method ComputeTropical(e: Engine, ghost log0: seq<Command>, ghost maps0: map<string, Map>, ghost done: seq<Recipe>)
      requires Reached(log0, maps0, e.mask, e.log, e.maps, done)
      modifies e
      ensures e.region == Ancillary.TargetRegion(config) && e.mask == old(e.mask) && e.saved == old(e.saved) && e.files == old(e.files)
      ensures Reached(log0, maps0, e.mask, e.log, e.maps, done + [TropicalRecipe()])
      ensures Computed(old(e.region), old(e.maps), old(e.mask), e.maps, TropicalRecipe())
    {
      Step(e, TropicalRecipe());
      Advance(log0, maps0, e.mask, old(e.region), old(e.log), old(e.maps), e.log, e.maps, done, TropicalRecipe());
    }

    /** `compute_tree_broadleaf_evergreen_temperate` (9 PFTs). */
    method ComputeTemperate(e: Engine, ghost log0: seq<Command>, ghost maps0: map<string, Map>, ghost done: seq<Recipe>)
      requires Reached(log0, maps0, e.mask, e.log, e.maps, done)
      modifies e
      ensures e.region == Ancillary.TargetRegion(config) && e.mask == old(e.mask) && e.saved == old(e.saved) && e.files == old(e.files)
      ensures Reached(log0, maps0, e.mask, e.log, e.maps, done + [TemperateRecipe()])
      ensures Computed(old(e.region), old(e.maps), old(e.mask), e.maps, TemperateRecipe())
    {
      Step(e, TemperateRecipe());
      Advance(log0, maps0, e.mask, old(e.region), old(e.log), old(e.maps), e.log, e.maps, done, TemperateRecipe());
    }

    /** `compute_shrub_evergreen` (9 PFTs) as evidently intended: native map first, then its average. */
    method ComputeShrubEvergreen(e: Engine, ghost log0: seq<Command>, ghost maps0: map<string, Map>, ghost done: seq<Recipe>)
      requires Reached(log0, maps0, e.mask, e.log, e.maps, done)
      modifies e
      ensures e.region == Ancillary.TargetRegion(config) && e.mask == old(e.mask) && e.saved == old(e.saved) && e.files == old(e.files)
      ensures Reached(log0, maps0, e.mask, e.log, e.maps, done + [ShrubEvergreenRecipe()])
      ensures Computed(old(e.region), old(e.maps), old(e.mask), e.maps, ShrubEvergreenRecipe())
    {
      Step(e, ShrubEvergreenRecipe());
      Advance(log0, maps0, e.mask, old(e.region), old(e.log), old(e.maps), e.log, e.maps, done, ShrubEvergreenRecipe());
    }

    /** `compute_shrub_deciduous` (9 PFTs). */
    method ComputeShrubDeciduous(e: Engine, ghost log0: seq<Command>, ghost maps0: map<string, Map>, ghost done: seq<Recipe>)
      requires Reached(log0, maps0, e.mask, e.log, e.maps, done)
      modifies e
      ensures e.region == Ancillary.TargetRegion(config) && e.mask == old(e.mask) && e.saved == old(e.saved) && e.files == old(e.files)
      ensures Reached(log0, maps0, e.mask, e.log, e.maps, done + [ShrubDeciduousRecipe()])
      ensures Computed(old(e.region), old(e.maps), old(e.mask), e.maps, ShrubDeciduousRecipe())
    {
      Step(e, ShrubDeciduousRecipe());
      Advance(log0, maps0, e.mask, old(e.region), old(e.log), old(e.maps), e.log, e.maps, done, ShrubDeciduousRecipe());
    }

    /**
     * `compute_shrub_evergreen` as written: the sum goes to the target name
     * on the native grid, then the never-written native name is resampled.
     */
    method ComputeShrubEvergreenAsWritten(e: Engine)
      modifies e
      ensures e.region == Ancillary.TargetRegion(config)
      ensures e.mask == old(e.mask) && e.saved == old(e.saved) && e.files == old(e.files)
      ensures var native := Ancillary.NativeRegion(old(e.region), old(e.maps), LandCoverMap(), config);
        var ins := [CrosswalkMap(ShrubsBroadleafEvergreen), CrosswalkMap(ShrubsNeedleleafEvergreen)];
        e.log == old(e.log) + [RegionFromRaster(LandCoverMap()),
                               RegionSet(Ancillary.NativeRequest(old(e.region), old(e.maps), LandCoverMap(), config), Some(LandCoverMap())),
                               Calc(TargetName(ShrubEvergreen), ins), RegionSet(Ancillary.TargetRegion(config), None),
                               ResampStats(NativeName(ShrubEvergreen), TargetName(ShrubEvergreen), Average, true)] &&
        (var w := ShrubEvergreenAsWrittenMaps(old(e.maps), old(e.mask), native, ins,
                                              NativeName(ShrubEvergreen), TargetName(ShrubEvergreen), overwrite);
         w.Some? ==> e.maps == w.value)
    {
      var ins := [CrosswalkMap(ShrubsBroadleafEvergreen), CrosswalkMap(ShrubsNeedleleafEvergreen)];
      Ancillary.SetNativeRegion(e, config, LandCoverMap());
      e.CalcCmd(TargetName(ShrubEvergreen), ins, Sum2, overwrite);
      Ancillary.SetTargetRegion(e, config);
      var _ := Ancillary.Resample(e, NativeName(ShrubEvergreen), TargetName(ShrubEvergreen), Average, overwrite);
    }

    /** The native names of the types a list of recipes computes. */
    function NativeNames(rs: seq<Recipe>): (ns: seq<string>)
      ensures |ns| == |rs| && forall i :: 0 <= i < |rs| ==> ns[i] == NativeName(rs[i].pft)
    {
      seq(|rs|, i requires 0 <= i < |rs| => NativeName(rs[i].pft))
    }

    /** The native and target maps of the types computed by `done`. */
    function Touched(done: seq<Recipe>): set<string>
    {
      if |done| == 0 then {}
      else Touched(done[..|done| - 1]) + {NativeName(done[|done| - 1].pft), TargetName(done[|done| - 1].pft)}
    }

    /** What has held since `compute` started, once the recipes `done` are computed. */
    ghost predicate Progress(log0: seq<Command>, maps0: map<string, Map>, log: seq<Command>, maps: map<string, Map>, done: seq<Recipe>)
    {
      Ancillary.Calcs(log) == Ancillary.Calcs(log0) + NativeNames(done) &&
      (Ancillary.ResampledOnTarget(log0, config) ==> Ancillary.ResampledOnTarget(log, config)) &&
      forall k :: k !in Touched(done) ==> (k in maps <==> k in maps0) && (k in maps ==> maps[k] == maps0[k])
    }

    /** Computing `r` after `done` has computed `done + [r]`. */
    lemma ProgressStep(log0: seq<Command>, maps0: map<string, Map>, log1: seq<Command>, maps1: map<string, Map>,
                       log2: seq<Command>, maps2: map<string, Map>, done: seq<Recipe>, r: Recipe)
      requires Progress(log0, maps0, log1, maps1, done)
      requires Stepped(log1, log2, r.pft) && KeptBut(maps1, maps2, r.pft)
      ensures Progress(log0, maps0, log2, maps2, done + [r])
    {
      assert (done + [r])[..|done|] == done;
    }

    /** The six types both schemes end with, as the base class computes them. */
    function SharedRecipes(): seq<Recipe>
    {
      [C3GrassRecipe(), C4GrassRecipe(), CopyRecipe(SurfaceType.Urban, Crosswalk.Urban),
       CopyRecipe(SurfaceType.Water, Crosswalk.Water), CopyRecipe(SurfaceType.BareSoil, Crosswalk.BareSoil),
       CopyRecipe(SurfaceType.SnowIce, Crosswalk.SnowIce)]
    }

    /** The types a scheme computes before the shared ones. */
    function HeadRecipes(g: Grouping): seq<Recipe>
    {
      match g
      case Five => [TreeBroadleafRecipe(), TreeNeedleleafRecipe(), ShrubRecipe()]
      case Nine =>
        [TropicalRecipe(), TemperateRecipe(), CopyRecipe(TreeBroadleafDeciduous, TreesBroadleafDeciduous),
         CopyRecipe(TreeNeedleleafDeciduous, TreesNeedleleafDeciduous),
         CopyRecipe(TreeNeedleleafEvergreen, TreesNeedleleafEvergreen),
         ShrubEvergreenRecipe(), ShrubDeciduousRecipe()]
    }

    /** Every type of a scheme with its recipe, in the order `compute` produces them. */
    function Recipes(g: Grouping): seq<Recipe>
    {
      HeadRecipes(g) + SharedRecipes()
    }

    /** The types of a list of recipes, in order. */
    function Pfts(rs: seq<Recipe>): (ps: seq<SurfaceType>)
      ensures |ps| == |rs| && forall i :: 0 <= i < |rs| ==> ps[i] == rs[i].pft
    {
      seq(|rs|, i requires 0 <= i < |rs| => rs[i].pft)
    }

    /** The types of a concatenation are the concatenated types. */
    lemma PftsAppend(a: seq<Recipe>, b: seq<Recipe>)
      ensures Pfts(a + b) == Pfts(a) + Pfts(b)
    {
    }

    /** The scheme's own recipes compute its first types in call order. */
    lemma HeadRecipesOrder(g: Grouping)
      ensures Pfts(HeadRecipes(g)) == HeadOrder(g)
    {
    }

    /** The shared recipes compute the six shared types. */
    lemma SharedRecipesOrder()
      ensures Pfts(SharedRecipes()) == SharedTypes()
    {
    }

    /** The recipes list the scheme's types in compute order. */
    lemma RecipesOrder(g: Grouping)
      ensures Pfts(Recipes(g)) == ComputeOrder(g)
    {
      HeadRecipesOrder(g);
      SharedRecipesOrder();
      PftsAppend(HeadRecipes(g), SharedRecipes());
    }

    /**
     * The catalogue one type's step gives when run on `maps0`, where the
     * 2015 land-cover map exists and every command has a known result.
     */
    ghost function Expected(maps0: map<string, Map>, mask: Option<Mask>, r: Recipe): Option<map<string, Map>>
    {
      if LandCoverMap() in maps0 then
        Ancillary.StepMaps(maps0, mask, Ancillary.NativeRegion(maps0[LandCoverMap()].region, maps0, LandCoverMap(), config),
                           Ancillary.TargetRegion(config), r.inputs, r.f, NativeName(r.pft), TargetName(r.pft), overwrite)
      else None
    }

    /** The type's native and target maps in `maps` are its recipe over the catalogue `maps0`. */
    ghost predicate Produced(maps0: map<string, Map>, mask: Option<Mask>, maps: map<string, Map>, r: Recipe)
    {
      var s := Expected(maps0, mask, r);
      s.Some? ==>
        NativeName(r.pft) in maps && maps[NativeName(r.pft)] == s.value[NativeName(r.pft)] &&
        TargetName(r.pft) in maps && maps[TargetName(r.pft)] == s.value[TargetName(r.pft)]
    }

    /** Every type of `done` is produced from `maps0`. */
    ghost predicate Built(maps0: map<string, Map>, mask: Option<Mask>, maps: map<string, Map>, done: seq<Recipe>)
    {
      forall i :: 0 <= i < |done| ==> Produced(maps0, mask, maps, done[i])
    }

    /** The name k is neither map any of the recipes writes. */
    ghost predicate Unwritten(rs: seq<Recipe>, k: string)
    {
      forall i :: 0 <= i < |rs| ==> k != NativeName(rs[i].pft) && k != TargetName(rs[i].pft)
    }

    /**
     * Computing `r` after `done` reads nothing `done` wrote: its type is
     * new, and neither the land-cover map, nor its inputs, nor the mask
     * raster is a map of `done`.
     */
    ghost predicate Fresh(done: seq<Recipe>, r: Recipe, mask: Option<Mask>)
    {
      (forall i :: 0 <= i < |done| ==> done[i].pft != r.pft) &&
      Unwritten(done, LandCoverMap()) &&
      (forall l :: 0 <= l < |r.inputs| ==> Unwritten(done, r.inputs[l])) &&
      (mask.Some? ==> Unwritten(done, mask.value.raster))
    }

    /** Each recipe of the list is fresh after the ones before it. */
    ghost predicate Apart(rs: seq<Recipe>, mask: Option<Mask>)
    {
      forall j :: 0 <= j < |rs| ==> Fresh(rs[..j], rs[j], mask)
    }

    /**
     * The 2015 land-cover map exists, and neither the C4 and biome maps
     * given to the scheme nor the mask raster is a map `compute` writes.
     */
    ghost predicate Separate(g: Grouping, maps0: map<string, Map>, mask: Option<Mask>)
    {
      LandCoverMap() in maps0 &&
      Unwritten(Recipes(g), inputs.c4Natural) && Unwritten(Recipes(g), inputs.c4Crop) &&
      (g == Nine ==> Unwritten(Recipes(g), inputs.tropicalForest)) &&
      (mask.Some? ==> Unwritten(Recipes(g), mask.value.raster))
    }

    /** A name no recipe writes is not among the maps they touch. */
    lemma {:induction false} UnwrittenUntouched(k: string, rs: seq<Recipe>)
      requires Unwritten(rs, k)
      ensures k !in Touched(rs)
    {
      if |rs| > 0 {
        UnwrittenUntouched(k, rs[..|rs| - 1]);
      }
    }

    /** `compute` writes neither the land-cover map nor any crosswalk map. */
    lemma CrosswalkUnwritten(g: Grouping)
      ensures Unwritten(Recipes(g), LandCoverMap())
      ensures forall q :: Unwritten(Recipes(g), CrosswalkMap(q))
    {
      var y, rs := Landcover.ReferenceYear, Recipes(g);
      forall i | 0 <= i < |rs|
        ensures LandCoverMap() != NativeName(rs[i].pft) && LandCoverMap() != TargetName(rs[i].pft)
      {
        TypeNameInitial(rs[i].pft);
        NotJulesName(LandCoverMap(), TypeName(rs[i].pft), y, config.name, "_native");
        NotJulesName(LandCoverMap(), TypeName(rs[i].pft), y, config.name, ".tif");
      }
      forall q, i | 0 <= i < |rs|
        ensures CrosswalkMap(q) != NativeName(rs[i].pft) && CrosswalkMap(q) != TargetName(rs[i].pft)
      {
        TypeNameInitial(rs[i].pft);
        NotJulesName(CrosswalkMap(q), TypeName(rs[i].pft), y, config.name, "_native");
        NotJulesName(CrosswalkMap(q), TypeName(rs[i].pft), y, config.name, ".tif");
      }
    }

    /** A scheme computes each type once. */
    lemma RecipesDistinct(g: Grouping)
      ensures forall i, j :: 0 <= i < j < |Recipes(g)| ==> Recipes(g)[i].pft != Recipes(g)[j].pft
    {
      RecipesOrder(g);
      OrderDistinct(g);
      assert forall i :: 0 <= i < |Recipes(g)| ==> Recipes(g)[i].pft == Pfts(Recipes(g))[i];
    }

    /** The order lists no type twice. */
    lemma OrderDistinct(g: Grouping)
      ensures forall i, j :: 0 <= i < j < |ComputeOrder(g)| ==> ComputeOrder(g)[i] != ComputeOrder(g)[j]
    {
    }

    /** A map a recipe may read: a crosswalk map, a C4 map, or in the 9-PFT scheme the biome map. */
    ghost predicate Readable(g: Grouping, k: string)
    {
      (exists q :: k == CrosswalkMap(q)) || k == inputs.c4Natural || k == inputs.c4Crop ||
      (g == Nine && k == inputs.tropicalForest)
    }

    /** The shared recipes read only crosswalk and C4 maps. */
    lemma SharedReadable(g: Grouping)
      ensures forall j, l :: 0 <= j < |SharedRecipes()| && 0 <= l < |SharedRecipes()[j].inputs| ==>
        Readable(g, SharedRecipes()[j].inputs[l])
    {
      forall j, l | 0 <= j < |SharedRecipes()| && 0 <= l < |SharedRecipes()[j].inputs|
        ensures Readable(g, SharedRecipes()[j].inputs[l])
      {
        var ins := SharedRecipes()[j].inputs;
        if j >= 2 {
          assert ins[l] == CrosswalkMap(SharedSource(j));
        } else if l < 2 {
          assert ins[l] == CrosswalkMap([NaturalGrass, Crops][l]);
        }
      }
    }

    /** The crosswalk PFT the shared copy j copies. */
    function SharedSource(j: int): Pft
    {
      if j == 2 then Crosswalk.Urban else if j == 3 then Crosswalk.Water else if j == 4 then Crosswalk.BareSoil
      else Crosswalk.SnowIce
    }

    /** The scheme's own recipes read only maps they may read. */
    lemma HeadReadable(g: Grouping)
      ensures forall j, l :: 0 <= j < |HeadRecipes(g)| && 0 <= l < |HeadRecipes(g)[j].inputs| ==>
        Readable(g, HeadRecipes(g)[j].inputs[l])
    {
      forall j, l | 0 <= j < |HeadRecipes(g)| && 0 <= l < |HeadRecipes(g)[j].inputs|
        ensures Readable(g, HeadRecipes(g)[j].inputs[l])
      {
        RecipeInputReadable(g, j, l);
      }
    }

    /** Input l of head recipe j is a crosswalk map, or the biome map of the nine-type scheme. */
    lemma RecipeInputReadable(g: Grouping, j: nat, l: nat)
      requires j < |HeadRecipes(g)| && l < |HeadRecipes(g)[j].inputs|
      ensures Readable(g, HeadRecipes(g)[j].inputs[l])
    {
      var k := HeadRecipes(g)[j].inputs[l];
      if g == Five {
        assert k in {CrosswalkMap(TreesBroadleafDeciduous), CrosswalkMap(TreesBroadleafEvergreen),
                     CrosswalkMap(TreesNeedleleafDeciduous), CrosswalkMap(TreesNeedleleafEvergreen),
                     CrosswalkMap(ShrubsBroadleafDeciduous), CrosswalkMap(ShrubsBroadleafEvergreen),
                     CrosswalkMap(ShrubsNeedleleafDeciduous), CrosswalkMap(ShrubsNeedleleafEvergreen)};
      } else if j < 2 && l == 1 {
        assert k == inputs.tropicalForest;
      } else {
        assert k in {CrosswalkMap(TreesBroadleafDeciduous), CrosswalkMap(TreesBroadleafEvergreen),
                     CrosswalkMap(TreesNeedleleafDeciduous), CrosswalkMap(TreesNeedleleafEvergreen),
                     CrosswalkMap(ShrubsBroadleafDeciduous), CrosswalkMap(ShrubsBroadleafEvergreen),
                     CrosswalkMap(ShrubsNeedleleafDeciduous), CrosswalkMap(ShrubsNeedleleafEvergreen)};
      }
    }

    /** Every recipe of a scheme reads only maps it may read. */
    lemma RecipesReadable(g: Grouping)
      ensures forall j, l :: 0 <= j < |Recipes(g)| && 0 <= l < |Recipes(g)[j].inputs| ==>
        Readable(g, Recipes(g)[j].inputs[l])
    {
      SharedReadable(g);
      HeadReadable(g);
      var h := HeadRecipes(g);
      forall j | |h| <= j < |Recipes(g)|
        ensures Recipes(g)[j] == SharedRecipes()[j - |h|]
      {
      }
    }

    /** A name a list does not write, its prefixes do not write either. */
    lemma UnwrittenPrefix(rs: seq<Recipe>, j: nat, k: string)
      requires j <= |rs| && Unwritten(rs, k)
      ensures Unwritten(rs[..j], k)
    {
      assert forall i :: 0 <= i < j ==> rs[..j][i] == rs[i];
    }

    /** Kept apart from the outputs, a scheme's recipes are each fresh after the ones before. */
    lemma SeparateApart(g: Grouping, maps0: map<string, Map>, mask: Option<Mask>)
      requires Separate(g, maps0, mask)
      ensures Apart(Recipes(g), mask)
    {
      var rs := Recipes(g);
      RecipesDistinct(g);
      CrosswalkUnwritten(g);
      RecipesReadable(g);
      forall j | 0 <= j < |rs|
        ensures Fresh(rs[..j], rs[j], mask)
      {
        assert forall i :: 0 <= i < j ==> rs[..j][i] == rs[i];
        UnwrittenPrefix(rs, j, LandCoverMap());
        if mask.Some? {
          UnwrittenPrefix(rs, j, mask.value.raster);
        }
        forall l | 0 <= l < |rs[j].inputs|
          ensures Unwritten(rs[..j], rs[j].inputs[l])
        {
          UnwrittenPrefix(rs, j, rs[j].inputs[l]);
        }
      }
    }

    /** A fresh type, computed from a catalogue that agrees with `maps0` outside what `done` wrote, is produced from `maps0`. */
    lemma ProducedFresh(maps0: map<string, Map>, mask: Option<Mask>, region: Region, done: seq<Recipe>, r: Recipe,
                        before: map<string, Map>, after: map<string, Map>)
      requires LandCoverMap() in maps0 && Fresh(done, r, mask)
      requires forall k :: k !in Touched(done) ==> Agree(before, maps0, k)
      requires Computed(region, before, mask, after, r)
      ensures Produced(maps0, mask, after, r)
    {
      var lc := LandCoverMap();
      UnwrittenUntouched(lc, done);
      forall j | 0 <= j < |r.inputs|
        ensures Agree(before, maps0, r.inputs[j])
      {
        UnwrittenUntouched(r.inputs[j], done);
      }
      if mask.Some? {
        UnwrittenUntouched(mask.value.raster, done);
      }
      NamesUntouched(done, r.pft);
      var native := Ancillary.NativeRegion(region, before, lc, config);
      assert native == Ancillary.NativeRegion(maps0[lc].region, maps0, lc, config);
      Ancillary.StepMapsFrame(before, maps0, mask, native, Ancillary.TargetRegion(config), r.inputs, r.f,
                              NativeName(r.pft), TargetName(r.pft), overwrite);
    }

    /** A type none of `done` computes has maps none of `done` touches. */
    lemma NamesUntouched(done: seq<Recipe>, pft: SurfaceType)
      requires forall i :: 0 <= i < |done| ==> done[i].pft != pft
      ensures NativeName(pft) !in Touched(done) && TargetName(pft) !in Touched(done)
    {
      var y := Landcover.ReferenceYear;
      forall i | 0 <= i < |done|
        ensures NativeName(pft) != NativeName(done[i].pft) && NativeName(pft) != TargetName(done[i].pft)
        ensures TargetName(pft) != NativeName(done[i].pft) && TargetName(pft) != TargetName(done[i].pft)
      {
        TypeNamesApart(pft, done[i].pft);
        var a, b := TypeName(pft), TypeName(done[i].pft);
        JulesNamesDiffer(a, b, y, config.name, "_native", "_native");
        JulesNamesDiffer(a, b, y, config.name, "_native", ".tif");
        JulesNamesDiffer(a, b, y, config.name, ".tif", "_native");
        JulesNamesDiffer(a, b, y, config.name, ".tif", ".tif");
      }
      UnwrittenUntouched(NativeName(pft), done);
      UnwrittenUntouched(TargetName(pft), done);
    }

    /** Computing another type keeps a produced type's maps. */
    lemma ProducedKept(maps0: map<string, Map>, mask: Option<Mask>, before: map<string, Map>, after: map<string, Map>,
                       p: Recipe, r: Recipe)
      requires p.pft != r.pft && KeptBut(before, after, r.pft)
      requires Produced(maps0, mask, before, p)
      ensures Produced(maps0, mask, after, p)
    {
      var y := Landcover.ReferenceYear;
      TypeNamesApart(p.pft, r.pft);
      var a, b := TypeName(p.pft), TypeName(r.pft);
      JulesNamesDiffer(a, b, y, config.name, "_native", "_native");
      JulesNamesDiffer(a, b, y, config.name, "_native", ".tif");
      JulesNamesDiffer(a, b, y, config.name, ".tif", "_native");
      JulesNamesDiffer(a, b, y, config.name, ".tif", ".tif");
    }

    /**
     * Since `compute` started, the recipes `done` were computed in order
     * and, when the land-cover map exists and they are apart, produced.
     */
    ghost predicate Reached(log0: seq<Command>, maps0: map<string, Map>, mask: Option<Mask>,
                            log: seq<Command>, maps: map<string, Map>, done: seq<Recipe>)
    {
      Progress(log0, maps0, log, maps, done) &&
      (LandCoverMap() in maps0 && Apart(done, mask) ==> Built(maps0, mask, maps, done))
    }

    /** Apart lists stay apart without their last recipe. */
    lemma ApartPrefix(done: seq<Recipe>, r: Recipe, mask: Option<Mask>)
      requires Apart(done + [r], mask)
      ensures Apart(done, mask) && Fresh(done, r, mask)
    {
      var all := done + [r];
      assert all[..|done|] == done;
      forall j | 0 <= j < |done|
        ensures Fresh(done[..j], done[j], mask)
      {
        assert all[..j] == done[..j] && all[j] == done[j];
      }
    }

    /** One more type computed: `Reached` advances by its recipe. */
    lemma Advance(log0: seq<Command>, maps0: map<string, Map>, mask: Option<Mask>, region: Region,
                  log1: seq<Command>, before: map<string, Map>, log2: seq<Command>, after: map<string, Map>,
                  done: seq<Recipe>, r: Recipe)
      requires Reached(log0, maps0, mask, log1, before, done)
      requires Stepped(log1, log2, r.pft) && KeptBut(before, after, r.pft)
      requires Computed(region, before, mask, after, r)
      ensures Reached(log0, maps0, mask, log2, after, done + [r])
    {
      ProgressStep(log0, maps0, log1, before, log2, after, done, r);
      var all := done + [r];
      if LandCoverMap() in maps0 && Apart(all, mask) {
        ApartPrefix(done, r, mask);
        forall i | 0 <= i < |all|
          ensures Produced(maps0, mask, after, all[i])
        {
          if i < |done| {
            ProducedKept(maps0, mask, before, after, done[i], r);
          } else {
            ProducedFresh(maps0, mask, region, done, r, before, after);
          }
        }
      }
    }

    /**
     * The six types both schemes share, computed by the base class's
     * methods in the order both `compute` methods call them.
     */
    method ComputeShared(e: Engine, ghost log0: seq<Command>, ghost maps0: map<string, Map>, ghost done: seq<Recipe>)
      requires Reached(log0, maps0, e.mask, e.log, e.maps, done)
      modifies e
      ensures Reached(log0, maps0, e.mask, e.log, e.maps, done + SharedRecipes())
      ensures e.region == Ancillary.TargetRegion(config)
      ensures e.mask == old(e.mask) && e.saved == old(e.saved) && e.files == old(e.files)
    {
      ghost var d := done;
      ComputeC3Grass(e, log0, maps0, d);
      d := d + [C3GrassRecipe()];
      ComputeC4Grass(e, log0, maps0, d);
      d := d + [C4GrassRecipe()];
      ComputeCopy(e, SurfaceType.Urban, Crosswalk.Urban, log0, maps0, d);
      d := d + [CopyRecipe(SurfaceType.Urban, Crosswalk.Urban)];
      ComputeCopy(e, SurfaceType.Water, Crosswalk.Water, log0, maps0, d);
      d := d + [CopyRecipe(SurfaceType.Water, Crosswalk.Water)];
      ComputeCopy(e, SurfaceType.BareSoil, Crosswalk.BareSoil, log0, maps0, d);
      d := d + [CopyRecipe(SurfaceType.BareSoil, Crosswalk.BareSoil)];
      ComputeCopy(e, SurfaceType.SnowIce, Crosswalk.SnowIce, log0, maps0, d);
      d := d + [CopyRecipe(SurfaceType.SnowIce, Crosswalk.SnowIce)];
      SharedChain(done);
    }

    /** The shared recipes, appended one at a time. */
    lemma SharedChain(done: seq<Recipe>)
      ensures done + [C3GrassRecipe()] + [C4GrassRecipe()] + [CopyRecipe(SurfaceType.Urban, Crosswalk.Urban)] +
              [CopyRecipe(SurfaceType.Water, Crosswalk.Water)] + [CopyRecipe(SurfaceType.BareSoil, Crosswalk.BareSoil)] +
              [CopyRecipe(SurfaceType.SnowIce, Crosswalk.SnowIce)] == done + SharedRecipes()
    {
    }

    /**
     * `Poulter2015FivePFT.compute`: when the land-cover map exists and the
     * external inputs are kept apart from the outputs, each of the nine
     * types holds its recipe over the catalogue `compute` started from.
     */
    method ComputeFive(e: Engine)
      modifies e
      ensures Progress(old(e.log), old(e.maps), e.log, e.maps, Recipes(Five))
      ensures Separate(Five, old(e.maps), old(e.mask)) ==> Built(old(e.maps), e.mask, e.maps, Recipes(Five))
      ensures e.region == Ancillary.TargetRegion(config)
      ensures e.mask == old(e.mask) && e.saved == old(e.saved) && e.files == old(e.files)
    {
      ghost var log0, maps0 := e.log, e.maps;
      ghost var d: seq<Recipe> := [];
      ComputeTreeBroadleaf(e, log0, maps0, d);
      d := d + [TreeBroadleafRecipe()];
      ComputeTreeNeedleleaf(e, log0, maps0, d);
      d := d + [TreeNeedleleafRecipe()];
      ComputeShrub(e, log0, maps0, d);
      d := d + [ShrubRecipe()];
      FiveHeadChain();
      ComputeShared(e, log0, maps0, d);
      if Separate(Five, maps0, e.mask) {
        SeparateApart(Five, maps0, e.mask);
      }
    }

    /**
     * `Poulter2015NinePFT.compute`: the region is first set from the 2015
     * land-cover map clipped to the configured bounds, then the thirteen
     * types are computed (shrub_evergreen as evidently intended), each
     * holding its recipe over the catalogue `compute` started from.
     */
    method ComputeNine(e: Engine)
      modifies e
      ensures Progress(old(e.log), old(e.maps), e.log, e.maps, Recipes(Nine))
      ensures Separate(Nine, old(e.maps), old(e.mask)) ==> Built(old(e.maps), e.mask, e.maps, Recipes(Nine))
      ensures e.region == Ancillary.TargetRegion(config)
      ensures e.mask == old(e.mask) && e.saved == old(e.saved) && e.files == old(e.files)
    {
      ghost var log0, maps0 := e.log, e.maps;
      ghost var request := Ancillary.NativeRequest(e.region, e.maps, LandCoverMap(), config);
      var _ := GrassUtils.SetRegionFromRaster(e, LandCoverMap(), Some(config.north), Some(config.south),
                                              Some(config.east), Some(config.west));
      Ancillary.RegionCommandsKeep(log0, LandCoverMap(), request, Some(LandCoverMap()), config);
      ComputeNineHead(e, log0, maps0);
      ComputeShared(e, log0, maps0, HeadRecipes(Nine));
      if Separate(Nine, maps0, e.mask) {
        SeparateApart(Nine, maps0, e.mask);
      }
    }

    /** The seven 9-PFT types the base class does not compute, in the order `compute` calls them. */
    method ComputeNineHead(e: Engine, ghost log0: seq<Command>, ghost maps0: map<string, Map>)
      requires Progress(log0, maps0, e.log, e.maps, [])
      modifies e
      ensures Reached(log0, maps0, e.mask, e.log, e.maps, HeadRecipes(Nine))
      ensures e.region == Ancillary.TargetRegion(config)
      ensures e.mask == old(e.mask) && e.saved == old(e.saved) && e.files == old(e.files)
    {
      ghost var d: seq<Recipe> := [];
      ComputeTropical(e, log0, maps0, d);
      d := d + [TropicalRecipe()];
      ComputeTemperate(e, log0, maps0, d);
      d := d + [TemperateRecipe()];
      ComputeCopy(e, TreeBroadleafDeciduous, TreesBroadleafDeciduous, log0, maps0, d);
      d := d + [CopyRecipe(TreeBroadleafDeciduous, TreesBroadleafDeciduous)];
      ComputeCopy(e, TreeNeedleleafDeciduous, TreesNeedleleafDeciduous, log0, maps0, d);
      d := d + [CopyRecipe(TreeNeedleleafDeciduous, TreesNeedleleafDeciduous)];
      ComputeCopy(e, TreeNeedleleafEvergreen, TreesNeedleleafEvergreen, log0, maps0, d);
      d := d + [CopyRecipe(TreeNeedleleafEvergreen, TreesNeedleleafEvergreen)];
      ComputeShrubEvergreen(e, log0, maps0, d);
      d := d + [ShrubEvergreenRecipe()];
      ComputeShrubDeciduous(e, log0, maps0, d);
      d := d + [ShrubDeciduousRecipe()];
      NineHeadChain();
    }

    /** The 5-PFT scheme's own recipes, appended one at a time. */
    lemma FiveHeadChain()
      ensures [] + [TreeBroadleafRecipe()] + [TreeNeedleleafRecipe()] + [ShrubRecipe()] == HeadRecipes(Five)
    {
    }

    /** The 9-PFT scheme's own recipes, appended one at a time. */
    lemma NineHeadChain()
      ensures [] + [TropicalRecipe()] + [TemperateRecipe()] + [CopyRecipe(TreeBroadleafDeciduous, TreesBroadleafDeciduous)] +
              [CopyRecipe(TreeNeedleleafDeciduous, TreesNeedleleafDeciduous)] +
              [CopyRecipe(TreeNeedleleafEvergreen, TreesNeedleleafEvergreen)] +
              [ShrubEvergreenRecipe()] + [ShrubDeciduousRecipe()] == HeadRecipes(Nine)
    {
    }

    /**
     * `__init__`: `_compute_pfts` builds the crosswalk dataset over the
     * land-cover years and runs its `compute`, which raises a KeyError
     * unless 2015 is among them and a CalledModuleError from `g.region`
     * when some year's land-cover map does not exist; only then are the
     * scheme's map names set.
     * `div` is how the crosswalk step divides its CELL map by 1000:
     * `IntegerDivision` as written, `RealDivision` as intended.
     */
    static method Create(e: Engine, config: Ancillary.RegionConfig, grouping: Grouping, years: seq<int>,
                         inputs: InputMaps, overwrite: bool, div: DivSemantics) returns (r: Result<JulesPfts>)
      modifies e
      ensures r.Ok? <==> Landcover.ReferenceYear in years && Landcover.LandCoverPresent(old(e.maps), years)
      ensures Landcover.ReferenceYear !in years ==>
        (r == Err(KeyError(IntToString(Landcover.ReferenceYear))) &&
         e.log == old(e.log) && e.maps == old(e.maps) && e.files == old(e.files) && e.region == old(e.region))
      ensures Landcover.ReferenceYear in years && r.Err? ==> r == Err(CalledModuleError("g.region"))
      ensures r.Ok? ==> e.log == old(e.log) + [RegionFromRaster(Landcover.LandCoverName(Landcover.ReferenceYear))] +
                                 Landcover.ComputeLog(years, PftNames())
      ensures r.Ok? ==> (fresh(r.value) && r.value.config == config && r.value.grouping == grouping &&
                         r.value.years == years && r.value.inputs == inputs && r.value.overwrite == overwrite &&
                         r.value.pftNames == JulesNames(grouping) &&
                         r.value.mapnamesNative == JulesMapNames(years, JulesNames(grouping), config.name, "_native") &&
                         r.value.mapnames == JulesMapNames(years, JulesNames(grouping), config.name, ".tif"))
      ensures e.mask == old(e.mask) && e.saved == old(e.saved)
      ensures Landcover.FilesKept(old(e.files), e.files) && Landcover.MapsKept(old(e.maps), e.maps, years, PftNames())
      ensures r.Ok? && Landcover.MaskApart(e.mask, years, PftNames()) ==>
        forall y, p :: y in years && p in PftNames() && Landcover.Writable(overwrite, old(e.maps), y, p) ==>
          Landcover.Settled(div, old(e.maps), e.mask, e.maps, y, p)
    {
      var pfts := new Landcover.Poulter2015Pft(years, overwrite, div);
      Landcover.PftNamesTabulated();
      var c := pfts.Compute(e);
      if c.Err? {
        return Err(c.error);
      }
      var j := new JulesPfts(config, grouping, years, inputs, overwrite);
      return Ok(j);
    }

    /** The names the model uses are the ones `_set_mapnames` stored for 2015. */
    lemma MapnamesAgree(pft: SurfaceType)
      requires mapnamesNative == JulesMapNames(years, pftNames, config.name, "_native")
      requires mapnames == JulesMapNames(years, pftNames, config.name, ".tif")
      requires Landcover.ReferenceYear in years && TypeName(pft) in pftNames
      ensures Landcover.ReferenceYear in mapnamesNative && TypeName(pft) in mapnamesNative[Landcover.ReferenceYear]
      ensures mapnamesNative[Landcover.ReferenceYear][TypeName(pft)] == NativeName(pft)
      ensures Landcover.ReferenceYear in mapnames && TypeName(pft) in mapnames[Landcover.ReferenceYear]
      ensures mapnames[Landcover.ReferenceYear][TypeName(pft)] == TargetName(pft)
    {
    }


    /** The value at cell i of each type's native map (null counts 0). */
    ghost function NativeValues(maps: map<string, Map>, i: nat): SurfaceType -> real
    {
      t => V(CellOf(maps, NativeName(t), i))
    }

    /** The reference year's crosswalk fractions at cell i (null counts 0). */
    ghost function Fractions(maps: map<string, Map>, i: nat): Pft -> real
    {
      p => V(CellOf(maps, CrosswalkMap(p), i))
    }

    /** Every step of the scheme has a known result on the catalogue `maps0`. */
    ghost predicate Determined(g: Grouping, maps0: map<string, Map>, mask: Option<Mask>)
    {
      forall j :: 0 <= j < |Recipes(g)| ==> Expected(maps0, mask, Recipes(g)[j]).Some?
    }

    /** At cell i every crosswalk map and every map the scheme reads besides them holds a value. */
    ghost predicate Valued(g: Grouping, maps0: map<string, Map>, i: nat)
    {
      (forall p: Pft :: CellOf(maps0, CrosswalkMap(p), i).Val?) &&
      CellOf(maps0, inputs.c4Natural, i).Val? && CellOf(maps0, inputs.c4Crop, i).Val? &&
      (g == Nine ==> CellOf(maps0, inputs.tropicalForest, i).Val?)
    }

    /** The type's step may write both its maps: `overwrite` is on or neither exists in `maps0`. */
    ghost predicate Writable(maps0: map<string, Map>, r: Recipe)
    {
      overwrite || (NativeName(r.pft) !in maps0 && TargetName(r.pft) !in maps0)
    }

    /** Every step of the scheme may write its maps. */
    ghost predicate AllWritable(g: Grouping, maps0: map<string, Map>)
    {
      forall j :: 0 <= j < |Recipes(g)| ==> Writable(maps0, Recipes(g)[j])
    }

    /** The mask, read on the native grid of the 2015 land-cover map, admits cell i. */
    ghost predicate Admitted(maps0: map<string, Map>, mask: Option<Mask>, i: nat)
    {
      LandCoverMap() in maps0 &&
      MaskAllows(maps0, mask, Ancillary.NativeRegion(maps0[LandCoverMap()].region, maps0, LandCoverMap(), config), i)
    }

    /** The recipe was produced from `maps0` by a step with a known result that could write its maps. */
    ghost predicate Yielded(maps0: map<string, Map>, mask: Option<Mask>, maps: map<string, Map>, r: Recipe)
    {
      Writable(maps0, r) && Produced(maps0, mask, maps, r) && Expected(maps0, mask, r).Some?
    }

    /** Each recipe of rs was yielded. */
    ghost predicate Made(maps0: map<string, Map>, mask: Option<Mask>, maps: map<string, Map>, rs: seq<Recipe>)
    {
      forall j {:trigger Yielded(maps0, mask, maps, rs[j])} :: 0 <= j < |rs| ==> Yielded(maps0, mask, maps, rs[j])
    }

    /** Both parts of a made list are made. */
    lemma MadeSplit(maps0: map<string, Map>, mask: Option<Mask>, maps: map<string, Map>, a: seq<Recipe>, b: seq<Recipe>)
      requires Made(maps0, mask, maps, a + b)
      ensures Made(maps0, mask, maps, a) && Made(maps0, mask, maps, b)
    {
      assert forall j :: 0 <= j < |a| ==> (a + b)[j] == a[j];
      assert forall j :: 0 <= j < |b| ==> (a + b)[|a| + j] == b[j];
    }

    /**
     * Where a type's step has a known result, cell i of its native map is
     * its expression over the inputs' cells i, or null where the mask
     * excludes the cell.
     */
    lemma RecipeCell(maps0: map<string, Map>, mask: Option<Mask>, maps: map<string, Map>, r: Recipe, i: nat)
      requires Writable(maps0, r) && Produced(maps0, mask, maps, r) && Expected(maps0, mask, r).Some?
      requires |r.inputs| > 0 && CellOf(maps0, r.inputs[0], i).Val?
      ensures forall j :: 0 <= j < |r.inputs| ==> r.inputs[j] in maps0 && i < |maps0[r.inputs[j]].cells|
      ensures CellOf(maps, NativeName(r.pft), i) ==
              (if Admitted(maps0, mask, i) then r.f(CellsAt(maps0, r.inputs, i)) else Null)
    {
      var lc := LandCoverMap();
      var native := Ancillary.NativeRegion(maps0[lc].region, maps0, lc, config);
      JulesNamesDiffer(TypeName(r.pft), TypeName(r.pft), Landcover.ReferenceYear, config.name, "_native", ".tif");
      Ancillary.StepMapsWritten(maps0, mask, native, Ancillary.TargetRegion(config), r.inputs, r.f,
                                NativeName(r.pft), TargetName(r.pft), overwrite);
      var c := CalcOutcome(maps0, mask, native, r.inputs, r.f);
      assert maps[NativeName(r.pft)] == c.result;
    }

    /** The same with the input cells read by name: the native value is the expression over them. */
    lemma RecipeValue(maps0: map<string, Map>, mask: Option<Mask>, maps: map<string, Map>, r: Recipe, i: nat)
      requires Yielded(maps0, mask, maps, r)
      requires |r.inputs| > 0 && CellOf(maps0, r.inputs[0], i).Val?
      ensures NativeValues(maps, i)(r.pft) == (if Admitted(maps0, mask, i) then V(r.f(Args(maps0, r.inputs, i))) else 0.0)
    {
      RecipeCell(maps0, mask, maps, r, i);
      if Admitted(maps0, mask, i) {
        assert CellsAt(maps0, r.inputs, i) == Args(maps0, r.inputs, i);
      }
    }

    /** A copied type's native cell holds its crosswalk fraction. */
    lemma CopyValue(maps0: map<string, Map>, mask: Option<Mask>, maps: map<string, Map>, rs: seq<Recipe>, j: nat,
                    t: SurfaceType, p: Pft, i: nat)
      requires Made(maps0, mask, maps, rs) && j < |rs| && rs[j] == CopyRecipe(t, p)
      requires CellOf(maps0, CrosswalkMap(p), i).Val?
      ensures NativeValues(maps, i)(t) == if Admitted(maps0, mask, i) then Fractions(maps0, i)(p) else 0.0
    {
      assert Yielded(maps0, mask, maps, rs[j]);
      RecipeValue(maps0, mask, maps, CopyRecipe(t, p), i);
    }

    /** A summed type's native cell holds the sum of its two crosswalk fractions. */
    lemma SumValue(maps0: map<string, Map>, mask: Option<Mask>, maps: map<string, Map>, rs: seq<Recipe>, j: nat,
                   t: SurfaceType, a: Pft, b: Pft, i: nat)
      requires Made(maps0, mask, maps, rs) && j < |rs| && rs[j] == SumRecipe(t, a, b)
      requires CellOf(maps0, CrosswalkMap(a), i).Val? && CellOf(maps0, CrosswalkMap(b), i).Val?
      ensures NativeValues(maps, i)(t) ==
              if Admitted(maps0, mask, i) then Fractions(maps0, i)(a) + Fractions(maps0, i)(b) else 0.0
    {
      assert Yielded(maps0, mask, maps, rs[j]);
      RecipeValue(maps0, mask, maps, SumRecipe(t, a, b), i);
    }

    /** The shrub type's native cell holds the four shrub fractions. */
    lemma ShrubValue(maps0: map<string, Map>, mask: Option<Mask>, maps: map<string, Map>, rs: seq<Recipe>, j: nat, i: nat)
      requires Made(maps0, mask, maps, rs) && j < |rs| && rs[j] == ShrubRecipe() && Valued(Five, maps0, i)
      ensures var f := Fractions(maps0, i);
        NativeValues(maps, i)(Shrub) ==
        if Admitted(maps0, mask, i)
        then f(ShrubsBroadleafDeciduous) + f(ShrubsBroadleafEvergreen) + f(ShrubsNeedleleafDeciduous) + f(ShrubsNeedleleafEvergreen)
        else 0.0
    {
      assert Yielded(maps0, mask, maps, rs[j]);
      RecipeValue(maps0, mask, maps, ShrubRecipe(), i);
    }

    /** C3 and C4 grass together hold natural grass and crops, whatever the C4 fractions. */
    lemma GrassValues(g: Grouping, maps0: map<string, Map>, mask: Option<Mask>, maps: map<string, Map>, rs: seq<Recipe>, j: nat, i: nat)
      requires Made(maps0, mask, maps, rs) && j + 1 < |rs| && rs[j] == C3GrassRecipe() && rs[j + 1] == C4GrassRecipe()
      requires Valued(g, maps0, i)
      ensures var f := Fractions(maps0, i);
        NativeValues(maps, i)(C3Grass) + NativeValues(maps, i)(C4Grass) ==
        if Admitted(maps0, mask, i) then f(NaturalGrass) + f(Crops) else 0.0
    {
      assert Yielded(maps0, mask, maps, rs[j]) && Yielded(maps0, mask, maps, rs[j + 1]);
      RecipeValue(maps0, mask, maps, C3GrassRecipe(), i);
      RecipeValue(maps0, mask, maps, C4GrassRecipe(), i);
      GrassSplit(CellOf(maps0, CrosswalkMap(NaturalGrass), i), CellOf(maps0, CrosswalkMap(Crops), i),
                 CellOf(maps0, inputs.c4Natural, i), CellOf(maps0, inputs.c4Crop, i));
    }

    /** Tropical and temperate broadleaf evergreen together hold the broadleaf evergreen fraction, whatever the biome. */
    lemma BroadleafValues(maps0: map<string, Map>, mask: Option<Mask>, maps: map<string, Map>, rs: seq<Recipe>, j: nat, i: nat)
      requires Made(maps0, mask, maps, rs) && j + 1 < |rs| && rs[j] == TropicalRecipe() && rs[j + 1] == TemperateRecipe()
      requires Valued(Nine, maps0, i)
      ensures NativeValues(maps, i)(TreeBroadleafEvergreenTropical) + NativeValues(maps, i)(TreeBroadleafEvergreenTemperate) ==
              if Admitted(maps0, mask, i) then Fractions(maps0, i)(TreesBroadleafEvergreen) else 0.0
    {
      assert Yielded(maps0, mask, maps, rs[j]) && Yielded(maps0, mask, maps, rs[j + 1]);
      RecipeValue(maps0, mask, maps, TropicalRecipe(), i);
      RecipeValue(maps0, mask, maps, TemperateRecipe(), i);
      BroadleafSplit(CellOf(maps0, CrosswalkMap(TreesBroadleafEvergreen), i), CellOf(maps0, inputs.tropicalForest, i));
    }

    /** The six shared types at cell i hold natural grass, crops and the four copied fractions. */
    lemma SharedValues(g: Grouping, maps0: map<string, Map>, mask: Option<Mask>, maps: map<string, Map>, i: nat)
      requires Made(maps0, mask, maps, SharedRecipes()) && Valued(g, maps0, i)
      ensures var f := Fractions(maps0, i);
        TypeTotal(SharedTypes(), NativeValues(maps, i)) ==
        if Admitted(maps0, mask, i)
        then f(NaturalGrass) + f(Crops) + f(Crosswalk.Urban) + f(Crosswalk.Water) + f(Crosswalk.BareSoil) + f(Crosswalk.SnowIce)
        else 0.0
    {
      SharedTotal(NativeValues(maps, i));
      GrassValues(g, maps0, mask, maps, SharedRecipes(), 0, i);
      CopiedValues(g, maps0, mask, maps, i);
    }

    /** The four copied shared types at cell i hold their crosswalk fractions. */
    lemma CopiedValues(g: Grouping, maps0: map<string, Map>, mask: Option<Mask>, maps: map<string, Map>, i: nat)
      requires Made(maps0, mask, maps, SharedRecipes()) && Valued(g, maps0, i)
      ensures var f, v := Fractions(maps0, i), NativeValues(maps, i);
        v(SurfaceType.Urban) + v(SurfaceType.Water) + v(SurfaceType.BareSoil) + v(SurfaceType.SnowIce) ==
        if Admitted(maps0, mask, i)
        then f(Crosswalk.Urban) + f(Crosswalk.Water) + f(Crosswalk.BareSoil) + f(Crosswalk.SnowIce)
        else 0.0
    {
      var rs := SharedRecipes();
      CopyValue(maps0, mask, maps, rs, 2, SurfaceType.Urban, Crosswalk.Urban, i);
      CopyValue(maps0, mask, maps, rs, 3, SurfaceType.Water, Crosswalk.Water, i);
      CopyValue(maps0, mask, maps, rs, 4, SurfaceType.BareSoil, Crosswalk.BareSoil, i);
      CopyValue(maps0, mask, maps, rs, 5, SurfaceType.SnowIce, Crosswalk.SnowIce, i);
    }

    /** The 5-PFT scheme's three own types at cell i hold the eight tree and shrub fractions. */
    lemma FiveHeadValues(maps0: map<string, Map>, mask: Option<Mask>, maps: map<string, Map>, i: nat)
      requires Made(maps0, mask, maps, HeadRecipes(Five)) && Valued(Five, maps0, i)
      ensures var f := Fractions(maps0, i);
        TypeTotal(HeadTypes(Five), NativeValues(maps, i)) ==
        if Admitted(maps0, mask, i)
        then f(TreesBroadleafEvergreen) + f(TreesBroadleafDeciduous) + f(TreesNeedleleafEvergreen) + f(TreesNeedleleafDeciduous) +
             f(ShrubsBroadleafEvergreen) + f(ShrubsBroadleafDeciduous) + f(ShrubsNeedleleafEvergreen) + f(ShrubsNeedleleafDeciduous)
        else 0.0
    {
      var rs := HeadRecipes(Five);
      HeadTotal(Five, NativeValues(maps, i));
      SumValue(maps0, mask, maps, rs, 0, TreeBroadleaf, TreesBroadleafDeciduous, TreesBroadleafEvergreen, i);
      SumValue(maps0, mask, maps, rs, 1, TreeNeedleleaf, TreesNeedleleafDeciduous, TreesNeedleleafEvergreen, i);
      ShrubValue(maps0, mask, maps, rs, 2, i);
    }

    /** The 9-PFT scheme's five tree types at cell i hold the four tree fractions. */
    lemma NineTreeValues(maps0: map<string, Map>, mask: Option<Mask>, maps: map<string, Map>, i: nat)
      requires Made(maps0, mask, maps, HeadRecipes(Nine)) && Valued(Nine, maps0, i)
      ensures var f, v := Fractions(maps0, i), NativeValues(maps, i);
        v(TreeBroadleafEvergreenTropical) + v(TreeBroadleafEvergreenTemperate) + v(TreeBroadleafDeciduous) +
        v(TreeNeedleleafEvergreen) + v(TreeNeedleleafDeciduous) ==
        if Admitted(maps0, mask, i)
        then f(TreesBroadleafEvergreen) + f(TreesBroadleafDeciduous) + f(TreesNeedleleafEvergreen) + f(TreesNeedleleafDeciduous)
        else 0.0
    {
      var rs := HeadRecipes(Nine);
      BroadleafValues(maps0, mask, maps, rs, 0, i);
      CopyValue(maps0, mask, maps, rs, 2, TreeBroadleafDeciduous, TreesBroadleafDeciduous, i);
      CopyValue(maps0, mask, maps, rs, 3, TreeNeedleleafDeciduous, TreesNeedleleafDeciduous, i);
      CopyValue(maps0, mask, maps, rs, 4, TreeNeedleleafEvergreen, TreesNeedleleafEvergreen, i);
    }

    /** The 9-PFT scheme's two shrub types at cell i hold the four shrub fractions. */
    lemma NineShrubValues(maps0: map<string, Map>, mask: Option<Mask>, maps: map<string, Map>, i: nat)
      requires Made(maps0, mask, maps, HeadRecipes(Nine)) && Valued(Nine, maps0, i)
      ensures var f, v := Fractions(maps0, i), NativeValues(maps, i);
        v(ShrubEvergreen) + v(ShrubDeciduous) ==
        if Admitted(maps0, mask, i)
        then f(ShrubsBroadleafEvergreen) + f(ShrubsBroadleafDeciduous) + f(ShrubsNeedleleafEvergreen) + f(ShrubsNeedleleafDeciduous)
        else 0.0
    {
      var rs := HeadRecipes(Nine);
      SumValue(maps0, mask, maps, rs, 5, ShrubEvergreen, ShrubsBroadleafEvergreen, ShrubsNeedleleafEvergreen, i);
      SumValue(maps0, mask, maps, rs, 6, ShrubDeciduous, ShrubsBroadleafDeciduous, ShrubsNeedleleafDeciduous, i);
    }

    /**
     * The 9-PFT scheme's seven own types at cell i hold the same eight
     * fractions, broadleaf evergreen split by the biome indicator.
     */
    lemma NineHeadValues(maps0: map<string, Map>, mask: Option<Mask>, maps: map<string, Map>, i: nat)
      requires Made(maps0, mask, maps, HeadRecipes(Nine)) && Valued(Nine, maps0, i)
      ensures var f := Fractions(maps0, i);
        TypeTotal(HeadTypes(Nine), NativeValues(maps, i)) ==
        if Admitted(maps0, mask, i)
        then f(TreesBroadleafEvergreen) + f(TreesBroadleafDeciduous) + f(TreesNeedleleafEvergreen) + f(TreesNeedleleafDeciduous) +
             f(ShrubsBroadleafEvergreen) + f(ShrubsBroadleafDeciduous) + f(ShrubsNeedleleafEvergreen) + f(ShrubsNeedleleafDeciduous)
        else 0.0
    {
      HeadTotal(Nine, NativeValues(maps, i));
      NineTreeValues(maps0, mask, maps, i);
      NineShrubValues(maps0, mask, maps, i);
    }

    /** A built scheme whose steps all have known results has made both parts of its recipe list. */
    lemma BuiltMade(g: Grouping, maps0: map<string, Map>, mask: Option<Mask>, maps: map<string, Map>)
      requires AllWritable(g, maps0) && Built(maps0, mask, maps, Recipes(g)) && Determined(g, maps0, mask)
      ensures Made(maps0, mask, maps, HeadRecipes(g)) && Made(maps0, mask, maps, SharedRecipes())
    {
      var rs := Recipes(g);
      forall j | 0 <= j < |rs|
        ensures Yielded(maps0, mask, maps, rs[j])
      {
        assert Writable(maps0, rs[j]) && Produced(maps0, mask, maps, rs[j]) && Expected(maps0, mask, rs[j]).Some?;
      }
      MadeSplit(maps0, mask, maps, HeadRecipes(g), SharedRecipes());
    }

    /**
     * Grouping loses nothing: after `compute`, at a cell the mask lets
     * through and where every input holds a value, the scheme's native
     * maps sum to the fourteen crosswalk fractions; outside the mask they
     * are all null.
     */
    lemma GroupedNativeTotal(g: Grouping, maps0: map<string, Map>, mask: Option<Mask>, maps: map<string, Map>, i: nat)
      requires AllWritable(g, maps0) && Built(maps0, mask, maps, Recipes(g)) && Determined(g, maps0, mask) && Valued(g, maps0, i)
      ensures Admitted(maps0, mask, i) ==> TypeTotal(Types(g), NativeValues(maps, i)) == PftSum(Fractions(maps0, i))
      ensures !Admitted(maps0, mask, i) ==> TypeTotal(Types(g), NativeValues(maps, i)) == 0.0
    {
      var f, v := Fractions(maps0, i), NativeValues(maps, i);
      var trees := f(TreesBroadleafEvergreen) + f(TreesBroadleafDeciduous) + f(TreesNeedleleafEvergreen) +
        f(TreesNeedleleafDeciduous) + f(ShrubsBroadleafEvergreen) + f(ShrubsBroadleafDeciduous) +
        f(ShrubsNeedleleafEvergreen) + f(ShrubsNeedleleafDeciduous);
      var rest := f(NaturalGrass) + f(Crops) + f(Crosswalk.Urban) + f(Crosswalk.Water) + f(Crosswalk.BareSoil) +
        f(Crosswalk.SnowIce);
      BuiltMade(g, maps0, mask, maps);
      PftSumParts(f);
      TypeTotalAppend(HeadTypes(g), SharedTypes(), v);
      SharedValues(g, maps0, mask, maps, i);
      if g == Five {
        FiveHeadValues(maps0, mask, maps, i);
      } else {
        NineHeadValues(maps0, mask, maps, i);
      }
      assert TypeTotal(HeadTypes(g), v) == if Admitted(maps0, mask, i) then trees else 0.0;
      assert TypeTotal(SharedTypes(), v) == if Admitted(maps0, mask, i) then rest else 0.0;
    }

    /** `compute` of the scheme the object was built for. */
    method Compute(e: Engine)
      modifies e
      ensures Progress(old(e.log), old(e.maps), e.log, e.maps, Recipes(grouping))
      ensures Separate(grouping, old(e.maps), old(e.mask)) ==> Built(old(e.maps), e.mask, e.maps, Recipes(grouping))
      ensures e.region == Ancillary.TargetRegion(config)
      ensures e.mask == old(e.mask) && e.saved == old(e.saved) && e.files == old(e.files)
    {
      match grouping
      case Five => ComputeFive(e);
      case Nine => ComputeNine(e);
    }
  }
}
