// Constant tables shared by the processing steps: the named regions (every
// extent at every resolution), the SoilGrids vocabularies, the Zhang-Schaap
// per-texture-class van Genuchten parameters and the two suctions at which
// soil water content is evaluated.
module Constants {
  import opened Strings

  // ---- named regions ----

  /** The fifteen grid resolutions, in degrees, in table order. */
  const Resolutions: seq<real> := [0.5, 0.25, 0.1, 0.125, 1.0 / 12.0, 0.0625, 0.05, 1.0 / 24.0, 1.0 / 60.0,
                                   0.01, 1.0 / 120.0, 1.0 / 240.0, 1.0 / 480.0, 1.0 / 360.0, 1.0 / 1200.0]

  /** The extent names, in insertion order. */
  const ExtentNames: seq<string> := ["globe", "uk"]

  /** Each extent as [west, south, east, north]. */
  function ExtentOf(name: string): seq<real>
  {
    if name == "globe" then [-180.0, -90.0, 180.0, 90.0] else [-8.0, 49.0, 2.0, 59.0]
  }

  /** A `REGIONS` entry: the extent and the resolution. */
  datatype RegionSpec = RegionSpec(extent: seq<real>, res: real)

  /** A positive resolution rounded to the nearest millionth of a degree. */
  function Micro(res: real): nat
  {
    var u := (res * 1000000.0 + 0.5).Floor;
    if u < 0 then 0 else u
  }

  /** `f'{ext_name}_{res:.6f}Deg'`. */
  function RegionName(ext: string, res: real): string
  {
    ext + "_" + Fixed6(Micro(res)) + "Deg"
  }

  /** Different positions of the two lists get different keys. */
  predicate Separable(key: (string, real) -> string, exts: seq<string>, ress: seq<real>)
  {
    forall a, b, c, d {:trigger key(exts[a], ress[b]), key(exts[c], ress[d])} ::
      (0 <= a < |exts| && 0 <= b < |ress| && 0 <= c < |exts| && 0 <= d < |ress| &&
       key(exts[a], ress[b]) == key(exts[c], ress[d])) ==> a == c && b == d
  }

  /**
   * Lists whose region names cannot collide: extent names are distinct and
   * free of '_', and the resolutions round to distinct millionths.
   */
  predicate Distinguishable(exts: seq<string>, ress: seq<real>)
  {
    && (forall i :: 0 <= i < |exts| ==> '_' !in exts[i])
    && (forall i, k :: 0 <= i < |exts| && 0 <= k < |exts| && i != k ==> exts[i] != exts[k])
    && (forall j, l :: 0 <= j < |ress| && 0 <= l < |ress| && j != l ==> Micro(ress[j]) != Micro(ress[l]))
  }

  /** The rounded resolutions, in table order. */
  const Micros: seq<nat> := [500000, 250000, 100000, 125000, 83333, 62500, 50000, 41667, 16667,
                             10000, 8333, 4167, 2083, 2778, 833]

  lemma MicrosOfResolutions()
    ensures |Resolutions| == |Micros|
    ensures forall j :: 0 <= j < |Resolutions| ==> Micro(Resolutions[j]) == Micros[j]
  {
    assert Micro(1.0 / 12.0) == 83333;
    assert Micro(1.0 / 24.0) == 41667;
    assert Micro(1.0 / 60.0) == 16667;
    assert Micro(1.0 / 120.0) == 8333;
    assert Micro(1.0 / 240.0) == 4167;
    assert Micro(1.0 / 480.0) == 2083;
    assert Micro(1.0 / 360.0) == 2778;
    assert Micro(1.0 / 1200.0) == 833;
  }

  /** The two extents and fifteen resolutions of the table are distinguishable. */
  lemma TableDistinguishable()
    ensures Distinguishable(ExtentNames, Resolutions)
  {
    MicrosOfResolutions();
    assert forall j, l :: 0 <= j < |Micros| && 0 <= l < |Micros| && j != l ==> Micros[j] != Micros[l];
  }

  /** Two names agree only for the same extent and the same rounded resolution. */
  lemma RegionNameInjective(e1: string, r1: real, e2: string, r2: real)
    requires '_' !in e1 && '_' !in e2
    requires RegionName(e1, r1) == RegionName(e2, r2)
    ensures e1 == e2 && Micro(r1) == Micro(r2)
  {
    var s1, s2 := Fixed6(Micro(r1)), Fixed6(Micro(r2));
    assert RegionName(e1, r1) == e1 + ['_'] + (s1 + "Deg");
    assert RegionName(e2, r2) == e2 + ['_'] + (s2 + "Deg");
    SplitAtSeparator(e1, s1 + "Deg", e2, s2 + "Deg", '_');
    assert s1 == (s1 + "Deg")[..|s1|];
    assert s2 == (s2 + "Deg")[..|s2|];
    Fixed6Injective(Micro(r1), Micro(r2));
  }

  /** Distinguishable lists give each extent and resolution its own region name. */
  lemma NamesSeparable(exts: seq<string>, ress: seq<real>)
    requires Distinguishable(exts, ress)
    ensures Separable(RegionName, exts, ress)
  {
    forall a, b, c, d | 0 <= a < |exts| && 0 <= b < |ress| && 0 <= c < |exts| && 0 <= d < |ress| &&
      RegionName(exts[a], ress[b]) == RegionName(exts[c], ress[d])
      ensures a == c && b == d
    {
      RegionNameInjective(exts[a], ress[b], exts[c], ress[d]);
    }
  }

  /** The table's thirty names are pairwise different. */
  lemma TableSeparable()
    ensures Separable(RegionName, ExtentNames, Resolutions)
    ensures |ExtentNames| * |Resolutions| == 30
  {
    TableDistinguishable();
    NamesSeparable(ExtentNames, Resolutions);
  }

  /** Position (a, b) comes before position (i, j) in the loop order. */
  predicate Before(a: nat, b: nat, i: nat, j: nat)
  {
    a < i || (a == i && b < j)
  }

  /** The names assigned before position (i, j) of the loop. */
  function KeysBefore(key: (string, real) -> string, exts: seq<string>, ress: seq<real>, i: nat, j: nat): set<string>
    requires i <= |exts| && j <= |ress| && (i == |exts| ==> j == 0)
    decreases i, j
  {
    if j > 0 then KeysBefore(key, exts, ress, i, j - 1) + {key(exts[i], ress[j - 1])}
    else if i > 0 then KeysBefore(key, exts, ress, i - 1, |ress|)
    else {}
  }

  /** Every name assigned before (i, j) is the name of an earlier position. */
  lemma {:induction false} KeysBeforeHas(key: (string, real) -> string, exts: seq<string>, ress: seq<real>,
                                         i: nat, j: nat, k: string)
    requires i <= |exts| && j <= |ress| && (i == |exts| ==> j == 0)
    requires k in KeysBefore(key, exts, ress, i, j)
    ensures exists a, b :: 0 <= a < |exts| && 0 <= b < |ress| && Before(a, b, i, j) && k == key(exts[a], ress[b])
    decreases i, j
  {
    if j > 0 {
      if k == key(exts[i], ress[j - 1]) {
        assert Before(i, j - 1, i, j);
      } else {
        KeysBeforeHas(key, exts, ress, i, j - 1, k);
        var a, b :| 0 <= a < |exts| && 0 <= b < |ress| && Before(a, b, i, j - 1) && k == key(exts[a], ress[b]);
        assert Before(a, b, i, j);
      }
    } else if i > 0 {
      KeysBeforeHas(key, exts, ress, i - 1, |ress|, k);
      var a, b :| 0 <= a < |exts| && 0 <= b < |ress| && Before(a, b, i - 1, |ress|) && k == key(exts[a], ress[b]);
      assert Before(a, b, i, 0);
    }
  }

  /** What the dictionary holds once the loop has reached extent i and resolution j. */
  predicate Tabulates(t: map<string, RegionSpec>, key: (string, real) -> string, exts: seq<string>, ress: seq<real>,
                      i: nat, j: nat)
    requires i <= |exts| && j <= |ress| && (i == |exts| ==> j == 0)
  {
    && t.Keys == KeysBefore(key, exts, ress, i, j)
    && (forall a, b :: 0 <= a < |exts| && 0 <= b < |ress| && Before(a, b, i, j) ==>
          key(exts[a], ress[b]) in t && t[key(exts[a], ress[b])] == RegionSpec(ExtentOf(exts[a]), ress[b]))
  }

  /** One more resolution of extent i adds one fresh key. */
  lemma TableStep(t: map<string, RegionSpec>, key: (string, real) -> string, exts: seq<string>, ress: seq<real>,
                  i: nat, j: nat)
    requires Separable(key, exts, ress)
    requires i < |exts| && j < |ress|
    requires Tabulates(t, key, exts, ress, i, j)
    ensures key(exts[i], ress[j]) !in t
    ensures Tabulates(t[key(exts[i], ress[j]) := RegionSpec(ExtentOf(exts[i]), ress[j])], key, exts, ress, i, j + 1)
  {
    var k0 := key(exts[i], ress[j]);
    var t' := t[k0 := RegionSpec(ExtentOf(exts[i]), ress[j])];
    assert k0 !in t by {
      if k0 in t {
        KeysBeforeHas(key, exts, ress, i, j, k0);
      }
    }
    forall a, b | 0 <= a < |exts| && 0 <= b < |ress| && Before(a, b, i, j + 1)
      ensures key(exts[a], ress[b]) in t' && t'[key(exts[a], ress[b])] == RegionSpec(ExtentOf(exts[a]), ress[b])
    {
      if !(a == i && b == j) {
        assert Before(a, b, i, j);
        assert key(exts[a], ress[b]) in t;
      }
    }
  }

  /** Finishing the resolutions of extent i is starting extent i + 1. */
  lemma TableRow(t: map<string, RegionSpec>, key: (string, real) -> string, exts: seq<string>, ress: seq<real>, i: nat)
    requires i < |exts|
    requires Tabulates(t, key, exts, ress, i, |ress|)
    ensures Tabulates(t, key, exts, ress, i + 1, 0)
  {
    forall a, b | 0 <= a < |exts| && 0 <= b < |ress| && Before(a, b, i + 1, 0)
      ensures Before(a, b, i, |ress|)
    {
    }
  }

  /** After the last extent every name of the two lists is assigned its extent and resolution. */
  lemma TableComplete(t: map<string, RegionSpec>, key: (string, real) -> string, exts: seq<string>, ress: seq<real>)
    requires Tabulates(t, key, exts, ress, |exts|, 0)
    ensures forall a, b :: 0 <= a < |exts| && 0 <= b < |ress| ==>
      key(exts[a], ress[b]) in t && t[key(exts[a], ress[b])] == RegionSpec(ExtentOf(exts[a]), ress[b])
  {
    forall a, b | 0 <= a < |exts| && 0 <= b < |ress| ensures Before(a, b, |exts|, 0) {
    }
  }

  lemma MulSucc(i: nat, n: nat)
    ensures i * n + n == (i + 1) * n
  {
  }

  /** Distinct keys: one name per position before (i, j). */
  lemma {:induction false} KeysBeforeCount(key: (string, real) -> string, exts: seq<string>, ress: seq<real>, i: nat, j: nat)
    requires Separable(key, exts, ress)
    requires i <= |exts| && j <= |ress| && (i == |exts| ==> j == 0)
    ensures |KeysBefore(key, exts, ress, i, j)| == i * |ress| + j
    decreases i, j
  {
    if j > 0 {
      KeysBeforeCount(key, exts, ress, i, j - 1);
      var k0 := key(exts[i], ress[j - 1]);
      assert k0 !in KeysBefore(key, exts, ress, i, j - 1) by {
        if k0 in KeysBefore(key, exts, ress, i, j - 1) {
          KeysBeforeHas(key, exts, ress, i, j - 1, k0);
        }
      }
    } else if i > 0 {
      KeysBeforeCount(key, exts, ress, i - 1, |ress|);
      MulSucc(i - 1, |ress|);
    }
  }

  /** After the last extent the dictionary has one entry per extent and resolution. */
  lemma TableSize(t: map<string, RegionSpec>, key: (string, real) -> string, exts: seq<string>, ress: seq<real>)
    requires Separable(key, exts, ress)
    requires Tabulates(t, key, exts, ress, |exts|, 0)
    ensures |t| == |exts| * |ress|
  {
    KeysBeforeCount(key, exts, ress, |exts|, 0);
    assert |t| == |t.Keys|;
  }

  /** After the last extent the dictionary holds no other name. */
  lemma TableOnly(t: map<string, RegionSpec>, key: (string, real) -> string, exts: seq<string>, ress: seq<real>)
    requires Tabulates(t, key, exts, ress, |exts|, 0)
    ensures forall k :: k in t ==> exists a, b :: 0 <= a < |exts| && 0 <= b < |ress| && k == key(exts[a], ress[b])
  {
    forall k | k in t ensures exists a, b :: 0 <= a < |exts| && 0 <= b < |ress| && k == key(exts[a], ress[b]) {
      KeysBeforeHas(key, exts, ress, |exts|, 0, k);
    }
  }

  /**
   * The construction of `REGIONS` from the extent and resolution lists:
   * for each extent, for each resolution, the name `key(extent, res)` is
   * assigned that extent and resolution. `REGIONS` itself is
   * `BuildRegions(RegionName, ExtentNames, Resolutions)`: its names are
   * `{extent}_{res:.6f}Deg`, no two of them collide (`TableSeparable`), so
   * it has one entry per extent and resolution, 30 in all, and
   * `TableOnly` states that it holds no other key.
   */
  method BuildRegions(key: (string, real) -> string, exts: seq<string>, ress: seq<real>) returns (regions: map<string, RegionSpec>)
    ensures Separable(key, exts, ress) ==> Tabulates(regions, key, exts, ress, |exts|, 0)
    ensures Separable(key, exts, ress) ==> |regions| == |exts| * |ress|
    ensures Separable(key, exts, ress) ==>
      forall i, j :: 0 <= i < |exts| && 0 <= j < |ress| ==>
        key(exts[i], ress[j]) in regions &&
        regions[key(exts[i], ress[j])] == RegionSpec(ExtentOf(exts[i]), ress[j])
  {
    regions := map[];
    var i := 0;
    while i < |exts|
      invariant 0 <= i <= |exts|
      invariant Separable(key, exts, ress) ==> Tabulates(regions, key, exts, ress, i, 0)
    {
      var j := 0;
      while j < |ress|
        invariant 0 <= j <= |ress|
        invariant Separable(key, exts, ress) ==> Tabulates(regions, key, exts, ress, i, j)
      {
        if Separable(key, exts, ress) {
          TableStep(regions, key, exts, ress, i, j);
        }
        regions := regions[key(exts[i], ress[j]) := RegionSpec(ExtentOf(exts[i]), ress[j])];
        j := j + 1;
      }
      if Separable(key, exts, ress) {
        TableRow(regions, key, exts, ress, i);
      }
      i := i + 1;
    }
    if Separable(key, exts, ress) {
      TableComplete(regions, key, exts, ress);
      TableSize(regions, key, exts, ress);
    }
  }

  // ---- SoilGrids vocabularies ----

  const SgVariables: seq<string> := ["clay_content", "sand_content", "silt_content", "bulk_density",
                                     "cation_exchange_capacity", "ph_index", "soil_organic_carbon"]

  /** The SoilGrids abbreviation of each variable. */
  const SgVariablesAbbr: map<string, string> := map[
    "clay_content" := "clay", "sand_content" := "sand", "silt_content" := "silt", "bulk_density" := "bdod",
    "cation_exchange_capacity" := "cec", "ph_index" := "phh2o", "soil_organic_carbon" := "soc"]

  /** The horizons, as written: "60-100cm" appears twice. */
  const SgHorizons: seq<string> := ["0-5cm", "5-15cm", "15-30cm", "30-60cm", "60-100cm", "60-100cm", "100-200cm"]

  const SgSummaryStatistics: seq<string> := ["mean", "Q0.50", "Q0.05", "Q0.95"]

  const SgResolutions: seq<int> := [250, 1000, 5000]

  /** Every variable has an abbreviation and every abbreviation belongs to a variable. */
  lemma AbbreviationsCoverVariables()
    ensures SgVariablesAbbr.Keys == set v | v in SgVariables
  {
  }

  /** The horizon list has seven entries but six different horizons. */
  lemma HorizonDuplicate()
    ensures |SgHorizons| == 7 && SgHorizons[4] == SgHorizons[5]
    ensures |set h | h in SgHorizons| == 6
  {
    assert (set h | h in SgHorizons) == {"0-5cm", "5-15cm", "15-30cm", "30-60cm", "60-100cm", "100-200cm"};
  }

  /** The years of the ESA CCI land-cover series, 1992 to 2021. */
  const EsaCciLcYears: seq<int> := seq(30, i => 1992 + i)

  // ---- suctions and the Zhang-Schaap table ----

  /** The suction, in metres, at the critical point and at the wilting point. */
  const CriticalPointSuction: real := 3.364
  const WiltingPointSuction: real := 152.9

  /** The order of the texture classes the factor lists follow. */
  const TextureClasses: seq<string> := ["clay", "silty_clay", "sandy_clay", "clay_loam", "silty_clay_loam",
                                        "sandy_clay_loam", "loam", "silt_loam", "sandy_loam", "silt",
                                        "loamy_sand", "sand"]

  const ZhangSchaapFactors: map<string, seq<real>> := map[
    "alpha" := [0.0085736519, 0.0101142735, 0.0250359697, 0.0099478343,
                0.0055563345, 0.0124256821, 0.0063582607, 0.0034302367,
                0.0164037225, 0.0060396053, 0.024619742, 0.0328446188],
    "n" := [1.2547490134, 1.273204146, 1.2366347276, 1.3908612189,
            1.4341667317, 1.3051970186, 1.4214753311, 1.5517801798,
            1.4569557234, 1.5771727061, 1.6968969844, 2.8953059015],
    "theta_res" := [0.1309948472, 0.1236437112, 0.147392179, 0.1072850999,
                    0.1196643822, 0.0933631331, 0.0902482845, 0.083186447,
                    0.0606397155, 0.0650483449, 0.0581702395, 0.0545506462],
    "theta_sat" := [0.4574695264, 0.4729208221, 0.3818242427, 0.4287550719,
                    0.4702973434, 0.3800973379, 0.4017669217, 0.4269400175,
                    0.3808945256, 0.4724838864, 0.3830712622, 0.3633494968],
    "ksat" := [14.7500629329, 9.6136374341, 11.3533844849, 7.0635116122,
               11.108435216, 13.2312093416, 13.3386286706, 18.4713576853,
               37.4503675019, 43.7471157565, 108.1993376227, 642.9544642258]]

  /**
   * Every parameter list has one factor per texture class; every n exceeds
   * 1 and every alpha is positive, so b = 1/(n - 1) and psi = 1/alpha are
   * defined and positive; every class's residual content lies below its
   * saturated content.
   */
  lemma ZhangSchaapWellFormed()
    ensures ZhangSchaapFactors.Keys == {"alpha", "n", "theta_res", "theta_sat", "ksat"}
    ensures forall k :: k in ZhangSchaapFactors ==> |ZhangSchaapFactors[k]| == |TextureClasses| == 12
    ensures forall j :: 0 <= j < 12 ==> ZhangSchaapFactors["n"][j] > 1.0 && ZhangSchaapFactors["alpha"][j] > 0.0
    ensures forall j :: 0 <= j < 12 ==> 0.0 < ZhangSchaapFactors["theta_res"][j] < ZhangSchaapFactors["theta_sat"][j]
    ensures forall j :: 0 <= j < 12 ==> ZhangSchaapFactors["ksat"][j] > 0.0
  {
  }

  lemma SuctionsOrdered()
    ensures 0.0 < CriticalPointSuction < WiltingPointSuction
  {
  }
}
