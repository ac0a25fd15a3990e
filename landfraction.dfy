// The land fraction: a cell is ocean when the 300 m water-bodies map,
// aggregated by minimum onto the land-cover grid, says ocean (0) AND the
// 2015 land-cover map says water (class 210); the land fraction is
// 1 - ocean on the native grid, then averaged onto the target grid.
module LandFraction {
  import opened Wrappers
  import opened Raster
  import opened Grass
  import opened MapCalc
  import Ancillary
  import GrassUtils
  import Landcover
  import Strings

  /** The water-bodies map (`ESACCIWB.mapnames[-1]`): 0 ocean, 1 land, 2 inland water. */
  const WaterBodiesMap: string := "esa_water_bodies"

  /** The land-cover class code of water bodies. */
  const WaterClass: real := 210.0

  const WaterBodiesMin: string := "water_bodies_min_tmp"
  const OceanMin: string := "ocean_min_tmp"
  const LcWater: string := "esacci_lc_water_tmp"
  const Ocean: string := "ocean_tmp"

  const Zero: Cell := Val(0.0)
  const One: Cell := Val(1.0)

  // ---- the per-cell expressions ----

  /** `if(water_bodies_min_tmp == 0, 1, 0)`. */
  function OceanMinExpr(cs: seq<Cell>): Cell
  {
    If(Equal(At(cs, 0), Zero), One, Zero)
  }

  /** `if(<land cover> == 210, 1, 0)`. */
  function LcWaterExpr(cs: seq<Cell>): Cell
  {
    If(Equal(At(cs, 0), Val(WaterClass)), One, Zero)
  }

  /** `if((ocean_min_tmp==1 && esacci_lc_water_tmp==1), 1, 0)`. */
  function OceanExpr(cs: seq<Cell>): Cell
  {
    If(And(Equal(At(cs, 0), One), Equal(At(cs, 1), One)), One, Zero)
  }

  /** `1 - ocean_tmp`. */
  function LandExpr(cs: seq<Cell>): Cell
  {
    Sub(One, At(cs, 0))
  }

  /** The four expressions composed: the native land fraction from a water-bodies minimum and a land-cover code. */
  function LandCell(wbMin: Cell, lc: Cell): Cell
  {
    LandExpr([OceanExpr([OceanMinExpr([wbMin]), LcWaterExpr([lc])])])
  }

  /**
   * The native land fraction is 0 or 1: 0 exactly when both sources say
   * ocean (the water-bodies minimum is 0 and the class is 210), 1 whenever
   * they disagree or both say land; null where either input is null.
   */
  lemma LandCellMeaning(wbMin: Cell, lc: Cell)
    ensures LandCell(wbMin, lc).Val? <==> wbMin.Val? && lc.Val?
    ensures LandCell(wbMin, lc) == Zero <==> wbMin == Zero && lc == Val(WaterClass)
    ensures LandCell(wbMin, lc).Val? ==> LandCell(wbMin, lc) == Zero || LandCell(wbMin, lc) == One
  {
  }

  /**
   * The minimum aggregation classifies a coarse cell as ocean when any of
   * its fine water-bodies cells is ocean.
   */
  lemma OceanMinOfBlock(b: seq<Cell>)
    requires AllWithin(b, 0.0, 2.0)
    ensures OceanMinExpr([Minimum(b)]) == One <==> exists i :: 0 <= i < |b| && b[i] == Zero
    ensures OceanMinExpr([Minimum(b)]).Null? <==> forall i :: 0 <= i < |b| ==> b[i].Null?
  {
    MinimumZero(b);
    MinimumBounds(b);
  }

  /** A block of native land fractions averages to a fraction: 1 for all land, 0 for all ocean. */
  lemma TargetFraction(b: seq<Cell>)
    requires forall i :: 0 <= i < |b| ==> b[i].Null? || b[i] == Zero || b[i] == One
    ensures Mean(b).Val? ==> 0.0 <= Mean(b).v <= 1.0
    ensures |b| > 0 && (forall i :: 0 <= i < |b| ==> b[i] == One) ==> Mean(b) == One
    ensures |b| > 0 && (forall i :: 0 <= i < |b| ==> b[i] == Zero) ==> Mean(b) == Zero
  {
    assert AllWithin(b, 0.0, 1.0);
    if Count(b) > 0 {
      MeanWithin(b, 0.0, 1.0);
    }
    if |b| > 0 && forall i :: 0 <= i < |b| ==> b[i] == One {
      CountAllValues(b);
      MeanConstant(b, 1.0);
    }
    if |b| > 0 && forall i :: 0 <= i < |b| ==> b[i] == Zero {
      CountAllValues(b);
      MeanConstant(b, 0.0);
    }
  }

  lemma {:induction false} CountAllValues(b: seq<Cell>)
    requires forall i :: 0 <= i < |b| ==> b[i].Val?
    ensures Count(b) == |b|
  {
    if |b| > 0 {
      CountAllValues(b[..|b| - 1]);
    }
  }

  // ---- the engine sequence ----

  /** The 2015 land-cover map (`inputdata.landcover[2015]`), whose grid is the native grid. */
  function LandCoverMap(): string
  {
    Landcover.LandCoverName(Landcover.ReferenceYear)
  }

  /** The first two commands of the native block: the water bodies aggregated by minimum, then the ocean mask. */
  function OceanMinLog(): seq<Command>
  {
    [ResampStats(WaterBodiesMap, WaterBodiesMin, Min, false), Calc(OceanMin, [WaterBodiesMin])]
  }

  /** The last three commands of the native block, ending with the native land fraction `out`. */
  function LandLog(out: string): seq<Command>
  {
    [Calc(LcWater, [LandCoverMap()]), Calc(Ocean, [OceanMin, LcWater]), Calc(out, [Ocean])]
  }

  /** The five commands that build the native land fraction `out`. */
  function NativeLog(out: string): seq<Command>
  {
    OceanMinLog() + LandLog(out)
  }

  /** The catalogue after `OceanMinLog` in region `native`, when both results are determined. */
  function OceanMinMaps(maps: map<string, Map>, mask: Option<Mask>, native: Region, overwrite: bool)
    : Option<map<string, Map>>
  {
    var m1 := ResampMaps(maps, native, WaterBodiesMap, WaterBodiesMin, Min, overwrite);
    if m1.None? then None else
    CalcMaps(m1.value, mask, native, OceanMin, [WaterBodiesMin], OceanMinExpr, overwrite)
  }

  /** The catalogue after `LandLog(out)` in region `native`, when every result is determined. */
  function LandMaps(maps: map<string, Map>, mask: Option<Mask>, native: Region, out: string, overwrite: bool)
    : Option<map<string, Map>>
  {
    var m3 := CalcMaps(maps, mask, native, LcWater, [LandCoverMap()], LcWaterExpr, overwrite);
    if m3.None? then None else
    var m4 := CalcMaps(m3.value, mask, native, Ocean, [OceanMin, LcWater], OceanExpr, overwrite);
    if m4.None? then None else
    CalcMaps(m4.value, mask, native, out, [Ocean], LandExpr, overwrite)
  }

  /** The catalogue after the five native commands in region `native`, when every result is determined. */
  function NativeMaps(maps: map<string, Map>, mask: Option<Mask>, native: Region, out: string, overwrite: bool)
    : Option<map<string, Map>>
  {
    var m2 := OceanMinMaps(maps, mask, native, overwrite);
    if m2.None? then None else LandMaps(m2.value, mask, native, out, overwrite)
  }

  /** The land fraction on the native grid of the region called `name`. */
  function NativeName(name: string): string
  {
    "esacci_landfrac_" + name + "_native"
  }

  /** The land fraction on the target grid of the region called `name`. */
  function TargetName(name: string): string
  {
    "esacci_landfrac_" + name + ".tif"
  }

  /** The catalogue without the maps whose names end in `_tmp`. */
  function WithoutTmp(maps: map<string, Map>): map<string, Map>
  {
    map k | k in maps && !GrassUtils.EndsWith(k, "_tmp") :: maps[k]
  }

  /**
   * The catalogue after `compute`, when every result is determined: the
   * native steps when they run, the average onto the target region, and
   * the removal of the temporaries.
   */
  function ComputeMaps(maps: map<string, Map>, mask: Option<Mask>, native: Region, target: Region,
                       nativeOut: string, targetOut: string, run: bool, overwrite: bool): Option<map<string, Map>>
  {
    var m5 := if run then NativeMaps(maps, mask, native, nativeOut, overwrite) else Some(maps);
    if m5.None? then None else
    var m6 := ResampMaps(m5.value, target, nativeOut, targetOut, Average, overwrite);
    if m6.None? then None else Some(WithoutTmp(m6.value))
  }

  /** The first half of the guarded block of `compute`. */
  method BuildOceanMin(e: Engine, overwrite: bool)
    modifies e
    ensures e.log == old(e.log) + OceanMinLog()
    ensures var c := OceanMinMaps(old(e.maps), old(e.mask), old(e.region), overwrite); c.Some? ==> e.maps == c.value
    ensures e.region == old(e.region) && e.mask == old(e.mask) && e.saved == old(e.saved) && e.files == old(e.files)
  {
    e.ResampStatsCmd(WaterBodiesMap, WaterBodiesMin, Min, false, overwrite);
    e.CalcCmd(OceanMin, [WaterBodiesMin], OceanMinExpr, overwrite);
  }

  /** The second half of the guarded block of `compute`. */
  method BuildLand(e: Engine, out: string, overwrite: bool)
    modifies e
    ensures e.log == old(e.log) + LandLog(out)
    ensures var c := LandMaps(old(e.maps), old(e.mask), old(e.region), out, overwrite); c.Some? ==> e.maps == c.value
    ensures e.region == old(e.region) && e.mask == old(e.mask) && e.saved == old(e.saved) && e.files == old(e.files)
  {
    e.CalcCmd(LcWater, [LandCoverMap()], LcWaterExpr, overwrite);
    e.CalcCmd(Ocean, [OceanMin, LcWater], OceanExpr, overwrite);
    e.CalcCmd(out, [Ocean], LandExpr, overwrite);
  }

  /** The guarded block of `compute`: the five commands that build the native land fraction `out`. */
  method BuildNative(e: Engine, out: string, overwrite: bool)
    modifies e
    ensures e.log == old(e.log) + NativeLog(out)
    ensures var c := NativeMaps(old(e.maps), old(e.mask), old(e.region), out, overwrite); c.Some? ==> e.maps == c.value
    ensures e.region == old(e.region) && e.mask == old(e.mask) && e.saved == old(e.saved) && e.files == old(e.files)
  {
    BuildOceanMin(e, overwrite);
    BuildLand(e, out, overwrite);
  }

  /** `LandFractionFactory.create_land_fraction`: only the ESA method exists. */
  method Create(methodName: string, config: Ancillary.RegionConfig, landcoverYears: seq<int>, overwrite: bool, e: Engine)
    returns (r: Result<ESALandFraction>)
    modifies e
    ensures r.Ok? <==> methodName == "ESA"
    ensures r.Err? ==> (r.error == ValueError("Unknown land fraction method: " + methodName) &&
                        e.log == old(e.log) && e.mask == old(e.mask))
    ensures r.Ok? ==> (fresh(r.value) && r.value.config == config && r.value.overwrite == overwrite &&
                       r.value.landcoverYears == landcoverYears && e.mask == None && e.log == old(e.log) + [MaskOff])
    ensures e.region == old(e.region) && e.maps == old(e.maps) && e.saved == old(e.saved) && e.files == old(e.files)
  {
    if methodName == "ESA" {
      var d := new ESALandFraction(config, landcoverYears, overwrite, e);
      return Ok(d);
    }
    return Err(ValueError("Unknown land fraction method: " + methodName));
  }

  /** `ESALandFraction`. */
  class ESALandFraction {
    const config: Ancillary.RegionConfig
    const landcoverYears: seq<int>   // the years `inputdata.landcover.mapnames` has a map name for
    const overwrite: bool
    var mapnameNative: string
    var mapname: string

    /** Construction removes any mask, then names the maps. */
    constructor(config: Ancillary.RegionConfig, landcoverYears: seq<int>, overwrite: bool, e: Engine)
      modifies e
      ensures this.config == config && this.landcoverYears == landcoverYears && this.overwrite == overwrite
      ensures mapnameNative == NativeName(config.name) && mapname == TargetName(config.name)
      ensures e.mask == None && e.log == old(e.log) + [MaskOff]
      ensures e.region == old(e.region) && e.maps == old(e.maps) && e.saved == old(e.saved) && e.files == old(e.files)
    {
      this.config := config;
      this.landcoverYears := landcoverYears;
      this.overwrite := overwrite;
      new;
      var _ := GrassUtils.RemoveMask(e);
      SetMapnames();
    }

    /** `_set_mapnames`. */
    method SetMapnames()
      modifies this
      ensures mapnameNative == NativeName(config.name) && mapname == TargetName(config.name)
    {
      mapnameNative := NativeName(config.name);
      mapname := TargetName(config.name);
    }

    /**
     * `compute`: looking up the 2015 land-cover map name is a KeyError,
     * before any command, when 2015 is not a land-cover year. Otherwise, in
     * the native region, unless the native map exists and overwriting is
     * off, aggregate the water bodies by minimum and build the native land
     * fraction; in every case average it onto the target region and remove
     * the temporaries.
     */
    method Compute(e: Engine) returns (r: Result<()>)
      modifies e
      ensures r.Ok? <==> Landcover.ReferenceYear in landcoverYears
      ensures r.Err? ==> (r == Err(KeyError(Strings.IntToString(Landcover.ReferenceYear))) &&
        e.log == old(e.log) && e.maps == old(e.maps) && e.region == old(e.region))
      ensures r.Ok? ==> var request := Ancillary.NativeRequest(old(e.region), old(e.maps), LandCoverMap(), config);
        var run := !GrassUtils.MapExists(old(e.maps), mapnameNative) || overwrite;
        e.log == old(e.log) + [RegionFromRaster(LandCoverMap()), RegionSet(request, Some(LandCoverMap()))] +
                 (if run then NativeLog(mapnameNative) else []) +
                 [RegionSet(Ancillary.TargetRegion(config), None), ResampStats(mapnameNative, mapname, Average, true),
                  RemoveMatching(GrassUtils.TmpPattern)]
      ensures r.Ok? ==> var native := Ancillary.NativeRegion(old(e.region), old(e.maps), LandCoverMap(), config);
        var run := !GrassUtils.MapExists(old(e.maps), mapnameNative) || overwrite;
        var c := ComputeMaps(old(e.maps), old(e.mask), native, Ancillary.TargetRegion(config), mapnameNative, mapname, run, overwrite);
        c.Some? ==> e.maps == c.value
      ensures r.Ok? ==> e.region == Ancillary.TargetRegion(config)
      ensures e.mask == old(e.mask) && e.saved == old(e.saved) && e.files == old(e.files)
    {
      if Landcover.ReferenceYear !in landcoverYears {
        return Err(KeyError(Strings.IntToString(Landcover.ReferenceYear)));
      }
      Ancillary.SetNativeRegion(e, config, LandCoverMap());
      if !GrassUtils.MapExists(e.maps, mapnameNative) || overwrite {
        BuildNative(e, mapnameNative, overwrite);
      }
      Ancillary.SetTargetRegion(e, config);
      var _ := Ancillary.Resample(e, mapnameNative, mapname, Average, overwrite);
      var _ := GrassUtils.RemoveTmp(e);
      return Ok(());
    }
  }

  // ---- what the native block computes ----

  /** The last three native commands may write their maps: overwriting is on, or none of them exists yet. */
  predicate LandWritable(maps: map<string, Map>, out: string, overwrite: bool)
  {
    overwrite || (LcWater !in maps && Ocean !in maps && out !in maps && out != LcWater && out != Ocean)
  }

  /** All five native commands may write their maps: overwriting is on, or none of them exists yet. */
  predicate NativeWritable(maps: map<string, Map>, out: string, overwrite: bool)
  {
    overwrite || (WaterBodiesMin !in maps && OceanMin !in maps && out != WaterBodiesMin && out != OceanMin &&
                  LandWritable(maps, out, false))
  }

  /**
   * The last three commands of the native block, with no mask and each
   * map writable: cell i of `out` combines cell i of the ocean mask with
   * the water class of land-cover cell i; both inputs lie in the region.
   */
  lemma LandMapsCells(maps: map<string, Map>, r: Region, out: string, overwrite: bool, m5: map<string, Map>)
    requires OceanMin in maps && LandCoverMap() in maps && LandWritable(maps, out, overwrite)
    requires LandMaps(maps, None, r, out, overwrite) == Some(m5)
    ensures var lc := maps[LandCoverMap()].cells;
      out in m5 && m5[out].region == r && maps[OceanMin].region == r && maps[LandCoverMap()].region == r &&
      |m5[out].cells| == |lc| == |maps[OceanMin].cells| &&
      forall i :: 0 <= i < |lc| ==>
        m5[out].cells[i] == LandExpr([OceanExpr([maps[OceanMin].cells[i], LcWaterExpr([lc[i]])])])
  {
    var m3 := CalcMaps(maps, None, r, LcWater, [LandCoverMap()], LcWaterExpr, overwrite).value;
    CalcOneCells(maps, r, LcWater, LandCoverMap(), LcWaterExpr, overwrite, m3);
    var m4 := CalcMaps(m3, None, r, Ocean, [OceanMin, LcWater], OceanExpr, overwrite).value;
    CalcTwoCells(m3, r, Ocean, OceanMin, LcWater, OceanExpr, overwrite, m4);
    assert CalcMaps(m4, None, r, out, [Ocean], LandExpr, overwrite) == Some(m5);
    CalcOneCells(m4, r, out, Ocean, LandExpr, overwrite, m5);
  }

  /**
   * With both sources present, no mask and every map writable, cell i of the
   * native land fraction is `LandCell` of the minimum over its own block of
   * water-bodies cells and of the land-cover cell i.
   */
  lemma NativeMapCells(maps: map<string, Map>, native: Region, out: string, overwrite: bool, m5: map<string, Map>)
    requires WaterBodiesMap in maps && LandCoverMap() in maps && NativeWritable(maps, out, overwrite)
    requires NativeMaps(maps, None, native, out, overwrite) == Some(m5)
    ensures BlockFactor(maps[WaterBodiesMap].region, native).Some?
    ensures var k := BlockFactor(maps[WaterBodiesMap].region, native).value;
      var wb := maps[WaterBodiesMap].cells;
      var lc := maps[LandCoverMap()].cells;
      out in m5 && m5[out].region == native && |m5[out].cells| == |lc| && |wb| == |lc| * k &&
      forall i :: 0 <= i < |lc| ==> i * k + k <= |wb| && m5[out].cells[i] == LandCell(Minimum(Block(wb, k, i)), lc[i])
  {
    var m2 := OceanMinMaps(maps, None, native, overwrite).value;
    OceanMinCells(maps, native, out, overwrite, m2);
    LandMapsCells(m2, native, out, overwrite, m5);
    var k := BlockFactor(maps[WaterBodiesMap].region, native).value;
    var wb := maps[WaterBodiesMap].cells;
    var lc := maps[LandCoverMap()].cells;
    forall i | 0 <= i < |lc|
      ensures i * k + k <= |wb| && m5[out].cells[i] == LandCell(Minimum(Block(wb, k, i)), lc[i])
    {
      assert m2[OceanMin].cells[i] == OceanMinExpr([Minimum(Block(wb, k, i))]);
    }
  }

  /**
   * The first two native commands, with no mask and each map writable: cell
   * i of the ocean-minimum map is the ocean test of the minimum of block i
   * of the water-bodies map; the land-cover map is untouched.
   */
  lemma OceanMinCells(maps: map<string, Map>, native: Region, out: string, overwrite: bool, m2: map<string, Map>)
    requires WaterBodiesMap in maps && LandCoverMap() in maps && NativeWritable(maps, out, overwrite)
    requires OceanMinMaps(maps, None, native, overwrite) == Some(m2)
    ensures BlockFactor(maps[WaterBodiesMap].region, native).Some?
    ensures var k := BlockFactor(maps[WaterBodiesMap].region, native).value;
      var wb := maps[WaterBodiesMap].cells;
      OceanMin in m2 && LandCoverMap() in m2 && m2[LandCoverMap()] == maps[LandCoverMap()] &&
      LandWritable(m2, out, overwrite) && |wb| == |m2[OceanMin].cells| * k &&
      forall i :: 0 <= i < |m2[OceanMin].cells| ==>
        i * k + k <= |wb| && m2[OceanMin].cells[i] == OceanMinExpr([Minimum(Block(wb, k, i))])
  {
    var m1 := ResampMaps(maps, native, WaterBodiesMap, WaterBodiesMin, Min, overwrite).value;
    ResampCells(maps, native, WaterBodiesMap, WaterBodiesMin, Min, overwrite, m1);
    CalcOneCells(m1, native, OceanMin, WaterBodiesMin, OceanMinExpr, overwrite, m2);
  }

  /**
   * Hence a native cell is ocean (0) exactly when some water-bodies cell of
   * its block is ocean and the land-cover cell is water; otherwise, where
   * both are present, it is land (1).
   */
  lemma OceanCell(b: seq<Cell>, lc: Cell)
    requires AllWithin(b, 0.0, 2.0)
    ensures LandCell(Minimum(b), lc) == Zero <==> (exists j :: 0 <= j < |b| && b[j] == Zero) && lc == Val(WaterClass)
    ensures LandCell(Minimum(b), lc).Val? ==> LandCell(Minimum(b), lc) == Zero || LandCell(Minimum(b), lc) == One
  {
    assert AllWithin(b, 0.0, 1.0e300);
    MinimumZero(b);
    LandCellMeaning(Minimum(b), lc);
  }

  /**
   * After `compute`, none of the four temporaries remains; when the native
   * steps run with both sources present and every map writable, both outputs
   * remain, the target one on the target grid.
   */
  lemma ComputeOutputs(maps: map<string, Map>, native: Region, target: Region, name: string, run: bool,
                       overwrite: bool, m: map<string, Map>)
    requires ComputeMaps(maps, None, native, target, NativeName(name), TargetName(name), run, overwrite) == Some(m)
    ensures WaterBodiesMin !in m && OceanMin !in m && LcWater !in m && Ocean !in m
    ensures run && NativeWritable(maps, NativeName(name), overwrite) && (overwrite || TargetName(name) !in maps) &&
            WaterBodiesMap in maps && LandCoverMap() in maps ==>
      NativeName(name) in m && TargetName(name) in m && m[TargetName(name)].region == target
  {
    var m5 := if run then NativeMaps(maps, None, native, NativeName(name), overwrite) else Some(maps);
    var m6 := ResampMaps(m5.value, target, NativeName(name), TargetName(name), Average, overwrite).value;
    assert m == WithoutTmp(m6);
    assert !GrassUtils.EndsWith(NativeName(name), "_tmp") by {
      assert NativeName(name)[|NativeName(name)| - 1] == 'e';
    }
    assert !GrassUtils.EndsWith(TargetName(name), "_tmp") by {
      assert TargetName(name)[|TargetName(name)| - 1] == 'f';
    }
    assert GrassUtils.EndsWith(WaterBodiesMin, "_tmp") && GrassUtils.EndsWith(OceanMin, "_tmp");
    assert GrassUtils.EndsWith(LcWater, "_tmp") && GrassUtils.EndsWith(Ocean, "_tmp");
    if run && NativeWritable(maps, NativeName(name), overwrite) && (overwrite || TargetName(name) !in maps) &&
       WaterBodiesMap in maps && LandCoverMap() in maps {
      RunOutputs(maps, native, target, name, overwrite, m5.value, m6);
    }
  }

  /** The native steps and the average, with every map writable, leave both outputs, the target one on the target grid. */
  lemma RunOutputs(maps: map<string, Map>, native: Region, target: Region, name: string, overwrite: bool,
                   m5: map<string, Map>, m6: map<string, Map>)
    requires NativeWritable(maps, NativeName(name), overwrite) && (overwrite || TargetName(name) !in maps)
    requires WaterBodiesMap in maps && LandCoverMap() in maps
    requires NativeMaps(maps, None, native, NativeName(name), overwrite) == Some(m5)
    requires ResampMaps(m5, target, NativeName(name), TargetName(name), Average, overwrite) == Some(m6)
    ensures NativeName(name) in m6 && TargetName(name) in m6 && m6[TargetName(name)].region == target
  {
    NativeMapCells(maps, native, NativeName(name), overwrite, m5);
    TargetNameApart(name);
    ResampCells(m5, target, NativeName(name), TargetName(name), Average, overwrite, m6);
  }

  /** The target map is none of the maps the native steps write: its name ends in `f`, theirs in `p` or `e`. */
  lemma TargetNameApart(name: string)
    ensures TargetName(name) !in {WaterBodiesMin, OceanMin, LcWater, Ocean, NativeName(name)}
  {
    assert TargetName(name)[|TargetName(name)| - 1] == 'f';
    assert WaterBodiesMin[|WaterBodiesMin| - 1] == 'p' && OceanMin[|OceanMin| - 1] == 'p';
    assert LcWater[|LcWater| - 1] == 'p' && Ocean[|Ocean| - 1] == 'p';
    assert NativeName(name)[|NativeName(name)| - 1] == 'e';
  }
}
