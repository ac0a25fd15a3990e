// The older land fraction (jamr/landfraction.py). It runs the same boolean
// chain as the newer one, but its minimum resample reads the land-cover
// map itself rather than the water-bodies map, at the land cover's own
// grid; there is no existence guard, no target averaging and no cleanup.
module LandFractionLegacy {
  import opened Wrappers
  import opened Raster
  import opened Grass
  import GrassUtils
  import LandFraction
  import Landcover
  import Strings

  /** The output name `esacci_landfrac_{region}`. */
  function LegacyName(region: string): string
  {
    "esacci_landfrac_" + region
  }

  /** The six commands of `compute`, in order. */
  function LegacyLog(region: string, out: string): seq<Command>
  {
    var lc := LandFraction.LandCoverMap();
    [RegionFromRaster(lc), ResampStats(lc, LandFraction.WaterBodiesMin, Min, false), RegionNamed(region)] +
    [Calc(LandFraction.OceanMin, [LandFraction.WaterBodiesMin])] + LandFraction.LandLog(out)
  }

  /**
   * The catalogue after `compute`, when every result is determined: the
   * minimum resample of the land cover in region `r1` (the land cover's
   * own), then the four map calculations in region `r2` (the named one).
   */
  function LegacyMaps(maps: map<string, Map>, mask: Option<Mask>, r1: Region, r2: Region, out: string,
                      overwrite: bool): Option<map<string, Map>>
  {
    var m1 := ResampMaps(maps, r1, LandFraction.LandCoverMap(), LandFraction.WaterBodiesMin, Min, overwrite);
    if m1.None? then None else
    var m2 := CalcMaps(m1.value, mask, r2, LandFraction.OceanMin, [LandFraction.WaterBodiesMin],
                       LandFraction.OceanMinExpr, overwrite);
    if m2.None? then None else LandFraction.LandMaps(m2.value, mask, r2, out, overwrite)
  }

  /** A region resampled onto itself has one fine cell per coarse cell. */
  lemma SelfBlockFactor(r: Region)
    requires BlockFactor(r, r).Some?
    ensures BlockFactor(r, r) == Some(1)
  {
    assert r.ewres / r.ewres == 1.0;
    assert r.nsres / r.nsres == 1.0;
  }

  /** The minimum of a single cell is that cell. */
  lemma MinimumSingle(c: Cell)
    ensures Minimum([c]) == c
  {
    assert [c][..0] == [];
  }

  /** Comparing one cell with 0 and with 210 at once: at most one holds, so the chain never finds ocean. */
  lemma LandCellSame(c: Cell)
    ensures LandFraction.LandCell(c, c) == (if c.Null? then Null else LandFraction.One)
  {
    LandFraction.LandCellMeaning(c, c);
  }

  /** The minimum resample of the land cover onto its own grid copies it. */
  lemma SelfMinimum(maps: map<string, Map>, overwrite: bool, m1: map<string, Map>)
    requires LandFraction.LandCoverMap() in maps && (overwrite || LandFraction.WaterBodiesMin !in maps)
    requires var lcName := LandFraction.LandCoverMap();
      ResampMaps(maps, maps[lcName].region, lcName, LandFraction.WaterBodiesMin, Min, overwrite) == Some(m1)
    ensures LandFraction.WaterBodiesMin in m1 && m1[LandFraction.WaterBodiesMin].cells == maps[LandFraction.LandCoverMap()].cells
  {
    var lcName := LandFraction.LandCoverMap();
    var lc := maps[lcName];
    var r1 := lc.region;
    ResampCells(maps, r1, lcName, LandFraction.WaterBodiesMin, Min, overwrite, m1);
    SelfBlockFactor(r1);
    var w := m1[LandFraction.WaterBodiesMin].cells;
    assert |w| == |lc.cells|;
    forall i | 0 <= i < |w|
      ensures w[i] == lc.cells[i]
    {
      assert Block(lc.cells, 1, i) == [lc.cells[i]];
      MinimumSingle(lc.cells[i]);
    }
  }

  /**
   * The land fraction as written is 1 wherever the land cover has a value
   * and null elsewhere: the "water-bodies minimum" is the land cover copied
   * onto its own grid, and no cell is both 0 and 210.
   */
  lemma LegacyAlwaysLand(maps: map<string, Map>, r2: Region, out: string, overwrite: bool, m: map<string, Map>)
    requires LandFraction.LandCoverMap() in maps && LandFraction.NativeWritable(maps, out, overwrite)
    requires LegacyMaps(maps, None, maps[LandFraction.LandCoverMap()].region, r2, out, overwrite) == Some(m)
    ensures var lc := maps[LandFraction.LandCoverMap()].cells;
      out in m && |m[out].cells| == |lc| &&
      forall i :: 0 <= i < |lc| ==> m[out].cells[i] == (if lc[i].Null? then Null else LandFraction.One)
  {
    var lcName := LandFraction.LandCoverMap();
    var lc := maps[lcName];
    var r1 := lc.region;
    var m1 := ResampMaps(maps, r1, lcName, LandFraction.WaterBodiesMin, Min, overwrite).value;
    SelfMinimum(maps, overwrite, m1);
    var m2 := CalcMaps(m1, None, r2, LandFraction.OceanMin, [LandFraction.WaterBodiesMin],
                       LandFraction.OceanMinExpr, overwrite).value;
    CalcOneCells(m1, r2, LandFraction.OceanMin, LandFraction.WaterBodiesMin, LandFraction.OceanMinExpr, overwrite, m2);
    assert m2[lcName] == lc;
    assert LandFraction.LandWritable(m2, out, overwrite) by {
      assert forall k :: k != LandFraction.WaterBodiesMin && k != LandFraction.OceanMin ==> (k in m2 <==> k in maps);
    }
    LandFraction.LandMapsCells(m2, r2, out, overwrite, m);
    forall i | 0 <= i < |lc.cells|
      ensures m[out].cells[i] == (if lc.cells[i].Null? then Null else LandFraction.One)
    {
      LandCellSame(lc.cells[i]);
    }
  }

  /** The first four commands of `compute`: up to the ocean mask, in the named region. */
  method LegacyOceanMin(e: Engine, region: string, overwrite: bool)
    modifies e
    ensures var lc := LandFraction.LandCoverMap();
      e.log == old(e.log) + [RegionFromRaster(lc), ResampStats(lc, LandFraction.WaterBodiesMin, Min, false),
                             RegionNamed(region), Calc(LandFraction.OceanMin, [LandFraction.WaterBodiesMin])]
    ensures var lc := LandFraction.LandCoverMap();
      var r1 := if lc in old(e.maps) then old(e.maps)[lc].region else old(e.region);
      e.region == (if region in old(e.saved) then old(e.saved)[region] else r1)
    ensures var lc := LandFraction.LandCoverMap();
      var r1 := if lc in old(e.maps) then old(e.maps)[lc].region else old(e.region);
      var m1 := ResampMaps(old(e.maps), r1, lc, LandFraction.WaterBodiesMin, Min, overwrite);
      m1.Some? ==>
        var m2 := CalcMaps(m1.value, old(e.mask), e.region, LandFraction.OceanMin, [LandFraction.WaterBodiesMin],
                           LandFraction.OceanMinExpr, overwrite);
        m2.Some? ==> e.maps == m2.value
    ensures e.mask == old(e.mask) && e.saved == old(e.saved) && e.files == old(e.files)
  {
    var lc := LandFraction.LandCoverMap();
    e.RegionFromRasterCmd(lc);
    e.ResampStatsCmd(lc, LandFraction.WaterBodiesMin, Min, false, overwrite);
    e.RegionNamedCmd(region);
    e.CalcCmd(LandFraction.OceanMin, [LandFraction.WaterBodiesMin], LandFraction.OceanMinExpr, overwrite);
  }

  /** `ESALandFraction` of jamr/landfraction.py. */
  class ESALandFraction {
    const region: string
    const landcoverYears: seq<int>   // the years `inputdata.landcover.mapnames` has a map name for
    const overwrite: bool
    var mapname: string

    /** The base-class constructor removes any mask and sets the named region; then the map is named. */
    constructor(region: string, landcoverYears: seq<int>, overwrite: bool, e: Engine)
      modifies e
      ensures this.region == region && this.landcoverYears == landcoverYears && this.overwrite == overwrite
      ensures mapname == LegacyName(region)
      ensures e.mask == None && e.log == old(e.log) + [MaskOff, RegionNamed(region)]
      ensures e.region == (if region in old(e.saved) then old(e.saved)[region] else old(e.region))
      ensures e.maps == old(e.maps) && e.saved == old(e.saved) && e.files == old(e.files)
    {
      this.region := region;
      this.landcoverYears := landcoverYears;
      this.overwrite := overwrite;
      new;
      var _ := GrassUtils.RemoveMask(e);
      var _ := GrassUtils.SetNamedRegion(e, region);
      SetMapnames();
    }

    /** `set_mapnames`. */
    method SetMapnames()
      modifies this
      ensures mapname == LegacyName(region)
    {
      mapname := LegacyName(region);
    }

    /**
     * `compute`: looking up the 2015 land-cover map name is a KeyError,
     * before any command, when 2015 is not a land-cover year. Otherwise
     * take the land cover's region, aggregate the land cover by minimum
     * onto it, switch to the named region, and run the boolean chain there.
     * Every step runs, whatever exists already.
     */
    method Compute(e: Engine) returns (r: Result<()>)
      modifies e
      ensures r.Ok? <==> Landcover.ReferenceYear in landcoverYears
      ensures r.Err? ==> (r == Err(KeyError(Strings.IntToString(Landcover.ReferenceYear))) &&
        e.log == old(e.log) && e.maps == old(e.maps) && e.region == old(e.region))
      ensures r.Ok? ==> e.log == old(e.log) + LegacyLog(region, mapname)
      ensures r.Ok? ==> var lc := LandFraction.LandCoverMap();
        var r1 := if lc in old(e.maps) then old(e.maps)[lc].region else old(e.region);
        e.region == (if region in old(e.saved) then old(e.saved)[region] else r1)
      ensures r.Ok? ==> var lc := LandFraction.LandCoverMap();
        var r1 := if lc in old(e.maps) then old(e.maps)[lc].region else old(e.region);
        var c := LegacyMaps(old(e.maps), old(e.mask), r1, e.region, mapname, overwrite);
        c.Some? ==> e.maps == c.value
      ensures e.mask == old(e.mask) && e.saved == old(e.saved) && e.files == old(e.files)
    {
      if Landcover.ReferenceYear !in landcoverYears {
        return Err(KeyError(Strings.IntToString(Landcover.ReferenceYear)));
      }
      LegacyOceanMin(e, region, overwrite);
      LandFraction.BuildLand(e, mapname, overwrite);
      return Ok(());
    }
  }
}
