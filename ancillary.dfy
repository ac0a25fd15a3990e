// The base class every ancillary product derives from: the switch between
// the native region (the input raster's grid, clipped to the configured
// bounds) and the fixed target grid, the weighted `r.resamp.stats` call,
// and the native-compute-then-resample sequence every product step uses.
module Ancillary {
  import opened Wrappers
  import opened Raster
  import opened Grass
  import GrassUtils

  /** The `[region]` table of the configuration. */
  datatype RegionConfig = RegionConfig(name: string, north: real, south: real, east: real, west: real)

  /** The cell size of the target grid, in degrees (30 arc-seconds, as written). */
  const TargetResolution: real := 0.008333333333

  /** The region `_set_target_region` sets: configured bounds on the fixed target grid. */
  function TargetRegion(cfg: RegionConfig): (r: Region)
    ensures r.ewres == TargetResolution && r.nsres == TargetResolution
    ensures r.n == cfg.north && r.s == cfg.south && r.e == cfg.east && r.w == cfg.west
  {
    Region(cfg.north, cfg.south, cfg.east, cfg.west, TargetResolution, TargetResolution)
  }

  /** The region `_set_native_region(mapname)` asks for in its second `g.region`. */
  function NativeRequest(current: Region, maps: map<string, Map>, mapname: string, cfg: RegionConfig): Region
  {
    GrassUtils.RasterRequest(current, maps, mapname, Some(cfg.north), Some(cfg.south), Some(cfg.east), Some(cfg.west))
  }

  /** The region `_set_native_region(mapname)` sets; an unknown map leaves the current one. */
  function NativeRegion(current: Region, maps: map<string, Map>, mapname: string, cfg: RegionConfig): Region
  {
    GrassUtils.RasterRegion(current, maps, mapname, Some(cfg.north), Some(cfg.south), Some(cfg.east), Some(cfg.west))
  }

  /**
   * With no configured bound equal to 0, the native region has the
   * configured bounds and the raster's cell size, whatever region was set
   * before.
   */
  lemma NativeRegionShape(current: Region, maps: map<string, Map>, mapname: string, cfg: RegionConfig)
    requires mapname in maps
    requires cfg.north != 0.0 && cfg.south != 0.0 && cfg.east != 0.0 && cfg.west != 0.0
    ensures NativeRegion(current, maps, mapname, cfg) ==
      Region(cfg.north, cfg.south, cfg.east, cfg.west, maps[mapname].region.ewres, maps[mapname].region.nsres)
  {
  }

  /**
   * A configured bound of 0 makes native and target regions disagree
   * whenever the raster's own bound is not 0, so there is then no block
   * factor between them and the resampled map is not the block average.
   */
  lemma ZeroBoundMisaligns(current: Region, maps: map<string, Map>, mapname: string, cfg: RegionConfig)
    requires mapname in maps
    requires cfg.south == 0.0 && maps[mapname].region.s != 0.0
    ensures BlockFactor(NativeRegion(current, maps, mapname, cfg), TargetRegion(cfg)) == None
  {
  }

  /** Setting the native region a second time from the same map and bounds changes nothing. */
  lemma NativeRegionIdempotent(current: Region, maps: map<string, Map>, mapname: string, cfg: RegionConfig)
    ensures NativeRegion(NativeRegion(current, maps, mapname, cfg), maps, mapname, cfg) ==
            NativeRegion(current, maps, mapname, cfg)
  {
  }

  /** Asking again from the region the first request left asks for the same region. */
  lemma NativeRequestStable(current: Region, maps: map<string, Map>, mapname: string, cfg: RegionConfig)
    ensures NativeRequest(NativeRegion(current, maps, mapname, cfg), maps, mapname, cfg) ==
            NativeRequest(current, maps, mapname, cfg)
  {
  }

  /** `_set_native_region`. */
  method SetNativeRegion(e: Engine, cfg: RegionConfig, mapname: string)
    modifies e
    ensures e.region == NativeRegion(old(e.region), old(e.maps), mapname, cfg)
    ensures e.maps == old(e.maps) && e.mask == old(e.mask) && e.saved == old(e.saved) && e.files == old(e.files)
    ensures e.log == old(e.log) + [RegionFromRaster(mapname), RegionSet(NativeRequest(old(e.region), old(e.maps), mapname, cfg), Some(mapname))]
  {
    var _ := GrassUtils.SetRegionFromRaster(e, mapname, Some(cfg.north), Some(cfg.south), Some(cfg.east), Some(cfg.west));
  }

  /** `_set_target_region`: the same region whatever was set before. */
  method SetTargetRegion(e: Engine, cfg: RegionConfig)
    modifies e
    ensures e.region == TargetRegion(cfg)
    ensures e.maps == old(e.maps) && e.mask == old(e.mask) && e.saved == old(e.saved) && e.files == old(e.files)
    ensures e.log == old(e.log) + [RegionSet(TargetRegion(cfg), None)]
  {
    var _ := GrassUtils.SetRegion(e, TargetRegion(cfg), None);
  }

  /** `_resample`: weighted `r.resamp.stats` in whatever region is current; always 0. */
  method Resample(e: Engine, input: string, output: string, how: Aggregate, overwrite: bool) returns (r: int)
    modifies e
    ensures r == 0
    ensures e.region == old(e.region) && e.mask == old(e.mask) && e.saved == old(e.saved) && e.files == old(e.files)
    ensures e.log == old(e.log) + [ResampStats(input, output, how, true)]
    ensures input !in old(e.maps) ==> e.maps == old(e.maps)
    ensures input in old(e.maps) ==>
      match ResampleOutcome(old(e.maps)[input], old(e.region), how)
      case Exact(m) => e.maps == Store(old(e.maps), output, m, overwrite)
      case _ => exists m: Map :: m.region == old(e.region) && e.maps == Store(old(e.maps), output, m, overwrite)
  {
    e.ResampStatsCmd(input, output, how, true, overwrite);
    return 0;
  }

  /** The constructor's effect on the engine: any mask is removed before the maps are named. */
  class AncillaryDataset {
    const config: RegionConfig
    const overwrite: bool

    constructor(config: RegionConfig, overwrite: bool, e: Engine)
      modifies e
      ensures this.config == config && this.overwrite == overwrite
      ensures e.mask == None
      ensures e.region == old(e.region) && e.maps == old(e.maps) && e.saved == old(e.saved) && e.files == old(e.files)
      ensures e.log == old(e.log) + [MaskOff]
    {
      this.config := config;
      this.overwrite := overwrite;
      var _ := GrassUtils.RemoveMask(e);
    }
  }

  // ---- native computation followed by resampling to the target grid ----

  /** The commands one product step issues, in order. */
  function StepLog(native: Region, cfg: RegionConfig, regionMap: string, inputs: seq<string>,
                   nativeOut: string, targetOut: string): seq<Command>
  {
    [RegionFromRaster(regionMap), RegionSet(native, Some(regionMap)), Calc(nativeOut, inputs),
     RegionSet(TargetRegion(cfg), None), ResampStats(nativeOut, targetOut, Average, true)]
  }

  /**
   * The catalogue after a step when every command has a known result: the
   * native map is f over the inputs in the native region, the target map
   * the block average of the native map then stored on the target grid.
   * GRASS refuses each store when the map exists and `overwrite` is off.
   */
  function StepMaps(maps: map<string, Map>, mask: Option<Mask>, native: Region, target: Region,
                    inputs: seq<string>, f: seq<Cell> -> Cell, nativeOut: string, targetOut: string, overwrite: bool)
    : (s: Option<map<string, Map>>)
    ensures s.Some? ==> nativeOut in s.value && targetOut in s.value
    ensures s.Some? ==> forall k :: k != nativeOut && k != targetOut ==> Agree(s.value, maps, k)
    ensures s.Some? && !overwrite && nativeOut in maps ==> s.value[nativeOut] == maps[nativeOut]
  {
    match CalcOutcome(maps, mask, native, inputs, f)
    case Exact(m1) =>
      var maps1 := Store(maps, nativeOut, m1, overwrite);
      (match ResampleOutcome(maps1[nativeOut], target, Average)
       case Exact(m2) => Some(Store(maps1, targetOut, m2, overwrite))
       case _ => None)
    case _ => None
  }

  /**
   * When the step may write both outputs, they hold f over the inputs on
   * the native grid and its block average on the target grid.
   */
  lemma StepMapsWritten(maps: map<string, Map>, mask: Option<Mask>, native: Region, target: Region,
                        inputs: seq<string>, f: seq<Cell> -> Cell, nativeOut: string, targetOut: string, overwrite: bool)
    requires nativeOut != targetOut && (overwrite || (nativeOut !in maps && targetOut !in maps))
    requires StepMaps(maps, mask, native, target, inputs, f, nativeOut, targetOut, overwrite).Some?
    ensures var s := StepMaps(maps, mask, native, target, inputs, f, nativeOut, targetOut, overwrite).value;
      var c := CalcOutcome(maps, mask, native, inputs, f);
      c.Exact? && s[nativeOut] == c.result && ResampleOutcome(c.result, target, Average) == Exact(s[targetOut])
  {
  }

  /**
   * A step reads only its inputs, the mask raster and its own outputs:
   * catalogues that agree on those give outputs that agree.
   */
  lemma StepMapsFrame(a: map<string, Map>, b: map<string, Map>, mask: Option<Mask>, native: Region, target: Region,
                      inputs: seq<string>, f: seq<Cell> -> Cell, nativeOut: string, targetOut: string, overwrite: bool)
    requires forall j :: 0 <= j < |inputs| ==> Agree(a, b, inputs[j])
    requires mask.Some? ==> Agree(a, b, mask.value.raster)
    requires Agree(a, b, nativeOut) && Agree(a, b, targetOut)
    ensures var sa := StepMaps(a, mask, native, target, inputs, f, nativeOut, targetOut, overwrite);
      var sb := StepMaps(b, mask, native, target, inputs, f, nativeOut, targetOut, overwrite);
      sa.Some? == sb.Some? && (sa.Some? ==> Agree(sa.value, sb.value, nativeOut) && Agree(sa.value, sb.value, targetOut))
  {
    CalcOutcomeFrame(a, b, mask, native, inputs, f);
  }

  /**
   * One product step: set the native region from `regionMap`, compute
   * `nativeOut = f(inputs)`, set the target region, and average
   * `nativeOut` into `targetOut`.
   */
  method NativeStep(e: Engine, cfg: RegionConfig, regionMap: string, inputs: seq<string>, f: seq<Cell> -> Cell,
                    nativeOut: string, targetOut: string, overwrite: bool)
    modifies e
    ensures e.region == TargetRegion(cfg)
    ensures e.mask == old(e.mask) && e.saved == old(e.saved) && e.files == old(e.files)
    ensures e.log == old(e.log) + StepLog(NativeRequest(old(e.region), old(e.maps), regionMap, cfg), cfg, regionMap, inputs, nativeOut, targetOut)
    ensures forall k :: k != nativeOut && k != targetOut ==>
      (k in e.maps <==> k in old(e.maps)) && (k in e.maps ==> e.maps[k] == old(e.maps)[k])
    ensures var s := StepMaps(old(e.maps), old(e.mask), NativeRegion(old(e.region), old(e.maps), regionMap, cfg), TargetRegion(cfg),
                              inputs, f, nativeOut, targetOut, overwrite);
      s.Some? ==> e.maps == s.value
  {
    SetNativeRegion(e, cfg, regionMap);
    e.CalcCmd(nativeOut, inputs, f, overwrite);
    SetTargetRegion(e, cfg);
    var _ := Resample(e, nativeOut, targetOut, Average, overwrite);
  }

  // ---- properties of a command log ----

  /** The output names of every `r.mapcalc` in a command log, in order. */
  function Calcs(log: seq<Command>): seq<string>
  {
    if |log| == 0 then []
    else Calcs(log[..|log| - 1]) + (if log[|log| - 1].Calc? then [log[|log| - 1].output] else [])
  }

  lemma CalcsSnoc(log: seq<Command>, c: Command)
    ensures Calcs(log + [c]) == Calcs(log) + (if c.Calc? then [c.output] else [])
  {
    assert (log + [c])[..|log|] == log;
  }

  /** Every resample in the log directly follows setting the target region. */
  ghost predicate ResampledOnTarget(log: seq<Command>, cfg: RegionConfig)
  {
    forall i :: 0 <= i < |log| && log[i].ResampStats? ==> 0 < i && log[i - 1] == RegionSet(TargetRegion(cfg), None)
  }

  /** One product step computes `nativeOut`, and resamples only right after setting the target region. */
  lemma StepLogShape(native: Region, cfg: RegionConfig, regionMap: string, inputs: seq<string>,
                     nativeOut: string, targetOut: string, before: seq<Command>)
    ensures var log := before + StepLog(native, cfg, regionMap, inputs, nativeOut, targetOut);
      Calcs(log) == Calcs(before) + [nativeOut] &&
      (ResampledOnTarget(before, cfg) ==> ResampledOnTarget(log, cfg))
  {
    var s := StepLog(native, cfg, regionMap, inputs, nativeOut, targetOut);
    var l1 := before + [s[0]];
    var l2 := l1 + [s[1]];
    var l3 := l2 + [s[2]];
    var l4 := l3 + [s[3]];
    assert before + s == l4 + [s[4]];
    CalcsSnoc(before, s[0]);
    CalcsSnoc(l1, s[1]);
    CalcsSnoc(l2, s[2]);
    CalcsSnoc(l3, s[3]);
    CalcsSnoc(l4, s[4]);
  }

  /** `g.region raster=` followed by `g.region n= s= e= w=` neither computes nor resamples. */
  lemma RegionCommandsKeep(before: seq<Command>, r1: string, rg: Region, al: Option<string>, cfg: RegionConfig)
    ensures Calcs(before + [RegionFromRaster(r1), RegionSet(rg, al)]) == Calcs(before)
    ensures ResampledOnTarget(before, cfg) ==> ResampledOnTarget(before + [RegionFromRaster(r1), RegionSet(rg, al)], cfg)
  {
    assert before + [RegionFromRaster(r1), RegionSet(rg, al)] == before + [RegionFromRaster(r1)] + [RegionSet(rg, al)];
    CalcsSnoc(before, RegionFromRaster(r1));
    CalcsSnoc(before + [RegionFromRaster(r1)], RegionSet(rg, al));
  }
}
