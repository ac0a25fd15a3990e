// The van Genuchten pedotransfer classes and the USDA texture classes
// that feed the Zhang-Schaap lookup. Every `r.mapcalc` runs through
// pygrass inside `try: ... except CalledModuleError: pass`, in whatever
// region and mask are current, so each method is a sequence of TryBlocks
// blocks: its effect is the blocks' commands and catalogue.
module VanGenuchten {
  import opened Wrappers
  import opened Raster
  import opened Grass
  import opened TryBlocks
  import MapCalc
  import RealMath
  import Pedotransfer
  import SoilCells
  import Constants
  import Ancillary
  import SoilGridsInput

  /** A map name interpolated into an expression: a variable that was not read reads `None`. */
  function OptName(o: Option<string>): string
  {
    if o.Some? then o.value else "None"
  }

  // ---- USDA texture-class indicator maps ----

  /** `usda_<class>_<horizon>_<region>`. */
  function UsdaName(horizon: string, region: string, t: Pedotransfer.TextureClass): string
  {
    "usda_" + Pedotransfer.ClassName(t) + "_" + horizon + "_" + region
  }

  /** `_texture_class` for one class: inputs [sand, silt, clay]. */
  function TextureStep(sand: string, silt: string, clay: string, horizon: string, region: string,
                       t: Pedotransfer.TextureClass): CalcStep
  {
    CalcStep(UsdaName(horizon, region, t), [sand, silt, clay], cs => SoilCells.TextureCell(t, cs))
  }

  /** The indicator maps in the order Zhang-Schaap multiplies them by the factors. */
  function UsdaInputs(horizon: string, region: string): (ns: seq<string>)
    ensures |ns| == |Pedotransfer.FactorOrder|
    ensures forall j :: 0 <= j < |ns| ==> ns[j] == UsdaName(horizon, region, Pedotransfer.FactorOrder[j])
  {
    seq(|Pedotransfer.FactorOrder|, j requires 0 <= j < |Pedotransfer.FactorOrder| =>
      UsdaName(horizon, region, Pedotransfer.FactorOrder[j]))
  }

  /** `_usda_texture_class`: twelve one-call `try` blocks, one per class in the order of `Pedotransfer.ComputeOrder`. */
  function TextureBlocks(sand: string, silt: string, clay: string, horizon: string, region: string): seq<seq<CalcStep>>
  {
    var step := (t: Pedotransfer.TextureClass) => TextureStep(sand, silt, clay, horizon, region, t);
    [[step(Pedotransfer.Clay)], [step(Pedotransfer.SandyClay)], [step(Pedotransfer.SiltyClay)],
     [step(Pedotransfer.SandyClayLoam)], [step(Pedotransfer.ClayLoam)], [step(Pedotransfer.SiltyClayLoam)],
     [step(Pedotransfer.SandyLoam)], [step(Pedotransfer.Loam)], [step(Pedotransfer.SiltLoam)],
     [step(Pedotransfer.Silt)], [step(Pedotransfer.LoamySand)], [step(Pedotransfer.Sand)]]
  }

  /** `TextureBlocks` as the one-block-at-a-time concatenation the methods build. */
  lemma TextureBlocksChain(sand: string, silt: string, clay: string, horizon: string, region: string)
    ensures TextureBlocks(sand, silt, clay, horizon, region) ==
      [] + [[TextureStep(sand, silt, clay, horizon, region, Pedotransfer.Clay)]]
      + [[TextureStep(sand, silt, clay, horizon, region, Pedotransfer.SandyClay)]]
      + [[TextureStep(sand, silt, clay, horizon, region, Pedotransfer.SiltyClay)]]
      + [[TextureStep(sand, silt, clay, horizon, region, Pedotransfer.SandyClayLoam)]]
      + [[TextureStep(sand, silt, clay, horizon, region, Pedotransfer.ClayLoam)]]
      + [[TextureStep(sand, silt, clay, horizon, region, Pedotransfer.SiltyClayLoam)]]
      + [[TextureStep(sand, silt, clay, horizon, region, Pedotransfer.SandyLoam)]]
      + [[TextureStep(sand, silt, clay, horizon, region, Pedotransfer.Loam)]]
      + [[TextureStep(sand, silt, clay, horizon, region, Pedotransfer.SiltLoam)]]
      + [[TextureStep(sand, silt, clay, horizon, region, Pedotransfer.Silt)]]
      + [[TextureStep(sand, silt, clay, horizon, region, Pedotransfer.LoamySand)]]
      + [[TextureStep(sand, silt, clay, horizon, region, Pedotransfer.Sand)]]
  {
  }

  /** A `USDATextureClass`: the indicator maps of one soil horizon. */
  class UsdaTexture {
    const clay: string
    const sand: string
    const silt: string
    const horizon: string
    const region: string
    const overwrite: bool
    /** What `compute` reads as `self.config`, None where the constructor never stored it. */
    const config: Option<Ancillary.RegionConfig>
    /** Whether `compute` first sets the region from the clay map and the configured bounds. */
    const setsRegion: bool

    constructor(clay: string, sand: string, silt: string, horizon: string, region: string, overwrite: bool,
                config: Option<Ancillary.RegionConfig>, setsRegion: bool)
      ensures this.clay == clay && this.sand == sand && this.silt == silt
      ensures this.horizon == horizon && this.region == region && this.overwrite == overwrite
      ensures this.config == config && this.setsRegion == setsRegion
    {
      this.clay := clay;
      this.sand := sand;
      this.silt := silt;
      this.horizon := horizon;
      this.region := region;
      this.overwrite := overwrite;
      this.config := config;
      this.setsRegion := setsRegion;
    }

    /** One class's `_texture_class` call. */
    function Step(t: Pedotransfer.TextureClass): CalcStep
    {
      TextureStep(sand, silt, clay, horizon, region, t)
    }

    /** `_usda_texture_class`: twelve one-call `try` blocks, in the order of `Pedotransfer.ComputeOrder`. */
    function Blocks(): seq<seq<CalcStep>>
    {
      TextureBlocks(sand, silt, clay, horizon, region)
    }

    /** `_usda_texture_class`: one indicator map per class, each in its own `try`. */
    method TextureClasses(e: Engine)
      modifies e
      ensures e.region == old(e.region) && e.mask == old(e.mask) && e.saved == old(e.saved) && e.files == old(e.files)
      ensures Ran(old(e.maps), old(e.log), e.mask, e.region, Blocks(), overwrite, e.maps, e.log)
    {
      ghost var m0, l0 := e.maps, e.log;
      RanNothing(m0, l0, e.mask, e.region, overwrite);
      ghost var d: seq<seq<CalcStep>> := [];
      TryNext(e, Step(Pedotransfer.Clay), overwrite, m0, l0, d);
      d := d + [[Step(Pedotransfer.Clay)]];
      TryNext(e, Step(Pedotransfer.SandyClay), overwrite, m0, l0, d);
      d := d + [[Step(Pedotransfer.SandyClay)]];
      TryNext(e, Step(Pedotransfer.SiltyClay), overwrite, m0, l0, d);
      d := d + [[Step(Pedotransfer.SiltyClay)]];
      TryNext(e, Step(Pedotransfer.SandyClayLoam), overwrite, m0, l0, d);
      d := d + [[Step(Pedotransfer.SandyClayLoam)]];
      TryNext(e, Step(Pedotransfer.ClayLoam), overwrite, m0, l0, d);
      d := d + [[Step(Pedotransfer.ClayLoam)]];
      TryNext(e, Step(Pedotransfer.SiltyClayLoam), overwrite, m0, l0, d);
      d := d + [[Step(Pedotransfer.SiltyClayLoam)]];
      TryNext(e, Step(Pedotransfer.SandyLoam), overwrite, m0, l0, d);
      d := d + [[Step(Pedotransfer.SandyLoam)]];
      TryNext(e, Step(Pedotransfer.Loam), overwrite, m0, l0, d);
      d := d + [[Step(Pedotransfer.Loam)]];
      TryNext(e, Step(Pedotransfer.SiltLoam), overwrite, m0, l0, d);
      d := d + [[Step(Pedotransfer.SiltLoam)]];
      TryNext(e, Step(Pedotransfer.Silt), overwrite, m0, l0, d);
      d := d + [[Step(Pedotransfer.Silt)]];
      TryNext(e, Step(Pedotransfer.LoamySand), overwrite, m0, l0, d);
      d := d + [[Step(Pedotransfer.LoamySand)]];
      TryNext(e, Step(Pedotransfer.Sand), overwrite, m0, l0, d);
      d := d + [[Step(Pedotransfer.Sand)]];
      TextureBlocksChain(sand, silt, clay, horizon, region);
    }

    /** The region `compute`'s second `g.region` asks for, from the region and catalogue it starts on. */
    function Request(current: Region, maps: map<string, Map>): Region
    {
      if setsRegion && config.Some? then Ancillary.NativeRequest(current, maps, clay, config.value) else current
    }

    /** The region commands `compute` issues before the indicator maps. */
    function RegionLog(native: Region): seq<Command>
    {
      if setsRegion then [RegionFromRaster(clay), RegionSet(native, Some(clay))] else []
    }

    /**
     * `compute`: where the class sets the region, `self.config` is read
     * first (an AttributeError when it was never stored, before any engine
     * command); then the indicator maps are computed in the current region.
     */
    method Compute(e: Engine) returns (r: Result<()>)
      modifies e
      ensures e.mask == old(e.mask) && e.saved == old(e.saved) && e.files == old(e.files)
      ensures r.Err? <==> setsRegion && config.None?
      ensures r.Err? ==>
        (r.error == AttributeError("config") && e.maps == old(e.maps) && e.log == old(e.log) && e.region == old(e.region))
      ensures r.Ok? ==> e.region == (if setsRegion then Ancillary.NativeRegion(old(e.region), old(e.maps), clay, config.value)
                                     else old(e.region))
      ensures r.Ok? ==> Ran(old(e.maps), old(e.log) + RegionLog(Request(old(e.region), old(e.maps))), e.mask, e.region, Blocks(), overwrite, e.maps, e.log)
    {
      if setsRegion {
        if config.None? {
          return Err(AttributeError("config"));
        }
        Ancillary.SetNativeRegion(e, config.value, clay);
      } else {
        assert old(e.log) + [] == e.log;
      }
      ghost var l1 := e.log;
      assert l1 == old(e.log) + RegionLog(Request(old(e.region), old(e.maps)));
      TextureClasses(e);
      r := Ok(());
    }
  }

  // ---- the van Genuchten classes ----

  /** Where alpha, n, theta_res, theta_sat and ksat come from. */
  datatype Scheme =
    | TomasellaHodnett(sem: MapCalc.DivSemantics)         // regressions on the soil maps
    | ZhangSchaap(usdaHorizon: string, usdaRegion: string)  // per-class lookup over the indicator maps

  /** A Zhang-Schaap factor list, one factor per texture class. */
  function Factors(key: string): (f: seq<real>)
    requires key in {"alpha", "n", "theta_res", "theta_sat", "ksat"}
    ensures |f| == |Pedotransfer.FactorOrder|
  {
    Constants.ZhangSchaapWellFormed();
    Constants.ZhangSchaapFactors[key]
  }

  /** A `VanGenuchtenPTF` (Tomasella-Hodnett or Zhang-Schaap) for one soil horizon. */
  class VanGenuchtenPtf {
    const methodName: string
    /** The horizon with '-' replaced by '_'. */
    const horizon: string
    /** The region label of the output names. */
    const regionName: string
    /** `self.region`, which names the A and Se maps; None where it is never set. */
    const region: Option<string>
    const maps: SoilGridsInput.SoilHorizonMaps
    const overwrite: bool
    const scheme: Scheme
    const m: RealMath.Math

    constructor(methodName: string, horizon: string, regionName: string, region: Option<string>,
                maps: SoilGridsInput.SoilHorizonMaps, overwrite: bool, scheme: Scheme, m: RealMath.Math)
      ensures this.methodName == methodName && this.horizon == horizon && this.regionName == regionName
      ensures this.region == region && this.maps == maps && this.overwrite == overwrite
      ensures this.scheme == scheme && this.m == m
    {
      this.methodName := methodName;
      this.horizon := horizon;
      this.regionName := regionName;
      this.region := region;
      this.maps := maps;
      this.overwrite := overwrite;
      this.scheme := scheme;
      this.m := m;
    }

    /** `<variable>_<method>_<horizon>_<region>`. */
    function Name(variable: string): string
    {
      variable + "_" + methodName + "_" + horizon + "_" + regionName
    }

    /** `<A|Se>_<suffix>_<method>_<horizon>_<self.region>`. */
    function Scratch(prefix: string, suffix: string, rgn: string): string
    {
      prefix + "_" + suffix + "_" + methodName + "_" + horizon + "_" + rgn
    }

    function Clay(): string { OptName(maps.clayContent) }
    function Sand(): string { OptName(maps.sandContent) }
    function Silt(): string { OptName(maps.siltContent) }
    function BulkDensity(): string { OptName(maps.bulkDensity) }
    function Cec(): string { OptName(maps.cationExchangeCapacity) }
    function Ph(): string { OptName(maps.phIndex) }
    function Soc(): string { OptName(maps.soilOrganicCarbon) }

    /** `_zhang_schaap_equation(Name(variable), ZHANGSCHAAP_FACTORS[key])`. */
    function LookupStep(variable: string, key: string, usdaHorizon: string, usdaRegion: string): CalcStep
      requires key in {"alpha", "n", "theta_res", "theta_sat", "ksat"}
    {
      CalcStep(Name(variable), UsdaInputs(usdaHorizon, usdaRegion), cs => SoilCells.ZhangSchaapCell(Factors(key), cs))
    }

    /** `van_genuchten_alpha`. */
    function AlphaStep(): CalcStep
    {
      match scheme
      case TomasellaHodnett(sem) => CalcStep(Name("alpha"), [Silt(), Soc(), Cec(), Ph()], cs => SoilCells.ThAlphaCell(m, sem, cs))
      case ZhangSchaap(h, r) => LookupStep("alpha", "alpha", h, r)
    }

    /** `van_genuchten_n`. */
    function NStep(): CalcStep
    {
      match scheme
      case TomasellaHodnett(sem) => CalcStep(Name("n"), [Clay(), Soc(), Ph(), Sand(), Silt()], cs => SoilCells.ThNCell(m, sem, cs))
      case ZhangSchaap(h, r) => LookupStep("n", "n", h, r)
    }

    /** `residual_water_content`. */
    function ResStep(): CalcStep
    {
      match scheme
      case TomasellaHodnett(_) => CalcStep(Name("theta_res"), [Sand(), Cec(), Ph(), Clay()], SoilCells.ThThetaResCell)
      case ZhangSchaap(h, r) => LookupStep("theta_res", "theta_res", h, r)
    }

    /** `saturated_water_content`. */
    function SatStep(): CalcStep
    {
      match scheme
      case TomasellaHodnett(_) => CalcStep(Name("theta_sat"), [Clay(), BulkDensity(), Cec(), Ph(), Sand()], SoilCells.ThThetaSatCell)
      case ZhangSchaap(h, r) => LookupStep("theta_sat", "theta_sat", h, r)
    }

    /** `saturated_hydraulic_conductivity`: the Cosby formula for Tomasella-Hodnett, the lookup for Zhang-Schaap. */
    function KsatStep(): CalcStep
    {
      match scheme
      case TomasellaHodnett(_) => CalcStep(Name("ksat"), [Clay(), Sand()], cs => SoilCells.CosbyKsatCell(m, cs))
      case ZhangSchaap(h, r) => LookupStep("ksat", "ksat", h, r)
    }

    /** `air_entry_pressure`: psi = 1 / alpha. */
    function PsiStep(): CalcStep
    {
      CalcStep(Name("psi"), [Name("alpha")], SoilCells.VgPsiCell)
    }

    /** `pore_size_distribution`: b = 1 / (n - 1). */
    function BStep(): CalcStep
    {
      CalcStep(Name("b"), [Name("n")], SoilCells.VgBCell)
    }

    /** `van_genuchten_equation(suffix, suction, out)`: the A, Se and theta calls of one `try` block. */
    function RetentionBlock(suffix: string, suction: real, out: string, rgn: string): seq<CalcStep>
    {
      var a := Scratch("A", suffix, rgn);
      var se := Scratch("Se", suffix, rgn);
      [CalcStep(a, [Name("alpha"), Name("n")], cs => SoilCells.VgACell(m, suction, cs)),
       CalcStep(se, [a, Name("n")], cs => SoilCells.VgSeCell(m, cs)),
       CalcStep(out, [se, Name("theta_sat"), Name("theta_res")], SoilCells.VgThetaCell)]
    }

    /** The six parameter blocks `compute` runs before the retention blocks. */
    function ParameterBlocks(): seq<seq<CalcStep>>
    {
      [[AlphaStep()], [NStep()], [ResStep()], [SatStep()], [PsiStep()], [BStep()]]
    }

    /** `ParameterBlocks` as the one-block-at-a-time concatenation `Parameters` builds. */
    lemma ParameterBlocksChain()
      ensures ParameterBlocks() ==
        [] + [[AlphaStep()]] + [[NStep()]] + [[ResStep()]] + [[SatStep()]] + [[PsiStep()]] + [[BStep()]]
    {
    }

    /** Every block `compute` runs when the A and Se maps are named after region `rgn`. */
    function Blocks(rgn: string): seq<seq<CalcStep>>
    {
      ParameterBlocks()
      + [RetentionBlock("crit", Constants.CriticalPointSuction, Name("theta_crit"), rgn)]
      + [RetentionBlock("wilt", Constants.WiltingPointSuction, Name("theta_wilt"), rgn)]
    }

    /** `saturated_hydraulic_conductivity`, which `compute` never calls. */
    method SaturatedHydraulicConductivity(e: Engine)
      modifies e
      ensures e.region == old(e.region) && e.mask == old(e.mask) && e.saved == old(e.saved) && e.files == old(e.files)
      ensures BlockRan(old(e.maps), old(e.log), e.mask, e.region, [KsatStep()], overwrite, e.maps, e.log)
    {
      Try(e, KsatStep(), overwrite);
    }

    /** The six parameter maps, each in its own `try`. */
    method Parameters(e: Engine)
      modifies e
      ensures e.region == old(e.region) && e.mask == old(e.mask) && e.saved == old(e.saved) && e.files == old(e.files)
      ensures Ran(old(e.maps), old(e.log), e.mask, e.region, ParameterBlocks(), overwrite, e.maps, e.log)
    {
      ghost var m0, l0 := e.maps, e.log;
      RanNothing(m0, l0, e.mask, e.region, overwrite);
      ghost var d: seq<seq<CalcStep>> := [];
      TryNext(e, AlphaStep(), overwrite, m0, l0, d);
      d := d + [[AlphaStep()]];
      TryNext(e, NStep(), overwrite, m0, l0, d);
      d := d + [[NStep()]];
      TryNext(e, ResStep(), overwrite, m0, l0, d);
      d := d + [[ResStep()]];
      TryNext(e, SatStep(), overwrite, m0, l0, d);
      d := d + [[SatStep()]];
      TryNext(e, PsiStep(), overwrite, m0, l0, d);
      d := d + [[PsiStep()]];
      TryNext(e, BStep(), overwrite, m0, l0, d);
      d := d + [[BStep()]];
      ParameterBlocksChain();
    }

    /**
     * `compute`: alpha, n, theta_res, theta_sat, psi and b, each in its
     * own `try`, then the critical and wilting water contents. Building
     * the A map's name reads `self.region`, so where it is unset the
     * first retention block raises AttributeError before issuing anything.
     */
    method Compute(e: Engine) returns (r: Result<()>)
      modifies e
      ensures e.region == old(e.region) && e.mask == old(e.mask) && e.saved == old(e.saved) && e.files == old(e.files)
      ensures r.Ok? <==> region.Some?
      ensures region.None? ==>
        (r == Err(AttributeError("region")) &&
         Ran(old(e.maps), old(e.log), e.mask, e.region, ParameterBlocks(), overwrite, e.maps, e.log))
      ensures region.Some? ==> Ran(old(e.maps), old(e.log), e.mask, e.region, Blocks(region.value), overwrite, e.maps, e.log)
    {
      ghost var m0, l0 := e.maps, e.log;
      Parameters(e);
      if region.None? {
        return Err(AttributeError("region"));
      }
      var crit := RetentionBlock("crit", Constants.CriticalPointSuction, Name("theta_crit"), region.value);
      var wilt := RetentionBlock("wilt", Constants.WiltingPointSuction, Name("theta_wilt"), region.value);
      Try3Next(e, crit, overwrite, m0, l0, ParameterBlocks());
      Try3Next(e, wilt, overwrite, m0, l0, ParameterBlocks() + [crit]);
      r := Ok(());
    }
  }
}
