// The older soil classes (jamr/soil.py): the same Cosby, Tomasella-Hodnett
// and Zhang-Schaap transfer functions, computed in whatever region is set,
// with no mask and no resampling; map names end in the region label given
// to the constructor. Every `r.mapcalc` sits in its own `try` block.
module SoilLegacy {
  import opened Wrappers
  import opened Strings
  import opened Raster
  import opened Grass
  import opened TryBlocks
  import RealMath
  import MapCalc
  import SoilGridsInput
  import PyCalls
  import VanGenuchten
  import SoilProps

  /** A Cosby PTF of the older file: seven maps in the current region. */
  class CosbyPtf {
    /** The horizon with '-' replaced by '_'. */
    const horizon: string
    const region: string
    const maps: SoilGridsInput.SoilHorizonMaps
    const overwrite: bool
    const m: RealMath.Math

    /** `__init__`: copy the horizon's map names, name the outputs (nothing is issued). */
    constructor(h: SoilProps.HorizonData, region: string, overwrite: bool, m: RealMath.Math)
      ensures horizon == ReplaceChar(h.horizon, '-', '_') && this.region == region && maps == h.maps
      ensures this.overwrite == overwrite && this.m == m
    {
      horizon := ReplaceChar(h.horizon, '-', '_');
      this.region := region;
      maps := h.maps;
      this.overwrite := overwrite;
      this.m := m;
    }

    /** `<variable>_cosby_<horizon>_<region>`: the name the newer class gives the target map. */
    function Name(v: SoilProps.SoilVariable): string
    {
      SoilProps.CosbyName(SoilProps.VariableName(v), horizon, region, "")
    }

    function Clay(): string { VanGenuchten.OptName(maps.clayContent) }
    function Sand(): string { VanGenuchten.OptName(maps.sandContent) }

    /** The maps a variable's expression reads: the retention points read the outputs of earlier steps. */
    function Inputs(v: SoilProps.SoilVariable): seq<string>
    {
      match v
      case ThetaCrit | ThetaWilt => [Name(SoilProps.ThetaSat), Name(SoilProps.PsiM), Name(SoilProps.B)]
      case ThetaRes => []
      case _ => [Clay(), Sand()]
    }

    /** One variable's `r.mapcalc`, with the same expression as the newer class. */
    function Step(v: SoilProps.SoilVariable): CalcStep
    {
      CalcStep(Name(v), Inputs(v), SoilProps.CosbyFormula(m, v))
    }

    /** `compute`'s seven one-call blocks, in `SoilProps.CosbyOrder`. */
    function Blocks(): seq<seq<CalcStep>>
    {
      [[Step(SoilProps.B)], [Step(SoilProps.PsiM)], [Step(SoilProps.Ksat)], [Step(SoilProps.ThetaSat)],
       [Step(SoilProps.ThetaCrit)], [Step(SoilProps.ThetaWilt)], [Step(SoilProps.ThetaRes)]]
    }

    /** `Blocks` as the one-block-at-a-time concatenation `Compute` builds. */
    lemma BlocksChain()
      ensures Blocks() ==
        [] + [[Step(SoilProps.B)]] + [[Step(SoilProps.PsiM)]] + [[Step(SoilProps.Ksat)]] + [[Step(SoilProps.ThetaSat)]]
        + [[Step(SoilProps.ThetaCrit)]] + [[Step(SoilProps.ThetaWilt)]] + [[Step(SoilProps.ThetaRes)]]
    {
    }

    /**
     * Block k computes the k-th variable of `SoilProps.CosbyOrder`, and every
     * map the two retention blocks read is written by a block before them.
     */
    lemma BlocksInOrder()
      ensures |Blocks()| == |SoilProps.CosbyOrder|
      ensures forall k :: 0 <= k < |Blocks()| ==> Blocks()[k] == [Step(SoilProps.CosbyOrder[k])]
      ensures forall k, x :: 4 <= k < 6 && x in Blocks()[k][0].inputs ==>
        exists j :: 0 <= j < 4 && Blocks()[j][0].output == x
    {
      var bs: seq<seq<CalcStep>> := Blocks();
      forall k: int, x: string | 4 <= k < 6 && x in bs[k][0].inputs
        ensures exists j :: 0 <= j < 4 && bs[j][0].output == x
      {
        if x == Name(SoilProps.ThetaSat) {
          assert bs[3][0].output == x;
        } else if x == Name(SoilProps.PsiM) {
          assert bs[1][0].output == x;
        } else {
          assert bs[0][0].output == x;
        }
      }
    }

    /** `compute`: b, psi_m, ksat, theta_sat, theta_crit, theta_wilt, theta_res, each in its own `try`. */
    method Compute(e: Engine)
      modifies e
      ensures e.region == old(e.region) && e.mask == old(e.mask) && e.saved == old(e.saved) && e.files == old(e.files)
      ensures Ran(old(e.maps), old(e.log), e.mask, e.region, Blocks(), overwrite, e.maps, e.log)
    {
      ghost var m0, l0 := e.maps, e.log;
      RanNothing(m0, l0, e.mask, e.region, overwrite);
      ghost var d: seq<seq<CalcStep>> := [];
      TryNext(e, Step(SoilProps.B), overwrite, m0, l0, d);
      d := d + [[Step(SoilProps.B)]];
      TryNext(e, Step(SoilProps.PsiM), overwrite, m0, l0, d);
      d := d + [[Step(SoilProps.PsiM)]];
      TryNext(e, Step(SoilProps.Ksat), overwrite, m0, l0, d);
      d := d + [[Step(SoilProps.Ksat)]];
      TryNext(e, Step(SoilProps.ThetaSat), overwrite, m0, l0, d);
      d := d + [[Step(SoilProps.ThetaSat)]];
      TryNext(e, Step(SoilProps.ThetaCrit), overwrite, m0, l0, d);
      d := d + [[Step(SoilProps.ThetaCrit)]];
      TryNext(e, Step(SoilProps.ThetaWilt), overwrite, m0, l0, d);
      d := d + [[Step(SoilProps.ThetaWilt)]];
      TryNext(e, Step(SoilProps.ThetaRes), overwrite, m0, l0, d);
      d := d + [[Step(SoilProps.ThetaRes)]];
      BlocksChain();
    }
  }

  /**
   * `TomasellaHodnettPTF(soilhorizon, region, overwrite)`: the arguments
   * line up with the base class here, and `self.region` is the region
   * label, so its `compute` runs every block.
   */
  method NewTomasellaHodnett(h: SoilProps.HorizonData, region: string, overwrite: bool, sem: MapCalc.DivSemantics,
                             m: RealMath.Math)
    returns (p: VanGenuchten.VanGenuchtenPtf)
    ensures fresh(p)
    ensures p.methodName == "tomasellahodnett" && p.scheme == VanGenuchten.TomasellaHodnett(sem)
    ensures p.horizon == ReplaceChar(h.horizon, '-', '_') && p.regionName == region && p.region == Some(region)
    ensures p.maps == h.maps && p.overwrite == overwrite && p.m == m
  {
    p := new VanGenuchten.VanGenuchtenPtf("tomasellahodnett", ReplaceChar(h.horizon, '-', '_'), region, Some(region),
                                          h.maps, overwrite, VanGenuchten.TomasellaHodnett(sem), m);
  }

  /** `USDATextureClass(soilhorizon, region, overwrite)`: the horizon as given, no region set by `compute`. */
  method NewUsdaTexture(h: SoilProps.HorizonData, region: string, overwrite: bool) returns (u: VanGenuchten.UsdaTexture)
    ensures fresh(u)
    ensures u.clay == VanGenuchten.OptName(h.maps.clayContent) && u.sand == VanGenuchten.OptName(h.maps.sandContent)
    ensures u.silt == VanGenuchten.OptName(h.maps.siltContent)
    ensures u.horizon == h.horizon && u.region == region && u.overwrite == overwrite
    ensures !u.setsRegion
  {
    u := new VanGenuchten.UsdaTexture(VanGenuchten.OptName(h.maps.clayContent), VanGenuchten.OptName(h.maps.sandContent),
                                      VanGenuchten.OptName(h.maps.siltContent), h.horizon, region, overwrite, None, false);
  }

  /** The parameters of `USDATextureClass.__init__`, `self` first. */
  const UsdaInitParams: seq<string> := ["self", "soilhorizon", "region", "overwrite"]

  /**
   * `ZhangSchaapPTF.compute` builds its `USDATextureClass` from six map
   * names and values, but the constructor takes a horizon, a region and a
   * flag: the call raises TypeError before any map is computed.
   */
  lemma ZhangSchaapUsdaAsWritten()
    ensures PyCalls.Bind("USDATextureClass.__init__", UsdaInitParams, 7) ==
      Err(TypeError(PyCalls.TooMany("USDATextureClass.__init__", 4, 7)))
  {
  }

  /** A `ZhangSchaapPTF` of the older file. */
  class ZhangSchaapPtf {
    /** The van Genuchten part (the base class), with the Zhang-Schaap scheme. */
    const vg: VanGenuchten.VanGenuchtenPtf
    /** `self.usda`, set by `compute`. */
    var usda: VanGenuchten.UsdaTexture?

    /** The base-class fields the constructor derives from the horizon and the region label. */
    predicate Valid()
    {
      vg.region == Some(vg.regionName) && vg.scheme == VanGenuchten.ZhangSchaap(vg.horizon, vg.regionName)
    }

    constructor(h: SoilProps.HorizonData, region: string, overwrite: bool, m: RealMath.Math)
      ensures Valid() && usda == null
      ensures vg.methodName == "zhangschaap" && vg.horizon == ReplaceChar(h.horizon, '-', '_')
      ensures vg.regionName == region && vg.maps == h.maps && vg.overwrite == overwrite && vg.m == m
    {
      var horizon := ReplaceChar(h.horizon, '-', '_');
      vg := new VanGenuchten.VanGenuchtenPtf("zhangschaap", horizon, region, Some(region), h.maps, overwrite,
                                             VanGenuchten.ZhangSchaap(horizon, region), m);
      usda := null;
    }

    /** `compute` as written: binding the six arguments fails, and nothing is issued. */
    method ComputeAsWritten() returns (r: Result<()>)
      ensures r == Err(TypeError(PyCalls.TooMany("USDATextureClass.__init__", 4, 7)))
    {
      ZhangSchaapUsdaAsWritten();
      var b := PyCalls.Bind("USDATextureClass.__init__", UsdaInitParams, 7);
      return Err(b.error);
    }

    /** The indicator maps' blocks, then the van Genuchten blocks. */
    function Blocks(): seq<seq<CalcStep>>
    {
      VanGenuchten.TextureBlocks(vg.Sand(), vg.Silt(), vg.Clay(), vg.horizon, vg.regionName) + vg.Blocks(vg.regionName)
    }

    /** The texture classes of `compute`, with the six values the call passes. */
    method TextureClasses(e: Engine)
      modifies this, e
      ensures usda != null && fresh(usda) && !usda.setsRegion
      ensures e.region == old(e.region) && e.mask == old(e.mask) && e.saved == old(e.saved) && e.files == old(e.files)
      ensures Ran(old(e.maps), old(e.log), e.mask, e.region,
                  VanGenuchten.TextureBlocks(vg.Sand(), vg.Silt(), vg.Clay(), vg.horizon, vg.regionName),
                  vg.overwrite, e.maps, e.log)
    {
      var u := new VanGenuchten.UsdaTexture(vg.Clay(), vg.Sand(), vg.Silt(), vg.horizon, vg.regionName, vg.overwrite,
                                            None, false);
      usda := u;
      var _ := u.Compute(e);
      assert old(e.log) + u.RegionLog(u.Request(old(e.region), old(e.maps))) == old(e.log);
    }

    /** The base-class `compute`, whose `self.region` is set. */
    method Retention(e: Engine) returns (r: Result<()>)
      requires Valid()
      modifies e
      ensures r.Ok?
      ensures e.region == old(e.region) && e.mask == old(e.mask) && e.saved == old(e.saved) && e.files == old(e.files)
      ensures Ran(old(e.maps), old(e.log), e.mask, e.region, vg.Blocks(vg.regionName), vg.overwrite, e.maps, e.log)
    {
      r := vg.Compute(e);
    }

    /**
     * `compute` with the texture classes built from the values the call
     * passes: the twelve indicator maps, then the eight van Genuchten
     * blocks, all in the current region.
     */
    method Compute(e: Engine) returns (r: Result<()>)
      requires Valid()
      modifies this, e
      ensures r.Ok?
      ensures usda != null && fresh(usda) && !usda.setsRegion
      ensures e.region == old(e.region) && e.mask == old(e.mask) && e.saved == old(e.saved) && e.files == old(e.files)
      ensures Ran(old(e.maps), old(e.log), e.mask, e.region, Blocks(), vg.overwrite, e.maps, e.log)
    {
      TextureClasses(e);
      ghost var m1, l1 := e.maps, e.log;
      r := Retention(e);
      RanConcat(old(e.maps), old(e.log), e.mask, e.region,
                VanGenuchten.TextureBlocks(vg.Sand(), vg.Silt(), vg.Clay(), vg.horizon, vg.regionName),
                vg.Blocks(vg.regionName), vg.overwrite, m1, l1, e.maps, e.log);
    }
  }
}
