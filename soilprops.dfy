// The soil-properties driver: one pedotransfer object per soil horizon.
// The Cosby PTF computes its seven hydraulic maps on the clay map's native
// grid under a land-fraction mask and averages each onto the target grid;
// the van Genuchten PTFs (Tomasella-Hodnett, Zhang-Schaap) compute theirs
// in the current region, each `r.mapcalc` in its own `try` block.
module SoilProps {
  import opened Wrappers
  import opened Strings
  import opened Raster
  import opened Grass
  import opened TryBlocks
  import MapCalc
  import RealMath
  import SoilCells
  import Constants
  import Ancillary
  import GrassUtils
  import SoilGridsInput
  import PyCalls
  import VanGenuchten

  /** One entry of the soil input: the horizon label and the maps read for it. */
  datatype HorizonData = HorizonData(horizon: string, maps: SoilGridsInput.SoilHorizonMaps)

  /** The message both factories raise for a method other than Cosby. */
  function UnknownMethod(methodName: string): Error
  {
    ValueError("Unknown soil properties method: " + methodName)
  }

  // ---- the mask commands of a log ----

  /** The `r.mask` commands of a command log, in order. */
  function MaskCommands(log: seq<Command>): seq<Command>
  {
    if |log| == 0 then []
    else MaskCommands(log[..|log| - 1]) + (if log[|log| - 1].MaskOn? || log[|log| - 1].MaskOff? then [log[|log| - 1]] else [])
  }

  lemma MaskCommandsSnoc(log: seq<Command>, c: Command)
    ensures MaskCommands(log + [c]) == MaskCommands(log) + (if c.MaskOn? || c.MaskOff? then [c] else [])
  {
    assert (log + [c])[..|log|] == log;
  }

  /** A product step neither sets nor removes a mask. */
  lemma StepLogUnmasked(native: Region, cfg: Ancillary.RegionConfig, regionMap: string, inputs: seq<string>,
                        nativeOut: string, targetOut: string, before: seq<Command>)
    ensures MaskCommands(before + Ancillary.StepLog(native, cfg, regionMap, inputs, nativeOut, targetOut)) == MaskCommands(before)
  {
    var s := Ancillary.StepLog(native, cfg, regionMap, inputs, nativeOut, targetOut);
    var l1 := before + [s[0]];
    var l2 := l1 + [s[1]];
    var l3 := l2 + [s[2]];
    var l4 := l3 + [s[3]];
    assert before + s == l4 + [s[4]];
    MaskCommandsSnoc(before, s[0]);
    MaskCommandsSnoc(l1, s[1]);
    MaskCommandsSnoc(l2, s[2]);
    MaskCommandsSnoc(l3, s[3]);
    MaskCommandsSnoc(l4, s[4]);
  }

  /** A mask command neither computes nor resamples. */
  lemma MaskCommandKeeps(log: seq<Command>, c: Command, cfg: Ancillary.RegionConfig)
    requires c.MaskOn? || c.MaskOff?
    ensures Ancillary.Calcs(log + [c]) == Ancillary.Calcs(log)
    ensures MaskCommands(log + [c]) == MaskCommands(log) + [c]
    ensures Ancillary.ResampledOnTarget(log, cfg) ==> Ancillary.ResampledOnTarget(log + [c], cfg)
  {
    Ancillary.CalcsSnoc(log, c);
    MaskCommandsSnoc(log, c);
  }

  // ---- the Cosby PTF ----

  /** The seven maps the Cosby PTF computes. */
  datatype SoilVariable = B | PsiM | Ksat | ThetaSat | ThetaCrit | ThetaWilt | ThetaRes

  /** The variable's part of a map name. */
  function VariableName(v: SoilVariable): string
  {
    match v
    case B => "b"
    case PsiM => "psi_m"
    case Ksat => "ksat"
    case ThetaSat => "theta_sat"
    case ThetaCrit => "theta_crit"
    case ThetaWilt => "theta_wilt"
    case ThetaRes => "theta_res"
  }

  /** The order `compute` runs the steps in. */
  const CosbyOrder: seq<SoilVariable> := [B, PsiM, Ksat, ThetaSat, ThetaCrit, ThetaWilt, ThetaRes]

  /** `compute` produces every variable exactly once. */
  lemma CosbyOrderComplete(v: SoilVariable)
    ensures multiset(CosbyOrder)[v] == 1
  {
  }

  /** `<variable>_cosby_<horizon>_<region><suffix>`. */
  function CosbyName(variable: string, horizon: string, region: string, suffix: string): string
  {
    variable + "_cosby_" + horizon + "_" + region + suffix
  }

  /** The names `_set_mapnames` stores for the variables `vs`, keyed by variable name. */
  function CosbyNames(vs: seq<SoilVariable>, horizon: string, region: string, suffix: string): map<string, string>
  {
    map v | v in vs :: VariableName(v) := CosbyName(VariableName(v), horizon, region, suffix)
  }

  lemma CosbyNamesSnoc(vs: seq<SoilVariable>, v: SoilVariable, horizon: string, region: string, suffix: string)
    ensures CosbyNames(vs + [v], horizon, region, suffix) ==
      CosbyNames(vs, horizon, region, suffix)[VariableName(v) := CosbyName(VariableName(v), horizon, region, suffix)]
  {
  }

  /** Different variables have different names. */
  lemma VariableNameInjective(v: SoilVariable, w: SoilVariable)
    requires VariableName(v) == VariableName(w)
    ensures v == w
  {
    var a, b := VariableName(v), VariableName(w);
    assert a[0] == b[0] && |a| == |b|;
    if |a| > 6 {
      assert a[6] == b[6];
    }
  }

  /** `compute`'s order names no variable twice. */
  lemma CosbyOrderDistinct()
    ensures forall a, b :: 0 <= a < b < |CosbyOrder| ==> CosbyOrder[a] != CosbyOrder[b]
  {
  }

  /** A variable's place in `compute`'s order. */
  function CosbyIndex(v: SoilVariable): (j: nat)
    ensures j < |CosbyOrder| && CosbyOrder[j] == v
  {
    match v
    case B => 0
    case PsiM => 1
    case Ksat => 2
    case ThetaSat => 3
    case ThetaCrit => 4
    case ThetaWilt => 5
    case ThetaRes => 6
  }

  /** Different variables have different names. */
  /** Variable names are 1, 4, 5, 9 or 10 characters long. */
  lemma VariableNameLength(v: SoilVariable)
    ensures |VariableName(v)| in {1, 4, 5, 9, 10}
  {
  }

  lemma VariableNamesDiffer(v: SoilVariable, w: SoilVariable)
    requires v != w
    ensures VariableName(v) != VariableName(w)
  {
    if VariableName(v) == VariableName(w) {
      VariableNameInjective(v, w);
    }
  }

  /**
   * A variable's `r.mapcalc` expression, cell by cell over the maps it
   * reads: clay and sand for b, psi_m, ksat and theta_sat; theta_sat,
   * psi_m and b for the two retention points; none for theta_res.
   */
  function CosbyFormula(m: RealMath.Math, v: SoilVariable): seq<Cell> -> Cell
  {
    match v
    case B => SoilCells.CosbyBCell
    case PsiM => cs => SoilCells.CosbyPsiCell(m, cs)
    case Ksat => cs => SoilCells.CosbyKsatCell(m, cs)
    case ThetaSat => SoilCells.CosbyThetaSatCell
    case ThetaCrit => cs => SoilCells.BrooksCoreyCell(m, Constants.CriticalPointSuction, cs)
    case ThetaWilt => cs => SoilCells.BrooksCoreyCell(m, Constants.WiltingPointSuction, cs)
    case ThetaRes => SoilCells.ZeroCell
  }

  /** A `CosbyPTF` for one soil horizon. */
  class CosbyPtf {
    const config: Ancillary.RegionConfig
    /** The horizon with '-' replaced by '_'. */
    const horizon: string
    const maps: SoilGridsInput.SoilHorizonMaps
    const overwrite: bool
    const m: RealMath.Math
    const variables: seq<SoilVariable>
    var mapnamesNative: map<string, string>
    var mapnames: map<string, string>

    /**
     * `__init__`: copy the configuration and the horizon's map names,
     * remove any mask, then name the native and target map of every
     * variable.
     */
    constructor(config: Ancillary.RegionConfig, h: HorizonData, overwrite: bool, m: RealMath.Math, e: Engine)
      modifies e
      ensures this.config == config && horizon == ReplaceChar(h.horizon, '-', '_') && maps == h.maps
      ensures this.overwrite == overwrite && this.m == m && variables == CosbyOrder
      ensures mapnamesNative == CosbyNames(CosbyOrder, horizon, config.name, "_native")
      ensures mapnames == CosbyNames(CosbyOrder, horizon, config.name, "")
      ensures e.mask == None && e.log == old(e.log) + [MaskOff]
      ensures e.region == old(e.region) && e.maps == old(e.maps) && e.saved == old(e.saved) && e.files == old(e.files)
    {
      this.config := config;
      this.maps := h.maps;
      this.horizon := ReplaceChar(h.horizon, '-', '_');
      this.overwrite := overwrite;
      this.m := m;
      this.variables := CosbyOrder;
      var _ := GrassUtils.RemoveMask(e);
      new;
      SetMapnames();
    }

    /** `_set_mapnames`: the native and target name of every variable. */
    method SetMapnames()
      modifies this
      ensures mapnamesNative == CosbyNames(variables, horizon, config.name, "_native")
      ensures mapnames == CosbyNames(variables, horizon, config.name, "")
    {
      var native: map<string, string> := map[];
      var target: map<string, string> := map[];
      var i := 0;
      while i < |variables|
        invariant 0 <= i <= |variables|
        invariant native == CosbyNames(variables[..i], horizon, config.name, "_native")
        invariant target == CosbyNames(variables[..i], horizon, config.name, "")
      {
        var v := VariableName(variables[i]);
        CosbyNamesSnoc(variables[..i], variables[i], horizon, config.name, "_native");
        CosbyNamesSnoc(variables[..i], variables[i], horizon, config.name, "");
        native := native[v := CosbyName(v, horizon, config.name, "_native")];
        target := target[v := CosbyName(v, horizon, config.name, "")];
        assert variables[..i + 1] == variables[..i] + [variables[i]];
        i := i + 1;
      }
      assert variables[..i] == variables;
      mapnamesNative := native;
      mapnames := target;
    }

    /** The native-grid map of a variable. */
    function NativeName(v: SoilVariable): string
    {
      CosbyName(VariableName(v), horizon, config.name, "_native")
    }

    /** The target-grid map of a variable. */
    function TargetName(v: SoilVariable): string
    {
      CosbyName(VariableName(v), horizon, config.name, "")
    }

    /** The stored names are the ones the steps use; the native name is the target name with `_native` appended. */
    lemma MapnamesAgree(v: SoilVariable)
      requires mapnamesNative == CosbyNames(CosbyOrder, horizon, config.name, "_native")
      requires mapnames == CosbyNames(CosbyOrder, horizon, config.name, "")
      ensures VariableName(v) in mapnamesNative && mapnamesNative[VariableName(v)] == NativeName(v)
      ensures VariableName(v) in mapnames && mapnames[VariableName(v)] == TargetName(v)
      ensures NativeName(v) == TargetName(v) + "_native"
    {
      assert v in CosbyOrder;
      forall w | w in CosbyOrder && VariableName(w) == VariableName(v)
        ensures w == v
      {
        VariableNameInjective(w, v);
      }
    }

    /** The clay map, whose grid is the native grid. */
    function Clay(): string { VanGenuchten.OptName(maps.clayContent) }
    function Sand(): string { VanGenuchten.OptName(maps.sandContent) }

    /** The maps a variable's expression reads, in the order it reads them. */
    function Inputs(v: SoilVariable): seq<string>
    {
      match v
      case ThetaCrit | ThetaWilt => [NativeName(ThetaSat), NativeName(PsiM), NativeName(B)]
      case ThetaRes => []
      case _ => [Clay(), Sand()]
    }

    /** The native names of a list of variables. */
    function NativeNames(vs: seq<SoilVariable>): (ns: seq<string>)
      ensures |ns| == |vs| && forall i :: 0 <= i < |vs| ==> ns[i] == NativeName(vs[i])
    {
      if |vs| == 0 then [] else NativeNames(vs[..|vs| - 1]) + [NativeName(vs[|vs| - 1])]
    }

    /** The native and target maps of the variables in `done`. */
    function Touched(done: seq<SoilVariable>): (t: set<string>)
      ensures forall v :: v in done ==> NativeName(v) in t && TargetName(v) in t
    {
      if |done| == 0 then {}
      else Touched(done[..|done| - 1]) + {NativeName(done[|done| - 1]), TargetName(done[|done| - 1])}
    }

    /** Every map `compute` may write. */
    function Outputs(): set<string>
    {
      Touched(CosbyOrder)
    }

    /** What has held since the steps started, once the variables `done` are computed. */
    ghost predicate Progress(log0: seq<Command>, maps0: map<string, Map>, log: seq<Command>, maps: map<string, Map>,
                             done: seq<SoilVariable>)
    {
      log0 <= log &&
      Ancillary.Calcs(log) == Ancillary.Calcs(log0) + NativeNames(done) &&
      MaskCommands(log) == MaskCommands(log0) &&
      (Ancillary.ResampledOnTarget(log0, config) ==> Ancillary.ResampledOnTarget(log, config)) &&
      forall k :: k !in Touched(done) ==> (k in maps <==> k in maps0) && (k in maps ==> maps[k] == maps0[k])
    }

    /**
     * The catalogue after a step, when every command has a known result:
     * the native map is the variable's expression on the clay map's grid,
     * the target map its block average on the target grid.
     */
    ghost predicate Computed(region: Region, before: map<string, Map>, mask: Option<Mask>, after: map<string, Map>,
                             v: SoilVariable)
    {
      var s := Ancillary.StepMaps(before, mask, Ancillary.NativeRegion(region, before, Clay(), config),
                                  Ancillary.TargetRegion(config), Inputs(v), CosbyFormula(m, v), NativeName(v), TargetName(v),
                                  overwrite);
      s.Some? ==> after == s.value
    }

    /** The native grid: the clay map's cell size within the configured bounds. */
    ghost function NativeGrid(maps0: map<string, Map>): Region
      requires Clay() in maps0
    {
      Ancillary.NativeRegion(maps0[Clay()].region, maps0, Clay(), config)
    }

    /**
     * The catalogue after the steps `vs` run one after another from `maps0`
     * under `mask`, when every command has a known result.
     */
    ghost function Chained(maps0: map<string, Map>, mask: Option<Mask>, vs: seq<SoilVariable>): Option<map<string, Map>>
      requires Clay() in maps0
    {
      if |vs| == 0 then Some(maps0)
      else match Chained(maps0, mask, vs[..|vs| - 1])
        case None => None
        case Some(before) =>
          var v := vs[|vs| - 1];
          Ancillary.StepMaps(before, mask, NativeGrid(maps0), Ancillary.TargetRegion(config), Inputs(v),
                             CosbyFormula(m, v), NativeName(v), TargetName(v), overwrite)
    }

    /** After the steps `done` from `maps0`, the catalogue is their chained result whenever that is known. */
    ghost predicate Along(maps0: map<string, Map>, mask: Option<Mask>, maps: map<string, Map>, done: seq<SoilVariable>)
    {
      Clay() in maps0 && Clay() !in Outputs() ==>
        var c := Chained(maps0, mask, done);
        c.Some? ==> maps == c.value
    }

    /** Every map a run of steps writes is one of `compute`'s outputs. */
    lemma {:induction false} TouchedOutputs(done: seq<SoilVariable>)
      ensures Touched(done) <= Outputs()
    {
      if |done| > 0 {
        TouchedOutputs(done[..|done| - 1]);
        var v := done[|done| - 1];
        assert v in CosbyOrder by { CosbyOrderComplete(v); }
      }
    }

    /** A name no step of `vs` writes is not touched by them. */
    lemma {:induction false} Untouched(k: string, vs: seq<SoilVariable>)
      requires forall i :: 0 <= i < |vs| ==> k != NativeName(vs[i]) && k != TargetName(vs[i])
      ensures k !in Touched(vs)
    {
      if |vs| > 0 {
        Untouched(k, vs[..|vs| - 1]);
      }
    }

    /** The names of a variable's maps are never those of another variable's maps. */
    lemma CosbyNamesApart(v: SoilVariable, w: SoilVariable)
      ensures NativeName(v) != TargetName(w)
      ensures v != w ==> NativeName(v) != NativeName(w) && TargetName(v) != TargetName(w)
    {
      NativeNotTarget(v, w);
      if v != w {
        SameSuffixApart(v, w);
      }
    }

    /** A native name is seven characters longer than a target name of the same length of variable name. */
    lemma NativeNotTarget(v: SoilVariable, w: SoilVariable)
      ensures NativeName(v) != TargetName(w)
    {
      var a, b := VariableName(v), VariableName(w);
      VariableNameLength(v);
      VariableNameLength(w);
      assert |NativeName(v)| == |TargetName(w)| + |a| - |b| + 7;
    }

    /** Two variables' native names differ, and so do their target names. */
    lemma SameSuffixApart(v: SoilVariable, w: SoilVariable)
      requires v != w
      ensures NativeName(v) != NativeName(w) && TargetName(v) != TargetName(w)
    {
      var a, b := VariableName(v), VariableName(w);
      if |a| == |b| {
        VariableNamesDiffer(v, w);
        assert NativeName(v)[..|a|] == a && NativeName(w)[..|b|] == b;
        assert TargetName(v)[..|a|] == a && TargetName(w)[..|b|] == b;
      } else {
        assert |NativeName(v)| - |NativeName(w)| == |a| - |b|;
        assert |TargetName(v)| - |TargetName(w)| == |a| - |b|;
      }
    }

    /** A step of the chain agrees with the step run on a catalogue that kept the clay map. */
    lemma ChainedStep(maps0: map<string, Map>, mask: Option<Mask>, before: map<string, Map>,
                      done: seq<SoilVariable>, v: SoilVariable, region: Region)
      requires Clay() in maps0 && Clay() !in Outputs()
      requires forall k :: k !in Touched(done) ==> (k in before <==> k in maps0) && (k in before ==> before[k] == maps0[k])
      requires Chained(maps0, mask, done) == Some(before)
      ensures Chained(maps0, mask, done + [v]) ==
        Ancillary.StepMaps(before, mask, Ancillary.NativeRegion(region, before, Clay(), config), Ancillary.TargetRegion(config),
                           Inputs(v), CosbyFormula(m, v), NativeName(v), TargetName(v), overwrite)
    {
      TouchedOutputs(done);
      assert (done + [v])[..|done|] == done;
    }

    /** The chain leaves every map outside its steps' outputs as it was. */
    lemma {:induction false} ChainedFrame(maps0: map<string, Map>, mask: Option<Mask>, vs: seq<SoilVariable>)
      requires Clay() in maps0 && Chained(maps0, mask, vs).Some?
      ensures forall k :: k !in Touched(vs) ==> Agree(Chained(maps0, mask, vs).value, maps0, k)
    {
      if |vs| > 0 {
        ChainedFrame(maps0, mask, vs[..|vs| - 1]);
      }
    }

    /** Each step may write both its maps: `overwrite` is on or no output exists yet. */
    ghost predicate Writable(maps0: map<string, Map>)
    {
      overwrite || forall v :: NativeName(v) !in maps0 && TargetName(v) !in maps0
    }

    /** The chain of `vs` is the chain of all but the last step, followed by the last step. */
    lemma ChainedSnoc(maps0: map<string, Map>, mask: Option<Mask>, vs: seq<SoilVariable>)
      requires Clay() in maps0 && |vs| > 0 && Chained(maps0, mask, vs).Some?
      ensures var pre := Chained(maps0, mask, vs[..|vs| - 1]);
        var v := vs[|vs| - 1];
        pre.Some? &&
        Chained(maps0, mask, vs) == Ancillary.StepMaps(pre.value, mask, NativeGrid(maps0), Ancillary.TargetRegion(config),
                                                       Inputs(v), CosbyFormula(m, v), NativeName(v), TargetName(v), overwrite)
    {
    }

    /**
     * `after` holds the native map of `v` computed on `before` and, on the
     * target grid, that native map's block average.
     */
    ghost predicate Stored(maps0: map<string, Map>, mask: Option<Mask>, before: map<string, Map>, after: map<string, Map>,
                           v: SoilVariable)
      requires Clay() in maps0
    {
      var o := CalcOutcome(before, mask, NativeGrid(maps0), Inputs(v), CosbyFormula(m, v));
      o.Exact? && NativeName(v) in after && TargetName(v) in after && after[NativeName(v)] == o.result &&
      ResampleOutcome(o.result, Ancillary.TargetRegion(config), Average) == Exact(after[TargetName(v)])
    }

    /** The last of distinct steps stores its maps: no earlier step wrote them. */
    lemma ChainedLast(maps0: map<string, Map>, mask: Option<Mask>, vs: seq<SoilVariable>)
      requires Clay() in maps0 && Writable(maps0)
      requires |vs| > 0 && forall a, b :: 0 <= a < b < |vs| ==> vs[a] != vs[b]
      requires Chained(maps0, mask, vs).Some?
      ensures Chained(maps0, mask, vs[..|vs| - 1]).Some?
      ensures Stored(maps0, mask, Chained(maps0, mask, vs[..|vs| - 1]).value, Chained(maps0, mask, vs).value, vs[|vs| - 1])
    {
      var pre := vs[..|vs| - 1];
      var v := vs[|vs| - 1];
      ChainedSnoc(maps0, mask, vs);
      var p := Chained(maps0, mask, pre).value;
      CosbyNamesApart(v, v);
      forall i | 0 <= i < |pre|
        ensures NativeName(v) != NativeName(pre[i]) && NativeName(v) != TargetName(pre[i])
        ensures TargetName(v) != NativeName(pre[i]) && TargetName(v) != TargetName(pre[i])
      {
        CosbyNamesApart(v, pre[i]);
        CosbyNamesApart(pre[i], v);
      }
      Untouched(NativeName(v), pre);
      Untouched(TargetName(v), pre);
      ChainedFrame(maps0, mask, pre);
      assert Agree(p, maps0, NativeName(v)) && Agree(p, maps0, TargetName(v));
      Ancillary.StepMapsWritten(p, mask, NativeGrid(maps0), Ancillary.TargetRegion(config), Inputs(v), CosbyFormula(m, v),
                                NativeName(v), TargetName(v), overwrite);
    }

    /**
     * In a chain of distinct steps, step `j` stores its maps, computed on
     * the catalogue the earlier steps left, and later steps keep them.
     */
    lemma {:induction false} ChainedNative(maps0: map<string, Map>, mask: Option<Mask>, vs: seq<SoilVariable>, j: nat)
      requires Clay() in maps0 && Writable(maps0)
      requires j < |vs| && forall a, b :: 0 <= a < b < |vs| ==> vs[a] != vs[b]
      requires Chained(maps0, mask, vs).Some?
      ensures Chained(maps0, mask, vs[..j]).Some?
      ensures Stored(maps0, mask, Chained(maps0, mask, vs[..j]).value, Chained(maps0, mask, vs).value, vs[j])
      decreases |vs|
    {
      var n := |vs|;
      if j == n - 1 {
        ChainedLast(maps0, mask, vs);
      } else {
        var pre := vs[..n - 1];
        ChainedSnoc(maps0, mask, vs);
        ChainedNative(maps0, mask, pre, j);
        assert pre[..j] == vs[..j] && pre[j] == vs[j];
        CosbyNamesApart(vs[j], vs[n - 1]);
        CosbyNamesApart(vs[n - 1], vs[j]);
        var c0, c := Chained(maps0, mask, pre).value, Chained(maps0, mask, vs).value;
        assert Agree(c, c0, NativeName(vs[j])) && Agree(c, c0, TargetName(vs[j]));
      }
    }

    /** A native map stored by step `i` is still there after step `j - 1`, and at the end. */
    lemma StoredAgain(maps0: map<string, Map>, mask: Option<Mask>, vs: seq<SoilVariable>, i: nat, j: nat)
      requires Clay() in maps0 && Writable(maps0)
      requires i < j < |vs| && forall a, b :: 0 <= a < b < |vs| ==> vs[a] != vs[b]
      requires Chained(maps0, mask, vs).Some?
      ensures Chained(maps0, mask, vs[..j]).Some?
      ensures Agree(Chained(maps0, mask, vs[..j]).value, Chained(maps0, mask, vs).value, NativeName(vs[i]))
    {
      ChainedNative(maps0, mask, vs, j);
      ChainedNative(maps0, mask, vs, i);
      assert vs[..j][..i] == vs[..i] && vs[..j][i] == vs[i];
      ChainedNative(maps0, mask, vs[..j], i);
    }

    /** The clay, sand and mask maps are none of `compute`'s outputs. */
    ghost predicate Apart(mask: Option<Mask>)
    {
      Clay() !in Outputs() && Sand() !in Outputs() && (mask.Some? ==> mask.value.raster !in Outputs())
    }

    /**
     * What `compute` stores for one variable, when every command has a
     * known result: b, psi_m, ksat, theta_sat and theta_res are their
     * expressions over the clay and sand maps on the native grid;
     * theta_crit and theta_wilt are theirs over the stored native
     * theta_sat, psi_m and b maps; the target map is the block average of
     * the native map on the target grid.
     */
    lemma CosbyValue(maps0: map<string, Map>, mask: Option<Mask>, v: SoilVariable)
      requires Clay() in maps0 && Writable(maps0) && Apart(mask)
      requires Chained(maps0, mask, CosbyOrder).Some?
      ensures Stored(maps0, mask, if v == ThetaCrit || v == ThetaWilt then Chained(maps0, mask, CosbyOrder).value else maps0,
                     Chained(maps0, mask, CosbyOrder).value, v)
    {
      CosbyOrderDistinct();
      if v == ThetaCrit || v == ThetaWilt {
        RetentionValue(maps0, mask, v);
      } else {
        TextureValue(maps0, mask, v);
      }
    }

    lemma TextureValue(maps0: map<string, Map>, mask: Option<Mask>, v: SoilVariable)
      requires Clay() in maps0 && Writable(maps0) && Apart(mask) && v != ThetaCrit && v != ThetaWilt
      requires forall a, b :: 0 <= a < b < |CosbyOrder| ==> CosbyOrder[a] != CosbyOrder[b]
      requires Chained(maps0, mask, CosbyOrder).Some?
      ensures Stored(maps0, mask, maps0, Chained(maps0, mask, CosbyOrder).value, v)
    {
      var vs := CosbyOrder;
      var j := CosbyIndex(v);
      ChainedNative(maps0, mask, vs, j);
      var p := Chained(maps0, mask, vs[..j]).value;
      ChainedFrame(maps0, mask, vs[..j]);
      TouchedOutputs(vs[..j]);
      assert Agree(p, maps0, Clay()) && Agree(p, maps0, Sand());
      if mask.Some? {
        MaskKept(maps0, mask, vs[..j]);
      }
      TextureFrame(p, maps0, mask, NativeGrid(maps0), v);
    }

    /** `CalcOutcomeFrame` for a step that reads the clay and sand maps, or no map. */
    lemma TextureFrame(a: map<string, Map>, b: map<string, Map>, mask: Option<Mask>, r: Region, v: SoilVariable)
      requires v != ThetaCrit && v != ThetaWilt
      requires Agree(a, b, Clay()) && Agree(a, b, Sand())
      requires mask.Some? ==> Agree(a, b, mask.value.raster)
      ensures CalcOutcome(a, mask, r, Inputs(v), CosbyFormula(m, v)) == CalcOutcome(b, mask, r, Inputs(v), CosbyFormula(m, v))
    {
      var inputs := Inputs(v);
      assert inputs == [] || inputs == [Clay(), Sand()];
      CalcOutcomeFrame(a, b, mask, r, inputs, CosbyFormula(m, v));
    }

    /** `CalcOutcomeFrame` for an expression over three maps. */
    lemma CalcFrameOfThree(a: map<string, Map>, b: map<string, Map>, mask: Option<Mask>, r: Region,
                           x: string, y: string, z: string, f: seq<Cell> -> Cell)
      requires Agree(a, b, x) && Agree(a, b, y) && Agree(a, b, z)
      requires mask.Some? ==> Agree(a, b, mask.value.raster)
      ensures CalcOutcome(a, mask, r, [x, y, z], f) == CalcOutcome(b, mask, r, [x, y, z], f)
    {
      CalcOutcomeFrame(a, b, mask, r, [x, y, z], f);
    }

    /** No step writes the mask raster. */
    lemma MaskKept(maps0: map<string, Map>, mask: Option<Mask>, vs: seq<SoilVariable>)
      requires Clay() in maps0 && Apart(mask) && mask.Some? && Chained(maps0, mask, vs).Some?
      ensures Agree(Chained(maps0, mask, vs).value, maps0, mask.value.raster)
    {
      ChainedFrame(maps0, mask, vs);
      TouchedOutputs(vs);
    }

    lemma RetentionValue(maps0: map<string, Map>, mask: Option<Mask>, v: SoilVariable)
      requires Clay() in maps0 && Writable(maps0) && Apart(mask) && (v == ThetaCrit || v == ThetaWilt)
      requires forall a, b :: 0 <= a < b < |CosbyOrder| ==> CosbyOrder[a] != CosbyOrder[b]
      requires Chained(maps0, mask, CosbyOrder).Some?
      ensures Stored(maps0, mask, Chained(maps0, mask, CosbyOrder).value, Chained(maps0, mask, CosbyOrder).value, v)
    {
      var vs := CosbyOrder;
      var j := CosbyIndex(v);
      ChainedNative(maps0, mask, vs, j);
      RetentionInputsKept(maps0, mask, j);
      RetentionFrame(Chained(maps0, mask, vs[..j]).value, Chained(maps0, mask, vs).value, mask, NativeGrid(maps0), v);
    }

    /** The maps a retention step reads, and the mask raster, are the same before it and at the end. */
    lemma RetentionInputsKept(maps0: map<string, Map>, mask: Option<Mask>, j: nat)
      requires Clay() in maps0 && Writable(maps0) && Apart(mask)
      requires 3 < j < |CosbyOrder| && forall a, b :: 0 <= a < b < |CosbyOrder| ==> CosbyOrder[a] != CosbyOrder[b]
      requires Chained(maps0, mask, CosbyOrder).Some?
      ensures Chained(maps0, mask, CosbyOrder[..j]).Some?
      ensures var p, c := Chained(maps0, mask, CosbyOrder[..j]).value, Chained(maps0, mask, CosbyOrder).value;
        Agree(p, c, NativeName(ThetaSat)) && Agree(p, c, NativeName(PsiM)) && Agree(p, c, NativeName(B)) &&
        (mask.Some? ==> Agree(p, c, mask.value.raster))
    {
      var vs := CosbyOrder;
      StoredAgain(maps0, mask, vs, 3, j);
      StoredAgain(maps0, mask, vs, 1, j);
      StoredAgain(maps0, mask, vs, 0, j);
      assert vs[3] == ThetaSat && vs[1] == PsiM && vs[0] == B;
      if mask.Some? {
        MaskKept(maps0, mask, vs[..j]);
        MaskKept(maps0, mask, vs);
      }
    }

    /** `CalcOutcomeFrame` for a retention step, which reads the theta_sat, psi_m and b native maps. */
    lemma RetentionFrame(a: map<string, Map>, b: map<string, Map>, mask: Option<Mask>, r: Region, v: SoilVariable)
      requires v == ThetaCrit || v == ThetaWilt
      requires Agree(a, b, NativeName(ThetaSat)) && Agree(a, b, NativeName(PsiM)) && Agree(a, b, NativeName(B))
      requires mask.Some? ==> Agree(a, b, mask.value.raster)
      ensures CalcOutcome(a, mask, r, Inputs(v), CosbyFormula(m, v)) == CalcOutcome(b, mask, r, Inputs(v), CosbyFormula(m, v))
    {
      CalcFrameOfThree(a, b, mask, r, NativeName(ThetaSat), NativeName(PsiM), NativeName(B), CosbyFormula(m, v));
    }

    /**
     * One of `brooks_corey_b` ... `residual_water_content`: set the native
     * region from the clay map, compute the native map (errors are not
     * reported), set the target region, average into the target map.
     */
    method Step(e: Engine, v: SoilVariable, ghost log0: seq<Command>, ghost maps0: map<string, Map>,
                ghost done: seq<SoilVariable>)
      requires Progress(log0, maps0, e.log, e.maps, done)
      requires Along(maps0, e.mask, e.maps, done)
      modifies e
      ensures e.region == Ancillary.TargetRegion(config)
      ensures e.mask == old(e.mask) && e.saved == old(e.saved) && e.files == old(e.files)
      ensures Progress(log0, maps0, e.log, e.maps, done + [v])
      ensures Computed(old(e.region), old(e.maps), old(e.mask), e.maps, v)
      ensures Along(maps0, e.mask, e.maps, done + [v])
    {
      ghost var native := Ancillary.NativeRequest(e.region, e.maps, Clay(), config);
      ghost var before, logBefore := e.maps, e.log;
      if Clay() in maps0 && Clay() !in Outputs() && Chained(maps0, e.mask, done).Some? {
        ChainedStep(maps0, e.mask, before, done, v, e.region);
      }
      Ancillary.NativeStep(e, config, Clay(), Inputs(v), CosbyFormula(m, v), NativeName(v), TargetName(v), overwrite);
      ProgressSnoc(log0, maps0, logBefore, before, e.log, e.maps, done, v, native);
    }

    /** One more step, with its five commands and its two maps, extends a run's progress. */
    lemma ProgressSnoc(log0: seq<Command>, maps0: map<string, Map>, log1: seq<Command>, maps1: map<string, Map>,
                       log2: seq<Command>, maps2: map<string, Map>, done: seq<SoilVariable>, v: SoilVariable,
                       native: Region)
      requires Progress(log0, maps0, log1, maps1, done)
      requires log2 == log1 + Ancillary.StepLog(native, config, Clay(), Inputs(v), NativeName(v), TargetName(v))
      requires forall k :: k != NativeName(v) && k != TargetName(v) ==>
        (k in maps2 <==> k in maps1) && (k in maps2 ==> maps2[k] == maps1[k])
      ensures Progress(log0, maps0, log2, maps2, done + [v])
    {
      Ancillary.StepLogShape(native, config, Clay(), Inputs(v), NativeName(v), TargetName(v), log1);
      StepLogUnmasked(native, config, Clay(), Inputs(v), NativeName(v), TargetName(v), log1);
      assert (done + [v])[..|done|] == done;
    }

    /** b, psi_m, ksat and theta_sat, from the clay and sand maps. */
    method TextureSteps(e: Engine, ghost log0: seq<Command>, ghost maps0: map<string, Map>)
      requires Progress(log0, maps0, e.log, e.maps, []) && Along(maps0, e.mask, e.maps, [])
      modifies e
      ensures e.mask == old(e.mask) && e.saved == old(e.saved) && e.files == old(e.files)
      ensures Progress(log0, maps0, e.log, e.maps, [B, PsiM, Ksat, ThetaSat])
      ensures Along(maps0, e.mask, e.maps, [B, PsiM, Ksat, ThetaSat])
    {
      ghost var d: seq<SoilVariable> := [];
      Step(e, B, log0, maps0, d);
      d := d + [B];
      Step(e, PsiM, log0, maps0, d);
      d := d + [PsiM];
      Step(e, Ksat, log0, maps0, d);
      d := d + [Ksat];
      Step(e, ThetaSat, log0, maps0, d);
      d := d + [ThetaSat];
      assert d == [B, PsiM, Ksat, ThetaSat];
    }

    /** theta_crit and theta_wilt from the native maps already computed, then theta_res. */
    method RetentionSteps(e: Engine, ghost log0: seq<Command>, ghost maps0: map<string, Map>, ghost done: seq<SoilVariable>)
      requires Progress(log0, maps0, e.log, e.maps, done) && Along(maps0, e.mask, e.maps, done)
      modifies e
      ensures e.mask == old(e.mask) && e.saved == old(e.saved) && e.files == old(e.files)
      ensures e.region == Ancillary.TargetRegion(config)
      ensures Progress(log0, maps0, e.log, e.maps, done + [ThetaCrit] + [ThetaWilt] + [ThetaRes])
      ensures Along(maps0, e.mask, e.maps, done + [ThetaCrit] + [ThetaWilt] + [ThetaRes])
    {
      Step(e, ThetaCrit, log0, maps0, done);
      Step(e, ThetaWilt, log0, maps0, done + [ThetaCrit]);
      Step(e, ThetaRes, log0, maps0, done + [ThetaCrit] + [ThetaWilt]);
    }

    /** The seven steps in `compute`'s order. */
    method Steps(e: Engine)
      modifies e
      ensures e.mask == old(e.mask) && e.saved == old(e.saved) && e.files == old(e.files)
      ensures e.region == Ancillary.TargetRegion(config)
      ensures Progress(old(e.log), old(e.maps), e.log, e.maps, CosbyOrder)
      ensures Along(old(e.maps), e.mask, e.maps, CosbyOrder)
    {
      ghost var log0, maps0 := e.log, e.maps;
      TextureSteps(e, log0, maps0);
      RetentionSteps(e, log0, maps0, [B, PsiM, Ksat, ThetaSat]);
      assert [B, PsiM, Ksat, ThetaSat] + [ThetaCrit] + [ThetaWilt] + [ThetaRes] == CosbyOrder;
    }

    /**
     * `compute(landfrac_mapname)`: mask on land-fraction category 1 (the
     * pygrass call raises when a mask already exists or the map does not),
     * the seven steps, and the mask removed. The steps issue no mask
     * command, so every `r.mapcalc` runs under the land-fraction mask.
     */
    method Compute(e: Engine, landfrac: string) returns (r: Result<()>)
      modifies e
      ensures e.saved == old(e.saved) && e.files == old(e.files)
      ensures r.Ok? <==> old(e.mask).None? && landfrac in old(e.maps)
      ensures r.Err? ==> (r.error == CalledModuleError("r.mask") && e.log == old(e.log) + [MaskOn(landfrac, 1)] &&
                          e.maps == old(e.maps) && e.mask == old(e.mask) && e.region == old(e.region))
      ensures r.Ok? ==> e.mask == None && e.region == Ancillary.TargetRegion(config)
      ensures r.Ok? ==> MaskCommands(e.log) == MaskCommands(old(e.log)) + [MaskOn(landfrac, 1), MaskOff]
      ensures r.Ok? ==> (|e.log| >= |old(e.log)| + 2 && e.log[|old(e.log)|] == MaskOn(landfrac, 1) &&
                         e.log[|e.log| - 1] == MaskOff)
      ensures r.Ok? ==> Ancillary.Calcs(e.log) == Ancillary.Calcs(old(e.log)) + NativeNames(CosbyOrder)
      ensures r.Ok? ==> (Ancillary.ResampledOnTarget(old(e.log), config) ==> Ancillary.ResampledOnTarget(e.log, config))
      ensures r.Ok? ==> forall k :: k !in Outputs() ==> (k in e.maps <==> k in old(e.maps)) && (k in e.maps ==> e.maps[k] == old(e.maps)[k])
      ensures r.Ok? ==> Along(old(e.maps), Some(Mask(landfrac, 1)), e.maps, CosbyOrder)
    {
      var masks := e.mask.None? && landfrac in e.maps;
      e.MaskOnCmd(landfrac, 1);
      if !masks {
        return Err(CalledModuleError("r.mask"));
      }
      MaskCommandKeeps(old(e.log), MaskOn(landfrac, 1), config);
      ghost var l1 := e.log;
      Steps(e);
      ghost var l2 := e.log;
      MaskCommandKeeps(l2, MaskOff, config);
      e.MaskOffCmd();
      assert l1 <= l2;
      r := Ok(());
    }

  }

  // ---- the van Genuchten constructors ----

  /** The parameters of `PTF.__init__`, `self` first. */
  const PtfInitParams: seq<string> := ["self", "method", "config", "inputdata", "soilhorizon", "overwrite"]

  /**
   * `VanGenuchtenPTF.__init__` passes `self` and four arguments to
   * `PTF.__init__`, leaving out `inputdata`: the arguments shift one place
   * left and the call is one short, so constructing a Tomasella-Hodnett or
   * Zhang-Schaap PTF raises TypeError before any field is set.
   */
  lemma VanGenuchtenInitAsWritten()
    ensures PyCalls.Bind("PTF.__init__", PtfInitParams, 5) == Err(TypeError(PyCalls.Missing("PTF.__init__", ["overwrite"])))
  {
    PyCalls.OneShort("PTF.__init__", PtfInitParams);
  }

  /**
   * `VanGenuchtenPTF.__init__` with `inputdata` passed on and `self.region`
   * set to the region name: the fields `PTF.__init__` copies, the mask
   * removed.
   */
  method NewVanGenuchten(methodName: string, config: Ancillary.RegionConfig, h: HorizonData, overwrite: bool,
                         scheme: VanGenuchten.Scheme, m: RealMath.Math, e: Engine)
    returns (p: VanGenuchten.VanGenuchtenPtf)
    modifies e
    ensures fresh(p)
    ensures p.methodName == methodName && p.horizon == ReplaceChar(h.horizon, '-', '_')
    ensures p.regionName == config.name && p.region == Some(config.name)
    ensures p.maps == h.maps && p.overwrite == overwrite && p.scheme == scheme && p.m == m
    ensures e.mask == None && e.log == old(e.log) + [MaskOff]
    ensures e.region == old(e.region) && e.maps == old(e.maps) && e.saved == old(e.saved) && e.files == old(e.files)
  {
    var _ := GrassUtils.RemoveMask(e);
    p := new VanGenuchten.VanGenuchtenPtf(methodName, ReplaceChar(h.horizon, '-', '_'), config.name, Some(config.name),
                                          h.maps, overwrite, scheme, m);
  }

  /** `TomasellaHodnettPTF(config, soilhorizon, overwrite)`, constructed as intended. */
  method NewTomasellaHodnett(config: Ancillary.RegionConfig, h: HorizonData, overwrite: bool,
                             sem: MapCalc.DivSemantics, m: RealMath.Math, e: Engine)
    returns (p: VanGenuchten.VanGenuchtenPtf)
    modifies e
    ensures fresh(p)
    ensures p.methodName == "tomasellahodnett" && p.scheme == VanGenuchten.TomasellaHodnett(sem)
    ensures p.horizon == ReplaceChar(h.horizon, '-', '_') && p.regionName == config.name && p.region == Some(config.name)
    ensures p.maps == h.maps && p.overwrite == overwrite && p.m == m
    ensures e.mask == None && e.log == old(e.log) + [MaskOff]
    ensures e.region == old(e.region) && e.maps == old(e.maps) && e.saved == old(e.saved) && e.files == old(e.files)
  {
    p := NewVanGenuchten("tomasellahodnett", config, h, overwrite, VanGenuchten.TomasellaHodnett(sem), m, e);
  }

  /** The two region commands of `grass_set_region_from_raster(clay, ...)`. */
  function RegionPair(clay: string, rgn: Region): seq<Command>
  {
    [RegionFromRaster(clay), RegionSet(rgn, Some(clay))]
  }

  /**
   * `ZhangSchaapPTF.compute` calls `super().compute()` with no argument,
   * but `VanGenuchtenPTF.compute` takes `landfrac_mapname`: the call raises
   * TypeError once the texture classes are computed. As written the line
   * before it raises AttributeError first (ComputeAsWritten), so this defect
   * shows only once that one is corrected.
   */
  lemma ZhangSchaapSuperComputeAsWritten()
    ensures PyCalls.Bind("VanGenuchtenPTF.compute", ["self", "landfrac_mapname"], 1) ==
      Err(TypeError(PyCalls.Missing("VanGenuchtenPTF.compute", ["landfrac_mapname"])))
  {
    PyCalls.OneShort("VanGenuchtenPTF.compute", ["self", "landfrac_mapname"]);
  }

  /**
   * A `ZhangSchaapPTF`: a van Genuchten PTF whose parameters are looked up
   * per texture class over the USDA indicator maps it computes first.
   */
  class ZhangSchaapPtf {
    const config: Ancillary.RegionConfig
    const soil: HorizonData
    /** The van Genuchten part (the base class), with the Zhang-Schaap scheme. */
    const vg: VanGenuchten.VanGenuchtenPtf
    /** `self.usda`, set by `compute`. */
    var usda: VanGenuchten.UsdaTexture?

    /** The base-class fields the constructor derives from the configuration and the horizon. */
    predicate Valid()
    {
      vg.region == Some(config.name) && vg.regionName == config.name && vg.maps == soil.maps &&
      vg.scheme == VanGenuchten.ZhangSchaap(soil.horizon, config.name)
    }

    /**
     * `__init__`, constructed as intended: the lookups read the indicator
     * maps named with the horizon as given and the region name.
     */
    constructor(config: Ancillary.RegionConfig, h: HorizonData, overwrite: bool, m: RealMath.Math, e: Engine)
      modifies e
      ensures this.config == config && soil == h && usda == null && Valid()
      ensures vg.methodName == "zhangschaap" && vg.scheme == VanGenuchten.ZhangSchaap(h.horizon, config.name)
      ensures vg.horizon == ReplaceChar(h.horizon, '-', '_') && vg.regionName == config.name && vg.region == Some(config.name)
      ensures vg.maps == h.maps && vg.overwrite == overwrite && vg.m == m
      ensures e.mask == None && e.log == old(e.log) + [MaskOff]
      ensures e.region == old(e.region) && e.maps == old(e.maps) && e.saved == old(e.saved) && e.files == old(e.files)
    {
      this.config := config;
      soil := h;
      var p := NewVanGenuchten("zhangschaap", config, h, overwrite, VanGenuchten.ZhangSchaap(h.horizon, config.name), m, e);
      vg := p;
      usda := null;
    }

    /** The indicator maps' blocks, then the van Genuchten blocks. */
    function Blocks(): seq<seq<CalcStep>>
    {
      VanGenuchten.TextureBlocks(vg.Sand(), vg.Silt(), vg.Clay(), soil.horizon, config.name) + vg.Blocks(config.name)
    }

    /**
     * `compute` as written: the region is set from the clay map, then
     * `USDATextureClass.compute` reads `self.config`, which its constructor
     * never stored, and raises AttributeError.
     */
    method ComputeAsWritten(e: Engine) returns (r: Result<()>)
      modifies this, e
      ensures r == Err(AttributeError("config"))
      ensures e.region == Ancillary.NativeRegion(old(e.region), old(e.maps), vg.Clay(), config)
      ensures e.log == old(e.log) + RegionPair(vg.Clay(), Ancillary.NativeRequest(old(e.region), old(e.maps), vg.Clay(), config))
      ensures e.maps == old(e.maps) && e.mask == old(e.mask) && e.saved == old(e.saved) && e.files == old(e.files)
    {
      Ancillary.SetNativeRegion(e, config, vg.Clay());
      var u := new VanGenuchten.UsdaTexture(vg.Clay(), vg.Sand(), vg.Silt(), soil.horizon, config.name, vg.overwrite,
                                            None, true);
      usda := u;
      r := u.Compute(e);
    }

    /** The log `compute` leaves before the indicator maps: the region set from the clay map, twice. */
    function RegionLog(native: Region): seq<Command>
    {
      RegionPair(vg.Clay(), native) + RegionPair(vg.Clay(), native)
    }

    /**
     * The first half of `compute`: the region set from the clay map, then
     * a `USDATextureClass` holding the configuration sets it again and
     * computes the twelve indicator maps.
     */
    method TextureClasses(e: Engine)
      modifies this, e
      ensures usda != null && fresh(usda) && usda.config == Some(config) && usda.setsRegion
      ensures e.region == Ancillary.NativeRegion(old(e.region), old(e.maps), vg.Clay(), config)
      ensures e.mask == old(e.mask) && e.saved == old(e.saved) && e.files == old(e.files)
      ensures Ran(old(e.maps), old(e.log) + RegionLog(Ancillary.NativeRequest(old(e.region), old(e.maps), vg.Clay(), config)),
                  e.mask, e.region, VanGenuchten.TextureBlocks(vg.Sand(), vg.Silt(), vg.Clay(), soil.horizon, config.name),
                  vg.overwrite, e.maps, e.log)
    {
      Ancillary.SetNativeRegion(e, config, vg.Clay());
      var u := new VanGenuchten.UsdaTexture(vg.Clay(), vg.Sand(), vg.Silt(), soil.horizon, config.name, vg.overwrite,
                                            Some(config), true);
      usda := u;
      Ancillary.NativeRegionIdempotent(old(e.region), old(e.maps), vg.Clay(), config);
      Ancillary.NativeRequestStable(old(e.region), old(e.maps), vg.Clay(), config);
      ghost var rq := Ancillary.NativeRequest(old(e.region), old(e.maps), vg.Clay(), config);
      var _ := u.Compute(e);
      assert old(e.log) + RegionLog(rq) == old(e.log) + RegionPair(vg.Clay(), rq) + u.RegionLog(rq);
    }

    /** The second half of `compute`: the base-class `compute`, whose `self.region` is set. */
    method Retention(e: Engine) returns (r: Result<()>)
      requires Valid()
      modifies e
      ensures r.Ok?
      ensures e.region == old(e.region) && e.mask == old(e.mask) && e.saved == old(e.saved) && e.files == old(e.files)
      ensures Ran(old(e.maps), old(e.log), e.mask, e.region, vg.Blocks(config.name), vg.overwrite, e.maps, e.log)
    {
      r := vg.Compute(e);
    }

    /**
     * `compute` with the configuration handed to the texture classes and
     * the base-class `compute` called without the unused land-fraction
     * argument: the region is set from the clay map (twice, to the same
     * region), the twelve indicator maps are computed, then the eight van
     * Genuchten blocks, each in its own `try`.
     */
    method Compute(e: Engine) returns (r: Result<()>)
      requires Valid()
      modifies this, e
      ensures r.Ok?
      ensures usda != null && fresh(usda) && usda.config == Some(config) && usda.setsRegion
      ensures e.region == Ancillary.NativeRegion(old(e.region), old(e.maps), vg.Clay(), config)
      ensures e.mask == old(e.mask) && e.saved == old(e.saved) && e.files == old(e.files)
      ensures Ran(old(e.maps), old(e.log) + RegionLog(Ancillary.NativeRequest(old(e.region), old(e.maps), vg.Clay(), config)),
                  e.mask, e.region, Blocks(), vg.overwrite, e.maps, e.log)
    {
      ghost var rq := Ancillary.NativeRequest(old(e.region), old(e.maps), vg.Clay(), config);
      TextureClasses(e);
      ghost var m1, l1 := e.maps, e.log;
      r := Retention(e);
      RanConcat(old(e.maps), old(e.log) + RegionLog(rq), e.mask, e.region,
                VanGenuchten.TextureBlocks(vg.Sand(), vg.Silt(), vg.Clay(), soil.horizon, config.name),
                vg.Blocks(config.name), vg.overwrite, m1, l1, e.maps, e.log);
    }
  }

  // ---- the factories and the driver ----

  /** `PTFFactory.create_ptf`: a Cosby PTF for "Cosby", ValueError naming the method otherwise. */
  method PtfFactory(methodName: string, config: Ancillary.RegionConfig, h: HorizonData, overwrite: bool,
                    m: RealMath.Math, e: Engine)
    returns (r: Result<CosbyPtf>)
    modifies e
    ensures r.Ok? <==> methodName == "Cosby"
    ensures r.Err? ==> r.error == UnknownMethod(methodName) && e.log == old(e.log) && e.mask == old(e.mask)
    ensures r.Ok? ==> fresh(r.value) && Made(r.value, config, h, overwrite, m)
    ensures r.Ok? ==> e.mask == None && e.log == old(e.log) + [MaskOff]
    ensures e.region == old(e.region) && e.maps == old(e.maps) && e.saved == old(e.saved) && e.files == old(e.files)
  {
    if methodName == "Cosby" {
      var p := new CosbyPtf(config, h, overwrite, m, e);
      return Ok(p);
    }
    return Err(UnknownMethod(methodName));
  }

  /** A Cosby PTF as its constructor leaves it, for the given configuration and horizon. */
  ghost predicate Made(p: CosbyPtf, config: Ancillary.RegionConfig, h: HorizonData, overwrite: bool, m: RealMath.Math)
    reads p
  {
    p.config == config && p.horizon == ReplaceChar(h.horizon, '-', '_') && p.maps == h.maps &&
    p.overwrite == overwrite && p.m == m && p.variables == CosbyOrder &&
    p.mapnamesNative == CosbyNames(CosbyOrder, p.horizon, config.name, "_native") &&
    p.mapnames == CosbyNames(CosbyOrder, p.horizon, config.name, "")
  }

  /** `n` mask removals. */
  function MaskOffs(n: nat): (l: seq<Command>)
    ensures |l| == n && forall i :: 0 <= i < n ==> l[i] == MaskOff
  {
    if n == 0 then [] else MaskOffs(n - 1) + [MaskOff]
  }

  /** `n` mask brackets on the land-fraction map's category 1. */
  function Brackets(landfrac: string, n: nat): (l: seq<Command>)
    ensures |l| == 2 * n
    ensures forall i :: 0 <= i < n ==> l[2 * i] == MaskOn(landfrac, 1) && l[2 * i + 1] == MaskOff
  {
    if n == 0 then [] else Brackets(landfrac, n - 1) + [MaskOn(landfrac, 1), MaskOff]
  }

  /** The native maps the PTFs compute, PTF by PTF, variable by variable. */
  function AllNative(ps: seq<(string, CosbyPtf)>): (ns: seq<string>)
    ensures |ns| == |CosbyOrder| * |ps|
  {
    if |ps| == 0 then [] else AllNative(ps[..|ps| - 1]) + ps[|ps| - 1].1.NativeNames(CosbyOrder)
  }

  lemma AllNativeNext(ps: seq<(string, CosbyPtf)>, i: nat)
    requires i < |ps|
    ensures AllNative(ps[..i + 1]) == AllNative(ps[..i]) + ps[i].1.NativeNames(CosbyOrder)
  {
    assert ps[..i + 1][..i] == ps[..i];
  }

  lemma AppendAssoc<T>(a: seq<T>, b: seq<T>, c: seq<T>)
    ensures a + b + c == a + (b + c)
  {
  }

  /** Whether any of the PTFs may write the map `k`. */
  predicate Written(ps: seq<(string, CosbyPtf)>, k: string)
  {
    exists i :: 0 <= i < |ps| && k in ps[i].1.Outputs()
  }

  /** `SoilProperties`: one PTF per soil horizon, keyed by the horizon's name. */
  class SoilProperties {
    const methodName: string
    const config: Ancillary.RegionConfig
    /** `inputdata.soil.items()`, in the dictionary's order (so the names are distinct). */
    const soil: seq<(string, HorizonData)>
    const overwrite: bool
    const m: RealMath.Math
    /** `self.variables`, the seven Cosby variables. */
    const variables: seq<SoilVariable>
    /** `self.ptf`: None until `initial` runs. */
    var ptf: Option<seq<(string, CosbyPtf)>>

    constructor(methodName: string, config: Ancillary.RegionConfig, soil: seq<(string, HorizonData)>, overwrite: bool,
                m: RealMath.Math)
      ensures this.methodName == methodName && this.config == config && this.soil == soil
      ensures this.overwrite == overwrite && this.m == m && variables == CosbyOrder && ptf == None
    {
      this.methodName := methodName;
      this.config := config;
      this.soil := soil;
      this.overwrite := overwrite;
      this.m := m;
      variables := CosbyOrder;
      ptf := None;
    }

    /**
     * `initial`: a PTF per horizon, in order, from `PTFFactory`. A method
     * other than Cosby fails at the first horizon, leaving the dictionary
     * empty; each Cosby PTF removes the mask as it is built.
     */
    method Initial(e: Engine) returns (r: Result<()>)
      modifies this, e
      ensures r.Ok? <==> methodName == "Cosby" || |soil| == 0
      ensures ptf.Some?
      ensures r.Err? ==> r.error == UnknownMethod(methodName) && ptf.value == [] && e.log == old(e.log) && e.mask == old(e.mask)
      ensures r.Ok? ==> |ptf.value| == |soil| && e.log == old(e.log) + MaskOffs(|soil|)
      ensures r.Ok? ==> forall i :: 0 <= i < |soil| ==>
        ptf.value[i].0 == soil[i].0 && fresh(ptf.value[i].1) && Made(ptf.value[i].1, config, soil[i].1, overwrite, m)
      ensures r.Ok? ==> e.mask == (if |soil| == 0 then old(e.mask) else None)
      ensures e.region == old(e.region) && e.maps == old(e.maps) && e.saved == old(e.saved) && e.files == old(e.files)
    {
      var acc: seq<(string, CosbyPtf)> := [];
      var i := 0;
      while i < |soil|
        invariant 0 <= i <= |soil| && |acc| == i
        invariant i > 0 ==> methodName == "Cosby"
        invariant forall j :: 0 <= j < i ==>
          acc[j].0 == soil[j].0 && fresh(acc[j].1) && Made(acc[j].1, config, soil[j].1, overwrite, m)
        invariant e.log == old(e.log) + MaskOffs(i)
        invariant e.mask == (if i == 0 then old(e.mask) else None)
        invariant e.region == old(e.region) && e.maps == old(e.maps) && e.saved == old(e.saved) && e.files == old(e.files)
      {
        var p := PtfFactory(methodName, config, soil[i].1, overwrite, m, e);
        if p.Err? {
          ptf := Some(acc);
          return Err(p.error);
        }
        acc := acc + [(soil[i].0, p.value)];
        i := i + 1;
      }
      ptf := Some(acc);
      r := Ok(());
    }

    /**
     * `compute(landfrac_mapname)`: each PTF's `compute` in turn; the first
     * failure propagates. Before `initial` there is no `self.ptf`.
     */
    method Compute(e: Engine, landfrac: string) returns (r: Result<()>)
      modifies e
      ensures ptf.None? ==> r == Err(AttributeError("ptf")) && e.log == old(e.log)
      ensures ptf.Some? && |ptf.value| > 0 && old(e.mask).Some? ==> r.Err?
      ensures ptf.Some? && old(e.mask).None? && landfrac in old(e.maps) && !Written(ptf.value, landfrac) ==> r.Ok?
      ensures r.Err? ==> r.error == AttributeError("ptf") || r.error == CalledModuleError("r.mask")
      ensures r.Ok? ==> ptf.Some? && Ancillary.Calcs(e.log) == Ancillary.Calcs(old(e.log)) + AllNative(ptf.value)
      ensures r.Ok? ==> MaskCommands(e.log) == MaskCommands(old(e.log)) + Brackets(landfrac, |ptf.value|)
      ensures r.Ok? ==> e.mask == (if |ptf.value| == 0 then old(e.mask) else None)
      ensures e.saved == old(e.saved) && e.files == old(e.files)
    {
      if ptf.None? {
        return Err(AttributeError("ptf"));
      }
      r := ComputeAll(e, ptf.value, landfrac);
    }

    /** The loop of `compute`: each PTF's `compute` in turn, stopping at the first failure. */
    method ComputeAll(e: Engine, ps: seq<(string, CosbyPtf)>, landfrac: string) returns (r: Result<()>)
      modifies e
      ensures |ps| > 0 && old(e.mask).Some? ==> r.Err?
      ensures old(e.mask).None? && landfrac in old(e.maps) && !Written(ps, landfrac) ==> r.Ok?
      ensures r.Err? ==> r.error == CalledModuleError("r.mask")
      ensures r.Ok? ==> Ancillary.Calcs(e.log) == Ancillary.Calcs(old(e.log)) + AllNative(ps)
      ensures r.Ok? ==> MaskCommands(e.log) == MaskCommands(old(e.log)) + Brackets(landfrac, |ps|)
      ensures r.Ok? ==> e.mask == (if |ps| == 0 then old(e.mask) else None)
      ensures e.saved == old(e.saved) && e.files == old(e.files)
    {
      var i := 0;
      while i < |ps|
        invariant 0 <= i <= |ps|
        invariant Ancillary.Calcs(e.log) == Ancillary.Calcs(old(e.log)) + AllNative(ps[..i])
        invariant MaskCommands(e.log) == MaskCommands(old(e.log)) + Brackets(landfrac, i)
        invariant e.mask == (if i == 0 then old(e.mask) else None)
        invariant i > 0 ==> old(e.mask).None?
        invariant landfrac in old(e.maps) && !Written(ps, landfrac) ==> landfrac in e.maps
        invariant e.saved == old(e.saved) && e.files == old(e.files)
      {
        var c := ComputeNext(e, ps, i, landfrac, old(e.log));
        if c.Err? {
          return c;
        }
        i := i + 1;
      }
      assert ps[..i] == ps;
      r := Ok(());
    }

    /** One PTF's `compute` inside `compute`'s loop, after the PTFs before it. */
    method ComputeNext(e: Engine, ps: seq<(string, CosbyPtf)>, i: nat, landfrac: string, ghost log0: seq<Command>)
      returns (c: Result<()>)
      requires i < |ps|
      requires Ancillary.Calcs(e.log) == Ancillary.Calcs(log0) + AllNative(ps[..i])
      requires MaskCommands(e.log) == MaskCommands(log0) + Brackets(landfrac, i)
      modifies e
      ensures c.Ok? <==> old(e.mask).None? && landfrac in old(e.maps)
      ensures c.Err? ==> c.error == CalledModuleError("r.mask")
      ensures c.Ok? ==> Ancillary.Calcs(e.log) == Ancillary.Calcs(log0) + AllNative(ps[..i + 1])
      ensures c.Ok? ==> MaskCommands(e.log) == MaskCommands(log0) + Brackets(landfrac, i + 1)
      ensures c.Ok? ==> e.mask == None
      ensures c.Ok? && !Written(ps, landfrac) ==> landfrac in e.maps
      ensures e.saved == old(e.saved) && e.files == old(e.files)
    {
      c := ps[i].1.Compute(e, landfrac);
      if c.Ok? {
        AllNativeNext(ps, i);
        AppendAssoc(Ancillary.Calcs(log0), AllNative(ps[..i]), ps[i].1.NativeNames(CosbyOrder));
        AppendAssoc(MaskCommands(log0), Brackets(landfrac, i), [MaskOn(landfrac, 1), MaskOff]);
        assert !Written(ps, landfrac) ==> landfrac !in ps[i].1.Outputs();
      }
    }
  }

  /** `SoilPropsFactory.create_soil_props`: only the Cosby method is accepted. */
  method SoilPropsFactory(methodName: string, config: Ancillary.RegionConfig, soil: seq<(string, HorizonData)>,
                          overwrite: bool, m: RealMath.Math)
    returns (r: Result<SoilProperties>)
    ensures r.Ok? <==> methodName == "Cosby"
    ensures r.Err? ==> r.error == UnknownMethod(methodName)
    ensures r.Ok? ==> fresh(r.value) && r.value.methodName == "Cosby" && r.value.config == config &&
                      r.value.soil == soil && r.value.overwrite == overwrite && r.value.ptf == None
  {
    if methodName == "Cosby" {
      var p := new SoilProperties("Cosby", config, soil, overwrite, m);
      return Ok(p);
    }
    return Err(UnknownMethod(methodName));
  }
}
