// Poulter2015PFT: one fraction map per crosswalk PFT and land-cover year.
// For each (year, PFT) the reclass rules of that PFT's table are written to
// a file, the year's land-cover map is reclassified with them into
// integer thousandths, and r.mapcalc rescales the result to a fraction.
module Landcover {
  import opened Wrappers
  import opened Strings
  import opened Raster
  import opened Grass
  import opened MapCalc
  import opened Crosswalk
  import ReclassRules

  /** The file the reclass rules are written to. */
  const RulesPath: string := "/tmp/rules.txt"

  /** The integer scale the fractions are written at. */
  const Factor: nat := 1000

  /** The land-cover map of a year, as the ESA CCI-LC input names it. */
  function LandCoverName(year: int): string
  {
    "esacci_lc_" + IntToString(year)
  }

  /** The fraction map of one PFT in one year. */
  function PftMapName(year: int, pft: string): string
  {
    LandCoverName(year) + "_" + pft
  }

  /** The reclassified (thousandths) map a fraction map is computed from. */
  function StepName(year: int, pft: string): string
  {
    PftMapName(year, pft) + "_step1"
  }

  /** The fraction map names of one year, keyed by PFT. */
  function YearNames(year: int, pfts: seq<string>): map<string, string>
  {
    map p | p in pfts :: PftMapName(year, p)
  }

  /** The fraction map names of every year, keyed by year. */
  function MapNames(years: seq<int>, pfts: seq<string>): map<int, map<string, string>>
  {
    map y | y in years :: YearNames(y, pfts)
  }

  /** The commands one (year, PFT) step issues. */
  function PftLog(year: int, pft: string): seq<Command>
  {
    [RegionFromRaster(LandCoverName(year)), Reclass(LandCoverName(year), StepName(year, pft), RulesPath),
     Calc(PftMapName(year, pft), [StepName(year, pft)])]
  }

  /** The commands of one year's steps, PFT by PFT. */
  function YearLog(year: int, pfts: seq<string>): seq<Command>
  {
    if |pfts| == 0 then [] else YearLog(year, pfts[..|pfts| - 1]) + PftLog(year, pfts[|pfts| - 1])
  }

  /** The commands of every year's steps, year by year. */
  function ComputeLog(years: seq<int>, pfts: seq<string>): seq<Command>
  {
    if |years| == 0 then [] else ComputeLog(years[..|years| - 1], pfts) + YearLog(years[|years| - 1], pfts)
  }

  lemma YearLogSnoc(year: int, pfts: seq<string>, j: int)
    requires 0 <= j < |pfts|
    ensures YearLog(year, pfts[..j + 1]) == YearLog(year, pfts[..j]) + PftLog(year, pfts[j])
  {
    assert pfts[..j + 1][..j] == pfts[..j];
  }

  lemma LogAppend(a: seq<Command>, b: seq<Command>, c: seq<Command>)
    ensures a + b + c == a + (b + c)
  {
  }

  lemma ComputeLogSnoc(years: seq<int>, i: int, pfts: seq<string>)
    requires 0 <= i < |years|
    ensures ComputeLog(years[..i + 1], pfts) == ComputeLog(years[..i], pfts) + YearLog(years[i], pfts)
  {
    assert years[..i + 1][..i] == years[..i];
  }

  /** The maps a computation over these years and PFTs may write. */
  ghost predicate Produced(k: string, years: seq<int>, pfts: seq<string>)
  {
    exists y, p :: y in years && p in pfts && (k == PftMapName(y, p) || k == StepName(y, p))
  }

  /** The year whose land-cover map sets the region `compute` starts from. */
  const ReferenceYear: int := 2015

  /** Every year's land-cover map is in the catalogue. */
  ghost predicate LandCoverPresent(maps: map<string, Map>, years: seq<int>)
  {
    forall y :: y in years ==> LandCoverName(y) in maps
  }

  lemma LandCoverPresentSnoc(maps: map<string, Map>, years: seq<int>, i: int)
    requires 0 <= i < |years| && LandCoverPresent(maps, years[..i]) && LandCoverName(years[i]) in maps
    ensures LandCoverPresent(maps, years[..i + 1])
  {
    assert years[..i + 1] == years[..i] + [years[i]];
  }

  /** A computation keeps every land-cover map, present or missing, as it was. */
  lemma LandCoverKept(before: map<string, Map>, after: map<string, Map>, years: seq<int>, pfts: seq<string>, year: int)
    requires MapsKept(before, after, years, pfts)
    ensures LandCoverName(year) in after <==> LandCoverName(year) in before
  {
    LandCoverUnproduced(year, years, pfts);
  }

  /** Every name has a crosswalk table. */
  ghost predicate AllTabulated(pfts: seq<string>)
  {
    forall n :: n in pfts ==> Crosswalk.Lookup(n).Ok?
  }

  lemma TabulatedSnoc(pfts: seq<string>, j: int)
    requires 0 <= j < |pfts| && AllTabulated(pfts[..j]) && Crosswalk.Lookup(pfts[j]).Ok?
    ensures AllTabulated(pfts[..j + 1])
  {
    forall n | n in pfts[..j + 1] ensures Crosswalk.Lookup(n).Ok? {
      var k :| 0 <= k < j + 1 && pfts[..j + 1][k] == n;
      if k < j {
        assert pfts[..j][k] == n;
      }
    }
  }

  /** Every name of the class's PFT list has a table, so its steps never fail on a lookup. */
  lemma PftNamesTabulated()
    ensures AllTabulated(PftNames())
  {
  }

  /** Every file other than the rules file is as it was. */
  ghost predicate FilesKept(before: map<string, string>, after: map<string, string>)
  {
    forall k :: k != RulesPath ==> (k in after <==> k in before) && (k in after ==> after[k] == before[k])
  }

  /** Every map these years and PFTs do not produce is as it was. */
  ghost predicate MapsKept(before: map<string, Map>, after: map<string, Map>, years: seq<int>, pfts: seq<string>)
  {
    forall k :: !Produced(k, years, pfts) ==> (k in after <==> k in before) && (k in after ==> after[k] == before[k])
  }

  /** Different (year, PFT) pairs get different map names. */
  lemma PftMapNameInjective(y1: int, p1: string, y2: int, p2: string)
    requires PftMapName(y1, p1) == PftMapName(y2, p2)
    ensures y1 == y2 && p1 == p2
  {
    IntToStringChars(y1, '_');
    IntToStringChars(y2, '_');
    SplitAfterPrefix("esacci_lc_", IntToString(y1), p1, IntToString(y2), p2, '_');
    IntToStringInjective(y1, y2);
  }

  /** No fraction map or step map is named like a land-cover map. */
  lemma NotLandCover(y1: int, y2: int, rest: string)
    ensures LandCoverName(y1) + "_" + rest != LandCoverName(y2)
  {
    var t := IntToString(y2);
    IntToStringChars(y2, '_');
    if |IntToString(y1)| < |t| {
      var s := LandCoverName(y1) + "_" + rest;
      assert s[|LandCoverName(y1)|] == '_';
      assert LandCoverName(y2)[|LandCoverName(y1)|] == t[|IntToString(y1)|];
    }
  }

  /** The names one (year, PFT) step reads and writes are pairwise distinct. */
  lemma StepNamesDistinct(year: int, pft: string)
    ensures StepName(year, pft) != LandCoverName(year)
    ensures PftMapName(year, pft) != LandCoverName(year)
    ensures StepName(year, pft) != PftMapName(year, pft)
  {
    NotLandCover(year, year, pft);
    NotLandCover(year, year, pft + "_step1");
    assert StepName(year, pft) == LandCoverName(year) + "_" + (pft + "_step1");
  }

  // ---- one reclass-and-rescale step, for any table ----

  /**
   * `out = step / 1000`. The step map `r.reclass` makes holds integers, so
   * r.mapcalc divides them as integers (`IntegerDivision`); the fractions
   * the tables mean need `RealDivision`.
   */
  function Rescale(sem: DivSemantics): seq<Cell> -> Cell
  {
    cs => Quot(sem, At(cs, 0), Factor)
  }

  /**
   * The catalogue after one step: `r.reclass` stores the table's relabelling
   * of `input` into `step`, then `r.mapcalc` stores `step / 1000` into
   * `output`; GRASS refuses each store when the map exists and `overwrite`
   * is off. None when the rescale's result is not determined.
   */
  function TableStepMaps(sem: DivSemantics, maps: map<string, Map>, mask: Option<Mask>, input: string, codes: seq<nat>,
                         w: int -> nat, step: string, output: string, overwrite: bool): (r: Option<map<string, Map>>)
    requires input in maps
    ensures r.Some? ==> forall k :: k != step && k != output ==> Agree(r.value, maps, k)
    ensures r.Some? && !overwrite && output in maps ==> output in r.value && r.value[output] == maps[output]
  {
    var src := maps[input];
    var m1 := Store(maps, step, Map(src.region, ReclassRules.Relabel(TableRules(codes, w, Factor), src.cells)), overwrite);
    match CalcOutcome(m1, mask, src.region, [step], Rescale(sem))
    case Exact(m) => Some(Store(m1, output, m, overwrite))
    case _ => None
  }

  /**
   * When the step may write both its maps, its result is determined exactly
   * when the mask can be read on the input's grid; then the step map is the
   * relabelled input and the output holds, on the input's own grid, the
   * table's fraction of every input cell (null where the mask excludes it).
   */
  lemma TableStepCells(sem: DivSemantics, maps: map<string, Map>, mask: Option<Mask>, input: string, codes: seq<nat>,
                       w: int -> nat, step: string, output: string, overwrite: bool)
    requires input in maps && step != input && step != output
    requires overwrite || (step !in maps && output !in maps)
    ensures var src := maps[input];
      var m1 := maps[step := Map(src.region, ReclassRules.Relabel(TableRules(codes, w, Factor), src.cells))];
      var r := TableStepMaps(sem, maps, mask, input, codes, w, step, output, overwrite);
      (r.Some? <==> MaskReadable(m1, mask, src.region, |src.cells|)) &&
      (r.Some? ==>
        step in r.value && r.value[step] == m1[step] &&
        output in r.value && r.value[output].region == src.region && |r.value[output].cells| == |src.cells| &&
        forall i :: 0 <= i < |src.cells| ==>
          r.value[output].cells[i] ==
            (if MaskAllows(m1, mask, src.region, i) then TableFraction(sem, codes, w, src.cells[i]) else Null))
  {
    var src := maps[input];
    var relabelled := ReclassRules.Relabel(TableRules(codes, w, Factor), src.cells);
    var m1 := maps[step := Map(src.region, relabelled)];
    assert Store(maps, step, Map(src.region, relabelled), overwrite) == m1;
    assert Aligned(m1, [step], src.region, |src.cells|);
    assert CalcWidth(m1, [step], src.region) == |src.cells|;
    var o := CalcOutcome(m1, mask, src.region, [step], Rescale(sem));
    if o.Exact? {
      forall i | 0 <= i < |src.cells|
        ensures o.result.cells[i] ==
          (if MaskAllows(m1, mask, src.region, i) then TableFraction(sem, codes, w, src.cells[i]) else Null)
      {
        assert CellsAt(m1, [step], i) == [relabelled[i]];
      }
    }
  }

  /**
   * As written, with the integer division r.mapcalc performs on the step
   * map: every land-cover cell the mask admits gets fraction 1 where the
   * table's weight is whole and 0 for every partial weight.
   */
  lemma TableStepAsWritten(maps: map<string, Map>, mask: Option<Mask>, input: string, codes: seq<nat>, w: int -> nat,
                           step: string, output: string, i: nat)
    requires input in maps && step != input && step != output && Tabulates(codes, w)
    requires i < |maps[input].cells| && maps[input].cells[i].Val?
    ensures var src := maps[input];
      var m1 := maps[step := Map(src.region, ReclassRules.Relabel(TableRules(codes, w, Factor), src.cells))];
      var r := TableStepMaps(IntegerDivision, maps, mask, input, codes, w, step, output, true);
      r.Some? ==> (output in r.value && i < |r.value[output].cells| &&
                   r.value[output].cells[i] == (if !MaskAllows(m1, mask, src.region, i) then Null
                                                else if w(src.cells[i].v.Floor) == 1000 then Val(1.0) else Val(0.0)))
  {
    TableStepCells(IntegerDivision, maps, mask, input, codes, w, step, output, true);
    IntegerFractionTruncates(codes, w, maps[input].cells[i]);
  }

  /**
   * As intended, with real division: every land-cover cell the mask admits
   * gets its class's weight in the table as a fraction, and null stays null.
   */
  lemma TableStepIntended(maps: map<string, Map>, mask: Option<Mask>, input: string, codes: seq<nat>, w: int -> nat,
                          step: string, output: string, i: nat)
    requires input in maps && step != input && step != output && Tabulates(codes, w)
    requires i < |maps[input].cells|
    ensures var src := maps[input];
      var m1 := maps[step := Map(src.region, ReclassRules.Relabel(TableRules(codes, w, Factor), src.cells))];
      var r := TableStepMaps(RealDivision, maps, mask, input, codes, w, step, output, true);
      r.Some? ==> (output in r.value && i < |r.value[output].cells| &&
                   r.value[output].cells[i] == (if !MaskAllows(m1, mask, src.region, i) || src.cells[i].Null? then Null
                                                else Val(w(src.cells[i].v.Floor) as real / 1000.0)))
  {
    TableStepCells(RealDivision, maps, mask, input, codes, w, step, output, true);
    FractionIsWeight(codes, w, maps[input].cells[i]);
  }

  /**
   * The commands of `_create_pft_map` after the rules are written:
   * `g.region raster=<input>`, `r.reclass` into `step`, `r.mapcalc output = step / 1000`.
   * The region is set through pygrass, which raises CalledModuleError when
   * the input map does not exist; then nothing but the log has changed and
   * the two `start_command` calls are never reached.
   */
  method ReclassStep(e: Engine, sem: DivSemantics, input: string, step: string, output: string, codes: seq<nat>, w: int -> nat,
                     overwrite: bool) returns (r: Result<()>)
    requires step != input && output != step
    requires RulesPath in e.files && e.files[RulesPath] == RulesText(codes, w, Factor)
    modifies e
    ensures r.Ok? <==> input in old(e.maps)
    ensures r.Err? ==> r == Err(CalledModuleError("g.region")) && e.log == old(e.log) + [RegionFromRaster(input)] &&
                       e.maps == old(e.maps) && e.region == old(e.region)
    ensures r.Ok? ==> e.log == old(e.log) + [RegionFromRaster(input), Reclass(input, step, RulesPath), Calc(output, [step])]
    ensures r.Ok? ==> e.region == old(e.maps)[input].region
    ensures e.files == old(e.files) && e.mask == old(e.mask) && e.saved == old(e.saved)
    ensures forall k :: k != step && k != output ==>
      (k in e.maps <==> k in old(e.maps)) && (k in e.maps ==> e.maps[k] == old(e.maps)[k])
    ensures r.Ok? ==>
      var s := TableStepMaps(sem, old(e.maps), old(e.mask), input, codes, w, step, output, overwrite);
      s.Some? ==> e.maps == s.value
  {
    e.RegionFromRasterCmd(input);
    if input !in e.maps {
      return Err(CalledModuleError("g.region"));
    }
    RulesTextParses(codes, w, Factor);
    e.ReclassCmd(input, step, RulesPath, overwrite);
    e.CalcCmd(output, [step], Rescale(sem), overwrite);
    return Ok(());
  }

  /** The inner loop of `set_mapnames`: one year's names, PFT by PFT. */
  method YearMapnames(year: int, pfts: seq<string>) returns (ym: map<string, string>)
    ensures ym == YearNames(year, pfts)
  {
    ym := map[];
    var j := 0;
    while j < |pfts|
      invariant 0 <= j <= |pfts|
      invariant ym == YearNames(year, pfts[..j])
    {
      YearNamesSnoc(year, pfts[..j], pfts[j]);
      ym := ym[pfts[j] := PftMapName(year, pfts[j])];
      assert pfts[..j + 1] == pfts[..j] + [pfts[j]];
      j := j + 1;
    }
    assert pfts[..j] == pfts;
  }

  lemma YearNamesSnoc(year: int, pfts: seq<string>, p: string)
    ensures YearNames(year, pfts + [p]) == YearNames(year, pfts)[p := PftMapName(year, p)]
  {
  }

  lemma MapNamesSnoc(years: seq<int>, y: int, pfts: seq<string>)
    ensures MapNames(years + [y], pfts) == MapNames(years, pfts)[y := YearNames(y, pfts)]
  {
  }

  /** The rules text of a table, accumulated line by line as `_write_reclass_rules` does. */
  method BuildRulesText(codes: seq<nat>, w: int -> nat, factor: nat) returns (text: string)
    ensures text == RulesText(codes, w, factor)
  {
    ghost var lines := EntryLines(codes, w, factor);
    text := "";
    var i := 0;
    while i < |codes|
      invariant 0 <= i <= |codes|
      invariant text == ReclassRules.Terminated(lines[..i])
    {
      var ln := NatToString(codes[i]) + " = " + NatToString(w(codes[i]) * factor / 1000) + "\n";
      ReclassRules.TerminatedSnoc(lines[..i], lines[i]);
      assert lines[..i + 1] == lines[..i] + [lines[i]];
      text := text + ln;
      i := i + 1;
    }
    assert lines[..i] == lines;
    text := text + "* = 0";
  }

  // ---- what the steps of `compute` leave behind ----

  /** No crosswalk PFT name ends in the digit that ends a step map's name. */
  lemma NameLast(q: Pft)
    ensures |Name(q)| > 0 && Name(q)[|Name(q)| - 1] != '1'
  {
    match q
    case _ =>
  }

  /** Two different (year, PFT) steps over tabulated PFTs write four different maps. */
  lemma PairNamesApart(y1: int, p1: string, y2: int, p2: string)
    requires (y1, p1) != (y2, p2) && Crosswalk.Lookup(p1).Ok? && Crosswalk.Lookup(p2).Ok?
    ensures PftMapName(y1, p1) != PftMapName(y2, p2) && StepName(y1, p1) != StepName(y2, p2)
    ensures StepName(y1, p1) != PftMapName(y2, p2) && PftMapName(y1, p1) != StepName(y2, p2)
  {
    PftMapNamesDiffer(y1, p1, y2, p2);
    StepNamesDiffer(y1, p1, y2, p2);
    StepNotPftMap(y1, p1, y2, p2);
    StepNotPftMap(y2, p2, y1, p1);
  }

  lemma PftMapNamesDiffer(y1: int, p1: string, y2: int, p2: string)
    requires (y1, p1) != (y2, p2)
    ensures PftMapName(y1, p1) != PftMapName(y2, p2)
  {
    if PftMapName(y1, p1) == PftMapName(y2, p2) {
      PftMapNameInjective(y1, p1, y2, p2);
    }
  }

  lemma StepNamesDiffer(y1: int, p1: string, y2: int, p2: string)
    requires (y1, p1) != (y2, p2)
    ensures StepName(y1, p1) != StepName(y2, p2)
  {
    var a, b := PftMapName(y1, p1), PftMapName(y2, p2);
    PftMapNamesDiffer(y1, p1, y2, p2);
    assert StepName(y1, p1)[..|a|] == a && StepName(y2, p2)[..|b|] == b;
    assert |StepName(y1, p1)| == |a| + 6 && |StepName(y2, p2)| == |b| + 6;
  }

  /** A step map's name ends in '1', a tabulated PFT's map name does not. */
  lemma StepNotPftMap(y1: int, p1: string, y2: int, p2: string)
    requires Crosswalk.Lookup(p2).Ok?
    ensures StepName(y1, p1) != PftMapName(y2, p2)
  {
    var b := PftMapName(y2, p2);
    NameLast(Crosswalk.Lookup(p2).value);
    assert b[|b| - 1] == p2[|p2| - 1];
    assert StepName(y1, p1)[|StepName(y1, p1)| - 1] == '1';
  }

  /** No step writes a land-cover map. */
  lemma LandCoverUnproduced(year: int, years: seq<int>, pfts: seq<string>)
    ensures !Produced(LandCoverName(year), years, pfts)
  {
    forall y, p | y in years && p in pfts
      ensures LandCoverName(year) != PftMapName(y, p) && LandCoverName(year) != StepName(y, p)
    {
      NotLandCover(y, year, p);
      NotLandCover(y, year, p + "_step1");
      assert StepName(y, p) == LandCoverName(y) + "_" + (p + "_step1");
    }
  }

  /**
   * The (year, PFT) step's two maps hold what the step computes from the
   * catalogue `maps0` when it may write them: the relabelled land cover
   * and its rescaled fractions.
   */
  ghost predicate Settled(sem: DivSemantics, maps0: map<string, Map>, mask: Option<Mask>, maps: map<string, Map>,
                          year: int, pft: string)
  {
    LandCoverName(year) in maps0 && Crosswalk.Lookup(pft).Ok? ==>
      var p := Crosswalk.Lookup(pft).value;
      var s := TableStepMaps(sem, maps0, mask, LandCoverName(year), Codes(p), WeightOf(p),
                             StepName(year, pft), PftMapName(year, pft), true);
      s.Some? ==> Agree(maps, s.value, StepName(year, pft)) && Agree(maps, s.value, PftMapName(year, pft))
  }

  /** The step may write both its maps: `overwrite` is on or neither exists. */
  ghost predicate Writable(overwrite: bool, maps: map<string, Map>, year: int, pft: string)
  {
    overwrite || (StepName(year, pft) !in maps && PftMapName(year, pft) !in maps)
  }

  /** Running the step leaves it settled: it may write its maps, or they are already what it would write. */
  ghost predicate Ready(sem: DivSemantics, overwrite: bool, maps0: map<string, Map>, mask: Option<Mask>,
                        maps: map<string, Map>, year: int, pft: string)
  {
    Writable(overwrite, maps, year, pft) || Settled(sem, maps0, mask, maps, year, pft)
  }

  /** The mask raster, if any, is none of the maps the steps write. */
  ghost predicate MaskApart(mask: Option<Mask>, years: seq<int>, pfts: seq<string>)
  {
    mask.Some? ==> !Produced(mask.value.raster, years, pfts)
  }

  /**
   * A settled fraction map lies on its land-cover map's grid and holds the
   * table's fraction of each land-cover cell the mask admits.
   */
  lemma SettledCells(sem: DivSemantics, maps0: map<string, Map>, mask: Option<Mask>, maps: map<string, Map>,
                     year: int, pft: string)
    requires Settled(sem, maps0, mask, maps, year, pft)
    requires LandCoverName(year) in maps0 && Crosswalk.Lookup(pft).Ok?
    ensures var lc := maps0[LandCoverName(year)];
      var p := Crosswalk.Lookup(pft).value;
      var m1 := maps0[StepName(year, pft) := Map(lc.region, ReclassRules.Relabel(TableRules(Codes(p), WeightOf(p), Factor), lc.cells))];
      MaskReadable(m1, mask, lc.region, |lc.cells|) ==>
        var out := maps[PftMapName(year, pft)];
        PftMapName(year, pft) in maps && out.region == lc.region && |out.cells| == |lc.cells| &&
        forall i :: 0 <= i < |lc.cells| ==>
          out.cells[i] == (if MaskAllows(m1, mask, lc.region, i) then TableFraction(sem, Codes(p), WeightOf(p), lc.cells[i]) else Null)
  {
    var p := Crosswalk.Lookup(pft).value;
    StepNamesDistinct(year, pft);
    TableStepCells(sem, maps0, mask, LandCoverName(year), Codes(p), WeightOf(p), StepName(year, pft), PftMapName(year, pft), true);
  }

  /**
   * A ready step run on a catalogue that agrees with `maps0` on the
   * land-cover map and the mask raster leaves it settled.
   */
  lemma StepSettles(sem: DivSemantics, overwrite: bool, maps0: map<string, Map>, mask: Option<Mask>,
                    before: map<string, Map>, after: map<string, Map>, year: int, pft: string)
    requires LandCoverName(year) in maps0 && Crosswalk.Lookup(pft).Ok?
    requires Agree(before, maps0, LandCoverName(year))
    requires mask.Some? ==> Agree(before, maps0, mask.value.raster)
    requires Ready(sem, overwrite, maps0, mask, before, year, pft)
    requires var p := Crosswalk.Lookup(pft).value;
      var s := TableStepMaps(sem, before, mask, LandCoverName(year), Codes(p), WeightOf(p),
                             StepName(year, pft), PftMapName(year, pft), overwrite);
      s.Some? ==> after == s.value
    ensures Settled(sem, maps0, mask, after, year, pft)
  {
    var lc, st, out := LandCoverName(year), StepName(year, pft), PftMapName(year, pft);
    var p := Crosswalk.Lookup(pft).value;
    StepNamesDistinct(year, pft);
    var src := maps0[lc];
    var x := Map(src.region, ReclassRules.Relabel(TableRules(Codes(p), WeightOf(p), Factor), src.cells));
    var ref1 := maps0[st := x];
    var act1 := Store(before, st, x, overwrite);
    var ref := TableStepMaps(sem, maps0, mask, lc, Codes(p), WeightOf(p), st, out, true);
    if ref.Some? {
      assert ref1 == Store(maps0, st, x, true);
      var m := CalcOutcome(ref1, mask, src.region, [st], Rescale(sem)).result;
      assert ref.value == ref1[out := m];
      assert Agree(act1, ref1, st);
      assert forall j :: 0 <= j < |[st]| ==> Agree(act1, ref1, [st][j]);
      CalcOutcomeFrame(act1, ref1, mask, src.region, [st], Rescale(sem));
    }
  }

  /**
   * The step for (`year`, `pft`) took `before` to `after`: only its two
   * maps may differ, and where the land-cover map exists and the step's
   * commands succeed, `after` is what they leave.
   */
  ghost predicate StepApplied(sem: DivSemantics, overwrite: bool, mask: Option<Mask>,
                              before: map<string, Map>, after: map<string, Map>, year: int, pft: string)
    requires Crosswalk.Lookup(pft).Ok?
  {
    (forall k :: k != StepName(year, pft) && k != PftMapName(year, pft) ==> Agree(after, before, k)) &&
    (LandCoverName(year) in before ==>
      var p := Crosswalk.Lookup(pft).value;
      var s := TableStepMaps(sem, before, mask, LandCoverName(year), Codes(p), WeightOf(p),
                             StepName(year, pft), PftMapName(year, pft), overwrite);
      s.Some? ==> after == s.value)
  }

  /** The explicit frame and effect of one step are what `StepApplied` states. */
  lemma StepAppliedOf(sem: DivSemantics, overwrite: bool, mask: Option<Mask>,
                      before: map<string, Map>, after: map<string, Map>, year: int, pft: string)
    requires Crosswalk.Lookup(pft).Ok?
    requires forall k :: k != StepName(year, pft) && k != PftMapName(year, pft) ==>
      (k in after <==> k in before) && (k in after ==> after[k] == before[k])
    requires LandCoverName(year) in before ==>
      var p := Crosswalk.Lookup(pft).value;
      var s := TableStepMaps(sem, before, mask, LandCoverName(year), Codes(p), WeightOf(p),
                             StepName(year, pft), PftMapName(year, pft), overwrite);
      s.Some? ==> after == s.value
    ensures StepApplied(sem, overwrite, mask, before, after, year, pft)
  {
  }

  /**
   * One step of `compute` keeps every settled or ready step so, and leaves
   * its own step settled when it was ready.
   */
  lemma StepEffect(sem: DivSemantics, overwrite: bool, maps0: map<string, Map>, mask: Option<Mask>,
                   before: map<string, Map>, after: map<string, Map>, years: seq<int>, pfts: seq<string>,
                   year: int, pft: string)
    requires Crosswalk.Lookup(pft).Ok?
    requires MapsKept(maps0, before, years, pfts) && MaskApart(mask, years, pfts)
    requires StepApplied(sem, overwrite, mask, before, after, year, pft)
    ensures forall y, q :: y in years && q in pfts ==>
      (Settled(sem, maps0, mask, before, y, q) ==> Settled(sem, maps0, mask, after, y, q)) &&
      (Ready(sem, overwrite, maps0, mask, before, y, q) ==> Ready(sem, overwrite, maps0, mask, after, y, q))
    ensures Ready(sem, overwrite, maps0, mask, before, year, pft) ==> Settled(sem, maps0, mask, after, year, pft)
  {
    var lc := LandCoverName(year);
    LandCoverUnproduced(year, years, pfts);
    assert Agree(before, maps0, lc);
    if Ready(sem, overwrite, maps0, mask, before, year, pft) && lc in maps0 {
      StepSettles(sem, overwrite, maps0, mask, before, after, year, pft);
    }
    forall y, q | y in years && q in pfts
      ensures (Settled(sem, maps0, mask, before, y, q) ==> Settled(sem, maps0, mask, after, y, q)) &&
              (Ready(sem, overwrite, maps0, mask, before, y, q) ==> Ready(sem, overwrite, maps0, mask, after, y, q))
    {
      if (y, q) == (year, pft) {
        if Ready(sem, overwrite, maps0, mask, before, y, q) && lc in maps0 {
          StepSettles(sem, overwrite, maps0, mask, before, after, year, pft);
        }
      } else {
        OtherPairKept(sem, overwrite, maps0, mask, before, after, year, pft, y, q);
      }
    }
  }

  /** A step leaves the settled or ready state of every other (year, PFT) pair as it was. */
  lemma OtherPairKept(sem: DivSemantics, overwrite: bool, maps0: map<string, Map>, mask: Option<Mask>,
                      before: map<string, Map>, after: map<string, Map>, year: int, pft: string, y: int, q: string)
    requires Crosswalk.Lookup(pft).Ok? && (y, q) != (year, pft)
    requires forall k :: k != StepName(year, pft) && k != PftMapName(year, pft) ==> Agree(after, before, k)
    ensures Settled(sem, maps0, mask, before, y, q) ==> Settled(sem, maps0, mask, after, y, q)
    ensures Ready(sem, overwrite, maps0, mask, before, y, q) ==> Ready(sem, overwrite, maps0, mask, after, y, q)
  {
    if Crosswalk.Lookup(q).Ok? {
      PairNamesApart(y, q, year, pft);
      assert Agree(after, before, StepName(y, q)) && Agree(after, before, PftMapName(y, q));
    }
  }

  /** Every step of `years` x `pfts` writable in `maps0` is ready in `maps`. */
  ghost predicate AllReady(sem: DivSemantics, overwrite: bool, maps0: map<string, Map>, mask: Option<Mask>,
                           maps: map<string, Map>, years: seq<int>, pfts: seq<string>)
  {
    MaskApart(mask, years, pfts) ==>
      forall y, p :: y in years && p in pfts && Writable(overwrite, maps0, y, p) ==>
        Ready(sem, overwrite, maps0, mask, maps, y, p)
  }

  /** Every step of the years in `done` writable in `maps0` is settled in `maps`. */
  ghost predicate AllSettled(sem: DivSemantics, overwrite: bool, maps0: map<string, Map>, mask: Option<Mask>,
                             maps: map<string, Map>, years: seq<int>, pfts: seq<string>, done: seq<int>)
  {
    MaskApart(mask, years, pfts) ==>
      forall y, p :: y in done && p in pfts && Writable(overwrite, maps0, y, p) ==>
        Settled(sem, maps0, mask, maps, y, p)
  }

  /** One pass of the outer loop of `compute` settles the steps of `years[i]` and keeps the rest. */
  lemma YearsStep(sem: DivSemantics, overwrite: bool, maps0: map<string, Map>, mask: Option<Mask>,
                  a: map<string, Map>, b: map<string, Map>, years: seq<int>, pfts: seq<string>, i: nat)
    requires i < |years|
    requires AllReady(sem, overwrite, maps0, mask, a, years, pfts)
    requires AllSettled(sem, overwrite, maps0, mask, a, years, pfts, years[..i])
    requires Preserved(sem, overwrite, maps0, mask, a, b, years, pfts)
    requires SettledFor(sem, overwrite, maps0, mask, a, b, years, pfts, years[i], pfts)
    ensures AllReady(sem, overwrite, maps0, mask, b, years, pfts)
    ensures AllSettled(sem, overwrite, maps0, mask, b, years, pfts, years[..i + 1])
  {
    if MaskApart(mask, years, pfts) {
      assert years[..i + 1] == years[..i] + [years[i]];
      forall y, p | y in years[..i + 1] && p in pfts && Writable(overwrite, maps0, y, p)
        ensures Settled(sem, maps0, mask, b, y, p)
      {
        if y in years[..i] {
          assert y in years;
        } else {
          assert y == years[i];
        }
      }
    }
  }

  /** Between catalogues `a` and `b`, every settled step stays settled and every ready step ready. */
  ghost predicate Preserved(sem: DivSemantics, overwrite: bool, maps0: map<string, Map>, mask: Option<Mask>,
                            a: map<string, Map>, b: map<string, Map>, years: seq<int>, pfts: seq<string>)
  {
    MaskApart(mask, years, pfts) ==>
      forall y, q {:trigger Settled(sem, maps0, mask, b, y, q)} {:trigger Ready(sem, overwrite, maps0, mask, b, y, q)} ::
        y in years && q in pfts ==>
        (Settled(sem, maps0, mask, a, y, q) ==> Settled(sem, maps0, mask, b, y, q)) &&
        (Ready(sem, overwrite, maps0, mask, a, y, q) ==> Ready(sem, overwrite, maps0, mask, b, y, q))
  }

  /** Each step of `year` over the PFTs `ps` that was ready in `a` is settled in `b`. */
  ghost predicate SettledFor(sem: DivSemantics, overwrite: bool, maps0: map<string, Map>, mask: Option<Mask>,
                             a: map<string, Map>, b: map<string, Map>, years: seq<int>, pfts: seq<string>,
                             year: int, ps: seq<string>)
  {
    MaskApart(mask, years, pfts) ==>
      forall q :: q in ps && Ready(sem, overwrite, maps0, mask, a, year, q) ==> Settled(sem, maps0, mask, b, year, q)
  }

  /**
   * One more step of `year`'s loop: from `start` to `before` the earlier
   * PFTs were settled and nothing else was lost; the step for `pfts[j]`
   * takes `before` to `after`; so from `start` to `after` the PFTs up to
   * and including `pfts[j]` are settled and nothing else is lost.
   */
  lemma {:induction false} YearStep(sem: DivSemantics, overwrite: bool, maps0: map<string, Map>, mask: Option<Mask>,
                                    start: map<string, Map>, before: map<string, Map>, after: map<string, Map>,
                                    years: seq<int>, pfts: seq<string>, year: int, j: nat)
    requires j < |pfts| && year in years && Crosswalk.Lookup(pfts[j]).Ok?
    requires MapsKept(start, before, years, pfts) && MapsKept(maps0, before, years, pfts)
    requires Preserved(sem, overwrite, maps0, mask, start, before, years, pfts)
    requires SettledFor(sem, overwrite, maps0, mask, start, before, years, pfts, year, pfts[..j])
    requires StepApplied(sem, overwrite, mask, before, after, year, pfts[j])
    ensures MapsKept(start, after, years, pfts) && MapsKept(maps0, after, years, pfts)
    ensures Preserved(sem, overwrite, maps0, mask, start, after, years, pfts)
    ensures SettledFor(sem, overwrite, maps0, mask, start, after, years, pfts, year, pfts[..j + 1])
  {
    var pft := pfts[j];
    forall k | !Produced(k, years, pfts)
      ensures Agree(after, before, k)
    {
      assert k != PftMapName(year, pft) && k != StepName(year, pft);
    }
    if MaskApart(mask, years, pfts) {
      StepEffect(sem, overwrite, maps0, mask, before, after, years, pfts, year, pft);
      PreservedTrans(sem, overwrite, maps0, mask, start, before, after, years, pfts);
      SettledForSnoc(sem, overwrite, maps0, mask, start, before, after, years, pfts, year, j);
    }
  }

  lemma PreservedTrans(sem: DivSemantics, overwrite: bool, maps0: map<string, Map>, mask: Option<Mask>,
                       a: map<string, Map>, b: map<string, Map>, c: map<string, Map>, years: seq<int>, pfts: seq<string>)
    requires Preserved(sem, overwrite, maps0, mask, a, b, years, pfts)
    requires Preserved(sem, overwrite, maps0, mask, b, c, years, pfts)
    ensures Preserved(sem, overwrite, maps0, mask, a, c, years, pfts)
  {
  }

  lemma SettledForSnoc(sem: DivSemantics, overwrite: bool, maps0: map<string, Map>, mask: Option<Mask>,
                       start: map<string, Map>, before: map<string, Map>, after: map<string, Map>,
                       years: seq<int>, pfts: seq<string>, year: int, j: nat)
    requires j < |pfts| && year in years && MaskApart(mask, years, pfts)
    requires Preserved(sem, overwrite, maps0, mask, start, before, years, pfts)
    requires Preserved(sem, overwrite, maps0, mask, before, after, years, pfts)
    requires SettledFor(sem, overwrite, maps0, mask, start, before, years, pfts, year, pfts[..j])
    requires Ready(sem, overwrite, maps0, mask, before, year, pfts[j]) ==> Settled(sem, maps0, mask, after, year, pfts[j])
    ensures SettledFor(sem, overwrite, maps0, mask, start, after, years, pfts, year, pfts[..j + 1])
  {
    assert pfts[..j + 1] == pfts[..j] + [pfts[j]];
  }

  /** `Poulter2015PFT`: the per-PFT fraction maps of every land-cover year. */
  class Poulter2015Pft {
    const years: seq<int>
    const pftNames: seq<string>
    const overwrite: bool
    const division: DivSemantics   // how r.mapcalc divides the integer step map
    var mapnames: map<int, map<string, string>>

    constructor(years: seq<int>, overwrite: bool, division: DivSemantics)
      ensures this.years == years && this.overwrite == overwrite && this.division == division && pftNames == PftNames()
      ensures mapnames == MapNames(years, PftNames())
    {
      this.years := years;
      this.pftNames := PftNames();
      this.overwrite := overwrite;
      this.division := division;
      new;
      SetMapnames();
    }

    /** `set_mapnames`: the name of every (year, PFT) fraction map. */
    method SetMapnames()
      modifies this
      ensures mapnames == MapNames(years, pftNames)
    {
      var m: map<int, map<string, string>> := map[];
      var i := 0;
      while i < |years|
        invariant 0 <= i <= |years|
        invariant m == MapNames(years[..i], pftNames)
      {
        var ym := YearMapnames(years[i], pftNames);
        MapNamesSnoc(years[..i], years[i], pftNames);
        m := m[years[i] := ym];
        assert years[..i + 1] == years[..i] + [years[i]];
        i := i + 1;
      }
      assert years[..i] == years;
      mapnames := m;
    }

    /**
     * `_write_reclass_rules`: one line `code = int(weight * factor)` per
     * entry of the PFT's table, in table order, then `* = 0`. The index check
     * builds a ValueError without raising it, so an unknown PFT fails only
     * at the table lookup, with a KeyError, before anything is written.
     */
    method WriteReclassRules(e: Engine, pft: string, factor: nat) returns (r: Result<()>)
      modifies e
      ensures r.Ok? <==> Crosswalk.Lookup(pft).Ok?
      ensures r.Err? ==> r == Err(KeyError(pft)) && e.files == old(e.files)
      ensures r.Ok? ==> var p := Crosswalk.Lookup(pft).value;
        e.files == old(e.files)[RulesPath := RulesText(Codes(p), WeightOf(p), factor)]
      ensures e.region == old(e.region) && e.maps == old(e.maps) && e.mask == old(e.mask)
      ensures e.saved == old(e.saved) && e.log == old(e.log)
    {
      var found := Crosswalk.Lookup(pft);
      if found.Err? {
        return Err(found.error);
      }
      var text := BuildRulesText(Codes(found.value), WeightOf(found.value), factor);
      e.WriteFile(RulesPath, text);
      return Ok(());
    }

    /**
     * `_create_pft_map`: write the PFT's rules, adopt the land-cover map's
     * region, reclassify into `<out>_step1`, and rescale into `<out>`.
     * A year without a land-cover map name, or a PFT without a name or a
     * table, is a KeyError raised before any command. A land-cover map
     * missing from the catalogue makes the pygrass `g.region` raise after
     * the rules are written, with no map changed.
     */
    method CreatePftMap(e: Engine, year: int, pft: string) returns (r: Result<()>)
      requires mapnames == MapNames(years, pftNames)
      modifies e
      ensures r.Ok? <==> year in years && pft in pftNames && Crosswalk.Lookup(pft).Ok? && LandCoverName(year) in old(e.maps)
      ensures year !in years ==> r == Err(KeyError(IntToString(year)))
      ensures year in years && !(pft in pftNames && Crosswalk.Lookup(pft).Ok?) ==> r == Err(KeyError(pft))
      ensures r.Err? && r.error.KeyError? ==> e.files == old(e.files) && e.log == old(e.log)
      ensures year in years && pft in pftNames && Crosswalk.Lookup(pft).Ok? && LandCoverName(year) !in old(e.maps) ==>
        var p := Crosswalk.Lookup(pft).value;
        r == Err(CalledModuleError("g.region")) &&
        e.files == old(e.files)[RulesPath := RulesText(Codes(p), WeightOf(p), Factor)] &&
        e.log == old(e.log) + [RegionFromRaster(LandCoverName(year))]
      ensures r.Err? ==> e.maps == old(e.maps) && e.region == old(e.region)
      ensures e.mask == old(e.mask) && e.saved == old(e.saved)
      ensures r.Ok? ==> var p := Crosswalk.Lookup(pft).value;
        var input := LandCoverName(year);
        e.files == old(e.files)[RulesPath := RulesText(Codes(p), WeightOf(p), Factor)] &&
        e.log == old(e.log) + PftLog(year, pft) &&
        e.region == old(e.maps)[input].region &&
        (forall k :: k != StepName(year, pft) && k != PftMapName(year, pft) ==>
           (k in e.maps <==> k in old(e.maps)) && (k in e.maps ==> e.maps[k] == old(e.maps)[k])) &&
        (var s := TableStepMaps(division, old(e.maps), old(e.mask), input, Codes(p), WeightOf(p),
                                StepName(year, pft), PftMapName(year, pft), overwrite);
         s.Some? ==> e.maps == s.value)
      ensures r.Ok? ==> StepApplied(division, overwrite, old(e.mask), old(e.maps), e.maps, year, pft)
    {
      if year !in years {
        return Err(KeyError(IntToString(year)));
      }
      if pft !in mapnames[year] {
        return Err(KeyError(pft));
      }
      var output := mapnames[year][pft];
      var written := WriteReclassRules(e, pft, Factor);
      if written.Err? {
        return written;
      }
      var p := Crosswalk.Lookup(pft).value;
      StepNamesDistinct(year, pft);
      ghost var before := e.maps;
      r := ReclassStep(e, division, LandCoverName(year), output + "_step1", output, Codes(p), WeightOf(p), overwrite);
      if r.Ok? {
        StepAppliedOf(division, overwrite, e.mask, before, e.maps, year, pft);
      }
    }

    /**
     * `compute`: adopt the 2015 land-cover map's region (a KeyError when
     * 2015 is not among the years, before any command; a CalledModuleError
     * from the pygrass `g.region` when that map does not exist), then one
     * step per year and PFT, years outermost; the first failing step ends
     * it, and a year whose land-cover map is missing fails at its first step.
     * Only fraction and step maps change; when the mask raster is none of
     * them, every step that could write its maps leaves them settled: the
     * table's fractions of its year's land cover.
     */
    method Compute(e: Engine) returns (r: Result<()>)
      requires mapnames == MapNames(years, pftNames)
      modifies e
      ensures r.Ok? <==> ReferenceYear in years && LandCoverName(ReferenceYear) in old(e.maps) && AllTabulated(pftNames) &&
                         (pftNames != [] ==> LandCoverPresent(old(e.maps), years))
      ensures ReferenceYear !in years ==> (r == Err(KeyError(IntToString(ReferenceYear))) &&
        e.log == old(e.log) && e.maps == old(e.maps) && e.files == old(e.files) && e.region == old(e.region))
      ensures ReferenceYear in years && LandCoverName(ReferenceYear) !in old(e.maps) ==>
        (r == Err(CalledModuleError("g.region")) && e.log == old(e.log) + [RegionFromRaster(LandCoverName(ReferenceYear))] &&
         e.maps == old(e.maps) && e.files == old(e.files) && e.region == old(e.region))
      ensures r.Err? && ReferenceYear in years && AllTabulated(pftNames) ==> r == Err(CalledModuleError("g.region"))
      ensures r.Ok? ==> e.log == old(e.log) + [RegionFromRaster(LandCoverName(ReferenceYear))] + ComputeLog(years, pftNames)
      ensures e.mask == old(e.mask) && e.saved == old(e.saved)
      ensures FilesKept(old(e.files), e.files)
      ensures MapsKept(old(e.maps), e.maps, years, pftNames)
      ensures r.Ok? && MaskApart(e.mask, years, pftNames) ==>
        forall y, p :: y in years && p in pftNames && Writable(overwrite, old(e.maps), y, p) ==>
          Settled(division, old(e.maps), e.mask, e.maps, y, p)
    {
      if ReferenceYear !in years {
        return Err(KeyError(IntToString(ReferenceYear)));
      }
      e.RegionFromRasterCmd(LandCoverName(ReferenceYear));
      if LandCoverName(ReferenceYear) !in e.maps {
        return Err(CalledModuleError("g.region"));
      }
      ghost var log0, maps0 := e.log, e.maps;
      var i := 0;
      while i < |years|
        invariant 0 <= i <= |years|
        invariant 0 < i ==> AllTabulated(pftNames)
        invariant pftNames != [] ==> LandCoverPresent(maps0, years[..i])
        invariant e.log == log0 + ComputeLog(years[..i], pftNames)
        invariant e.mask == old(e.mask) && e.saved == old(e.saved)
        invariant FilesKept(old(e.files), e.files)
        invariant MapsKept(maps0, e.maps, years, pftNames)
        invariant AllReady(division, overwrite, maps0, e.mask, e.maps, years, pftNames)
        invariant AllSettled(division, overwrite, maps0, e.mask, e.maps, years, pftNames, years[..i])
      {
        ghost var before := e.maps;
        LandCoverKept(maps0, before, years, pftNames, years[i]);
        r := ComputeYear(e, years[i], maps0);
        if r.Err? {
          return;
        }
        ComputeLogSnoc(years, i, pftNames);
        LogAppend(log0, ComputeLog(years[..i], pftNames), YearLog(years[i], pftNames));
        YearsStep(division, overwrite, maps0, e.mask, before, e.maps, years, pftNames, i);
        if pftNames != [] {
          LandCoverPresentSnoc(maps0, years, i);
        }
        i := i + 1;
      }
      assert years[..i] == years;
      return Ok(());
    }

    /**
     * The inner loop of `compute`: one step per PFT for one year. Settled
     * and ready steps stay so, and each of the year's ready steps is
     * settled. A missing land-cover map fails the first step, at its
     * `g.region`.
     */
    method ComputeYear(e: Engine, year: int, ghost maps0: map<string, Map>) returns (r: Result<()>)
      requires mapnames == MapNames(years, pftNames)
      requires year in years && MapsKept(maps0, e.maps, years, pftNames)
      modifies e
      ensures r.Ok? <==> AllTabulated(pftNames) && (pftNames != [] ==> LandCoverName(year) in old(e.maps))
      ensures AllTabulated(pftNames) && pftNames != [] && LandCoverName(year) !in old(e.maps) ==>
        r == Err(CalledModuleError("g.region")) && e.log == old(e.log) + [RegionFromRaster(LandCoverName(year))] &&
        e.maps == old(e.maps)
      ensures r.Err? && AllTabulated(pftNames) ==> r == Err(CalledModuleError("g.region"))
      ensures r.Ok? ==> e.log == old(e.log) + YearLog(year, pftNames)
      ensures e.mask == old(e.mask) && e.saved == old(e.saved)
      ensures FilesKept(old(e.files), e.files)
      ensures MapsKept(old(e.maps), e.maps, years, pftNames) && MapsKept(maps0, e.maps, years, pftNames)
      ensures Preserved(division, overwrite, maps0, e.mask, old(e.maps), e.maps, years, pftNames)
      ensures r.Ok? ==> SettledFor(division, overwrite, maps0, e.mask, old(e.maps), e.maps, years, pftNames, year, pftNames)
    {
      var j := 0;
      while j < |pftNames|
        invariant 0 <= j <= |pftNames|
        invariant AllTabulated(pftNames[..j])
        invariant 0 < j ==> LandCoverName(year) in old(e.maps)
        invariant j == 0 ==> e.maps == old(e.maps)
        invariant e.log == old(e.log) + YearLog(year, pftNames[..j])
        invariant e.mask == old(e.mask) && e.saved == old(e.saved)
        invariant FilesKept(old(e.files), e.files)
        invariant MapsKept(old(e.maps), e.maps, years, pftNames) && MapsKept(maps0, e.maps, years, pftNames)
        invariant Preserved(division, overwrite, maps0, e.mask, old(e.maps), e.maps, years, pftNames)
        invariant SettledFor(division, overwrite, maps0, e.mask, old(e.maps), e.maps, years, pftNames, year, pftNames[..j])
      {
        var p := pftNames[j];
        ghost var before := e.maps;
        LandCoverKept(old(e.maps), before, years, pftNames, year);
        r := CreatePftMap(e, year, p);
        if r.Err? {
          return;
        }
        LogAppend(old(e.log), YearLog(year, pftNames[..j]), PftLog(year, p));
        YearStep(division, overwrite, maps0, e.mask, old(e.maps), before, e.maps, years, pftNames, year, j);
        YearLogSnoc(year, pftNames, j);
        TabulatedSnoc(pftNames, j);
        j := j + 1;
      }
      assert pftNames[..j] == pftNames;
      return Ok(());
    }
  }
}
