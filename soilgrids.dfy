// SoilGrids input (jamr/input/soilgrids.py): checking the configuration,
// the file and map name of each variable at each horizon, the paths of the
// reprojected copies, and the dictionary of horizons. jamr/soil.py holds an
// older copy of the same classes, which differs in three places. Its
// resolution check, modelled by `LegacyValidate`, compares the value as
// given. Its `read` imports each file with `r.in.gdal -a`, passing the
// overwrite flag and ignoring a failed import, where the newer one starts
// `r.in.gdal` without either and collects its error output. Its horizon
// constructor takes the parent SoilGrids object and copies the settings from
// it, where the newer one takes each setting as an argument. Neither of the
// last two is modelled separately.
module SoilGridsInput {
  import opened Wrappers
  import opened Strings
  import opened Paths
  import opened Raster
  import opened Grass
  import Constants

  // ---- the configuration ----

  /** A configuration value that Python passes through `int()`: an integer or a string. */
  datatype Scalar = Int(i: int) | Str(s: string)

  /**
   * Python's `int(x)` on an integer or on a string (surrounding whitespace,
   * a sign and underscore-grouped digits allowed); None where it raises
   * ValueError.
   */
  function ToInt(x: Scalar): (r: Option<int>)
    ensures x.Int? ==> r == Some(x.i)
    ensures x.Str? && |x.s| > 0 && AllDigits(x.s) ==> r == Some(DigitsToNat(x.s))
  {
    match x
    case Int(i) => Some(i)
    case Str(s) => ParseInt(s)
  }

  /** `int(str(n))` is n, and so is `int(" n ")` padded with whitespace. */
  lemma ToIntOfString(n: nat, pad: string)
    requires forall i :: 0 <= i < |pad| ==> IsSpace(pad[i])
    ensures ToInt(Str(NatToString(n))) == Some(n)
    ensures ToInt(Str(pad + NatToString(n) + pad)) == Some(n)
  {
    ParseNatToString(n);
    ParseIntPadded(pad, n, pad);
  }

  /** The `[soil][soilgrids]` table and the scratch directory of the configuration. */
  datatype SoilGridsConfig = SoilGridsConfig(dataDirectory: string, scratchDirectory: string,
                                             variables: seq<string>, horizons: seq<string>,
                                             resolution: Scalar, summaryStatistic: string)

  /** `int()`'s message for a string it cannot read. */
  function IntLiteralError(s: string): string
  {
    "invalid literal for int() with base 10: '" + s + "'"
  }

  /**
   * The checks of `SoilGrids.__init__`, in order: every variable, every
   * horizon, the resolution after `int()`, and the statistic. The result is
   * the resolution the object keeps.
   */
  function Validate(cfg: SoilGridsConfig): (r: Result<int>)
    ensures r.Ok? <==>
      (forall v :: v in cfg.variables ==> v in Constants.SgVariables) &&
      (forall h :: h in cfg.horizons ==> h in Constants.SgHorizons) &&
      ToInt(cfg.resolution).Some? && ToInt(cfg.resolution).value in Constants.SgResolutions &&
      cfg.summaryStatistic in Constants.SgSummaryStatistics
    ensures r.Ok? ==> Some(r.value) == ToInt(cfg.resolution)
    ensures r.Err? ==> r.error.ValueError?
  {
    if !(forall v :: v in cfg.variables ==> v in Constants.SgVariables) then Err(ValueError(""))
    else if !(forall h :: h in cfg.horizons ==> h in Constants.SgHorizons) then Err(ValueError(""))
    else match ToInt(cfg.resolution)
      case None => Err(ValueError(IntLiteralError(cfg.resolution.s)))
      case Some(res) =>
        if res !in Constants.SgResolutions then Err(ValueError(""))
        else if cfg.summaryStatistic !in Constants.SgSummaryStatistics then Err(ValueError(""))
        else Ok(res)
  }

  /** The same checks in jamr/soil.py, which compares the resolution as given, without `int()`. */
  function LegacyValidate(cfg: SoilGridsConfig): (r: Result<int>)
    ensures r.Ok? <==>
      (forall v :: v in cfg.variables ==> v in Constants.SgVariables) &&
      (forall h :: h in cfg.horizons ==> h in Constants.SgHorizons) &&
      cfg.resolution.Int? && cfg.resolution.i in Constants.SgResolutions &&
      cfg.summaryStatistic in Constants.SgSummaryStatistics
    ensures r.Ok? ==> r.value == cfg.resolution.i
    ensures r.Err? ==> r == Err(ValueError(""))
  {
    if !(forall v :: v in cfg.variables ==> v in Constants.SgVariables) then Err(ValueError(""))
    else if !(forall h :: h in cfg.horizons ==> h in Constants.SgHorizons) then Err(ValueError(""))
    else if !(cfg.resolution.Int? && cfg.resolution.i in Constants.SgResolutions) then Err(ValueError(""))
    else if cfg.summaryStatistic !in Constants.SgSummaryStatistics then Err(ValueError(""))
    else Ok(cfg.resolution.i)
  }

  /**
   * The two checks agree on an integer resolution; a resolution written as
   * the string "1000" passes the newer check and fails the older one.
   */
  lemma ValidateAgreement(cfg: SoilGridsConfig)
    ensures cfg.resolution.Int? ==> Validate(cfg) == LegacyValidate(cfg)
    ensures cfg.resolution == Str("1000") ==>
      (LegacyValidate(cfg).Err? &&
       (Validate(cfg).Ok? <==> (forall v :: v in cfg.variables ==> v in Constants.SgVariables) &&
                               (forall h :: h in cfg.horizons ==> h in Constants.SgHorizons) &&
                               cfg.summaryStatistic in Constants.SgSummaryStatistics))
  {
    if cfg.resolution == Str("1000") {
      assert DigitsToNat("1000") == 1000 by {
        assert "1000"[..3] == "100" && "100"[..2] == "10" && "10"[..1] == "1";
      }
    }
  }

  // ---- names of one horizon's files and maps ----

  /** What `_filename_format` appends for each resolution; None for any other. */
  function FilenameTail(resolution: int): (r: Option<string>)
    ensures r.Some? <==> resolution in Constants.SgResolutions
  {
    if resolution == 250 then Some("")
    else if resolution == 1000 then Some("_1000")
    else if resolution == 5000 then Some("_5000")
    else None
  }

  /** `_filename_format` filled in for one variable's abbreviation. */
  function Filename(resolution: int, abbr: string, horizon: string, statistic: string): Option<string>
  {
    match FilenameTail(resolution)
    case None => None
    case Some(t) => Some(abbr + "_" + horizon + "_" + statistic + t + ".tif")
  }

  /** The map name `sg_{res}_{abbr}_{horizon with '-' as '_'}_{stat}`. */
  function MapName(resolution: int, abbr: string, horizon: string, statistic: string): string
  {
    "sg_" + IntToString(resolution) + "_" + abbr + "_" + ReplaceChar(horizon, '-', '_') + "_" + statistic
  }

  /** Different resolutions read different files. */
  lemma FilenamesByResolution(r1: int, r2: int, abbr: string, horizon: string, statistic: string)
    requires Filename(r1, abbr, horizon, statistic).Some? && Filename(r2, abbr, horizon, statistic).Some?
    requires Filename(r1, abbr, horizon, statistic) == Filename(r2, abbr, horizon, statistic)
    ensures r1 == r2
  {
    var x := abbr + "_" + horizon + "_" + statistic;
    var t1, t2 := FilenameTail(r1).value, FilenameTail(r2).value;
    assert x + t1 + ".tif" == x + t2 + ".tif";
    assert |t1| == |t2|;
    assert t1 == (x + t1 + ".tif")[|x|..|x| + |t1|];
    assert t2 == (x + t2 + ".tif")[|x|..|x| + |t2|];
  }

  /** A SoilGrids file name is its base followed by the `.tif` extension. */
  lemma FilenameParts(resolution: int, abbr: string, horizon: string, statistic: string)
    requires Filename(resolution, abbr, horizon, statistic).Some?
    ensures var base := abbr + "_" + horizon + "_" + statistic + FilenameTail(resolution).value;
      Filename(resolution, abbr, horizon, statistic).value == base + ".tif"
  {
  }

  /** The reprojected copy of `<base>.tif`, for a base naming no directory, is `<base>_ll.tif` in the scratch directory. */
  lemma ReprojectedTif(scratch: string, base: string)
    requires |base| > 0 && '/' !in base
    ensures PreprocessedPath(scratch, base + ".tif") == Join(scratch, base + "_ll.tif")
    ensures Basename(PreprocessedPath(scratch, base + ".tif")) == base + "_ll.tif"
  {
    var f := base + ".tif";
    assert f == base + "." + "tif";
    StemOfExtension(base, "tif");
    assert Stem(f) + "_ll" + Suffix(f) == base + "_ll.tif";
    BasenameOfJoin(scratch, base + "_ll.tif");
  }

  /**
   * The reprojected copy of a SoilGrids file sits in the scratch directory
   * and is named after the file with `_ll` before `.tif`, even when the
   * statistic holds a decimal point (Q0.50).
   */
  lemma PreprocessedName(scratch: string, resolution: int, abbr: string, horizon: string, statistic: string)
    requires Filename(resolution, abbr, horizon, statistic).Some?
    requires |abbr| > 0 && '/' !in abbr && '/' !in horizon && '/' !in statistic
    ensures var f := Filename(resolution, abbr, horizon, statistic).value;
      var base := abbr + "_" + horizon + "_" + statistic + FilenameTail(resolution).value;
      PreprocessedPath(scratch, f) == Join(scratch, base + "_ll.tif") &&
      Basename(PreprocessedPath(scratch, f)) == base + "_ll.tif"
  {
    var base := abbr + "_" + horizon + "_" + statistic + FilenameTail(resolution).value;
    FilenameParts(resolution, abbr, horizon, statistic);
    assert '/' !in base;
    ReprojectedTif(scratch, base);
  }

  /** With '_' absent from both, replacing '-' by '_' keeps strings apart. */
  lemma ReplaceDashInjective(s: string, t: string)
    requires '_' !in s && '_' !in t
    requires ReplaceChar(s, '-', '_') == ReplaceChar(t, '-', '_')
    ensures s == t
  {
    var r := ReplaceChar(s, '-', '_');
    forall i | 0 <= i < |s|
      ensures s[i] == t[i]
    {
      if s[i] == '-' {
        assert r[i] == '_';
      } else {
        assert s[i] != '_';
      }
    }
  }

  /** No abbreviation holds '_', and different variables have different abbreviations. */
  lemma AbbreviationsSeparate(v1: string, v2: string)
    requires v1 in Constants.SgVariablesAbbr && v2 in Constants.SgVariablesAbbr
    ensures '_' !in Constants.SgVariablesAbbr[v1]
    ensures Constants.SgVariablesAbbr[v1] == Constants.SgVariablesAbbr[v2] ==> v1 == v2
  {
  }

  /** Every SoilGrids horizon is free of '_'. */
  lemma HorizonsPlain(h: string)
    requires h in Constants.SgHorizons
    ensures '_' !in h
  {
  }

  /** A map name is a prefix, the abbreviation, '_', and the rest. */
  lemma MapNameParts(resolution: int, abbr: string, horizon: string, statistic: string)
    ensures MapName(resolution, abbr, horizon, statistic) ==
      ("sg_" + IntToString(resolution) + "_") + abbr + "_" + (ReplaceChar(horizon, '-', '_') + "_" + statistic)
  {
  }

  /** Different variables, or different horizons, get different map names. */
  lemma MapNamesDistinct(resolution: int, v1: string, h1: string, v2: string, h2: string, statistic: string)
    requires v1 in Constants.SgVariablesAbbr && v2 in Constants.SgVariablesAbbr
    requires h1 in Constants.SgHorizons && h2 in Constants.SgHorizons
    requires MapName(resolution, Constants.SgVariablesAbbr[v1], h1, statistic) ==
             MapName(resolution, Constants.SgVariablesAbbr[v2], h2, statistic)
    ensures v1 == v2 && h1 == h2
  {
    var a1, a2 := Constants.SgVariablesAbbr[v1], Constants.SgVariablesAbbr[v2];
    AbbreviationsSeparate(v1, v2);
    AbbreviationsSeparate(v2, v1);
    var pre := "sg_" + IntToString(resolution) + "_";
    var x1, x2 := ReplaceChar(h1, '-', '_'), ReplaceChar(h2, '-', '_');
    var b1, b2 := x1 + "_" + statistic, x2 + "_" + statistic;
    MapNameParts(resolution, a1, h1, statistic);
    MapNameParts(resolution, a2, h2, statistic);
    SplitAfterPrefix(pre, a1, b1, a2, b2, '_');
    assert |x1| == |x2|;
    assert x1 == b1[..|x1|] && x2 == b2[..|x2|];
    HorizonsPlain(h1);
    HorizonsPlain(h2);
    ReplaceDashInjective(h1, h2);
  }

  /**
   * The dictionary `get_input_filenames` builds: each variable's file name
   * from its abbreviation. An unknown variable raises KeyError, and a
   * resolution with no file template AttributeError.
   */
  function Filenames(vs: seq<string>, resolution: int, horizon: string, statistic: string): Result<map<string, string>>
  {
    if |vs| == 0 then Ok(map[])
    else
      match Filenames(vs[..|vs| - 1], resolution, horizon, statistic)
      case Err(e) => Err(e)
      case Ok(m) =>
        var v := vs[|vs| - 1];
        if v !in Constants.SgVariablesAbbr then Err(KeyError(v))
        else match Filename(resolution, Constants.SgVariablesAbbr[v], horizon, statistic)
          case None => Err(AttributeError("format"))
          case Some(f) => Ok(m[v := f])
  }

  /**
   * The loop succeeds exactly when every variable is known and has a name;
   * it then names every variable it was given, and nothing else. A failure
   * names an unknown variable of the list or the missing template.
   */
  lemma {:induction false} FilenamesMeaning(vs: seq<string>, resolution: int, horizon: string, statistic: string)
    ensures var r := Filenames(vs, resolution, horizon, statistic);
      r.Ok? <==> forall v :: v in vs ==> v in Constants.SgVariablesAbbr && Filename(resolution, Constants.SgVariablesAbbr[v], horizon, statistic).Some?
    ensures var r := Filenames(vs, resolution, horizon, statistic);
      r.Ok? ==> (forall v :: v in r.value <==> v in vs) &&
                (forall v :: v in r.value ==> Some(r.value[v]) == Filename(resolution, Constants.SgVariablesAbbr[v], horizon, statistic))
    ensures var r := Filenames(vs, resolution, horizon, statistic);
      r.Err? ==> (r.error.KeyError? && r.error.key in vs && r.error.key !in Constants.SgVariablesAbbr) ||
                 r.error == AttributeError("format")
  {
    if |vs| > 0 {
      var init := vs[..|vs| - 1];
      FilenamesMeaning(init, resolution, horizon, statistic);
      assert vs == init + [vs[|vs| - 1]];
    }
  }

  /** One more variable with a name adds that name to the dictionary. */
  lemma FilenamesExtend(vs: seq<string>, v: string, resolution: int, horizon: string, statistic: string, m: map<string, string>)
    requires Filenames(vs, resolution, horizon, statistic) == Ok(m)
    requires v in Constants.SgVariablesAbbr && Filename(resolution, Constants.SgVariablesAbbr[v], horizon, statistic).Some?
    ensures Filenames(vs + [v], resolution, horizon, statistic) == Ok(m[v := Filename(resolution, Constants.SgVariablesAbbr[v], horizon, statistic).value])
  {
    assert (vs + [v])[..|vs|] == vs;
  }

  /** One more variable without a name makes the loop fail at it. */
  lemma FilenamesFail(vs: seq<string>, v: string, resolution: int, horizon: string, statistic: string)
    requires Filenames(vs, resolution, horizon, statistic).Ok?
    requires v !in Constants.SgVariablesAbbr || Filename(resolution, Constants.SgVariablesAbbr[v], horizon, statistic).None?
    ensures Filenames(vs + [v], resolution, horizon, statistic) == Err(if v !in Constants.SgVariablesAbbr then KeyError(v) else AttributeError("format"))
  {
    assert (vs + [v])[..|vs|] == vs;
  }

  /** The prefix of a list one element longer. */
  lemma PrefixSnoc<T>(s: seq<T>, i: nat)
    requires i < |s|
    ensures s[..i + 1] == s[..i] + [s[i]]
  {
  }

  /** A dict built from one more key gains that key last, unless it holds it already. */
  lemma DistinctSnoc(vs: seq<string>, v: string)
    ensures Distinct(vs + [v]) == if v in vs then Distinct(vs) else Distinct(vs) + [v]
  {
    assert (vs + [v])[..|vs|] == vs;
  }

  /** Every SoilGrids variable has an abbreviation, so a checked variable list can be named. */
  lemma CheckedVariablesNamed(vs: seq<string>, resolution: int, horizon: string, statistic: string)
    requires forall v :: v in vs ==> v in Constants.SgVariables
    requires resolution in Constants.SgResolutions
    ensures Filenames(vs, resolution, horizon, statistic).Ok?
    ensures forall v :: v in vs ==> v in Constants.SgVariablesAbbr
  {
    Constants.AbbreviationsCoverVariables();
    FilenamesMeaning(vs, resolution, horizon, statistic);
  }

  /** The keys of a list in order of first appearance, as a dict built from it iterates them. */
  function Distinct(vs: seq<string>): (d: seq<string>)
    ensures forall x :: x in d <==> x in vs
    ensures forall i, j :: 0 <= i < j < |d| ==> d[i] != d[j]
  {
    if |vs| == 0 then []
    else
      var p := Distinct(vs[..|vs| - 1]);
      assert forall x :: x in vs <==> x in vs[..|vs| - 1] || x == vs[|vs| - 1];
      if vs[|vs| - 1] in p then p else p + [vs[|vs| - 1]]
  }

  /** `SoilHorizonMaps`: the map name of each soil variable; a variable not asked for is None. */
  datatype SoilHorizonMaps = SoilHorizonMaps(
    clayContent: Option<string>, sandContent: Option<string>, siltContent: Option<string>,
    bulkDensity: Option<string>, cationExchangeCapacity: Option<string>, phIndex: Option<string>,
    soilOrganicCarbon: Option<string>)

  /** `getattr(maps, v)` for a variable's field name. */
  function Field(maps: SoilHorizonMaps, v: string): Option<string>
  {
    match v
    case "clay_content" => maps.clayContent
    case "sand_content" => maps.sandContent
    case "silt_content" => maps.siltContent
    case "bulk_density" => maps.bulkDensity
    case "cation_exchange_capacity" => maps.cationExchangeCapacity
    case "ph_index" => maps.phIndex
    case "soil_organic_carbon" => maps.soilOrganicCarbon
    case _ => None
  }

  /** `SoilHorizonMaps(**m)`, for a dictionary keyed by field names. */
  function HorizonMaps(m: map<string, string>): SoilHorizonMaps
  {
    SoilHorizonMaps(
      if "clay_content" in m then Some(m["clay_content"]) else None,
      if "sand_content" in m then Some(m["sand_content"]) else None,
      if "silt_content" in m then Some(m["silt_content"]) else None,
      if "bulk_density" in m then Some(m["bulk_density"]) else None,
      if "cation_exchange_capacity" in m then Some(m["cation_exchange_capacity"]) else None,
      if "ph_index" in m then Some(m["ph_index"]) else None,
      if "soil_organic_carbon" in m then Some(m["soil_organic_carbon"]) else None)
  }

  /** Each variable's field of `SoilHorizonMaps(**m)` is its entry in m, or None without one. */
  lemma HorizonMapsField(m: map<string, string>, v: string)
    requires v in Constants.SgVariables
    ensures Field(HorizonMaps(m), v) == (if v in m then Some(m[v]) else None)
  {
    if v == "clay_content" {
    } else if v == "sand_content" {
    } else if v == "silt_content" {
    } else if v == "bulk_density" {
    } else if v == "cation_exchange_capacity" {
    } else if v == "ph_index" {
    } else {
      assert v == "soil_organic_carbon";
    }
  }

  /** The namedtuple built from a dictionary holding the map of exactly the variables asked for. */
  /** Every variable in ms has an abbreviation and is mapped to its map name. */
  ghost predicate NamedEach(ms: map<string, string>, resolution: int, horizon: string, statistic: string)
  {
    forall v :: v in ms ==>
      (v in Constants.SgVariablesAbbr && ms[v] == MapName(resolution, Constants.SgVariablesAbbr[v], horizon, statistic))
  }

  lemma NamedEachAdd(ms: map<string, string>, v: string, resolution: int, horizon: string, statistic: string)
    requires NamedEach(ms, resolution, horizon, statistic) && v in Constants.SgVariablesAbbr
    ensures NamedEach(ms[v := MapName(resolution, Constants.SgVariablesAbbr[v], horizon, statistic)], resolution, horizon, statistic)
  {
  }

  lemma NamedMaps(ms: map<string, string>, vs: seq<string>, resolution: int, horizon: string, statistic: string)
    requires forall v :: v in ms <==> v in vs
    requires NamedEach(ms, resolution, horizon, statistic)
    ensures forall v :: v in Constants.SgVariables ==>
      Field(HorizonMaps(ms), v) == (if v in vs then Some(MapName(resolution, Constants.SgVariablesAbbr[v], horizon, statistic))
                                    else None)
  {
    forall v | v in Constants.SgVariables
      ensures Field(HorizonMaps(ms), v) == (if v in vs then Some(MapName(resolution, Constants.SgVariablesAbbr[v], horizon, statistic))
                                            else None)
    {
      HorizonMapsField(ms, v);
    }
  }

  // ---- preprocessing ----

  /** The reprojected copy of a file: `<stem>_ll<suffix>` in the scratch directory. */
  function PreprocessedPath(scratch: string, filename: string): string
  {
    Join(scratch, Stem(filename) + "_ll" + Suffix(filename))
  }

  /**
   * The `gdal.Warp` calls `preprocess` makes for the keys ks, as (input,
   * output) paths, where fs holds each key's file and outs its reprojected
   * copy: one call for each key whose output is not among the existing
   * files, or for every key when overwriting.
   */
  function Warps(ks: seq<string>, fs: map<string, string>, outs: map<string, string>, dataDirectory: string,
                 existing: set<string>, overwrite: bool): seq<(string, string)>
    requires forall k :: k in ks ==> k in fs && k in outs
  {
    if |ks| == 0 then []
    else
      var k := ks[|ks| - 1];
      Warps(ks[..|ks| - 1], fs, outs, dataDirectory, existing, overwrite) +
      (if outs[k] !in existing || overwrite then [(Join(dataDirectory, fs[k]), outs[k])] else [])
  }

  /** One more key adds its warp, if any, at the end. */
  lemma WarpsSnoc(ks: seq<string>, k: string, fs: map<string, string>, outs: map<string, string>, dataDirectory: string,
                  existing: set<string>, overwrite: bool)
    requires forall x :: x in ks ==> x in fs && x in outs
    requires k in fs && k in outs
    ensures Warps(ks + [k], fs, outs, dataDirectory, existing, overwrite) ==
      Warps(ks, fs, outs, dataDirectory, existing, overwrite) +
      (if outs[k] !in existing || overwrite then [(Join(dataDirectory, fs[k]), outs[k])] else [])
  {
    assert (ks + [k])[..|ks|] == ks;
  }

  /** Adding an output for a key not yet listed leaves the warps of the listed keys alone. */
  lemma {:induction false} WarpsFrame(ks: seq<string>, fs: map<string, string>, outs: map<string, string>,
                                      k: string, out: string, dataDirectory: string, existing: set<string>, overwrite: bool)
    requires forall x :: x in ks ==> x in fs && x in outs
    requires k !in ks
    ensures Warps(ks, fs, outs[k := out], dataDirectory, existing, overwrite) == Warps(ks, fs, outs, dataDirectory, existing, overwrite)
  {
    if |ks| > 0 {
      WarpsFrame(ks[..|ks| - 1], fs, outs, k, out, dataDirectory, existing, overwrite);
    }
  }

  /**
   * A warp is made exactly for the keys whose output is missing (or all of
   * them when overwriting): an existing output is never rewritten without
   * overwrite, and a missing one is always written.
   */
  lemma {:induction false} WarpsMeaning(ks: seq<string>, fs: map<string, string>, outs: map<string, string>,
                                        dataDirectory: string, existing: set<string>, overwrite: bool)
    requires forall k :: k in ks ==> k in fs && k in outs
    ensures forall w :: w in Warps(ks, fs, outs, dataDirectory, existing, overwrite) ==>
      (overwrite || w.1 !in existing) && exists k :: k in ks && w == (Join(dataDirectory, fs[k]), outs[k])
    ensures forall k :: k in ks && (overwrite || outs[k] !in existing) ==>
      (Join(dataDirectory, fs[k]), outs[k]) in Warps(ks, fs, outs, dataDirectory, existing, overwrite)
  {
    if |ks| > 0 {
      var init := ks[..|ks| - 1];
      WarpsMeaning(init, fs, outs, dataDirectory, existing, overwrite);
      assert ks == init + [ks[|ks| - 1]];
    }
  }

  /** One pass of `preprocess`'s loop records the reprojected path of the next key. */
  lemma ReprojectedStep(ks: seq<string>, i: nat, fs: map<string, string>, pre: map<string, string>,
                        out: string, scratch: string, post: map<string, string>)
    requires i < |ks| && forall k :: k in ks ==> k in fs
    requires forall k :: k in pre <==> k in ks[..i]
    requires forall k :: k in pre ==> k in fs && pre[k] == PreprocessedPath(scratch, fs[k])
    requires out == PreprocessedPath(scratch, fs[ks[i]]) && post == pre[ks[i] := out]
    ensures forall k :: k in post <==> k in ks[..i + 1]
    ensures forall k :: k in post ==> k in fs && post[k] == PreprocessedPath(scratch, fs[k])
  {
    PrefixSnoc(ks, i);
  }

  /** One pass of `preprocess`'s loop: the warps listed so far, then the one for the next key, if any. */
  lemma WarpsStep(ks: seq<string>, i: nat, fs: map<string, string>, pre: map<string, string>,
                  out: string, dataDirectory: string, existing: set<string>, overwrite: bool)
    requires i < |ks| && forall k :: k in ks ==> k in fs
    requires forall a, b :: 0 <= a < b < |ks| ==> ks[a] != ks[b]
    requires forall k :: k in pre <==> k in ks[..i]
    ensures Warps(ks[..i + 1], fs, pre[ks[i] := out], dataDirectory, existing, overwrite) ==
            Warps(ks[..i], fs, pre, dataDirectory, existing, overwrite) +
            (if out !in existing || overwrite then [(Join(dataDirectory, fs[ks[i]]), out)] else [])
  {
    var key := ks[i];
    assert key !in ks[..i];
    WarpsFrame(ks[..i], fs, pre, key, out, dataDirectory, existing, overwrite);
    PrefixSnoc(ks, i);
    WarpsSnoc(ks[..i], key, fs, pre[key := out], dataDirectory, existing, overwrite);
  }

  /** What `get_input_filenames` holds after the first i variables: their files, keyed in order of first appearance. */
  ghost predicate NamedSoFar(vs: seq<string>, i: int, fs: map<string, string>, ks: seq<string>,
                             resolution: int, horizon: string, statistic: string)
  {
    && 0 <= i <= |vs|
    && Filenames(vs[..i], resolution, horizon, statistic) == Ok(fs)
    && ks == Distinct(vs[..i])
    && (forall k :: k in ks <==> k in fs)
  }

  /** One pass of `get_input_filenames`'s loop over a variable that has a file. */
  lemma NamedStep(vs: seq<string>, i: int, fs: map<string, string>, ks: seq<string>,
                  resolution: int, horizon: string, statistic: string)
    requires i < |vs| && NamedSoFar(vs, i, fs, ks, resolution, horizon, statistic)
    requires vs[i] in Constants.SgVariablesAbbr && Filename(resolution, Constants.SgVariablesAbbr[vs[i]], horizon, statistic).Some?
    ensures NamedSoFar(vs, i + 1, fs[vs[i] := Filename(resolution, Constants.SgVariablesAbbr[vs[i]], horizon, statistic).value],
                       if vs[i] in fs then ks else ks + [vs[i]], resolution, horizon, statistic)
  {
    PrefixSnoc(vs, i);
    FilenamesExtend(vs[..i], vs[i], resolution, horizon, statistic, fs);
    DistinctSnoc(vs[..i], vs[i]);
  }

  /**
   * What `preprocess` holds after the first i keys: the reprojected path of
   * each, and the warps made for them.
   */
  ghost predicate PreprocessedSoFar(ks: seq<string>, i: int, fs: map<string, string>, pre: map<string, string>,
                                    warps: seq<(string, string)>, scratch: string, dataDirectory: string,
                                    existing: set<string>, overwrite: bool)
  {
    && 0 <= i <= |ks|
    && (forall k :: k in pre <==> k in ks[..i])
    && (forall k :: k in pre ==> k in fs && pre[k] == PreprocessedPath(scratch, fs[k]))
    && warps == Warps(ks[..i], fs, pre, dataDirectory, existing, overwrite)
  }

  /** One pass of `preprocess`'s loop: the next key's path, and its warp when one is needed. */
  lemma PreprocessStep(ks: seq<string>, i: int, fs: map<string, string>, pre: map<string, string>,
                       warps: seq<(string, string)>, scratch: string, dataDirectory: string,
                       existing: set<string>, overwrite: bool)
    requires i < |ks| && forall k :: k in ks ==> k in fs
    requires forall a, b :: 0 <= a < b < |ks| ==> ks[a] != ks[b]
    requires PreprocessedSoFar(ks, i, fs, pre, warps, scratch, dataDirectory, existing, overwrite)
    ensures var out := PreprocessedPath(scratch, fs[ks[i]]);
      PreprocessedSoFar(ks, i + 1, fs, pre[ks[i] := out],
                        warps + (if out !in existing || overwrite then [(Join(dataDirectory, fs[ks[i]]), out)] else []),
                        scratch, dataDirectory, existing, overwrite)
  {
    var out := PreprocessedPath(scratch, fs[ks[i]]);
    WarpsStep(ks, i, fs, pre, out, dataDirectory, existing, overwrite);
    ReprojectedStep(ks, i, fs, pre, out, scratch, pre[ks[i] := out]);
  }

  // ---- reading the reprojected copies ----

  /** The map x is in `after` exactly as it was in `before`. */
  ghost predicate Untouched(before: map<string, Map>, after: map<string, Map>, x: string)
  {
    (x in after <==> x in before) && (x in after ==> after[x] == before[x])
  }

  /**
   * A non-overwriting import of the file at path into the map n: an
   * existing map stays; otherwise the map appears, holding what the file
   * reads, exactly when the file can be read.
   */
  ghost predicate Imported(before: map<string, Map>, after: map<string, Map>, n: string, path: string, rasters: map<string, Map>)
  {
    && (n in before ==> n in after && after[n] == before[n])
    && (n !in before ==> (n in after <==> path in rasters) && (n in after ==> after[n] == rasters[path]))
  }

  lemma UntouchedTwice(a: map<string, Map>, b: map<string, Map>, c: map<string, Map>, x: string)
    requires Untouched(a, b, x) && Untouched(b, c, x)
    ensures Untouched(a, c, x)
  {
  }

  /** Importing the same file into the same map again changes nothing. */
  lemma ImportedTwice(a: map<string, Map>, b: map<string, Map>, c: map<string, Map>, n: string, path: string, rasters: map<string, Map>)
    requires Imported(a, b, n, path, rasters) && Imported(b, c, n, path, rasters)
    ensures Imported(a, c, n, path, rasters)
  {
  }

  lemma UntouchedThenImported(a: map<string, Map>, b: map<string, Map>, c: map<string, Map>, n: string, path: string, rasters: map<string, Map>)
    requires Untouched(a, b, n) && Imported(b, c, n, path, rasters)
    ensures Imported(a, c, n, path, rasters)
  {
  }

  lemma ImportedThenUntouched(a: map<string, Map>, b: map<string, Map>, c: map<string, Map>, n: string, path: string, rasters: map<string, Map>)
    requires Imported(a, b, n, path, rasters) && Untouched(b, c, n)
    ensures Imported(a, c, n, path, rasters)
  {
  }

  /** The `r.in.gdal` commands `read` issues for the keys ks: one per key, from its copy into its map. */
  function ImportLog(ks: seq<string>, paths: map<string, string>, names: map<string, string>): (log: seq<Command>)
    requires forall k :: k in ks ==> k in paths && k in names
    ensures |log| == |ks| && forall i :: 0 <= i < |ks| ==> log[i] == Import(paths[ks[i]], names[ks[i]])
  {
    if |ks| == 0 then [] else ImportLog(ks[..|ks| - 1], paths, names) + [Import(paths[ks[|ks| - 1]], names[ks[|ks| - 1]])]
  }

  /**
   * The catalogue after those commands, without --overwrite: each creates
   * its map from what GDAL reads in its file, unless the map exists or the
   * file cannot be read.
   */
  function ImportMaps(maps: map<string, Map>, ks: seq<string>, paths: map<string, string>, names: map<string, string>,
                      rasters: map<string, Map>): map<string, Map>
    requires forall k :: k in ks ==> k in paths && k in names
  {
    if |ks| == 0 then maps
    else
      var m := ImportMaps(maps, ks[..|ks| - 1], paths, names, rasters);
      var k := ks[|ks| - 1];
      if paths[k] in rasters then Store(m, names[k], rasters[paths[k]], false) else m
  }

  /**
   * With distinct keys naming distinct maps, every key's map that existed
   * stays as it was, a new one holds what its file reads and appears exactly
   * when the file can be read, and every other map is untouched.
   */
  lemma {:induction false} ImportMapsMeaning(maps: map<string, Map>, ks: seq<string>, paths: map<string, string>,
                                             names: map<string, string>, rasters: map<string, Map>)
    requires forall k :: k in ks ==> k in paths && k in names
    requires forall i, j :: 0 <= i < j < |ks| ==> names[ks[i]] != names[ks[j]]
    ensures var r := ImportMaps(maps, ks, paths, names, rasters);
      forall x :: (forall k :: k in ks ==> names[k] != x) ==> Untouched(maps, r, x)
    ensures var r := ImportMaps(maps, ks, paths, names, rasters);
      forall k :: k in ks ==> Imported(maps, r, names[k], paths[k], rasters)
  {
    if |ks| > 0 {
      var init := ks[..|ks| - 1];
      var k := ks[|ks| - 1];
      var mid := ImportMaps(maps, init, paths, names, rasters);
      var r := ImportMaps(maps, ks, paths, names, rasters);
      ImportMapsMeaning(maps, init, paths, names, rasters);
      assert forall x :: x in ks <==> x in init || x == k;
      assert Imported(mid, r, names[k], paths[k], rasters);
      forall x | x != names[k]
        ensures Untouched(mid, r, x)
      {
      }
      forall x | (forall k' :: k' in ks ==> names[k'] != x)
        ensures Untouched(maps, r, x)
      {
        UntouchedTwice(maps, mid, r, x);
      }
      forall k' | k' in ks
        ensures Imported(maps, r, names[k'], paths[k'], rasters)
      {
        if k' == k {
          assert forall j :: 0 <= j < |init| ==> names[init[j]] != names[k];
          UntouchedThenImported(maps, mid, r, names[k], paths[k], rasters);
        } else {
          ImportedThenUntouched(maps, mid, r, names[k'], paths[k'], rasters);
        }
      }
    }
  }

  /** `getattr(mapnames, key)` for every key that names a field. */
  function KeyNames(ks: seq<string>, maps: SoilHorizonMaps): (names: map<string, string>)
    ensures forall k :: k in names <==> k in ks && Field(maps, k).Some?
    ensures forall k :: k in names ==> names[k] == Field(maps, k).value
  {
    map k | k in ks && Field(maps, k).Some? :: Field(maps, k).value
  }

  lemma AppendAssociates<T>(a: seq<T>, b: seq<T>, c: seq<T>)
    ensures (a + b) + c == a + (b + c)
  {
  }

  /** One pass of `read`'s loop. */
  lemma ImportStep(ks: seq<string>, i: nat, paths: map<string, string>, names: map<string, string>)
    requires i < |ks| && forall k :: k in ks ==> k in paths && k in names
    ensures ks[..i + 1][..i] == ks[..i] && ks[..i + 1][i] == ks[i]
    ensures ImportLog(ks[..i + 1], paths, names) == ImportLog(ks[..i], paths, names) + [Import(paths[ks[i]], names[ks[i]])]
  {
  }

  /** One SoilGrids horizon: the files and maps of the configured variables at that depth. */
  class SoilGridsHorizon {
    const dataDirectory: string
    const scratchDirectory: string
    const variables: seq<string>
    const resolution: int
    const summaryStatistic: string
    const horizon: string
    const overwrite: bool
    var filenames: map<string, string>
    var keys: seq<string>   // the keys of `filenames`, in the order the dictionary iterates them
    var mapnames: SoilHorizonMaps
    var preprocessedFilenames: map<string, string>

    /** The map names `set_mapnames` gives: one per variable asked for, None for the others. */
    ghost predicate Named()
      reads this
    {
      && Filenames(variables, resolution, horizon, summaryStatistic) == Ok(filenames)
      && keys == Distinct(variables)
      && (forall k :: k in keys <==> k in filenames)
      && forall v :: v in Constants.SgVariables ==>
           Field(mapnames, v) == (if v in variables then Some(MapName(resolution, Constants.SgVariablesAbbr[v], horizon, summaryStatistic))
                                  else None)
    }

    /** The fields; `Create` runs the naming the base-class constructor calls. */
    constructor(dataDirectory: string, scratchDirectory: string, variables: seq<string>, resolution: int,
                summaryStatistic: string, horizon: string, overwrite: bool)
      ensures this.dataDirectory == dataDirectory && this.scratchDirectory == scratchDirectory
      ensures this.variables == variables && this.resolution == resolution
      ensures this.summaryStatistic == summaryStatistic && this.horizon == horizon && this.overwrite == overwrite
      ensures filenames == map[] && keys == [] && preprocessedFilenames == map[]
    {
      this.dataDirectory := dataDirectory;
      this.scratchDirectory := scratchDirectory;
      this.variables := variables;
      this.resolution := resolution;
      this.summaryStatistic := summaryStatistic;
      this.horizon := horizon;
      this.overwrite := overwrite;
      filenames := map[];
      keys := [];
      mapnames := HorizonMaps(map[]);
      preprocessedFilenames := map[];
    }

    /**
     * `__init__`: the fields, then `get_input_filenames` and `set_mapnames`;
     * an unknown variable raises KeyError and a resolution with no file
     * template AttributeError.
     */
    static method Create(dataDirectory: string, scratchDirectory: string, variables: seq<string>, resolution: int,
                         summaryStatistic: string, horizon: string, overwrite: bool) returns (r: Result<SoilGridsHorizon>)
      ensures var b := Filenames(variables, resolution, horizon, summaryStatistic);
        (r.Ok? <==> b.Ok?) && (r.Err? ==> r.error == b.error)
      ensures r.Ok? ==> fresh(r.value) && r.value.Named() && r.value.preprocessedFilenames == map[]
      ensures r.Ok? ==> r.value.dataDirectory == dataDirectory && r.value.scratchDirectory == scratchDirectory &&
                        r.value.variables == variables && r.value.resolution == resolution &&
                        r.value.summaryStatistic == summaryStatistic && r.value.horizon == horizon &&
                        r.value.overwrite == overwrite
    {
      var h := new SoilGridsHorizon(dataDirectory, scratchDirectory, variables, resolution, summaryStatistic, horizon, overwrite);
      var f := h.GetInputFilenames();
      if f.Err? {
        return Err(f.error);
      }
      FilenamesMeaning(variables, resolution, horizon, summaryStatistic);
      h.SetMapnames();
      return Ok(h);
    }

    /** `get_input_filenames`: the file of every variable, or the error the loop raises. */
    method GetInputFilenames() returns (r: Result<()>)
      modifies this
      ensures var b := Filenames(variables, resolution, horizon, summaryStatistic);
        (r.Ok? <==> b.Ok?) && (r.Err? ==> r.error == b.error)
      ensures r.Ok? ==> filenames == Filenames(variables, resolution, horizon, summaryStatistic).value &&
                        keys == Distinct(variables) && (forall k :: k in keys <==> k in filenames)
      ensures r.Err? ==> filenames == old(filenames) && keys == old(keys)
      ensures mapnames == old(mapnames) && preprocessedFilenames == old(preprocessedFilenames)
    {
      var named := CollectFilenames(variables, resolution, horizon, summaryStatistic);
      if named.Err? {
        return Err(named.error);
      }
      filenames, keys := named.value.0, named.value.1;
      return Ok(());
    }

    /** `set_mapnames`: the map of every variable asked for; called once the file names exist. */
    method SetMapnames()
      requires forall v :: v in variables ==> v in Constants.SgVariablesAbbr
      modifies this
      ensures forall v :: v in Constants.SgVariables ==>
        Field(mapnames, v) == (if v in variables then Some(MapName(resolution, Constants.SgVariablesAbbr[v], horizon, summaryStatistic))
                               else None)
      ensures filenames == old(filenames) && keys == old(keys) && preprocessedFilenames == old(preprocessedFilenames)
    {
      mapnames := CollectMapnames(variables, resolution, horizon, summaryStatistic);
    }

    /**
     * `preprocess`: the path of every file's reprojected copy, and the warps
     * run for those that do not exist yet (or all of them when overwriting).
     * `existing` is the set of files present when it starts.
     */
    method Preprocess(existing: set<string>) returns (warps: seq<(string, string)>)
      requires forall k :: k in keys ==> k in filenames
      requires forall i, j :: 0 <= i < j < |keys| ==> keys[i] != keys[j]
      modifies this
      ensures filenames == old(filenames) && keys == old(keys) && mapnames == old(mapnames)
      ensures forall k :: k in preprocessedFilenames <==> k in keys
      ensures forall k :: k in preprocessedFilenames ==>
        preprocessedFilenames[k] == PreprocessedPath(scratchDirectory, filenames[k])
      ensures warps == Warps(keys, filenames, preprocessedFilenames, dataDirectory, existing, overwrite)
    {
      preprocessedFilenames, warps := Reproject(keys, filenames, scratchDirectory, dataDirectory, existing, overwrite);
    }

    /**
     * `read`: `r.in.gdal input=<copy> output=<map>` for every key in turn,
     * without --overwrite and with stderr discarded, so a refused import is
     * silent. `rasters` is what GDAL reads from each reprojected file.
     */
    method Read(e: Engine, rasters: map<string, Map>)
      requires forall k :: k in keys ==> k in preprocessedFilenames && k in KeyNames(keys, mapnames)
      modifies e
      ensures e.log == old(e.log) + ImportLog(keys, preprocessedFilenames, KeyNames(keys, mapnames))
      ensures e.maps == ImportMaps(old(e.maps), keys, preprocessedFilenames, KeyNames(keys, mapnames), rasters)
      ensures e.region == old(e.region) && e.mask == old(e.mask) && e.saved == old(e.saved) && e.files == old(e.files)
    {
      var names := KeyNames(keys, mapnames);
      var i := 0;
      while i < |keys|
        invariant 0 <= i <= |keys|
        invariant e.log == old(e.log) + ImportLog(keys[..i], preprocessedFilenames, names)
        invariant e.maps == ImportMaps(old(e.maps), keys[..i], preprocessedFilenames, names, rasters)
        invariant e.region == old(e.region) && e.mask == old(e.mask) && e.saved == old(e.saved) && e.files == old(e.files)
      {
        var key := keys[i];
        var path := preprocessedFilenames[key];
        ImportStep(keys, i, preprocessedFilenames, names);
        var _ := e.ImportCmd(path, names[key], if path in rasters then Some(rasters[path]) else None, false);
        i := i + 1;
      }
      assert keys[..i] == keys;
    }

    /** `initial`: `preprocess`, then `read`. */
    method Initial(e: Engine, existing: set<string>, rasters: map<string, Map>) returns (warps: seq<(string, string)>)
      requires forall k :: k in keys ==> k in filenames && k in KeyNames(keys, mapnames)
      requires forall i, j :: 0 <= i < j < |keys| ==> keys[i] != keys[j]
      modifies this, e
      ensures filenames == old(filenames) && keys == old(keys) && mapnames == old(mapnames)
      ensures forall k :: k in preprocessedFilenames <==> k in keys
      ensures forall k :: k in preprocessedFilenames ==>
        preprocessedFilenames[k] == PreprocessedPath(scratchDirectory, filenames[k])
      ensures warps == Warps(keys, filenames, preprocessedFilenames, dataDirectory, existing, overwrite)
      ensures e.log == old(e.log) + ImportLog(keys, preprocessedFilenames, KeyNames(keys, mapnames))
      ensures e.maps == ImportMaps(old(e.maps), keys, preprocessedFilenames, KeyNames(keys, mapnames), rasters)
      ensures e.region == old(e.region) && e.mask == old(e.mask) && e.saved == old(e.saved) && e.files == old(e.files)
    {
      warps := Preprocess(existing);
      Read(e, rasters);
    }
  }

  /**
   * The loop of `get_input_filenames`: the dictionary of files and the order
   * of its keys, or the error the loop raises.
   */
  method CollectFilenames(vs: seq<string>, resolution: int, horizon: string, statistic: string)
    returns (r: Result<(map<string, string>, seq<string>)>)
    ensures var b := Filenames(vs, resolution, horizon, statistic);
      (r.Ok? <==> b.Ok?) && (r.Err? ==> r.error == b.error)
    ensures r.Ok? ==> r.value.0 == Filenames(vs, resolution, horizon, statistic).value &&
                      r.value.1 == Distinct(vs) && (forall k :: k in r.value.1 <==> k in r.value.0)
  {
    var fs: map<string, string> := map[];
    var ks: seq<string> := [];
    var i := 0;
    while i < |vs|
      invariant NamedSoFar(vs, i, fs, ks, resolution, horizon, statistic)
    {
      var v := vs[i];
      if v !in Constants.SgVariablesAbbr || Filename(resolution, Constants.SgVariablesAbbr[v], horizon, statistic).None? {
        FilenamesFailAt(vs, i, resolution, horizon, statistic);
        return Err(if v !in Constants.SgVariablesAbbr then KeyError(v) else AttributeError("format"));
      }
      var f := Filename(resolution, Constants.SgVariablesAbbr[v], horizon, statistic).value;
      NamedStep(vs, i, fs, ks, resolution, horizon, statistic);
      if v !in fs {
        ks := ks + [v];
      }
      fs := fs[v := f];
      i := i + 1;
    }
    assert vs[..i] == vs;
    return Ok((fs, ks));
  }

  /** The loop of `set_mapnames`: the namedtuple of the map names of the variables vs. */
  method CollectMapnames(vs: seq<string>, resolution: int, horizon: string, statistic: string) returns (maps: SoilHorizonMaps)
    requires forall v :: v in vs ==> v in Constants.SgVariablesAbbr
    ensures forall v :: v in Constants.SgVariables ==>
      Field(maps, v) == (if v in vs then Some(MapName(resolution, Constants.SgVariablesAbbr[v], horizon, statistic))
                         else None)
  {
    var ms: map<string, string> := map[];
    var i := 0;
    while i < |vs|
      invariant 0 <= i <= |vs|
      invariant forall v :: v in ms <==> v in vs[..i]
      invariant NamedEach(ms, resolution, horizon, statistic)
    {
      var v := vs[i];
      PrefixSnoc(vs, i);
      NamedEachAdd(ms, v, resolution, horizon, statistic);
      ms := ms[v := MapName(resolution, Constants.SgVariablesAbbr[v], horizon, statistic)];
      i := i + 1;
    }
    assert vs[..i] == vs;
    maps := HorizonMaps(ms);
    NamedMaps(ms, vs, resolution, horizon, statistic);
  }

  /**
   * The loop of `preprocess` over the keys ks of the files fs: the path of
   * each reprojected copy, and the warps made.
   */
  method Reproject(ks: seq<string>, fs: map<string, string>, scratch: string, dataDirectory: string,
                   existing: set<string>, overwrite: bool) returns (pre: map<string, string>, warps: seq<(string, string)>)
    requires forall k :: k in ks ==> k in fs
    requires forall i, j :: 0 <= i < j < |ks| ==> ks[i] != ks[j]
    ensures forall k :: k in pre <==> k in ks
    ensures forall k :: k in pre ==> pre[k] == PreprocessedPath(scratch, fs[k])
    ensures warps == Warps(ks, fs, pre, dataDirectory, existing, overwrite)
  {
    pre := map[];
    warps := [];
    var i := 0;
    while i < |ks|
      invariant PreprocessedSoFar(ks, i, fs, pre, warps, scratch, dataDirectory, existing, overwrite)
    {
      var key := ks[i];
      var inputMap := Join(dataDirectory, fs[key]);
      var outputMap := PreprocessedPath(scratch, fs[key]);
      PreprocessStep(ks, i, fs, pre, warps, scratch, dataDirectory, existing, overwrite);
      pre := pre[key := outputMap];
      if outputMap !in existing || overwrite {
        warps := warps + [(inputMap, outputMap)];
      }
      i := i + 1;
    }
    assert ks[..i] == ks;
  }

  /** A variable without a file name stops the loop at it with the error it raises. */
  lemma FilenamesFailAt(vs: seq<string>, i: nat, resolution: int, horizon: string, statistic: string)
    requires i < |vs| && Filenames(vs[..i], resolution, horizon, statistic).Ok?
    requires vs[i] !in Constants.SgVariablesAbbr || Filename(resolution, Constants.SgVariablesAbbr[vs[i]], horizon, statistic).None?
    ensures Filenames(vs, resolution, horizon, statistic) ==
            Err(if vs[i] !in Constants.SgVariablesAbbr then KeyError(vs[i]) else AttributeError("format"))
  {
    PrefixSnoc(vs, i);
    FilenamesFail(vs[..i], vs[i], resolution, horizon, statistic);
    FilenamesStops(vs, i, resolution, horizon, statistic);
  }

  /** Once a loop over the variables fails at position i, the whole loop fails there. */
  lemma {:induction false} FilenamesStops(vs: seq<string>, i: nat, resolution: int, horizon: string, statistic: string)
    requires i < |vs| && Filenames(vs[..i], resolution, horizon, statistic).Ok?
    requires Filenames(vs[..i + 1], resolution, horizon, statistic).Err?
    ensures Filenames(vs, resolution, horizon, statistic) == Filenames(vs[..i + 1], resolution, horizon, statistic)
    decreases |vs|
  {
    if |vs| > i + 1 {
      var init := vs[..|vs| - 1];
      assert init[..i] == vs[..i] && init[..i + 1] == vs[..i + 1];
      FilenamesStops(init, i, resolution, horizon, statistic);
    } else {
      assert vs[..i + 1] == vs;
    }
  }

  // ---- the dictionary of horizons ----

  /** The list without one key. */
  function Without(ks: seq<string>, key: string): (r: seq<string>)
    ensures forall x :: x in r <==> x in ks && x != key
    ensures (forall i, j :: 0 <= i < j < |ks| ==> ks[i] != ks[j]) ==> forall i, j :: 0 <= i < j < |r| ==> r[i] != r[j]
  {
    if |ks| == 0 then []
    else
      var rest := Without(ks[..|ks| - 1], key);
      assert forall x :: x in ks <==> x in ks[..|ks| - 1] || x == ks[|ks| - 1];
      assert (forall i, j :: 0 <= i < j < |ks| ==> ks[i] != ks[j]) ==> ks[|ks| - 1] !in ks[..|ks| - 1];
      if ks[|ks| - 1] == key then rest else rest + [ks[|ks| - 1]]
  }

  /** `SoilGrids`: the checked configuration and, after `initial`, one horizon object per horizon. */
  class SoilGrids {
    const config: SoilGridsConfig
    const resolution: int
    const overwrite: bool
    var currentHorizon: Option<string>
    var data: Option<map<string, SoilGridsHorizon>>   // None until `initial` sets it
    var order: seq<string>                            // the keys of `data`, in the order the dictionary iterates them

    /** The keys of the dictionary appear once each in `order`, which lists nothing else. */
    ghost predicate Valid()
      reads this
    {
      && (data.None? ==> order == [])
      && (data.Some? ==> forall k :: k in data.value <==> k in order)
      && (forall i, j :: 0 <= i < j < |order| ==> order[i] != order[j])
    }

    /** What the constructor's checks guarantee about the kept configuration. */
    ghost predicate Checked()
    {
      && (forall v :: v in config.variables ==> v in Constants.SgVariables)
      && (forall h :: h in config.horizons ==> h in Constants.SgHorizons)
      && resolution in Constants.SgResolutions
    }

    constructor(config: SoilGridsConfig, resolution: int, overwrite: bool)
      ensures this.config == config && this.resolution == resolution && this.overwrite == overwrite
      ensures currentHorizon == None && data == None && order == [] && Valid()
    {
      this.config := config;
      this.resolution := resolution;
      this.overwrite := overwrite;
      currentHorizon := None;
      data := None;
      order := [];
    }

    /** `__init__` of jamr/input/soilgrids.py: the checks, then an object with no data yet. */
    static method Create(config: SoilGridsConfig, overwrite: bool) returns (r: Result<SoilGrids>)
      ensures r.Ok? <==> Validate(config).Ok?
      ensures r.Err? ==> r.error == Validate(config).error
      ensures r.Ok? ==> fresh(r.value) && r.value.config == config && r.value.resolution == Validate(config).value &&
                        r.value.overwrite == overwrite && r.value.data == None && r.value.Valid() && r.value.Checked()
    {
      var v := Validate(config);
      if v.Err? {
        return Err(v.error);
      }
      var s := new SoilGrids(config, v.value, overwrite);
      return Ok(s);
    }

    /** `__init__` of jamr/soil.py: the same, with the resolution compared as given. */
    static method CreateLegacy(config: SoilGridsConfig, overwrite: bool) returns (r: Result<SoilGrids>)
      ensures r.Ok? <==> LegacyValidate(config).Ok?
      ensures r.Err? ==> r.error == ValueError("")
      ensures r.Ok? ==> fresh(r.value) && r.value.config == config && r.value.resolution == config.resolution.i &&
                        r.value.overwrite == overwrite && r.value.data == None && r.value.Valid() && r.value.Checked()
    {
      var v := LegacyValidate(config);
      if v.Err? {
        return Err(v.error);
      }
      var s := new SoilGrids(config, v.value, overwrite);
      return Ok(s);
    }

    /** A horizon object built from this configuration for horizon h, with its files and maps named. */
    ghost predicate HorizonFor(obj: SoilGridsHorizon, h: string)
      reads obj
    {
      && obj.horizon == h && obj.variables == config.variables
      && obj.resolution == resolution && obj.summaryStatistic == config.summaryStatistic
      && obj.dataDirectory == config.dataDirectory && obj.scratchDirectory == config.scratchDirectory
      && obj.overwrite == overwrite && obj.Named()
    }

    /** The reprojected copy of each configured variable's file at horizon h. */
    ghost function PlanPaths(h: string): map<string, string>
      requires Checked()
    {
      PlanFilenamesOk(h);
      var fs := Filenames(config.variables, resolution, h, config.summaryStatistic).value;
      map k | k in config.variables :: PreprocessedPath(config.scratchDirectory, fs[k])
    }

    /** The map each configured variable is read into at horizon h. */
    ghost function PlanNames(h: string): map<string, string>
      requires Checked()
    {
      PlanAbbreviated();
      map k | k in config.variables :: MapName(resolution, Constants.SgVariablesAbbr[k], h, config.summaryStatistic)
    }

    lemma PlanFilenamesOk(h: string)
      requires Checked()
      ensures var fs := Filenames(config.variables, resolution, h, config.summaryStatistic);
        fs.Ok? && forall v :: v in config.variables ==> v in fs.value
    {
      CheckedVariablesNamed(config.variables, resolution, h, config.summaryStatistic);
      FilenamesMeaning(config.variables, resolution, h, config.summaryStatistic);
    }

    lemma PlanAbbreviated()
      requires Checked()
      ensures forall v :: v in config.variables ==> v in Constants.SgVariablesAbbr
    {
      CheckedVariablesNamed(config.variables, resolution, "", config.summaryStatistic);
    }

    /** The imports `initial` issues for the horizons hs, horizon after horizon, repeats included. */
    ghost function ReadsLog(hs: seq<string>): seq<Command>
      requires Checked()
    {
      if |hs| == 0 then []
      else
        var h := hs[|hs| - 1];
        ReadsLog(hs[..|hs| - 1]) + ImportLog(Distinct(config.variables), PlanPaths(h), PlanNames(h))
    }

    /** The catalogue after those imports. */
    ghost function ReadsMaps(maps: map<string, Map>, hs: seq<string>, rasters: map<string, Map>): map<string, Map>
      requires Checked()
    {
      if |hs| == 0 then maps
      else
        var h := hs[|hs| - 1];
        ImportMaps(ReadsMaps(maps, hs[..|hs| - 1], rasters), Distinct(config.variables), PlanPaths(h), PlanNames(h), rasters)
    }

    /** A horizon object for h whose copies are the planned ones. */
    ghost predicate Planned(obj: SoilGridsHorizon, h: string)
      requires Checked()
      reads obj
    {
      HorizonFor(obj, h) && obj.preprocessedFilenames == PlanPaths(h)
    }

    /** One more horizon adds its imports at the end. */
    lemma ReadsStep(hs: seq<string>, i: nat, maps: map<string, Map>, rasters: map<string, Map>)
      requires Checked() && i < |hs|
      ensures ReadsLog(hs[..i + 1]) == ReadsLog(hs[..i]) + ImportLog(Distinct(config.variables), PlanPaths(hs[i]), PlanNames(hs[i]))
      ensures ReadsMaps(maps, hs[..i + 1], rasters) ==
              ImportMaps(ReadsMaps(maps, hs[..i], rasters), Distinct(config.variables), PlanPaths(hs[i]), PlanNames(hs[i]), rasters)
    {
      assert hs[..i + 1][..i] == hs[..i];
    }

    /** Two configured horizons and variables share a map name only when they are the same. */
    lemma PlanNamesDistinct(h1: string, k1: string, h2: string, k2: string)
      requires Checked() && h1 in config.horizons && h2 in config.horizons
      requires k1 in config.variables && k2 in config.variables
      requires PlanNames(h1)[k1] == PlanNames(h2)[k2]
      ensures h1 == h2 && k1 == k2
    {
      CheckedVariablesNamed(config.variables, resolution, h1, config.summaryStatistic);
      MapNamesDistinct(resolution, k1, h1, k2, h2, config.summaryStatistic);
    }

    /** No configured variable at any horizon of hs is read into the map x. */
    ghost predicate Unplanned(hs: seq<string>, x: string)
      requires Checked()
    {
      forall h, k :: h in hs && k in config.variables ==> PlanNames(h)[k] != x
    }

    /** Every configured variable at every horizon of hs was imported from `before` into `after`. */
    ghost predicate ImportedAll(before: map<string, Map>, after: map<string, Map>, hs: seq<string>, rasters: map<string, Map>)
      requires Checked()
    {
      forall h, k :: h in hs && k in config.variables ==> Imported(before, after, PlanNames(h)[k], PlanPaths(h)[k], rasters)
    }

    /**
     * What `initial` leaves in the catalogue: every configured variable's
     * map at every configured horizon is kept if it existed and otherwise
     * holds what its reprojected copy reads, present exactly when that copy
     * can be read; a repeated horizon changes nothing more, and no other map
     * is touched.
     */
    lemma {:induction false} ReadsMapsMeaning(maps: map<string, Map>, hs: seq<string>, rasters: map<string, Map>)
      requires Checked() && forall h :: h in hs ==> h in config.horizons
      ensures forall x :: Unplanned(hs, x) ==> Untouched(maps, ReadsMaps(maps, hs, rasters), x)
      ensures ImportedAll(maps, ReadsMaps(maps, hs, rasters), hs, rasters)
    {
      if |hs| > 0 {
        var init, h := hs[..|hs| - 1], hs[|hs| - 1];
        ReadsMapsMeaning(maps, init, rasters);
        var mid := ReadsMaps(maps, init, rasters);
        HorizonImported(mid, h, rasters);
        assert forall x :: x in hs <==> x in init || x == h;
        ReadsUntouchedStep(maps, mid, ReadsMaps(maps, hs, rasters), init, h);
        ReadsImportedStep(maps, mid, ReadsMaps(maps, hs, rasters), init, h, rasters);
      }
    }

    /** Reading one horizon imports each of its maps and touches no other. */
    lemma HorizonImported(maps: map<string, Map>, h: string, rasters: map<string, Map>)
      requires Checked() && h in config.horizons
      ensures var r := ImportMaps(maps, Distinct(config.variables), PlanPaths(h), PlanNames(h), rasters);
        (forall x :: Unplanned([h], x) ==> Untouched(maps, r, x)) && ImportedAll(maps, r, [h], rasters)
    {
      var ks := Distinct(config.variables);
      forall i, j | 0 <= i < j < |ks|
        ensures PlanNames(h)[ks[i]] != PlanNames(h)[ks[j]]
      {
        if PlanNames(h)[ks[i]] == PlanNames(h)[ks[j]] {
          PlanNamesDistinct(h, ks[i], h, ks[j]);
        }
      }
      ImportMapsMeaning(maps, ks, PlanPaths(h), PlanNames(h), rasters);
    }

    lemma ReadsUntouchedStep(maps: map<string, Map>, mid: map<string, Map>, r: map<string, Map>, init: seq<string>, h: string)
      requires Checked()
      requires forall x :: Unplanned(init, x) ==> Untouched(maps, mid, x)
      requires forall x :: Unplanned([h], x) ==> Untouched(mid, r, x)
      ensures forall x :: Unplanned(init + [h], x) ==> Untouched(maps, r, x)
    {
      forall x | Unplanned(init + [h], x)
        ensures Untouched(maps, r, x)
      {
        assert Unplanned(init, x) && Unplanned([h], x);
        UntouchedTwice(maps, mid, r, x);
      }
    }

    lemma ReadsImportedStep(maps: map<string, Map>, mid: map<string, Map>, r: map<string, Map>, init: seq<string>, h: string,
                            rasters: map<string, Map>)
      requires Checked() && h in config.horizons && forall h' :: h' in init ==> h' in config.horizons
      requires forall x :: Unplanned(init, x) ==> Untouched(maps, mid, x)
      requires ImportedAll(maps, mid, init, rasters)
      requires forall x :: Unplanned([h], x) ==> Untouched(mid, r, x)
      requires ImportedAll(mid, r, [h], rasters)
      ensures ImportedAll(maps, r, init + [h], rasters)
    {
      forall h', k | h' in init + [h] && k in config.variables
        ensures Imported(maps, r, PlanNames(h')[k], PlanPaths(h')[k], rasters)
      {
        var n, path := PlanNames(h')[k], PlanPaths(h')[k];
        if h' == h && h in init {
          ImportedTwice(maps, mid, r, n, path, rasters);
        } else if h' == h {
          forall h2, k2 | h2 in init && k2 in config.variables
            ensures PlanNames(h2)[k2] != n
          {
            if PlanNames(h2)[k2] == n {
              PlanNamesDistinct(h2, k2, h, k);
            }
          }
          UntouchedThenImported(maps, mid, r, n, path, rasters);
        } else {
          assert h' in init;
          forall h2, k2 | h2 in [h] && k2 in config.variables
            ensures PlanNames(h2)[k2] != n
          {
            if PlanNames(h2)[k2] == n {
              PlanNamesDistinct(h2, k2, h', k);
            }
          }
          ImportedThenUntouched(maps, mid, r, n, path, rasters);
        }
      }
    }

    /**
     * One pass of `initial`'s loop: the horizon object for h, named,
     * preprocessed, and its copies read into its maps.
     */
    method MakeHorizon(h: string, existing: set<string>, e: Engine, rasters: map<string, Map>) returns (obj: SoilGridsHorizon)
      requires Checked()
      modifies e
      ensures fresh(obj) && HorizonFor(obj, h) && obj.preprocessedFilenames == PlanPaths(h)
      ensures e.log == old(e.log) + ImportLog(Distinct(config.variables), PlanPaths(h), PlanNames(h))
      ensures e.maps == ImportMaps(old(e.maps), Distinct(config.variables), PlanPaths(h), PlanNames(h), rasters)
      ensures e.region == old(e.region) && e.mask == old(e.mask) && e.saved == old(e.saved) && e.files == old(e.files)
    {
      CheckedVariablesNamed(config.variables, resolution, h, config.summaryStatistic);
      var made := SoilGridsHorizon.Create(config.dataDirectory, config.scratchDirectory, config.variables,
                                          resolution, config.summaryStatistic, h, overwrite);
      obj := made.value;
      NamesPlanned(obj, h);
      var _ := obj.Initial(e, existing, rasters);
      PathsPlanned(obj, h);
    }

    /** The maps a horizon object for h reads into are the planned ones. */
    lemma NamesPlanned(obj: SoilGridsHorizon, h: string)
      requires Checked() && HorizonFor(obj, h)
      ensures KeyNames(obj.keys, obj.mapnames) == PlanNames(h)
    {
    }

    /** The copies a preprocessed horizon object for h reads are the planned ones. */
    lemma PathsPlanned(obj: SoilGridsHorizon, h: string)
      requires Checked() && HorizonFor(obj, h)
      requires forall k :: k in obj.preprocessedFilenames <==> k in obj.keys
      requires forall k :: k in obj.preprocessedFilenames ==>
        obj.preprocessedFilenames[k] == PreprocessedPath(obj.scratchDirectory, obj.filenames[k])
      ensures obj.preprocessedFilenames == PlanPaths(h)
    {
    }

    /**
     * `initial`: one horizon object per configured horizon, named,
     * preprocessed and read, stored under its horizon; a repeated horizon
     * keeps one entry but is read again. `current_horizon` ends at the last
     * horizon.
     */
    method Initial(e: Engine, existing: set<string>, rasters: map<string, Map>)
      requires Checked()
      modifies this, e
      ensures data.Some? && order == Distinct(config.horizons) && Valid()
      ensures forall h :: h in data.value ==> Planned(data.value[h], h)
      ensures currentHorizon == (if |config.horizons| == 0 then old(currentHorizon) else Some(config.horizons[|config.horizons| - 1]))
      ensures ReadFrom(e, old(e.log), old(e.maps), old(e.region), old(e.mask), old(e.saved), old(e.files), config.horizons, rasters)
    {
      var d := MakeHorizons(e, existing, rasters);
      // the loop sets `current_horizon` before each horizon; nothing reads it in between
      if |config.horizons| > 0 {
        currentHorizon := Some(config.horizons[|config.horizons| - 1]);
      }
      data := Some(d);
      order := Distinct(config.horizons);
    }

    /**
     * The engine after reading the horizons hs from the state given: the
     * imports appended to the log, their maps in the catalogue, and nothing
     * else changed.
     */
    ghost predicate ReadFrom(e: Engine, log: seq<Command>, maps: map<string, Map>, region: Region, mask: Option<Mask>,
                             saved: map<string, Region>, files: map<string, string>, hs: seq<string>, rasters: map<string, Map>)
      requires Checked()
      reads e
    {
      && e.log == log + ReadsLog(hs) && e.maps == ReadsMaps(maps, hs, rasters)
      && e.region == region && e.mask == mask && e.saved == saved && e.files == files
    }

    /** The loop of `initial`, which builds the dictionary of horizons. */
    method MakeHorizons(e: Engine, existing: set<string>, rasters: map<string, Map>) returns (d: map<string, SoilGridsHorizon>)
      requires Checked()
      modifies e
      ensures forall k :: k in d <==> k in config.horizons
      ensures forall h :: h in d ==> Planned(d[h], h)
      ensures ReadFrom(e, old(e.log), old(e.maps), old(e.region), old(e.mask), old(e.saved), old(e.files), config.horizons, rasters)
    {
      var hs := config.horizons;
      d := map[];
      var i := 0;
      while i < |hs|
        invariant 0 <= i <= |hs|
        invariant forall k :: k in d <==> k in hs[..i]
        invariant forall h :: h in d ==> Planned(d[h], h)
        invariant ReadFrom(e, old(e.log), old(e.maps), old(e.region), old(e.mask), old(e.saved), old(e.files), hs[..i], rasters)
      {
        var h := hs[i];
        ghost var log := e.log;
        var obj := MakeHorizon(h, existing, e, rasters);
        d := d[h := obj];
        PrefixSnoc(hs, i);
        ReadsStep(hs, i, old(e.maps), rasters);
        AppendAssociates(old(e.log), ReadsLog(hs[..i]), e.log[|log|..]);
        i := i + 1;
      }
      assert hs[..i] == hs;
    }

    /** `__getitem__`. */
    method GetItem(key: string) returns (r: Result<SoilGridsHorizon>)
      ensures data.None? ==> r == Err(AttributeError("data"))
      ensures data.Some? ==> (r.Ok? <==> key in data.value)
      ensures data.Some? && key in data.value ==> r == Ok(data.value[key])
      ensures data.Some? && key !in data.value ==> r == Err(KeyError(key))
    {
      if data.None? {
        return Err(AttributeError("data"));
      }
      if key !in data.value {
        return Err(KeyError(key));
      }
      return Ok(data.value[key]);
    }

    /** `__len__`: the number of distinct horizons stored. */
    method Len() returns (r: Result<nat>)
      requires Valid()
      ensures data.None? ==> r == Err(AttributeError("data"))
      ensures data.Some? ==> r == Ok(|order|) && r.value == |data.value|
    {
      if data.None? {
        return Err(AttributeError("data"));
      }
      DistinctCount(order, data.value);
      return Ok(|order|);
    }

    /** `__setitem__`: the key now holds the value; a new key goes last, every other entry stays. */
    method SetItem(key: string, value: SoilGridsHorizon) returns (r: Result<()>)
      requires Valid()
      modifies this
      ensures Valid()
      ensures old(data).None? ==> r == Err(AttributeError("data")) && data == old(data) && order == old(order)
      ensures old(data).Some? ==> r.Ok? && data == Some(old(data).value[key := value])
      ensures old(data).Some? ==> order == (if key in old(data).value then old(order) else old(order) + [key])
      ensures currentHorizon == old(currentHorizon)
    {
      if data.None? {
        return Err(AttributeError("data"));
      }
      if key !in data.value {
        order := order + [key];
      }
      data := Some(data.value[key := value]);
      return Ok(());
    }

    /** `__delitem__`: the key is gone and every other entry stays; a missing key is a KeyError. */
    method DelItem(key: string) returns (r: Result<()>)
      requires Valid()
      modifies this
      ensures Valid()
      ensures old(data).None? ==> r == Err(AttributeError("data")) && data == old(data)
      ensures old(data).Some? && key !in old(data).value ==> r == Err(KeyError(key)) && data == old(data)
      ensures old(data).Some? && key in old(data).value ==>
        r.Ok? && data == Some(old(data).value - {key}) && order == Without(old(order), key)
      ensures r.Err? ==> order == old(order)
      ensures currentHorizon == old(currentHorizon)
    {
      if data.None? {
        return Err(AttributeError("data"));
      }
      if key !in data.value {
        return Err(KeyError(key));
      }
      data := Some(data.value - {key});
      order := Without(order, key);
      return Ok(());
    }

    /** `keys()`: the horizons in the order the dictionary holds them. */
    method Keys() returns (r: Result<seq<string>>)
      requires Valid()
      ensures data.None? ==> r == Err(AttributeError("data"))
      ensures data.Some? ==> r == Ok(order) && forall k :: k in r.value <==> k in data.value
    {
      if data.None? {
        return Err(AttributeError("data"));
      }
      return Ok(order);
    }

    /** `items()`: every horizon with its object, in dictionary order. */
    method Items() returns (r: Result<seq<(string, SoilGridsHorizon)>>)
      requires Valid()
      ensures data.None? ==> r == Err(AttributeError("data"))
      ensures data.Some? ==>
        (r.Ok? && |r.value| == |order| &&
         forall i :: 0 <= i < |order| ==> order[i] in data.value && r.value[i] == (order[i], data.value[order[i]]))
    {
      if data.None? {
        return Err(AttributeError("data"));
      }
      var d, ks := data.value, order;
      return Ok(seq(|ks|, i requires 0 <= i < |ks| && ks[i] in d => (ks[i], d[ks[i]])));
    }
  }

  /** A list of distinct keys that are exactly a map's keys is as long as the map. */
  lemma DistinctCount<V>(ks: seq<string>, m: map<string, V>)
    requires forall k :: k in m <==> k in ks
    requires forall i, j :: 0 <= i < j < |ks| ==> ks[i] != ks[j]
    ensures |m| == |ks|
    decreases |ks|
  {
    if |ks| == 0 {
      assert m.Keys == {};
    } else {
      var last := ks[|ks| - 1];
      var m' := m - {last};
      assert last !in ks[..|ks| - 1];
      DistinctCount(ks[..|ks| - 1], m');
      assert m.Keys == m'.Keys + {last};
    }
  }
}
