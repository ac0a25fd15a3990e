// The GRASS GIS engine the Python drives, reduced to the state its commands
// read and write: the current computational region, the catalogue of named
// raster maps, the mask, the saved named regions, the files the Python
// writes for it (reclass rules), and the log of commands issued.
//
// Commands run in the current region. A map read in a region other than
// its own is resampled on the fly by GRASS. For the mask, whose grid may
// be coarser than the region, that nearest-neighbour read is modelled on
// nested grids; any other such read yields a map whose cells are left
// unspecified.
module Grass {
  import opened Wrappers
  import opened Raster
  import opened ReclassRules

  /** A computational region: bounds and cell sizes in map units (degrees). */
  datatype Region = Region(n: real, s: real, e: real, w: real, ewres: real, nsres: real)

  /** A named raster map: the region it was written in and its cells in row order. */
  datatype Map = Map(region: Region, cells: seq<Cell>)

  /** `r.mask raster=<raster> maskcats=<category>`: only cells of that category are computed. */
  datatype Mask = Mask(raster: string, category: int)

  /** One engine command, as the Python issues it. */
  datatype Command =
    | RegionFromRaster(raster: string)                     // g.region raster=
    | RegionFromRasterRes(raster: string, res: real)       // g.region raster= res=
    | RegionNamed(name: string)                            // g.region region=
    | RegionSet(region: Region, align: Option<string>)     // g.region n= s= e= w= ewres= nsres= [align=]
    | RegionSave(region: Region, name: string)             // g.region n= s= e= w= res= save=
    | Calc(output: string, inputs: seq<string>)            // r.mapcalc
    | Reclass(input: string, output: string, rules: string) // r.reclass
    | ResampStats(input: string, output: string, how: Aggregate, weighted: bool) // r.resamp.stats
    | MaskOn(raster: string, category: int)                // r.mask raster= maskcats=
    | MaskOff                                              // r.mask -r
    | RemoveMatching(pattern: string)                      // g.remove -f pattern=
    | Import(input: string, output: string)                // r.in.gdal -a input= output=
    | Remove(name: string)                                 // g.remove -f name=
    | Export(input: string, output: string)                // r.out.gdal input= output=

  /** What a map-producing command yields: nothing (it failed), a known map, or a map with unspecified cells. */
  datatype Outcome = Fail | Exact(result: Map) | Unspecified

  // ---- the overwrite rule ----

  /**
   * GRASS refuses to replace an existing map unless --overwrite is given;
   * the refusal is an error that the Python ignores.
   */
  function Store(maps: map<string, Map>, name: string, m: Map, overwrite: bool): (r: map<string, Map>)
    ensures name in r
    ensures name in maps && !overwrite ==> r == maps
    ensures !(name in maps && !overwrite) ==> r == maps[name := m]
    ensures forall k :: k != name ==> (k in r <==> k in maps) && (k in r ==> r[k] == maps[k])
  {
    if name in maps && !overwrite then maps else maps[name := m]
  }

  /** The region r with cells of size res in both directions and the same bounds. */
  function WithRes(r: Region, res: real): (w: Region)
    ensures w.n == r.n && w.s == r.s && w.e == r.e && w.w == r.w
    ensures w.ewres == res && w.nsres == res
  {
    r.(ewres := res, nsres := res)
  }

  // ---- block factor between a fine region and a coarse one ----

  /** The integer nearest to x (halves round up). */
  function Nearest(x: real): int {
    (x + 0.5).Floor
  }

  /**
   * How many fine cells of size `fine` make one coarse cell of size `coarse`,
   * when that ratio is within one part in a million of a positive integer.
   */
  function Ratio(fine: real, coarse: real): Option<nat>
  {
    if fine <= 0.0 || coarse <= 0.0 then None
    else
      var q := coarse / fine;
      var k := Nearest(q);
      if k >= 1 && (q - k as real) * 1000000.0 <= k as real && (k as real - q) * 1000000.0 <= k as real
      then Some(k) else None
  }

  /** Fine cells per coarse cell, when both regions have the same bounds and nested grids. */
  function BlockFactor(fine: Region, coarse: Region): Option<nat>
  {
    if fine.n != coarse.n || fine.s != coarse.s || fine.e != coarse.e || fine.w != coarse.w then None
    else
      match (Ratio(fine.ewres, coarse.ewres), Ratio(fine.nsres, coarse.nsres))
      case (Some(kx), Some(ky)) => Some(kx * ky)
      case _ => None
  }

  /** The number of cells of a region: rows times columns. */
  function CellCount(r: Region): nat
  {
    if r.nsres <= 0.0 || r.ewres <= 0.0 then 0
    else
      var rows := Nearest((r.n - r.s) / r.nsres);
      var cols := Nearest((r.e - r.w) / r.ewres);
      if rows <= 0 || cols <= 0 then 0 else rows * cols
  }

  // ---- r.resamp.stats ----

  /** `r.resamp.stats` of `src` into the region `dst`. */
  function ResampleOutcome(src: Map, dst: Region, how: Aggregate): (o: Outcome)
    ensures o != Fail
    ensures o.Exact? ==> o.result.region == dst
  {
    match BlockFactor(src.region, dst)
    case Some(k) =>
      if k >= 1 && |src.cells| % k == 0 then
        Exact(Map(dst, Blocks(how, src.cells, k, |src.cells| / k)))
      else Unspecified
    case None => Unspecified
  }

  // ---- r.mapcalc ----

  /**
   * How many cells of region r share one cell of the mask map m: GRASS
   * reads the mask in the current region by nearest neighbour, so a mask
   * on r's own grid is read cell for cell, and one on a coarser grid with
   * the same bounds and k cells of r per mask cell gives cell i of r the
   * value of mask cell i / k. 0 when the grids do not nest.
   */
  function MaskFactor(m: Map, r: Region): nat
  {
    if m.region == r then 1
    else match BlockFactor(r, m.region)
      case Some(k) => k
      case None => 0
  }

  /** The mask can be read over the n cells of region r: its map exists and its grid nests in r's. */
  predicate MaskReadable(maps: map<string, Map>, mask: Option<Mask>, r: Region, n: nat)
  {
    match mask
    case None => true
    case Some(mk) =>
      mk.raster in maps && MaskFactor(maps[mk.raster], r) >= 1 &&
      |maps[mk.raster].cells| * MaskFactor(maps[mk.raster], r) == n
  }

  /** Whether the mask, read in region r, lets cell i be computed. */
  predicate MaskAllows(maps: map<string, Map>, mask: Option<Mask>, r: Region, i: nat)
  {
    match mask
    case None => true
    case Some(mk) =>
      mk.raster in maps && MaskFactor(maps[mk.raster], r) >= 1 &&
      i / MaskFactor(maps[mk.raster], r) < |maps[mk.raster].cells| &&
      maps[mk.raster].cells[i / MaskFactor(maps[mk.raster], r)] == Val(mk.category as real)
  }

  /** Every input exists, lies in region `r`, and has n cells. */
  predicate Aligned(maps: map<string, Map>, inputs: seq<string>, r: Region, n: nat)
  {
    forall j :: 0 <= j < |inputs| ==>
      inputs[j] in maps && maps[inputs[j]].region == r && |maps[inputs[j]].cells| == n
  }

  /** The cells of the inputs at position i, in input order. */
  function CellsAt(maps: map<string, Map>, inputs: seq<string>, i: nat): (cs: seq<Cell>)
    requires forall j :: 0 <= j < |inputs| ==> inputs[j] in maps && i < |maps[inputs[j]].cells|
    ensures |cs| == |inputs|
    ensures forall j :: 0 <= j < |inputs| ==> cs[j] == maps[inputs[j]].cells[i]
  {
    seq(|inputs|, j requires 0 <= j < |inputs| => maps[inputs[j]].cells[i])
  }

  /** The width the output of an expression over `inputs` takes in region r. */
  function CalcWidth(maps: map<string, Map>, inputs: seq<string>, r: Region): nat
  {
    if |inputs| == 0 then CellCount(r)
    else if inputs[0] in maps then |maps[inputs[0]].cells| else 0
  }

  /**
   * `r.mapcalc out = f(inputs)` in region r under the mask: cell i of the
   * result is f applied to the inputs' cells i, or null where the mask,
   * read in region r, excludes the cell. Inputs or a mask whose grid does
   * not match r would be resampled by GRASS; their result is unspecified.
   */
  function CalcOutcome(maps: map<string, Map>, mask: Option<Mask>, r: Region,
                       inputs: seq<string>, f: seq<Cell> -> Cell): (o: Outcome)
    ensures o.Fail? <==> exists j :: 0 <= j < |inputs| && inputs[j] !in maps
    ensures o.Exact? <==> !o.Fail? && Aligned(maps, inputs, r, CalcWidth(maps, inputs, r)) &&
                          MaskReadable(maps, mask, r, CalcWidth(maps, inputs, r))
    ensures o.Exact? ==> o.result.region == r && Aligned(maps, inputs, r, |o.result.cells|)
    ensures o.Exact? ==> forall i :: 0 <= i < |o.result.cells| ==>
      o.result.cells[i] == (if MaskAllows(maps, mask, r, i) then f(CellsAt(maps, inputs, i)) else Null)
  {
    if exists j :: 0 <= j < |inputs| && inputs[j] !in maps then Fail
    else
      var n := CalcWidth(maps, inputs, r);
      if Aligned(maps, inputs, r, n) && MaskReadable(maps, mask, r, n) then
        Exact(Map(r, seq(n, i requires 0 <= i < n =>
          if MaskAllows(maps, mask, r, i) then f(CellsAt(maps, inputs, i)) else Null)))
      else Unspecified
  }

  /** Two catalogues agree on the name k: both lack it or both hold the same map. */
  predicate Agree(a: map<string, Map>, b: map<string, Map>, k: string)
  {
    (k in a <==> k in b) && (k in a ==> a[k] == b[k])
  }

  /** `r.mapcalc` reads only its inputs and the mask raster: catalogues that agree on those give the same outcome. */
  lemma CalcOutcomeFrame(a: map<string, Map>, b: map<string, Map>, mask: Option<Mask>, r: Region,
                         inputs: seq<string>, f: seq<Cell> -> Cell)
    requires forall j :: 0 <= j < |inputs| ==> Agree(a, b, inputs[j])
    requires mask.Some? ==> Agree(a, b, mask.value.raster)
    ensures CalcOutcome(a, mask, r, inputs, f) == CalcOutcome(b, mask, r, inputs, f)
  {
    var oa, ob := CalcOutcome(a, mask, r, inputs, f), CalcOutcome(b, mask, r, inputs, f);
    if oa.Fail? || ob.Fail? {
      return;
    }
    var n := CalcWidth(a, inputs, r);
    assert n == CalcWidth(b, inputs, r);
    assert Aligned(a, inputs, r, n) == Aligned(b, inputs, r, n);
    assert MaskReadable(a, mask, r, n) == MaskReadable(b, mask, r, n);
    if oa.Exact? {
      assert ob.Exact? && |ob.result.cells| == n;
      forall i | 0 <= i < n
        ensures oa.result.cells[i] == ob.result.cells[i]
      {
        assert MaskAllows(a, mask, r, i) == MaskAllows(b, mask, r, i);
        assert CellsAt(a, inputs, i) == CellsAt(b, inputs, i);
      }
    }
  }

  /**
   * A mask on a coarser grid with the same bounds, k cells of region r to
   * each of its cells: over inputs aligned in r the result is determined,
   * and cell i is computed exactly when the mask cell covering it, i / k,
   * holds the category.
   */
  lemma CoarseMaskCells(maps: map<string, Map>, mk: Mask, r: Region, inputs: seq<string>, f: seq<Cell> -> Cell, k: nat)
    requires |inputs| > 0 && inputs[0] in maps && Aligned(maps, inputs, r, |maps[inputs[0]].cells|)
    requires mk.raster in maps && maps[mk.raster].region != r
    requires BlockFactor(r, maps[mk.raster].region) == Some(k) && k >= 1
    requires |maps[mk.raster].cells| * k == |maps[inputs[0]].cells|
    ensures var o := CalcOutcome(maps, Some(mk), r, inputs, f);
      o.Exact? && |o.result.cells| == |maps[inputs[0]].cells| &&
      forall i :: 0 <= i < |o.result.cells| ==>
        i / k < |maps[mk.raster].cells| &&
        o.result.cells[i] == if maps[mk.raster].cells[i / k] == Val(mk.category as real)
                             then f(CellsAt(maps, inputs, i)) else Null
  {
    var o := CalcOutcome(maps, Some(mk), r, inputs, f);
    var c := |maps[mk.raster].cells|;
    assert MaskFactor(maps[mk.raster], r) == k;
    forall i | 0 <= i < |o.result.cells|
      ensures i / k < c
    {
      DivBelow(i, k, c);
    }
  }

  /** i < c * k gives i / k < c. */
  lemma DivBelow(i: nat, k: nat, c: nat)
    requires k >= 1 && i < c * k
    ensures i / k < c
  {
    var q := i / k;
    assert q * k <= i;
    MulCancel(q, c, k);
  }

  /** q * k < c * k gives q < c. */
  lemma {:induction false} MulCancel(q: nat, c: nat, k: nat)
    requires q * k < c * k
    ensures q < c
    decreases c
  {
    if q > 0 && c > 0 {
      assert (q - 1) * k == q * k - k && (c - 1) * k == c * k - k;
      MulCancel(q - 1, c - 1, k);
    }
  }

  /** The catalogue after `r.mapcalc`, when its result is determined: a failed command changes nothing. */
  function CalcMaps(maps: map<string, Map>, mask: Option<Mask>, r: Region, output: string, inputs: seq<string>,
                    f: seq<Cell> -> Cell, overwrite: bool): Option<map<string, Map>>
  {
    match CalcOutcome(maps, mask, r, inputs, f)
    case Fail => Some(maps)
    case Exact(m) => Some(Store(maps, output, m, overwrite))
    case Unspecified => None
  }

  /**
   * Whether `r.mapcalc` exits with an error, given the names of the maps
   * that exist: an input is missing, or the output exists and may not be
   * overwritten.
   */
  predicate CalcFails(keys: set<string>, output: string, inputs: seq<string>, overwrite: bool)
  {
    (exists j :: 0 <= j < |inputs| && inputs[j] !in keys) || (output in keys && !overwrite)
  }

  /** The catalogue after `r.resamp.stats` into region r, when its result is determined. */
  function ResampMaps(maps: map<string, Map>, r: Region, input: string, output: string, how: Aggregate,
                      overwrite: bool): Option<map<string, Map>>
  {
    if input !in maps then Some(maps)
    else
      match ResampleOutcome(maps[input], r, how)
      case Exact(m) => Some(Store(maps, output, m, overwrite))
      case _ => None
  }

  /**
   * A one-input `r.mapcalc` with no mask, whose output is new or may be
   * overwritten: the output lies in the region of its input and applies f
   * to each input cell in turn; no other map changes.
   */
  lemma CalcOneCells(maps: map<string, Map>, r: Region, output: string, input: string,
                     f: seq<Cell> -> Cell, overwrite: bool, m: map<string, Map>)
    requires input in maps && (overwrite || output !in maps)
    requires CalcMaps(maps, None, r, output, [input], f, overwrite) == Some(m)
    ensures output in m && m[output].region == r && maps[input].region == r
    ensures |m[output].cells| == |maps[input].cells|
    ensures forall i :: 0 <= i < |maps[input].cells| ==> m[output].cells[i] == f([maps[input].cells[i]])
    ensures forall k :: k != output ==> (k in m <==> k in maps) && (k in m ==> m[k] == maps[k])
  {
    var c := CalcOutcome(maps, None, r, [input], f);
    assert c.Exact?;
    forall i | 0 <= i < |maps[input].cells|
      ensures c.result.cells[i] == f([maps[input].cells[i]])
    {
      assert CellsAt(maps, [input], i) == [maps[input].cells[i]];
    }
  }

  /** The same for a two-input `r.mapcalc`: both inputs are aligned and f sees their cells i in order. */
  lemma CalcTwoCells(maps: map<string, Map>, r: Region, output: string, a: string, b: string,
                     f: seq<Cell> -> Cell, overwrite: bool, m: map<string, Map>)
    requires a in maps && b in maps && (overwrite || output !in maps)
    requires CalcMaps(maps, None, r, output, [a, b], f, overwrite) == Some(m)
    ensures output in m && m[output].region == r && maps[a].region == r && maps[b].region == r
    ensures |m[output].cells| == |maps[a].cells| == |maps[b].cells|
    ensures forall i :: 0 <= i < |maps[a].cells| ==> m[output].cells[i] == f([maps[a].cells[i], maps[b].cells[i]])
    ensures forall k :: k != output ==> (k in m <==> k in maps) && (k in m ==> m[k] == maps[k])
  {
    var c := CalcOutcome(maps, None, r, [a, b], f);
    assert c.Exact?;
    assert Aligned(maps, [a, b], r, |c.result.cells|);
    assert [a, b][1] == b;
    forall i | 0 <= i < |maps[a].cells|
      ensures c.result.cells[i] == f([maps[a].cells[i], maps[b].cells[i]])
    {
      assert CellsAt(maps, [a, b], i) == [maps[a].cells[i], maps[b].cells[i]];
    }
  }

  /**
   * An `r.resamp.stats` whose result is determined, into a new or
   * overwritable output: the grids
   * nest with k fine cells per coarse cell, and coarse cell i aggregates
   * its own block of k input cells; no other map changes.
   */
  lemma ResampCells(maps: map<string, Map>, r: Region, input: string, output: string, how: Aggregate,
                    overwrite: bool, m: map<string, Map>)
    requires input in maps && (overwrite || output !in maps)
    requires ResampMaps(maps, r, input, output, how, overwrite) == Some(m)
    ensures BlockFactor(maps[input].region, r).Some?
    ensures var k := BlockFactor(maps[input].region, r).value;
      output in m && m[output].region == r && |maps[input].cells| == |m[output].cells| * k &&
      forall i :: 0 <= i < |m[output].cells| ==>
        i * k + k <= |maps[input].cells| &&
        m[output].cells[i] == Aggregated(how, Block(maps[input].cells, k, i))
    ensures forall k :: k != output ==> (k in m <==> k in maps) && (k in m ==> m[k] == maps[k])
  {
    var src := maps[input];
    var k := BlockFactor(src.region, r).value;
    var n := |src.cells| / k;
    assert |src.cells| == n * k;
    forall i | 0 <= i < n
      ensures i * k + k <= |src.cells| && m[output].cells[i] == Aggregated(how, Block(src.cells, k, i))
    {
      BlocksAt(how, src.cells, k, n, i);
    }
  }

  // ---- g.remove pattern matching ----

  /** Shell-style pattern matching with `*` as the only wildcard. */
  function Glob(pattern: string, name: string): bool
    decreases |pattern| + |name|
  {
    if |pattern| == 0 then |name| == 0
    else if pattern[0] == '*' then
      Glob(pattern[1..], name) || (|name| > 0 && Glob(pattern, name[1..]))
    else |name| > 0 && name[0] == pattern[0] && Glob(pattern[1..], name[1..])
  }

  /** The pattern `*s` (s without wildcards) matches exactly the names ending in s. */
  lemma {:induction false} GlobSuffix(s: string, name: string)
    requires '*' !in s
    ensures Glob("*" + s, name) <==> (|name| >= |s| && name[|name| - |s|..] == s)
    decreases |name|
  {
    var p := "*" + s;
    assert p[1..] == s;
    GlobLiteral(s, name);
    if |name| > 0 {
      GlobSuffix(s, name[1..]);
      if |name| > |s| {
        assert name[1..][|name[1..]| - |s|..] == name[|name| - |s|..];
      }
    }
  }

  /** A pattern without wildcards matches only itself. */
  lemma {:induction false} GlobLiteral(s: string, name: string)
    requires '*' !in s
    ensures Glob(s, name) <==> name == s
  {
    if |s| > 0 && |name| > 0 {
      assert s[0] in s;
      assert forall c :: c in s[1..] ==> c in s;
      GlobLiteral(s[1..], name[1..]);
      if name[0] == s[0] && name[1..] == s[1..] {
        assert name == [name[0]] + name[1..];
        assert s == [s[0]] + s[1..];
      }
    } else if |s| > 0 {
      assert s[0] in s;
    }
  }

  /**
   * The engine. Every method is one GRASS command: it appends itself to
   * `log` and changes the state as the command would. The Python never
   * inspects a command's exit status, so no method reports one.
   */
  class Engine {
    var region: Region
    var maps: map<string, Map>
    var mask: Option<Mask>
    var saved: map<string, Region>
    var files: map<string, string>
    var log: seq<Command>

    constructor(region: Region, maps: map<string, Map>, saved: map<string, Region>)
      ensures this.region == region && this.maps == maps && this.saved == saved
      ensures mask == None && files == map[] && log == []
    {
      this.region := region;
      this.maps := maps;
      this.mask := None;
      this.saved := saved;
      this.files := map[];
      this.log := [];
    }

    /** `g.region raster=<raster>`: adopt the raster's region; an unknown raster is an error. */
    method RegionFromRasterCmd(raster: string)
      modifies this
      ensures region == (if raster in old(maps) then old(maps)[raster].region else old(region))
      ensures maps == old(maps) && mask == old(mask) && saved == old(saved) && files == old(files)
      ensures log == old(log) + [RegionFromRaster(raster)]
    {
      if raster in maps {
        region := maps[raster].region;
      }
      log := log + [RegionFromRaster(raster)];
    }

    /**
     * `g.region raster=<raster> res=<res>`: adopt the raster's bounds with
     * cells of size res in both directions; an unknown raster is an error.
     */
    method RegionFromRasterResCmd(raster: string, res: real)
      modifies this
      ensures region == (if raster in old(maps) then WithRes(old(maps)[raster].region, res) else old(region))
      ensures maps == old(maps) && mask == old(mask) && saved == old(saved) && files == old(files)
      ensures log == old(log) + [RegionFromRasterRes(raster, res)]
    {
      if raster in maps {
        region := WithRes(maps[raster].region, res);
      }
      log := log + [RegionFromRasterRes(raster, res)];
    }

    /** `g.region region=<name>`: adopt a saved region; an unknown name is an error. */
    method RegionNamedCmd(name: string)
      modifies this
      ensures region == (if name in old(saved) then old(saved)[name] else old(region))
      ensures maps == old(maps) && mask == old(mask) && saved == old(saved) && files == old(files)
      ensures log == old(log) + [RegionNamed(name)]
    {
      if name in saved {
        region := saved[name];
      }
      log := log + [RegionNamed(name)];
    }

    /** `g.region n= s= e= w= res= save=<name>`: the region becomes r and is saved under the name. */
    method RegionSaveCmd(r: Region, name: string)
      modifies this
      ensures region == r && saved == old(saved)[name := r]
      ensures maps == old(maps) && mask == old(mask) && files == old(files)
      ensures log == old(log) + [RegionSave(r, name)]
    {
      region := r;
      saved := saved[name := r];
      log := log + [RegionSave(r, name)];
    }

    /**
     * `g.region n= s= e= w= ewres= nsres= [align=]`: the region becomes r,
     * unless the `align=` raster does not exist, which is an error that
     * leaves the region as it was.
     */
    method RegionSetCmd(r: Region, align: Option<string>)
      modifies this
      ensures region == (if align.Some? && align.value !in old(maps) then old(region) else r)
      ensures maps == old(maps) && mask == old(mask) && saved == old(saved) && files == old(files)
      ensures log == old(log) + [RegionSet(r, align)]
    {
      if align.None? || align.value in maps {
        region := r;
      }
      log := log + [RegionSet(r, align)];
    }

    /** `r.mapcalc output = f(inputs)` in the current region. */
    method CalcCmd(output: string, inputs: seq<string>, f: seq<Cell> -> Cell, overwrite: bool)
      modifies this
      ensures region == old(region) && mask == old(mask) && saved == old(saved) && files == old(files)
      ensures log == old(log) + [Calc(output, inputs)]
      ensures match CalcOutcome(old(maps), old(mask), old(region), inputs, f)
        case Fail => maps == old(maps)
        case Exact(m) => maps == Store(old(maps), output, m, overwrite)
        case Unspecified => exists m: Map :: m.region == old(region) && maps == Store(old(maps), output, m, overwrite)
      ensures var c := CalcMaps(old(maps), old(mask), old(region), output, inputs, f, overwrite);
        c.Some? ==> maps == c.value
    {
      var o := CalcOutcome(maps, mask, region, inputs, f);
      if o.Exact? {
        maps := Store(maps, output, o.result, overwrite);
      } else if o.Unspecified? {
        maps := Store(maps, output, Map(region, []), overwrite);
      }
      log := log + [Calc(output, inputs)];
    }

    /**
     * `r.mapcalc` called through pygrass, which raises CalledModuleError
     * when the module exits with an error; `failed` says whether it raised.
     * A failed call changes no map; a successful one adds or replaces the
     * output and nothing else.
     */
    method CalcRaising(output: string, inputs: seq<string>, f: seq<Cell> -> Cell, overwrite: bool) returns (failed: bool)
      modifies this
      ensures failed == CalcFails(old(maps).Keys, output, inputs, overwrite)
      ensures failed ==> maps == old(maps)
      ensures maps.Keys == (if failed then old(maps).Keys else old(maps).Keys + {output})
      ensures forall k :: k != output && k in maps ==> maps[k] == old(maps)[k]
      ensures !failed ==> maps[output].region == old(region)
      ensures region == old(region) && mask == old(mask) && saved == old(saved) && files == old(files)
      ensures log == old(log) + [Calc(output, inputs)]
      ensures var c := CalcMaps(old(maps), old(mask), old(region), output, inputs, f, overwrite);
        c.Some? ==> maps == c.value
    {
      failed := CalcFails(maps.Keys, output, inputs, overwrite);
      CalcCmd(output, inputs, f, overwrite);
    }

    /** `r.resamp.stats [-w] input= output= method=` into the current region. */
    method ResampStatsCmd(input: string, output: string, how: Aggregate, weighted: bool, overwrite: bool)
      modifies this
      ensures region == old(region) && mask == old(mask) && saved == old(saved) && files == old(files)
      ensures log == old(log) + [ResampStats(input, output, how, weighted)]
      ensures input !in old(maps) ==> maps == old(maps)
      ensures input in old(maps) ==>
        match ResampleOutcome(old(maps)[input], old(region), how)
        case Exact(m) => maps == Store(old(maps), output, m, overwrite)
        case _ => exists m: Map :: m.region == old(region) && maps == Store(old(maps), output, m, overwrite)
      ensures var c := ResampMaps(old(maps), old(region), input, output, how, overwrite);
        c.Some? ==> maps == c.value
    {
      if input in maps {
        var o := ResampleOutcome(maps[input], region, how);
        if o.Exact? {
          maps := Store(maps, output, o.result, overwrite);
        } else {
          maps := Store(maps, output, Map(region, []), overwrite);
        }
      }
      log := log + [ResampStats(input, output, how, weighted)];
    }

    /**
     * `r.reclass input= output= rules=<path>`: the rules are read from the
     * file; the output keeps the input's region and relabels its categories.
     * A missing input, a missing file or a malformed rule is an error.
     */
    method ReclassCmd(input: string, output: string, path: string, overwrite: bool)
      modifies this
      ensures region == old(region) && mask == old(mask) && saved == old(saved) && files == old(files)
      ensures log == old(log) + [Reclass(input, output, path)]
      ensures maps == (if input in old(maps) && path in old(files) && ParseRules(old(files)[path]).Some?
        then Store(old(maps), output,
                   Map(old(maps)[input].region, Relabel(ParseRules(old(files)[path]).value, old(maps)[input].cells)),
                   overwrite)
        else old(maps))
    {
      if input in maps && path in files && ParseRules(files[path]).Some? {
        var rules := ParseRules(files[path]).value;
        maps := Store(maps, output, Map(maps[input].region, Relabel(rules, maps[input].cells)), overwrite);
      }
      log := log + [Reclass(input, output, path)];
    }

    /** Writing a text file the engine will read. */
    method WriteFile(path: string, text: string)
      modifies this
      ensures files == old(files)[path := text]
      ensures region == old(region) && maps == old(maps) && mask == old(mask) && saved == old(saved)
      ensures log == old(log)
    {
      files := files[path := text];
    }

    /** `r.mask raster= maskcats=`: an existing mask, or an unknown raster, is an error. */
    method MaskOnCmd(raster: string, category: int)
      modifies this
      ensures mask == (if old(mask).None? && raster in old(maps) then Some(Mask(raster, category)) else old(mask))
      ensures region == old(region) && maps == old(maps) && saved == old(saved) && files == old(files)
      ensures log == old(log) + [MaskOn(raster, category)]
    {
      if mask.None? && raster in maps {
        mask := Some(Mask(raster, category));
      }
      log := log + [MaskOn(raster, category)];
    }

    /** `r.mask -r`: there is no mask afterwards. */
    method MaskOffCmd()
      modifies this
      ensures mask == None
      ensures region == old(region) && maps == old(maps) && saved == old(saved) && files == old(files)
      ensures log == old(log) + [MaskOff]
    {
      mask := None;
      log := log + [MaskOff];
    }

    /**
     * `r.in.gdal -a input=<file> output=<name>`: `raster` is what GDAL reads
     * from the file, None when it cannot read it. pygrass raises
     * CalledModuleError when the module fails, and `failed` says whether
     * it did; a failed import changes no map.
     */
    method ImportCmd(input: string, output: string, raster: Option<Map>, overwrite: bool) returns (failed: bool)
      modifies this
      ensures failed == (raster.None? || (output in old(maps) && !overwrite))
      ensures maps == (if raster.Some? then Store(old(maps), output, raster.value, overwrite) else old(maps))
      ensures region == old(region) && mask == old(mask) && saved == old(saved) && files == old(files)
      ensures log == old(log) + [Import(input, output)]
    {
      failed := raster.None? || (output in maps && !overwrite);
      if raster.Some? {
        maps := Store(maps, output, raster.value, overwrite);
      }
      log := log + [Import(input, output)];
    }

    /**
     * `r.out.gdal input=<map> output=<file>`: writes the map to a GeoTIFF
     * outside the session; nothing in the session changes.
     */
    method ExportCmd(input: string, output: string)
      modifies this
      ensures region == old(region) && maps == old(maps) && mask == old(mask) && saved == old(saved) && files == old(files)
      ensures log == old(log) + [Export(input, output)]
    {
      log := log + [Export(input, output)];
    }

    /** `g.remove -f type=raster pattern=<pattern>`: every map matching the pattern goes. */
    method RemoveCmd(pattern: string)
      modifies this
      ensures maps == map k | k in old(maps) && !Glob(pattern, k) :: old(maps)[k]
      ensures region == old(region) && mask == old(mask) && saved == old(saved) && files == old(files)
      ensures log == old(log) + [RemoveMatching(pattern)]
    {
      maps := map k | k in maps && !Glob(pattern, k) :: maps[k];
      log := log + [RemoveMatching(pattern)];
    }

    /** `g.remove -f type=raster name=<name>`: the named map goes, if it exists. */
    method RemoveNamedCmd(name: string)
      modifies this
      ensures maps == old(maps) - {name}
      ensures region == old(region) && mask == old(mask) && saved == old(saved) && files == old(files)
      ensures log == old(log) + [Remove(name)]
    {
      maps := maps - {name};
      log := log + [Remove(name)];
    }
  }
}
