// The thin Python wrappers around GRASS commands: mask removal, temporary
// map removal, region setting (directly, from a raster, from a saved name),
// region queries and the map-existence test. Every wrapper returns 0
// whatever the engine did.
module GrassUtils {
  import opened Wrappers
  import opened Raster
  import opened Grass

  /** `grass_remove_mask`: `r.mask -r`. */
  method RemoveMask(e: Engine) returns (r: int)
    modifies e
    ensures r == 0
    ensures e.mask == None
    ensures e.region == old(e.region) && e.maps == old(e.maps) && e.saved == old(e.saved) && e.files == old(e.files)
    ensures e.log == old(e.log) + [MaskOff]
  {
    e.MaskOffCmd();
    return 0;
  }

  const TmpPattern: string := "*_tmp"

  predicate EndsWith(s: string, suffix: string) {
    |s| >= |suffix| && s[|s| - |suffix|..] == suffix
  }

  /** `grass_remove_tmp`: every map whose name ends in `_tmp` is removed, and only those. */
  method RemoveTmp(e: Engine) returns (r: int)
    modifies e
    ensures r == 0
    ensures e.maps == map k | k in old(e.maps) && !EndsWith(k, "_tmp") :: old(e.maps)[k]
    ensures e.region == old(e.region) && e.mask == old(e.mask) && e.saved == old(e.saved) && e.files == old(e.files)
    ensures e.log == old(e.log) + [RemoveMatching(TmpPattern)]
  {
    e.RemoveCmd(TmpPattern);
    forall k | k in old(e.maps) ensures Glob(TmpPattern, k) <==> EndsWith(k, "_tmp") {
      assert TmpPattern == "*" + "_tmp";
      GlobSuffix("_tmp", k);
    }
    return 0;
  }

  /** `grass_set_named_region`: `g.region region=<rgn>`. */
  method SetNamedRegion(e: Engine, rgn: string) returns (r: int)
    modifies e
    ensures r == 0
    ensures e.region == (if rgn in old(e.saved) then old(e.saved)[rgn] else old(e.region))
    ensures e.maps == old(e.maps) && e.mask == old(e.mask) && e.saved == old(e.saved) && e.files == old(e.files)
    ensures e.log == old(e.log) + [RegionNamed(rgn)]
  {
    e.RegionNamedCmd(rgn);
    return 0;
  }

  /** `grass_set_region(**kwargs)` with all six bounds and resolutions given. */
  method SetRegion(e: Engine, rgn: Region, align: Option<string>) returns (r: int)
    modifies e
    ensures r == 0
    ensures e.region == (if align.Some? && align.value !in old(e.maps) then old(e.region) else rgn)
    ensures e.maps == old(e.maps) && e.mask == old(e.mask) && e.saved == old(e.saved) && e.files == old(e.files)
    ensures e.log == old(e.log) + [RegionSet(rgn, align)]
  {
    e.RegionSetCmd(rgn, align);
    return 0;
  }

  /** Python truthiness of an optional number: present and non-zero. */
  predicate Truthy(o: Option<real>) {
    o.Some? && o.value != 0.0
  }

  /** `x if x else fallback`. */
  function Pick(o: Option<real>, fallback: real): (v: real)
    ensures Truthy(o) ==> v == o.value
    ensures !Truthy(o) ==> v == fallback
  {
    if Truthy(o) then o.value else fallback
  }

  /**
   * The region `grass_set_region_from_raster` asks for in its second
   * `g.region`: each bound is the argument when truthy and the bound of the
   * region the first `g.region` left otherwise, at that region's cell sizes.
   * An unknown raster makes the first `g.region` fail, so that base is the
   * current region.
   */
  function RasterRequest(current: Region, maps: map<string, Map>, raster: string,
                         n: Option<real>, s: Option<real>, e: Option<real>, w: Option<real>): Region
  {
    var base := if raster in maps then maps[raster].region else current;
    Region(Pick(n, base.n), Pick(s, base.s), Pick(e, base.e), Pick(w, base.w), base.ewres, base.nsres)
  }

  /**
   * The region `grass_set_region_from_raster` leaves: the requested one for
   * an existing raster, at the raster's cell sizes. For an unknown raster
   * both `g.region` calls fail, the second because its `align=` raster is
   * not found, and the current region stays.
   */
  function RasterRegion(current: Region, maps: map<string, Map>, raster: string,
                        n: Option<real>, s: Option<real>, e: Option<real>, w: Option<real>): Region
  {
    if raster in maps then RasterRequest(current, maps, raster, n, s, e, w) else current
  }

  /** `grass_set_region_from_raster`. */
  method SetRegionFromRaster(e: Engine, raster: string, n: Option<real>, s: Option<real>, ee: Option<real>, w: Option<real>)
    returns (r: int)
    modifies e
    ensures r == 0
    ensures e.region == RasterRegion(old(e.region), old(e.maps), raster, n, s, ee, w)
    ensures e.maps == old(e.maps) && e.mask == old(e.mask) && e.saved == old(e.saved) && e.files == old(e.files)
    ensures e.log == old(e.log) +
      [RegionFromRaster(raster), RegionSet(RasterRequest(old(e.region), old(e.maps), raster, n, s, ee, w), Some(raster))]
  {
    e.RegionFromRasterCmd(raster);
    var def := RegionDefinition(RegionDict(e.region));
    RegionDefinitionRoundTrip(e.region);
    var rgn := Region(Pick(n, def["n"]), Pick(s, def["s"]), Pick(ee, def["e"]), Pick(w, def["w"]),
                      def["ewres"], def["nsres"]);
    var _ := SetRegion(e, rgn, Some(raster));
    return 0;
  }

  /**
   * A bound configured as 0 (the equator or the prime meridian) is falsy and
   * is replaced by the raster's own bound; any other configured value is kept.
   */
  lemma ZeroBoundReplaced(current: Region, maps: map<string, Map>, raster: string, s: Option<real>, e: Option<real>, w: Option<real>)
    requires raster in maps
    ensures RasterRegion(current, maps, raster, Some(0.0), s, e, w).n == maps[raster].region.n
    ensures forall v: real :: v != 0.0 ==> RasterRegion(current, maps, raster, Some(v), s, e, w).n == v
    ensures RasterRegion(current, maps, raster, Some(0.0), s, e, w).ewres == maps[raster].region.ewres
  {
  }

  // ---- region queries ----

  const DefinitionKeys: set<string> := {"n", "e", "s", "w", "ewres", "nsres"}

  /** What `gscript.core.region()` reports: the six defining values and derived ones. */
  function RegionDict(r: Region): (d: map<string, real>)
    ensures DefinitionKeys <= d.Keys
  {
    var rows := if r.nsres > 0.0 then Nearest((r.n - r.s) / r.nsres) else 0;
    var cols := if r.ewres > 0.0 then Nearest((r.e - r.w) / r.ewres) else 0;
    map["n" := r.n, "s" := r.s, "e" := r.e, "w" := r.w, "ewres" := r.ewres, "nsres" := r.nsres,
        "rows" := rows as real, "cols" := cols as real, "cells" := (rows * cols) as real,
        "projection" := 3.0, "zone" := 0.0]
  }

  /** `grass_region_definition`: keep exactly the keys n, e, s, w, ewres, nsres. */
  function RegionDefinition(d: map<string, real>): (r: map<string, real>)
    ensures r.Keys == d.Keys * DefinitionKeys
    ensures forall k :: k in r ==> r[k] == d[k]
  {
    map k | k in d && k in DefinitionKeys :: d[k]
  }

  /** The region a complete definition describes (what `g.region **def` sets). */
  function DefinitionRegion(d: map<string, real>): Region
    requires DefinitionKeys <= d.Keys
  {
    Region(d["n"], d["s"], d["e"], d["w"], d["ewres"], d["nsres"])
  }

  /** Reading the definition of a region and setting it again gives the same region. */
  lemma RegionDefinitionRoundTrip(r: Region)
    ensures RegionDefinition(RegionDict(r)).Keys == DefinitionKeys
    ensures DefinitionRegion(RegionDefinition(RegionDict(r))) == r
  {
  }

  /**
   * `grass_named_region_definition`: the definition of the saved region
   * `rgn` (of the current region when no such region is saved), with the
   * current region restored afterwards.
   */
  method NamedRegionDefinition(e: Engine, rgn: string) returns (d: map<string, real>)
    modifies e
    ensures d == RegionDefinition(RegionDict(if rgn in old(e.saved) then old(e.saved)[rgn] else old(e.region)))
    ensures e.region == old(e.region)
    ensures e.maps == old(e.maps) && e.mask == old(e.mask) && e.saved == old(e.saved) && e.files == old(e.files)
    ensures e.log == old(e.log) + [RegionNamed(rgn), RegionSet(old(e.region), None)]
  {
    var current := RegionDefinition(RegionDict(e.region));
    RegionDefinitionRoundTrip(e.region);
    var _ := SetNamedRegion(e, rgn);
    d := RegionDefinition(RegionDict(e.region));
    var _ := SetRegion(e, DefinitionRegion(current), None);
  }

  // ---- map listing ----

  /** `grass_maplist(pattern=...)`: the names of the maps matching the pattern. */
  function MapList(maps: map<string, Map>, pattern: string): (l: set<string>)
    ensures l <= maps.Keys
  {
    set k | k in maps && Glob(pattern, k)
  }

  /** `grass_map_exists`: exactly one map matches. */
  function MapExists(maps: map<string, Map>, mapname: string): bool
  {
    |MapList(maps, mapname)| == 1
  }

  /** For a name without wildcards, existence is membership in the catalogue. */
  lemma MapExistsName(maps: map<string, Map>, mapname: string)
    requires '*' !in mapname
    ensures MapExists(maps, mapname) <==> mapname in maps
  {
    forall k | k in maps ensures Glob(mapname, k) <==> k == mapname {
      GlobLiteral(mapname, k);
    }
    if mapname in maps {
      assert MapList(maps, mapname) == {mapname};
    } else {
      assert MapList(maps, mapname) == {};
    }
  }

  /** A pattern that matches two maps is reported as not existing. */
  lemma MapExistsSeveral(maps: map<string, Map>, pattern: string, a: string, b: string)
    requires a != b && a in maps && b in maps && Glob(pattern, a) && Glob(pattern, b)
    ensures !MapExists(maps, pattern)
  {
    var l := MapList(maps, pattern);
    assert {a, b} <= l;
    assert |{a, b}| == 2;
    SubsetCard({a, b}, l);
  }

  lemma SubsetCard<T>(a: set<T>, b: set<T>)
    requires a <= b
    ensures |a| <= |b|
  {
    assert b == a + (b - a);
  }
}
