// The MERIT DEM input: tile filenames `n30e090_dem.tif` are found under
// the data directory, each tile is averaged onto the three MERIT regions
// and written to the scratch directory, the tiles of a region are joined
// into one VRT file, and that file is read into the map `merit_dem_{rgn}`.
//
// Filenames are matched the way Python's `re` module matches the two
// patterns of the source: `([ns][0-9]+)([ew][0-9]+)` searched anywhere in
// the full path, and `^[n|s][0-9]+[e|w][0-9]+_dem.tif$` matched against
// the final component. A digit run followed by a fixed letter class cannot
// be shortened into a match, so greedy runs with backtracking find exactly
// the maximal runs modelled here.
module Elevation {
  import opened Wrappers
  import opened Strings
  import opened Paths
  import opened Raster
  import opened Grass
  import GrassUtils
  import Constants
  import opened MapCalc

  // ---- parse_merit_filename ----

  /** The length of the run of digits starting at i. */
  function DigitRun(s: string, i: nat): (k: nat)
    requires i <= |s|
    ensures i + k <= |s|
    decreases |s| - i
  {
    if i < |s| && IsDigit(s[i]) then 1 + DigitRun(s, i + 1) else 0
  }

  /** Every character of a digit run is a digit, and the run stops at the end or at a non-digit. */
  lemma {:induction false} DigitRunDigits(s: string, i: nat)
    requires i <= |s|
    ensures forall j :: i <= j < i + DigitRun(s, i) ==> IsDigit(s[j])
    ensures i + DigitRun(s, i) == |s| || !IsDigit(s[i + DigitRun(s, i)])
    decreases |s| - i
  {
    if i < |s| && IsDigit(s[i]) {
      DigitRunDigits(s, i + 1);
    }
  }

  /** The letters of `[ns]` (latitude) and of `[ew]` (longitude). */
  predicate Hemisphere(c: char, latitude: bool)
  {
    if latitude then c == 'n' || c == 's' else c == 'e' || c == 'w'
  }

  /** A non-digit followed by at least one digit. */
  predicate Numbered(x: string)
  {
    |x| >= 2 && !IsDigit(x[0]) && forall t :: 1 <= t < |x| ==> IsDigit(x[t])
  }

  /** A hemisphere letter followed by at least one digit: `n30`, `e090`. */
  predicate Coordinate(x: string, latitude: bool)
  {
    Numbered(x) && Hemisphere(x[0], latitude)
  }

  /**
   * The match of `([ns][0-9]+)([ew][0-9]+)` starting at position i, as its
   * two groups: a latitude and the longitude right after it, whose digits
   * run as far as they go.
   */
  function MatchAt(s: string, i: nat): Option<(string, string)>
    requires i <= |s|
  {
    match MatchEnds(s, i)
    case Some(Span(j, k)) => Some((s[i..j], s[j..k]))
    case None => None
  }

  /** Where the two groups of a match end: the latitude at `latEnd`, the longitude at `lonEnd`. */
  datatype Span = Span(latEnd: nat, lonEnd: nat)

  /** Where the groups of the match at i end: the latitude at j, the longitude at k. */
  function MatchEnds(s: string, i: nat): (r: Option<Span>)
    requires i <= |s|
    ensures r.Some? ==> i + 1 < r.value.latEnd && r.value.latEnd + 1 < r.value.lonEnd <= |s|
  {
    if i < |s| && Hemisphere(s[i], true) then
      var j := i + 1 + DigitRun(s, i + 1);
      if j > i + 1 && j < |s| && Hemisphere(s[j], false) then
        var k := j + 1 + DigitRun(s, j + 1);
        if k > j + 1 then Some(Span(j, k)) else None
      else None
    else None
  }

  /**
   * What a match is: a latitude and a longitude standing side by side in
   * the string, with no digit after them.
   */
  lemma MatchMeaning(s: string, i: nat)
    requires i <= |s| && MatchAt(s, i).Some?
    ensures var m := MatchAt(s, i).value; Coordinate(m.0, true) && Coordinate(m.1, false)
    ensures var m := MatchAt(s, i).value; var e := i + |m.0| + |m.1|;
      e <= |s| && s[i..e] == m.0 + m.1 && (e == |s| || !IsDigit(s[e]))
  {
    var j, k := MatchEnds(s, i).value.latEnd, MatchEnds(s, i).value.lonEnd;
    var lat, lon := s[i..j], s[j..k];
    assert MatchAt(s, i).value == (lat, lon);
    CoordinateAt(s, i, j, true);
    CoordinateAt(s, j, k, false);
    assert s[i..k] == lat + lon;
  }

  /** A hemisphere letter at i and the digit run after it, ending at j, read as one coordinate. */
  lemma CoordinateAt(s: string, i: nat, j: nat, latitude: bool)
    requires i < |s| && Hemisphere(s[i], latitude) && j == i + 1 + DigitRun(s, i + 1) && j > i + 1
    ensures Coordinate(s[i..j], latitude) && (j == |s| || !IsDigit(s[j]))
  {
    DigitRunDigits(s, i + 1);
    var x := s[i..j];
    assert x[0] == s[i];
    forall t | 1 <= t < |x| ensures IsDigit(x[t]) {
      assert x[t] == s[i + t];
    }
  }

  /** The first position at or after i where the pattern matches (`re.search`). */
  function FirstMatch(s: string, i: nat): (r: Option<nat>)
    requires i <= |s|
    ensures r.Some? ==> i <= r.value <= |s| && MatchAt(s, r.value).Some?
    decreases |s| - i
  {
    if MatchAt(s, i).Some? then Some(i)
    else if i == |s| then None
    else FirstMatch(s, i + 1)
  }

  /** The match FirstMatch finds is the leftmost from i on, and None means that no position from i on matches. */
  lemma {:induction false} FirstMatchLeftmost(s: string, i: nat)
    requires i <= |s|
    ensures FirstMatch(s, i).Some? ==> forall j :: i <= j < FirstMatch(s, i).value ==> MatchAt(s, j).None?
    ensures FirstMatch(s, i).None? ==> forall j :: i <= j <= |s| ==> MatchAt(s, j).None?
    decreases |s| - i
  {
    if MatchAt(s, i).None? && i < |s| {
      FirstMatchLeftmost(s, i + 1);
    }
  }

  /** `f'{fn} is not a valid MERIT DEM filename!'`. */
  function NotMerit(fn: string): (m: string)
    ensures |fn| < |m| && m[..|fn|] == fn
  {
    fn + " is not a valid MERIT DEM filename!"
  }

  /**
   * `parse_merit_filename`: the latitude and longitude of the first tile
   * code anywhere in the path, directories included, or ValueError quoting
   * the path when there is none.
   */
  function ParseMeritFilename(fn: string): Result<(string, string)>
  {
    match FirstMatch(fn, 0)
    case Some(k) => Ok(MatchAt(fn, k).value)
    case None => Err(ValueError(NotMerit(fn)))
  }

  /**
   * `parse_merit_filename` gives the code of the leftmost match, or
   * ValueError quoting the path when nothing matches.
   */
  lemma ParseMeritFilenameMatches(fn: string)
    ensures var r := ParseMeritFilename(fn);
      r.Ok? ==> exists k :: 0 <= k <= |fn| && MatchAt(fn, k) == Some(r.value) &&
                            forall j :: 0 <= j < k ==> MatchAt(fn, j).None?
    ensures var r := ParseMeritFilename(fn);
      r.Err? ==> r.error == ValueError(NotMerit(fn)) && forall k :: 0 <= k <= |fn| ==> MatchAt(fn, k).None?
  {
    FirstMatchLeftmost(fn, 0);
  }

  /** The digit run at an offset of a longer string is the digit run of the part. */
  lemma {:induction false} DigitRunShift(p: string, s: string, i: nat)
    requires i <= |s|
    ensures DigitRun(p + s, |p| + i) == DigitRun(s, i)
    decreases |s| - i
  {
    if i < |s| && IsDigit(s[i]) {
      DigitRunShift(p, s, i + 1);
    }
  }

  /** Text after a non-digit does not lengthen a digit run that starts before it. */
  lemma {:induction false} DigitRunExtend(s: string, t: string, i: nat)
    requires i <= |s|
    requires |t| == 0 || !IsDigit(t[0])
    ensures DigitRun(s + t, i) == DigitRun(s, i)
    decreases |s| - i
  {
    if i < |s| && IsDigit(s[i]) {
      DigitRunExtend(s, t, i + 1);
    }
  }

  /** A digit run over a known stretch of digits ends where the digits end. */
  lemma {:induction false} DigitRunOf(s: string, i: nat, n: nat)
    requires i + n <= |s|
    requires forall j :: i <= j < i + n ==> IsDigit(s[j])
    requires i + n == |s| || !IsDigit(s[i + n])
    ensures DigitRun(s, i) == n
    decreases n
  {
    if n > 0 {
      DigitRunOf(s, i + 1, n - 1);
    }
  }

  /** Matching inside a string is unaffected by what comes before it. */
  lemma {:induction false} MatchShift(p: string, s: string, i: nat)
    requires i <= |s|
    ensures MatchAt(p + s, |p| + i) == MatchAt(s, i)
  {
    EndsShift(p, s, i);
    if MatchEnds(s, i).Some? {
      var j, k := MatchEnds(s, i).value.latEnd, MatchEnds(s, i).value.lonEnd;
      assert (p + s)[|p| + i..|p| + j] == s[i..j];
      assert (p + s)[|p| + j..|p| + k] == s[j..k];
    }
  }

  lemma {:induction false} EndsShift(p: string, s: string, i: nat)
    requires i <= |s|
    ensures MatchEnds(p + s, |p| + i) ==
      match MatchEnds(s, i) case Some(Span(j, k)) => Some(Span(|p| + j, |p| + k)) case None => None
  {
    var ps := p + s;
    if i < |s| {
      assert ps[|p| + i] == s[i];
      DigitRunShift(p, s, i + 1);
      var j := i + 1 + DigitRun(s, i + 1);
      if j < |s| {
        assert ps[|p| + j] == s[j];
        DigitRunShift(p, s, j + 1);
      }
    }
  }

  /**
   * A match starting inside s is the same in s + t when t begins with a
   * character that can neither continue a digit run nor start a longitude.
   */
  lemma {:induction false} MatchExtend(s: string, t: string, i: nat)
    requires i < |s|
    requires |t| == 0 || (!IsDigit(t[0]) && t[0] != 'e' && t[0] != 'w')
    ensures MatchAt(s + t, i) == MatchAt(s, i)
  {
    EndsExtend(s, t, i);
    if MatchEnds(s, i).Some? {
      var j, k := MatchEnds(s, i).value.latEnd, MatchEnds(s, i).value.lonEnd;
      assert (s + t)[i..j] == s[i..j];
      assert (s + t)[j..k] == s[j..k];
    }
  }

  lemma {:induction false} EndsExtend(s: string, t: string, i: nat)
    requires i < |s|
    requires |t| == 0 || (!IsDigit(t[0]) && t[0] != 'e' && t[0] != 'w')
    ensures MatchEnds(s + t, i) == MatchEnds(s, i)
  {
    var st := s + t;
    assert st[i] == s[i];
    DigitRunExtend(s, t, i + 1);
    var j := i + 1 + DigitRun(s, i + 1);
    if j < |s| {
      assert st[j] == s[j];
      DigitRunExtend(s, t, j + 1);
    } else if |t| > 0 {
      assert st[j] == t[0];
    }
  }

  /** A latitude followed by a longitude, and then by no further digit, is matched as those two groups. */
  lemma {:induction false} MatchOfCode(s: string, i: nat, lat: string, lon: string)
    requires Coordinate(lat, true) && Coordinate(lon, false)
    requires i + |lat| + |lon| <= |s| && s[i..i + |lat| + |lon|] == lat + lon
    requires i + |lat| + |lon| == |s| || !IsDigit(s[i + |lat| + |lon|])
    ensures MatchAt(s, i) == Some((lat, lon))
  {
    var j := i + |lat|;
    var k := j + |lon|;
    assert s[i..j] == lat && s[j..k] == lon by {
      SplitSlice(s, i, j, k, lat, lon);
    }
    NumberedAt(s, j, lon);
    assert !IsDigit(s[j]);
    NumberedAt(s, i, lat);
  }

  /** A slice equal to x + y splits into a slice equal to x and one equal to y. */
  lemma SplitSlice(s: string, i: nat, j: nat, k: nat, x: string, y: string)
    requires j == i + |x| && k == j + |y| && k <= |s| && s[i..k] == x + y
    ensures s[i..j] == x && s[j..k] == y
  {
    assert s[i..j] == s[i..k][..|x|];
    assert s[j..k] == s[i..k][|x|..];
  }

  /** A lettered number standing at i, followed by no digit, is read as one letter and one digit run. */
  lemma NumberedAt(s: string, i: nat, x: string)
    requires Numbered(x) && i + |x| <= |s| && s[i..i + |x|] == x
    requires i + |x| == |s| || !IsDigit(s[i + |x|])
    ensures s[i] == x[0] && DigitRun(s, i + 1) == |x| - 1
  {
    assert s[i] == s[i..i + |x|][0];
    forall t | i + 1 <= t < i + |x| ensures IsDigit(s[t]) {
      assert s[t] == s[i..i + |x|][t - i];
    }
    DigitRunOf(s, i + 1, |x| - 1);
  }

  /** A position where the pattern matches means the search succeeds. */
  lemma {:induction false} SomeMatchFound(s: string, i: nat, k: nat)
    requires i <= k <= |s| && MatchAt(s, k).Some?
    ensures FirstMatch(s, i).Some?
    decreases k - i
  {
    if MatchAt(s, i).None? {
      SomeMatchFound(s, i + 1, k);
    }
  }

  /** The search from i finds k when the pattern matches at k and nowhere from i up to k. */
  lemma {:induction false} FirstMatchIs(s: string, i: nat, k: nat)
    requires i <= k <= |s| && MatchAt(s, k).Some?
    requires forall j :: i <= j < k ==> MatchAt(s, j).None?
    ensures FirstMatch(s, i) == Some(k)
    decreases k - i
  {
    if i < k {
      FirstMatchIs(s, i + 1, k);
    }
  }

  /** Searching s + t finds the first match of s when that match lies in s and t cannot continue it. */
  lemma {:induction false} SearchExtend(s: string, t: string, i: nat)
    requires i <= |s| && FirstMatch(s, i).Some? && FirstMatch(s, i).value < |s|
    requires |t| == 0 || (!IsDigit(t[0]) && t[0] != 'e' && t[0] != 'w')
    ensures FirstMatch(s + t, i) == FirstMatch(s, i)
    decreases |s| - i
  {
    MatchExtend(s, t, i);
    if MatchAt(s, i).None? {
      SearchExtend(s, t, i + 1);
    }
  }

  /** A path with no hemisphere letter at all is refused. */
  lemma {:induction false} NoHemisphereRefused(s: string)
    requires 'n' !in s && 's' !in s
    ensures ParseMeritFilename(s).Err?
  {
    forall k | 0 <= k <= |s| ensures MatchAt(s, k).None? {
      if k < |s| {
        assert s[k] in s;
      }
    }
  }

  // ---- the tile filter of get_input_filenames ----

  /** `lat + lon + "_dem.tif"`: a tile's filename. */
  function TileFile(lat: string, lon: string): string
  {
    lat + lon + DemTif
  }

  /** The tile filter as written (`^[n|s][0-9]+[e|w][0-9]+_dem.tif$`) or as evidently intended (`^[ns][0-9]+[ew][0-9]+_dem\.tif`). */
  datatype Filter = AsWritten | Intended

  /**
   * What follows the longitude. As written, '.' is any character but a
   * newline and `$` also matches before a final newline; as intended,
   * exactly `_dem.tif`.
   */
  predicate Tail(f: Filter, rest: string)
  {
    match f
    case AsWritten =>
      (|rest| == 8 || (|rest| == 9 && rest[8] == '\n')) && rest[..4] == "_dem" && rest[4] != '\n' && rest[5..8] == "tif"
    case Intended => rest == "_dem.tif"
  }

  /** A letter of the class `[n|s]` or `[e|w]` as written (a '|' too), of `[ns]` or `[ew]` as intended. */
  predicate Letter(f: Filter, c: char, latitude: bool)
  {
    Hemisphere(c, latitude) || (f.AsWritten? && c == '|')
  }

  /** Whether the filter keeps a final path component. As written, the classes `[n|s]` and `[e|w]` also hold '|'. */
  predicate Admits(f: Filter, name: string)
  {
    && |name| >= 1 && Letter(f, name[0], true)
    && var j := 1 + DigitRun(name, 1);
    && j > 1 && j < |name| && Letter(f, name[j], false)
    && var k := j + 1 + DigitRun(name, j + 1);
    && k > j + 1 && Tail(f, name[k..])
  }

  /** A filename made of two lettered numbers and a suffix reaches the suffix after the two digit runs. */
  lemma {:induction false} CodeThen(lat: string, lon: string, rest: string)
    requires Numbered(lat) && Numbered(lon)
    requires |rest| == 0 || !IsDigit(rest[0])
    ensures var name := lat + lon + rest;
      && 1 + DigitRun(name, 1) == |lat|
      && |lat| + 1 + DigitRun(name, |lat| + 1) == |lat| + |lon|
      && name[0] == lat[0] && name[|lat|] == lon[0] && name[|lat| + |lon|..] == rest
  {
    var name := lat + lon + rest;
    assert name[|lat|] == lon[0];
    DigitRunOf(name, 1, |lat| - 1);
    forall t | |lat| + 1 <= t < |lat| + |lon| ensures IsDigit(name[t]) {
      assert name[t] == lon[t - |lat|];
    }
    if |rest| > 0 {
      assert name[|lat| + |lon|] == rest[0];
    }
    DigitRunOf(name, |lat| + 1, |lon| - 1);
  }

  /** A filename made of two lettered numbers the filter's classes accept is kept exactly when its suffix is. */
  lemma AdmitsCode(f: Filter, lat: string, lon: string, rest: string)
    requires Numbered(lat) && Numbered(lon) && Letter(f, lat[0], true) && Letter(f, lon[0], false)
    requires |rest| == 0 || !IsDigit(rest[0])
    ensures Admits(f, lat + lon + rest) <==> Tail(f, rest)
  {
    CodeThen(lat, lon, rest);
  }

  /** Both filters keep every genuine tile filename; the one as written keeps any character but a newline in place of the '.'. */
  lemma {:induction false} TileFilesKept(lat: string, lon: string, c: char)
    requires Coordinate(lat, true) && Coordinate(lon, false)
    ensures Admits(Intended, TileFile(lat, lon)) && Admits(AsWritten, TileFile(lat, lon))
    ensures c != '\n' <==> Admits(AsWritten, lat + lon + "_dem" + [c] + "tif")
    ensures c != '.' ==> !Admits(Intended, lat + lon + "_dem" + [c] + "tif")
  {
    var tail := "_dem.tif";
    assert TileFile(lat, lon) == lat + lon + tail;
    AdmitsCode(Intended, lat, lon, tail);
    AdmitsCode(AsWritten, lat, lon, tail);
    var rest := "_dem" + [c] + "tif";
    assert lat + lon + "_dem" + [c] + "tif" == lat + lon + rest;
    assert rest[..4] == "_dem" && rest[5..8] == "tif";
    AdmitsCode(AsWritten, lat, lon, rest);
    AdmitsCode(Intended, lat, lon, rest);
    if c != '.' {
      assert rest[4] != tail[4];
    }
  }

  /**
   * A path whose final component the intended filter keeps always parses:
   * the component itself holds a tile code.
   */
  lemma {:induction false} IntendedTilesParse(dir: string, name: string)
    requires Admits(Intended, name)
    ensures ParseMeritFilename(Join(dir, name)).Ok?
  {
    assert MatchEnds(name, 0).Some?;
    var pre := if |dir| == 0 || dir[|dir| - 1] == '/' then dir else dir + "/";
    assert Join(dir, name) == pre + name;
    EndsShift(pre, name, 0);
    assert MatchAt(pre + name, |pre|).Some?;
    SomeMatchFound(pre + name, 0, |pre|);
  }

  /**
   * The filter as written keeps `|{digits}|{digits}_dem.tif`, whose path
   * (in a directory without the letters n and s) holds no tile code, so
   * parsing it raises ValueError.
   */
  lemma {:induction false} BarTileKeptButRefused(dir: string, a: string, b: string)
    requires |a| >= 1 && |b| >= 1 && AllDigits(a) && AllDigits(b)
    requires 'n' !in dir && 's' !in dir
    ensures Admits(AsWritten, BarFile(a, b))
    ensures ParseMeritFilename(Join(dir, BarFile(a, b))).Err?
  {
    BarAdmitted(a, b);
    var name := BarFile(a, b);
    assert 'n' !in name && 's' !in name by {
      BarLetters(a, b);
    }
    var p := Join(dir, name);
    assert p == dir + name || p == dir + "/" + name;
    NoHemisphereRefused(p);
  }

  /** The filter as written keeps `|{a}|{b}_dem.tif`. */
  lemma BarAdmitted(a: string, b: string)
    requires |a| >= 1 && |b| >= 1 && AllDigits(a) && AllDigits(b)
    ensures Admits(AsWritten, BarFile(a, b))
  {
    var lat, lon := "|" + a, "|" + b;
    forall t | 1 <= t < |lat| ensures IsDigit(lat[t]) {
      assert lat[t] == a[t - 1];
    }
    forall t | 1 <= t < |lon| ensures IsDigit(lon[t]) {
      assert lon[t] == b[t - 1];
    }
    assert BarFile(a, b) == lat + lon + DemTif;
    DemTifTail();
    AdmitsCode(AsWritten, lat, lon, DemTif);
  }

  /** `|{a}|{b}_dem.tif` holds neither n nor s. */
  lemma BarLetters(a: string, b: string)
    requires AllDigits(a) && AllDigits(b)
    ensures 'n' !in BarFile(a, b) && 's' !in BarFile(a, b)
  {
    assert 'n' !in a && 's' !in a by {
      assert forall c :: c in a ==> IsDigit(c);
    }
    assert 'n' !in b && 's' !in b by {
      assert forall c :: c in b ==> IsDigit(c);
    }
    assert 'n' !in DemTif && 's' !in DemTif by {
      forall t | 0 <= t < |DemTif| ensures DemTif[t] != 'n' && DemTif[t] != 's' {
        DemTifLetters(t);
      }
    }
  }

  /** `|{a}|{b}_dem.tif`: a name with bars where the hemisphere letters belong. */
  function BarFile(a: string, b: string): string
  {
    "|" + a + "|" + b + DemTif
  }

  const DemTif: string := "_dem.tif"

  /** Both filters accept exactly `_dem.tif` after the longitude. */
  lemma DemTifTail()
    ensures Tail(AsWritten, DemTif) && Tail(Intended, DemTif)
    ensures |DemTif| == 8 && !IsDigit(DemTif[0])
  {
  }

  /** `_dem.tif` holds neither n nor s. */
  lemma DemTifLetters(t: int)
    requires 0 <= t < |DemTif|
    ensures DemTif[t] != 'n' && DemTif[t] != 's'
  {
  }

  /**
   * Round trip: a tile file in a directory that holds no tile code parses
   * back to the tile's latitude and longitude.
   */
  lemma {:induction false} TilePathRoundTrip(dir: string, lat: string, lon: string)
    requires Coordinate(lat, true) && Coordinate(lon, false)
    requires forall k :: 0 <= k <= |dir| ==> MatchAt(dir, k).None?
    ensures ParseMeritFilename(Join(dir, TileFile(lat, lon))) == Ok((lat, lon))
  {
    var name := TileFile(lat, lon);
    TileFileMatches(lat, lon);
    var pre := if |dir| == 0 || dir[|dir| - 1] == '/' then dir else dir + "/";
    assert Join(dir, name) == pre + name;
    MatchShift(pre, name, 0);
    DirectoryNoMatch(dir, pre, name);
    FirstMatchIs(pre + name, 0, |pre|);
  }

  /** The pattern matches a tile file name at its start, with the tile's code. */
  lemma TileFileMatches(lat: string, lon: string)
    requires Coordinate(lat, true) && Coordinate(lon, false)
    ensures MatchAt(TileFile(lat, lon), 0) == Some((lat, lon))
  {
    var name := TileFile(lat, lon);
    assert name[|lat| + |lon|] == '_';
    assert name[..|lat| + |lon|] == lat + lon;
    MatchOfCode(name, 0, lat, lon);
  }

  /** A directory with no tile code, and its separator, match nowhere in front of a tile file name. */
  lemma DirectoryNoMatch(dir: string, pre: string, name: string)
    requires forall k :: 0 <= k <= |dir| ==> MatchAt(dir, k).None?
    requires pre == dir || pre == dir + "/"
    requires |name| > 0 && !IsDigit(name[0]) && name[0] != 'e' && name[0] != 'w'
    ensures forall k :: 0 <= k < |pre| ==> MatchAt(pre + name, k).None?
  {
    forall k | 0 <= k < |pre| ensures MatchAt(pre + name, k).None? {
      MatchExtend(pre, name, k);
      if k < |dir| && pre != dir {
        MatchExtend(dir, "/", k);
      }
    }
  }

  /**
   * A directory component that holds a tile code decides the result
   * whatever the file is called: the search runs over the whole path.
   */
  lemma {:induction false} DirectoryCodeWins(dir: string, name: string)
    requires ParseMeritFilename(dir).Ok?
    requires dir[|dir| - 1] != '/' && (|name| == 0 || name[0] != '/')
    ensures ParseMeritFilename(Join(dir, name)) == ParseMeritFilename(dir)
  {
    var k := FirstMatch(dir, 0).value;
    assert Join(dir, name) == dir + ("/" + name);
    SearchExtend(dir, "/" + name, 0);
    MatchExtend(dir, "/" + name, k);
  }

  // ---- get_input_filenames ----

  /**
   * The files the recursive glob found that the filter keeps, in glob
   * order, each rebuilt as `os.path.join(*os.path.split(f))`.
   */
  function Kept(found: seq<string>, f: Filter): seq<string>
  {
    if |found| == 0 then []
    else
      var x := found[|found| - 1];
      Kept(found[..|found| - 1], f) + (if Admits(f, Basename(x)) then [Join(Dirname(x), Basename(x))] else [])
  }

  /**
   * A path is kept exactly when it comes from a found file whose final
   * component the filter admits, and it keeps that final component.
   */
  lemma {:induction false} KeptMeaning(found: seq<string>, f: Filter)
    ensures forall p :: p in Kept(found, f) <==>
      exists x :: x in found && Admits(f, Basename(x)) && p == Join(Dirname(x), Basename(x))
    ensures forall p :: p in Kept(found, f) ==> Admits(f, Basename(p))
    ensures |Kept(found, f)| <= |found|
    decreases |found|
  {
    if |found| > 0 {
      var init, x := found[..|found| - 1], found[|found| - 1];
      assert found == init + [x];
      KeptMeaning(init, f);
      BasenameOfJoin(Dirname(x), Basename(x));
      forall p | p in Kept(found, f) ensures Admits(f, Basename(p)) {
        if p !in Kept(init, f) {
          assert p == Join(Dirname(x), Basename(x));
        }
      }
    }
  }

  /** A found file without doubled slashes whose final component is admitted is kept as it was found. */
  lemma {:induction false} KeptPlain(found: seq<string>, f: Filter)
    ensures forall x :: x in found && Admits(f, Basename(x)) && Plain(x) ==> x in Kept(found, f)
    decreases |found|
  {
    if |found| > 0 {
      var init, x := found[..|found| - 1], found[|found| - 1];
      assert found == init + [x];
      KeptPlain(init, f);
      if Plain(x) {
        SplitJoin(x);
      }
      forall y | y in found && Admits(f, Basename(y)) && Plain(y) ensures y in Kept(found, f) {
        if y != x {
          assert y in init;
        }
      }
    }
  }

  /** A path with no two slashes in a row. */
  predicate Plain(x: string)
  {
    forall i :: 0 <= i < |x| - 1 ==> !(x[i] == '/' && x[i + 1] == '/')
  }

  /** Keeping one found file more keeps its rebuilt path or nothing. */
  lemma KeptNext(found: seq<string>, i: nat, f: Filter)
    requires i < |found|
    ensures Kept(found[..i + 1], f) ==
            Kept(found[..i], f) + (if Admits(f, Basename(found[i])) then [Join(Dirname(found[i]), Basename(found[i]))] else [])
  {
    assert found[..i + 1][..i] == found[..i];
  }

  /** The loop of `get_input_filenames`. */
  method KeepTiles(found: seq<string>, f: Filter) returns (kept: seq<string>)
    ensures kept == Kept(found, f)
  {
    kept := [];
    var i := 0;
    while i < |found|
      invariant 0 <= i <= |found|
      invariant kept == Kept(found[..i], f)
    {
      var x := found[i];
      KeptNext(found, i, f);
      var fpath, fname := Dirname(x), Basename(x);
      if Admits(f, fname) {
        kept := kept + [Join(fpath, fname)];
      }
      i := i + 1;
    }
    assert found[..i] == found;
  }

  // ---- set_mapnames ----

  /** The three MERIT resolutions, as region names. */
  const MeritRegions: seq<string> := ["globe_0.008333Deg", "globe_0.004167Deg", "globe_0.002778Deg"]

  /** `merit_dem_{rgn}`. */
  function MapName(rgn: string): string
  {
    "merit_dem_" + rgn
  }

  /** The loop of `set_mapnames`: one map name per region. */
  method CollectMapnames(rgns: seq<string>) returns (m: map<string, string>)
    ensures forall g :: g in m <==> g in rgns
    ensures forall g :: g in m ==> m[g] == MapName(g)
  {
    m := map[];
    var i := 0;
    while i < |rgns|
      invariant 0 <= i <= |rgns|
      invariant forall g :: g in m <==> g in rgns[..i]
      invariant forall g :: g in m ==> m[g] == MapName(g)
    {
      assert rgns[..i + 1] == rgns[..i] + [rgns[i]];
      m := m[rgns[i] := MapName(rgns[i])];
      i := i + 1;
    }
    assert rgns[..i] == rgns;
  }

  // ---- preprocess ----

  /** `merit_dem_avg_{lat}_{lon}_{rgn}`: a tile averaged onto a region. */
  function TileMapName(code: (string, string), rgn: string): string
  {
    "merit_dem_avg_" + code.0 + "_" + code.1 + "_" + rgn
  }

  /** The GeoTIFF the averaged tile is written to. */
  function TileOutfile(scratch: string, code: (string, string), rgn: string): string
  {
    Join(scratch, TileMapName(code, rgn) + ".tif")
  }

  /** The VRT that joins a region's tiles. */
  function VrtFile(scratch: string, rgn: string): string
  {
    Join(scratch, MapName(rgn) + ".vrt")
  }

  /**
   * What `preprocess` does besides naming files: a tile is imported,
   * averaged at the region's resolution and written out (`r.in.gdal`,
   * `g.region raster= res=`, `r.resamp.stats method=average`,
   * `r.out.gdal`), or the tiles of a region are joined into a VRT.
   */
  datatype Step =
    | AverageTile(input: string, mapname: string, outfile: string, res: real)
    | BuildVrt(vrt: string, tiles: seq<string>, res: real)

  /** The file a step writes. */
  function Written(st: Step): string
  {
    match st
    case AverageTile(_, _, outfile, _) => outfile
    case BuildVrt(vrt, _, _) => vrt
  }

  /** After the tiles of one region: their output files, the steps run, and the files that exist. */
  datatype Tiles = Tiles(outfiles: seq<string>, steps: seq<Step>, existing: set<string>)

  /**
   * The tile loop of `preprocess` for one region over the files fs, with
   * the files in `existing` present when it starts: every tile is parsed
   * (the first that does not parse raises) and named, and it is averaged
   * unless its output exists and overwriting is off.
   */
  function TilePass(fs: seq<string>, rgn: string, res: real, scratch: string, existing: set<string>,
                    overwrite: bool): Result<Tiles>
  {
    if |fs| == 0 then Ok(Tiles([], [], existing))
    else
      match TilePass(fs[..|fs| - 1], rgn, res, scratch, existing, overwrite)
      case Err(e) => Err(e)
      case Ok(p) => TileStep(p, fs[|fs| - 1], rgn, res, scratch, overwrite)
  }

  /** One tile x of the loop, after the tiles before it left p. */
  function TileStep(p: Tiles, x: string, rgn: string, res: real, scratch: string, overwrite: bool): Result<Tiles>
  {
    match ParseMeritFilename(x)
    case Err(e) => Err(e)
    case Ok(code) =>
      var out := TileOutfile(scratch, code, rgn);
      if out in p.existing && !overwrite then Ok(Tiles(p.outfiles + [out], p.steps, p.existing))
      else Ok(Tiles(p.outfiles + [out], p.steps + [AverageTile(x, TileMapName(code, rgn), out, res)],
                    p.existing + {out}))
  }

  /** The outputs named for the tiles fs: the t-th file parses and names the t-th output. */
  predicate TileOutputs(outs: seq<string>, fs: seq<string>, scratch: string, rgn: string)
  {
    |outs| == |fs| && forall t :: 0 <= t < |fs| ==> NamesOutput(fs[t], outs[t], scratch, rgn)
  }

  /** The file x parses and names the output out. */
  predicate NamesOutput(x: string, out: string, scratch: string, rgn: string)
  {
    ParseMeritFilename(x).Ok? && out == TileOutfile(scratch, ParseMeritFilename(x).value, rgn)
  }

  /** The tile loop succeeds exactly when every file parses; otherwise it raises the error of one of them. */
  lemma {:induction false} TilePassOutcome(fs: seq<string>, rgn: string, res: real, scratch: string,
                                           existing: set<string>, overwrite: bool)
    ensures TilePass(fs, rgn, res, scratch, existing, overwrite).Ok? <==> forall x :: x in fs ==> ParseMeritFilename(x).Ok?
    ensures TilePass(fs, rgn, res, scratch, existing, overwrite).Err? ==>
      exists x :: x in fs && ParseMeritFilename(x) == Err(TilePass(fs, rgn, res, scratch, existing, overwrite).error)
    decreases |fs|
  {
    if |fs| > 0 {
      var init, x := fs[..|fs| - 1], fs[|fs| - 1];
      assert fs == init + [x];
      TilePassOutcome(init, rgn, res, scratch, existing, overwrite);
    }
  }

  /**
   * A tile loop that succeeds names one output per file, in file order,
   * and afterwards the files that exist are those that existed plus the
   * outputs.
   */
  lemma {:induction false} TilePassFiles(fs: seq<string>, rgn: string, res: real, scratch: string,
                                         existing: set<string>, overwrite: bool, p: Tiles)
    requires TilePass(fs, rgn, res, scratch, existing, overwrite) == Ok(p)
    ensures TileOutputs(p.outfiles, fs, scratch, rgn)
    ensures forall y :: y in p.existing <==> y in existing || y in p.outfiles
    decreases |fs|
  {
    if |fs| > 0 {
      var init, x := fs[..|fs| - 1], fs[|fs| - 1];
      TilePassLast(fs, rgn, res, scratch, existing, overwrite, p);
      var q := TilePass(init, rgn, res, scratch, existing, overwrite).value;
      TilePassFiles(init, rgn, res, scratch, existing, overwrite, q);
      var out := TileOutfile(scratch, ParseMeritFilename(x).value, rgn);
      assert NamesOutput(x, out, scratch, rgn);
      forall t | 0 <= t < |fs| ensures NamesOutput(fs[t], p.outfiles[t], scratch, rgn) {
        if t < |init| {
          assert fs[t] == init[t] && p.outfiles[t] == q.outfiles[t];
        } else {
          assert t == |q.outfiles|;
          assert p.outfiles[t] == (q.outfiles + [out])[|q.outfiles|] == out;
        }
      }
    }
  }

  /** The last tile of the loop: the tiles before it went through, it parses, and its output is named and then exists. */
  lemma TilePassLast(fs: seq<string>, rgn: string, res: real, scratch: string, existing: set<string>, overwrite: bool,
                     p: Tiles)
    requires |fs| > 0 && TilePass(fs, rgn, res, scratch, existing, overwrite) == Ok(p)
    ensures TilePass(fs[..|fs| - 1], rgn, res, scratch, existing, overwrite).Ok?
    ensures ParseMeritFilename(fs[|fs| - 1]).Ok?
    ensures var q := TilePass(fs[..|fs| - 1], rgn, res, scratch, existing, overwrite).value;
      var out := TileOutfile(scratch, ParseMeritFilename(fs[|fs| - 1]).value, rgn);
      p.outfiles == q.outfiles + [out] && p.existing == q.existing + {out}
  {
  }

  /**
   * A tile is averaged only when its output is missing or overwriting is
   * on, every missing output gets written, and with overwriting every tile
   * is averaged.
   */
  lemma {:induction false} TilePassSteps(fs: seq<string>, rgn: string, res: real, scratch: string,
                                         existing: set<string>, overwrite: bool, p: Tiles)
    requires TilePass(fs, rgn, res, scratch, existing, overwrite) == Ok(p)
    ensures forall st :: st in p.steps ==>
      st.AverageTile? && st.res == res && st.outfile in p.outfiles && (overwrite || st.outfile !in existing)
    ensures forall y :: y in p.outfiles && y !in existing ==> exists st :: st in p.steps && Written(st) == y
    ensures overwrite ==> |p.steps| == |fs|
    decreases |fs|
  {
    if |fs| > 0 {
      var init, x := fs[..|fs| - 1], fs[|fs| - 1];
      assert fs == init + [x];
      var q := TilePass(init, rgn, res, scratch, existing, overwrite).value;
      TilePassSteps(init, rgn, res, scratch, existing, overwrite, q);
      TilePassFiles(init, rgn, res, scratch, existing, overwrite, q);
      var out := TileOutfile(scratch, ParseMeritFilename(x).value, rgn);
      assert p.outfiles == q.outfiles + [out];
      forall y | y in p.outfiles && y !in existing ensures exists st :: st in p.steps && Written(st) == y {
        if y in q.outfiles {
          var st :| st in q.steps && Written(st) == y;
          assert st in p.steps;
        } else if !(out in q.existing && !overwrite) {
          assert Written(p.steps[|p.steps| - 1]) == y;
        }
      }
    }
  }

  /** Where the regions stand after `preprocess`: the VRT of each, the steps run, and the files that exist. */
  datatype Preprocessed = Preprocessed(vrts: map<string, string>, steps: seq<Step>, existing: set<string>)

  /**
   * `preprocess` over the regions rgns: each region's resolution is looked
   * up in the region table (KeyError when missing), its tiles are averaged,
   * and its VRT is built unless it exists and overwriting is off.
   */
  function RegionsPass(rgns: seq<string>, table: map<string, Constants.RegionSpec>, fs: seq<string>, scratch: string,
                       existing: set<string>, overwrite: bool): Result<Preprocessed>
  {
    if |rgns| == 0 then Ok(Preprocessed(map[], [], existing))
    else
      match RegionsPass(rgns[..|rgns| - 1], table, fs, scratch, existing, overwrite)
      case Err(e) => Err(e)
      case Ok(q) => RegionStep(q, rgns[|rgns| - 1], table, fs, scratch, overwrite)
  }

  /** One region rgn of `preprocess`, after the regions before it left q. */
  function RegionStep(q: Preprocessed, rgn: string, table: map<string, Constants.RegionSpec>, fs: seq<string>,
                      scratch: string, overwrite: bool): Result<Preprocessed>
  {
    if rgn !in table then Err(KeyError(rgn))
    else
      var res := table[rgn].res;
      match TilePass(fs, rgn, res, scratch, q.existing, overwrite)
      case Err(e) => Err(e)
      case Ok(p) =>
        var vrt := VrtFile(scratch, rgn);
        if vrt in p.existing && !overwrite then Ok(Preprocessed(q.vrts[rgn := vrt], q.steps + p.steps, p.existing))
        else Ok(Preprocessed(q.vrts[rgn := vrt], q.steps + p.steps + [BuildVrt(vrt, p.outfiles, res)],
                             p.existing + {vrt}))
  }

  /** `preprocess` over one region more is one more region step. */
  lemma RegionsPassNext(rgns: seq<string>, i: nat, table: map<string, Constants.RegionSpec>, fs: seq<string>,
                        scratch: string, existing: set<string>, overwrite: bool)
    requires i < |rgns| && RegionsPass(rgns[..i], table, fs, scratch, existing, overwrite).Ok?
    ensures RegionsPass(rgns[..i + 1], table, fs, scratch, existing, overwrite) ==
            RegionStep(RegionsPass(rgns[..i], table, fs, scratch, existing, overwrite).value, rgns[i], table, fs,
                       scratch, overwrite)
  {
    assert rgns[..i + 1][..i] == rgns[..i];
  }

  /** A step that builds the VRT of region g from the outputs of the tiles fs, at the region's resolution. */
  predicate VrtOf(st: Step, g: string, table: map<string, Constants.RegionSpec>, fs: seq<string>, scratch: string)
  {
    st.BuildVrt? && g in table && st.vrt == VrtFile(scratch, g) && st.res == table[g].res &&
    TileOutputs(st.tiles, fs, scratch, g)
  }

  /**
   * `preprocess` succeeds exactly when every region is in the region table
   * and, if there is a region at all, every file parses; otherwise it
   * raises the KeyError of a region or the error of a file.
   */
  lemma {:induction false} RegionsPassOutcome(rgns: seq<string>, table: map<string, Constants.RegionSpec>, fs: seq<string>,
                                              scratch: string, existing: set<string>, overwrite: bool)
    ensures RegionsPass(rgns, table, fs, scratch, existing, overwrite).Ok? <==>
      (forall g :: g in rgns ==> g in table) && (|rgns| == 0 || forall x :: x in fs ==> ParseMeritFilename(x).Ok?)
    ensures var r := RegionsPass(rgns, table, fs, scratch, existing, overwrite);
      r.Err? ==> (exists g :: g in rgns && g !in table && r.error == KeyError(g)) ||
                 (exists x :: x in fs && ParseMeritFilename(x) == Err(r.error))
    decreases |rgns|
  {
    if |rgns| > 0 {
      var init, rgn := rgns[..|rgns| - 1], rgns[|rgns| - 1];
      assert rgns == init + [rgn];
      assert forall g :: g in rgns <==> g in init || g == rgn;
      RegionsPassOutcome(init, table, fs, scratch, existing, overwrite);
      var rq := RegionsPass(init, table, fs, scratch, existing, overwrite);
      var r := RegionsPass(rgns, table, fs, scratch, existing, overwrite);
      if rq.Err? {
        assert r == rq;
        assert |init| > 0;
      } else if rgn !in table {
        assert r == Err(KeyError(rgn));
      } else {
        var res := table[rgn].res;
        var p := TilePass(fs, rgn, res, scratch, rq.value.existing, overwrite);
        TilePassOutcome(fs, rgn, res, scratch, rq.value.existing, overwrite);
        if p.Err? {
          assert r == Err(p.error);
        } else {
          assert r.Ok?;
        }
      }
    }
  }

  /** A successful `preprocess` names the VRT of every region and of no other. */
  lemma {:induction false} RegionsPassNames(rgns: seq<string>, table: map<string, Constants.RegionSpec>, fs: seq<string>,
                                            scratch: string, existing: set<string>, overwrite: bool, q: Preprocessed)
    requires RegionsPass(rgns, table, fs, scratch, existing, overwrite) == Ok(q)
    ensures forall g :: g in q.vrts <==> g in rgns
    ensures forall g :: g in q.vrts ==> q.vrts[g] == VrtFile(scratch, g)
    decreases |rgns|
  {
    if |rgns| > 0 {
      var init, rgn := rgns[..|rgns| - 1], rgns[|rgns| - 1];
      assert rgns == init + [rgn];
      RegionsPassNames(init, table, fs, scratch, existing, overwrite,
                       RegionsPass(init, table, fs, scratch, existing, overwrite).value);
    }
  }

  /**
   * A successful `preprocess` writes no file that existed before it unless
   * overwriting is on, and every VRT it builds joins, at the region's
   * resolution, the outputs of all the tiles in file order.
   */
  lemma {:induction false} RegionsPassSteps(rgns: seq<string>, table: map<string, Constants.RegionSpec>, fs: seq<string>,
                                            scratch: string, existing: set<string>, overwrite: bool, q: Preprocessed)
    requires RegionsPass(rgns, table, fs, scratch, existing, overwrite) == Ok(q)
    ensures existing <= q.existing
    ensures forall st :: st in q.steps ==> overwrite || Written(st) !in existing
    ensures forall st :: st in q.steps && st.BuildVrt? ==> exists g :: g in rgns && VrtOf(st, g, table, fs, scratch)
    decreases |rgns|
  {
    if |rgns| > 0 {
      var init, rgn := rgns[..|rgns| - 1], rgns[|rgns| - 1];
      assert rgns == init + [rgn];
      var q0 := RegionsPass(init, table, fs, scratch, existing, overwrite).value;
      RegionsPassSteps(init, table, fs, scratch, existing, overwrite, q0);
      var res := table[rgn].res;
      var p := TilePass(fs, rgn, res, scratch, q0.existing, overwrite).value;
      TilePassFiles(fs, rgn, res, scratch, q0.existing, overwrite, p);
      TilePassSteps(fs, rgn, res, scratch, q0.existing, overwrite, p);
      forall st | st in q.steps ensures overwrite || Written(st) !in existing {
        if st !in q0.steps && st in p.steps {
          assert overwrite || st.outfile !in q0.existing;
        }
      }
      forall st | st in q.steps && st.BuildVrt? ensures exists g :: g in rgns && VrtOf(st, g, table, fs, scratch) {
        if st in q0.steps {
          var g :| g in init && VrtOf(st, g, table, fs, scratch);
          assert g in rgns;
        } else {
          assert st !in p.steps;
          assert VrtOf(st, rgn, table, fs, scratch);
        }
      }
    }
  }

  /**
   * The tile loop, run in the session e where GDAL reads `tiles(f)` from
   * the file f: the outputs named, the steps run and the files that then
   * exist, or the parse error; the session is the one the steps before
   * (`prior`) and the steps run here leave, from m0, log0 and region0.
   */
  method ProcessTiles(e: Engine, fs: seq<string>, rgn: string, res: real, scratch: string, existing: set<string>,
                      overwrite: bool, tiles: string -> Map, ghost prior: seq<Step>, ghost m0: map<string, Map>,
                      ghost log0: seq<Command>, ghost region0: Region)
    returns (r: Result<Tiles>, ghost done: seq<Step>)
    requires Traced(m0, log0, region0, prior, tiles, e.maps, e.log, e.region)
    modifies e
    ensures r == TilePass(fs, rgn, res, scratch, existing, overwrite)
    ensures Traced(m0, log0, region0, done, tiles, e.maps, e.log, e.region)
    ensures r.Ok? ==> done == prior + r.value.steps
    ensures e.mask == old(e.mask) && e.saved == old(e.saved) && e.files == old(e.files)
  {
    r := Ok(Tiles([], [], existing));
    done := prior;
    var i := 0;
    assert prior + r.value.steps == prior;
    while i < |fs| && r.Ok?
      invariant 0 <= i <= |fs|
      invariant r == TilePass(fs[..i], rgn, res, scratch, existing, overwrite)
      invariant Traced(m0, log0, region0, done, tiles, e.maps, e.log, e.region)
      invariant r.Ok? ==> done == prior + r.value.steps
      invariant e.mask == old(e.mask) && e.saved == old(e.saved) && e.files == old(e.files)
    {
      TilePassNext(fs, i, rgn, res, scratch, existing, overwrite);
      r, done := ProcessTile(e, fs[i], rgn, res, scratch, overwrite, tiles, r.value, prior, m0, log0, region0);
      i := i + 1;
    }
    if r.Err? {
      TilePassStops(fs, i, rgn, res, scratch, existing, overwrite);
    } else {
      assert fs[..i] == fs;
    }
  }

  /** The tile loop over one file more is one more tile step. */
  lemma TilePassNext(fs: seq<string>, i: nat, rgn: string, res: real, scratch: string, existing: set<string>,
                     overwrite: bool)
    requires i < |fs| && TilePass(fs[..i], rgn, res, scratch, existing, overwrite).Ok?
    ensures TilePass(fs[..i + 1], rgn, res, scratch, existing, overwrite) ==
            TileStep(TilePass(fs[..i], rgn, res, scratch, existing, overwrite).value, fs[i], rgn, res, scratch, overwrite)
  {
    assert fs[..i + 1][..i] == fs[..i];
  }

  /** One pass of the tile loop: parse the tile, name its output, and average it unless the output is kept. */
  method ProcessTile(e: Engine, x: string, rgn: string, res: real, scratch: string, overwrite: bool,
                     tiles: string -> Map, p: Tiles, ghost prior: seq<Step>,
                     ghost m0: map<string, Map>, ghost log0: seq<Command>, ghost region0: Region)
    returns (r: Result<Tiles>, ghost done: seq<Step>)
    requires Traced(m0, log0, region0, prior + p.steps, tiles, e.maps, e.log, e.region)
    modifies e
    ensures r == TileStep(p, x, rgn, res, scratch, overwrite)
    ensures Traced(m0, log0, region0, done, tiles, e.maps, e.log, e.region)
    ensures r.Ok? ==> done == prior + r.value.steps
    ensures e.mask == old(e.mask) && e.saved == old(e.saved) && e.files == old(e.files)
  {
    done := prior + p.steps;
    var code := ParseMeritFilename(x);
    if code.Err? {
      return Err(code.error), done;
    }
    var out := TileOutfile(scratch, code.value, rgn);
    if out in p.existing && !overwrite {
      return Ok(Tiles(p.outfiles + [out], p.steps, p.existing)), done;
    }
    var st := AverageTile(x, TileMapName(code.value, rgn), out, res);
    assert |st.mapname| > |TileImport|;
    RunTile(e, st, tiles, done, m0, log0, region0);
    assert prior + (p.steps + [st]) == done + [st];
    return Ok(Tiles(p.outfiles + [out], p.steps + [st], p.existing + {out})), done + [st];
  }

  /** Once the tile loop has raised, it stays raised: the error of a prefix is the error of the whole. */
  lemma {:induction false} TilePassStops(fs: seq<string>, n: nat, rgn: string, res: real, scratch: string,
                                         existing: set<string>, overwrite: bool)
    requires 0 < n <= |fs| && TilePass(fs[..n], rgn, res, scratch, existing, overwrite).Err?
    ensures TilePass(fs, rgn, res, scratch, existing, overwrite) == TilePass(fs[..n], rgn, res, scratch, existing, overwrite)
    decreases |fs| - n
  {
    if n < |fs| {
      assert fs[..n + 1][..n] == fs[..n];
      TilePassStops(fs, n + 1, rgn, res, scratch, existing, overwrite);
    } else {
      assert fs[..n] == fs;
    }
  }

  /** Once the region loop has raised, it stays raised. */
  lemma {:induction false} RegionsPassStops(rgns: seq<string>, n: nat, table: map<string, Constants.RegionSpec>,
                                            fs: seq<string>, scratch: string, existing: set<string>, overwrite: bool)
    requires 0 < n <= |rgns| && RegionsPass(rgns[..n], table, fs, scratch, existing, overwrite).Err?
    ensures RegionsPass(rgns, table, fs, scratch, existing, overwrite) == RegionsPass(rgns[..n], table, fs, scratch, existing, overwrite)
    decreases |rgns| - n
  {
    if n < |rgns| {
      assert rgns[..n + 1][..n] == rgns[..n];
      RegionsPassStops(rgns, n + 1, table, fs, scratch, existing, overwrite);
    } else {
      assert rgns[..n] == rgns;
    }
  }

  /** The region loop of `preprocess`, run in the session e where GDAL reads `tiles(f)` from the file f. */
  method PreprocessRegions(e: Engine, rgns: seq<string>, table: map<string, Constants.RegionSpec>, fs: seq<string>,
                           scratch: string, existing: set<string>, overwrite: bool, tiles: string -> Map)
    returns (r: Result<Preprocessed>, ghost done: seq<Step>)
    modifies e
    ensures r == RegionsPass(rgns, table, fs, scratch, existing, overwrite)
    ensures Traced(old(e.maps), old(e.log), old(e.region), done, tiles, e.maps, e.log, e.region)
    ensures r.Ok? ==> done == r.value.steps
    ensures e.mask == old(e.mask) && e.saved == old(e.saved) && e.files == old(e.files)
  {
    ghost var m0, log0, region0 := e.maps, e.log, e.region;
    r := Ok(Preprocessed(map[], [], existing));
    done := [];
    var i := 0;
    TracedNone(m0, log0, region0, tiles);
    while i < |rgns| && r.Ok?
      invariant 0 <= i <= |rgns|
      invariant r == RegionsPass(rgns[..i], table, fs, scratch, existing, overwrite)
      invariant Traced(m0, log0, region0, done, tiles, e.maps, e.log, e.region)
      invariant r.Ok? ==> done == r.value.steps
      invariant e.mask == old(e.mask) && e.saved == old(e.saved) && e.files == old(e.files)
    {
      r, done := PreprocessRegion(e, rgns, i, table, fs, scratch, existing, overwrite, tiles, r.value, m0, log0, region0);
      i := i + 1;
    }
    if r.Err? {
      RegionsPassStops(rgns, i, table, fs, scratch, existing, overwrite);
    } else {
      assert rgns[..i] == rgns;
    }
  }

  /**
   * One pass of the region loop: look the region up, run its tiles, and
   * build its VRT unless the VRT is kept.
   */
  method PreprocessRegion(e: Engine, rgns: seq<string>, i: nat, table: map<string, Constants.RegionSpec>,
                          fs: seq<string>, scratch: string, existing: set<string>, overwrite: bool, tiles: string -> Map,
                          q: Preprocessed, ghost m0: map<string, Map>, ghost log0: seq<Command>, ghost region0: Region)
    returns (r: Result<Preprocessed>, ghost done: seq<Step>)
    requires i < |rgns| && RegionsPass(rgns[..i], table, fs, scratch, existing, overwrite) == Ok(q)
    requires Traced(m0, log0, region0, q.steps, tiles, e.maps, e.log, e.region)
    modifies e
    ensures r == RegionsPass(rgns[..i + 1], table, fs, scratch, existing, overwrite)
    ensures Traced(m0, log0, region0, done, tiles, e.maps, e.log, e.region)
    ensures r.Ok? ==> done == r.value.steps
    ensures e.mask == old(e.mask) && e.saved == old(e.saved) && e.files == old(e.files)
  {
    RegionsPassNext(rgns, i, table, fs, scratch, existing, overwrite);
    done := q.steps;
    var rgn := rgns[i];
    if rgn !in table {
      return Err(KeyError(rgn)), done;
    }
    var res := table[rgn].res;
    var pass;
    pass, done := ProcessTiles(e, fs, rgn, res, scratch, q.existing, overwrite, tiles, q.steps, m0, log0, region0);
    if pass.Err? {
      return Err(pass.error), done;
    }
    var p := pass.value;
    var vrt := VrtFile(scratch, rgn);
    if vrt in p.existing && !overwrite {
      return Ok(Preprocessed(q.vrts[rgn := vrt], q.steps + p.steps, p.existing)), done;
    }
    TracedVrt(m0, log0, region0, done, BuildVrt(vrt, p.outfiles, res), tiles, e.maps, e.log, e.region);
    return Ok(Preprocessed(q.vrts[rgn := vrt], q.steps + p.steps + [BuildVrt(vrt, p.outfiles, res)], p.existing + {vrt})),
      done + [BuildVrt(vrt, p.outfiles, res)];
  }

  /** A region missing from the table, or whose tiles fail, ends `preprocess` with that error. */
  lemma RegionsPassFails(rgns: seq<string>, i: nat, table: map<string, Constants.RegionSpec>, fs: seq<string>,
                         scratch: string, existing: set<string>, overwrite: bool, q: Preprocessed)
    requires i < |rgns| && RegionsPass(rgns[..i], table, fs, scratch, existing, overwrite) == Ok(q)
    requires rgns[i] in table ==> TilePass(fs, rgns[i], table[rgns[i]].res, scratch, q.existing, overwrite).Err?
    ensures RegionsPass(rgns, table, fs, scratch, existing, overwrite) ==
      if rgns[i] !in table then Err(KeyError(rgns[i]))
      else Err(TilePass(fs, rgns[i], table[rgns[i]].res, scratch, q.existing, overwrite).error)
  {
    assert rgns[..i + 1][..i] == rgns[..i];
    RegionsPassStops(rgns, i + 1, table, fs, scratch, existing, overwrite);
  }

  // ---- the tile loop in the GRASS session ----

  /** `merit_dem`: the map each tile is imported into, replacing the tile before it. */
  const TileImport: string := "merit_dem"

  /**
   * The commands the tile loop issues for a step: for a tile, `r.in.gdal`
   * into merit_dem, `g.region raster=merit_dem res=`, `r.resamp.stats
   * method=average` into the tile's map and `r.out.gdal`; building a VRT
   * is GDAL's alone and issues none.
   */
  function StepCommands(st: Step): seq<Command>
  {
    match st
    case AverageTile(input, mapname, outfile, res) =>
      [Import(input, TileImport), RegionFromRasterRes(TileImport, res), ResampStats(TileImport, mapname, Average, false),
       Export(mapname, outfile)]
    case BuildVrt(_, _, _) => []
  }

  /** The commands of the steps, in order. */
  function StepsLog(steps: seq<Step>): seq<Command>
  {
    if |steps| == 0 then [] else StepsLog(steps[..|steps| - 1]) + StepCommands(steps[|steps| - 1])
  }

  /** The last tile the steps average, if any. */
  function LastTile(steps: seq<Step>): (r: Option<Step>)
    ensures r.Some? ==> r.value.AverageTile?
  {
    if |steps| == 0 then None
    else if steps[|steps| - 1].AverageTile? then Some(steps[|steps| - 1])
    else LastTile(steps[..|steps| - 1])
  }

  /** The last step that averages a tile into the map k, if any. */
  function LastFor(steps: seq<Step>, k: string): (r: Option<Step>)
    ensures r.Some? ==> r.value.AverageTile? && r.value.mapname == k
  {
    if |steps| == 0 then None
    else if steps[|steps| - 1].AverageTile? && steps[|steps| - 1].mapname == k then Some(steps[|steps| - 1])
    else LastFor(steps[..|steps| - 1], k)
  }

  /** The region the steps leave: the bounds of the last tile averaged at its region's cell size, or region0. */
  function TilesRegion(steps: seq<Step>, region0: Region, tiles: string -> Map): Region
  {
    match LastTile(steps)
    case None => region0
    case Some(st) => WithRes(tiles(st.input).region, st.res)
  }

  /**
   * The map a tile step leaves under its name, where GDAL reads `tiles(f)`
   * from the file f: it lies in the tile's bounds at the region's cell
   * size, and it is the block average of the tile when the grids nest.
   */
  ghost predicate Averaged(maps: map<string, Map>, st: Step, tiles: string -> Map)
    requires st.AverageTile?
  {
    var src := tiles(st.input);
    var dst := WithRes(src.region, st.res);
    st.mapname in maps && maps[st.mapname].region == dst &&
    (ResampleOutcome(src, dst, Average).Exact? ==> maps[st.mapname] == ResampleOutcome(src, dst, Average).result)
  }

  /** What one tile step does to the catalogue: merit_dem is the tile, its map the average, and nothing else changes. */
  ghost predicate TileRan(before: map<string, Map>, after: map<string, Map>, st: Step, tiles: string -> Map)
    requires st.AverageTile?
  {
    TileImport in after && after[TileImport] == tiles(st.input) && Averaged(after, st, tiles) &&
    forall k :: k != TileImport && k != st.mapname ==> Agree(after, before, k)
  }

  /**
   * The catalogue after the steps, from m0: merit_dem holds the last tile
   * imported, each tile map the last average written to it, and every
   * other map is as it was.
   */
  ghost predicate TileMaps(m0: map<string, Map>, maps: map<string, Map>, steps: seq<Step>, tiles: string -> Map)
  {
    (forall k :: k != TileImport && LastFor(steps, k).None? ==> Agree(maps, m0, k)) &&
    (forall k :: LastFor(steps, k).Some? ==> k != TileImport && Averaged(maps, LastFor(steps, k).value, tiles)) &&
    match LastTile(steps)
    case None => Agree(maps, m0, TileImport)
    case Some(st) => TileImport in maps && maps[TileImport] == tiles(st.input)
  }

  /** The session the steps leave, started from the catalogue m0, the log log0 and the region region0. */
  ghost predicate Traced(m0: map<string, Map>, log0: seq<Command>, region0: Region, steps: seq<Step>, tiles: string -> Map,
                         maps: map<string, Map>, log: seq<Command>, region: Region)
  {
    TileMaps(m0, maps, steps, tiles) && log == log0 + StepsLog(steps) && region == TilesRegion(steps, region0, tiles)
  }

  /** One tile in the session: import it, set the region from it at the cell size, average it, export the average. */
  method AverageTileCmds(e: Engine, st: Step, tiles: string -> Map)
    requires st.AverageTile? && st.mapname != TileImport
    modifies e
    ensures TileRan(old(e.maps), e.maps, st, tiles)
    ensures e.log == old(e.log) + StepCommands(st)
    ensures e.region == WithRes(tiles(st.input).region, st.res)
    ensures e.mask == old(e.mask) && e.saved == old(e.saved) && e.files == old(e.files)
  {
    var _ := e.ImportCmd(st.input, TileImport, Some(tiles(st.input)), true);
    e.RegionFromRasterResCmd(TileImport, st.res);
    e.ResampStatsCmd(TileImport, st.mapname, Average, false, true);
    e.ExportCmd(st.mapname, st.outfile);
  }

  /** One tile run after the steps extends the session they left. */
  method RunTile(e: Engine, st: Step, tiles: string -> Map, ghost steps: seq<Step>, ghost m0: map<string, Map>,
                 ghost log0: seq<Command>, ghost region0: Region)
    requires st.AverageTile? && st.mapname != TileImport
    requires Traced(m0, log0, region0, steps, tiles, e.maps, e.log, e.region)
    modifies e
    ensures Traced(m0, log0, region0, steps + [st], tiles, e.maps, e.log, e.region)
    ensures e.mask == old(e.mask) && e.saved == old(e.saved) && e.files == old(e.files)
  {
    ghost var before, log1, region1 := e.maps, e.log, e.region;
    AverageTileCmds(e, st, tiles);
    TracedTile(m0, log0, region0, steps, st, tiles, before, log1, region1, e.maps, e.log, e.region);
  }

  /** The step appended last decides the log, the last tile and the last step per map. */
  lemma StepsSnoc(steps: seq<Step>, st: Step)
    ensures StepsLog(steps + [st]) == StepsLog(steps) + StepCommands(st)
    ensures LastTile(steps + [st]) == if st.AverageTile? then Some(st) else LastTile(steps)
    ensures forall k :: LastFor(steps + [st], k) == if st.AverageTile? && st.mapname == k then Some(st) else LastFor(steps, k)
  {
    assert (steps + [st])[..|steps|] == steps;
  }

  /** No steps leave the session as it was. */
  lemma TracedNone(m0: map<string, Map>, log0: seq<Command>, region0: Region, tiles: string -> Map)
    ensures Traced(m0, log0, region0, [], tiles, m0, log0, region0)
  {
  }

  /** A tile run after the steps extends their trace. */
  lemma TracedTile(m0: map<string, Map>, log0: seq<Command>, region0: Region, steps: seq<Step>, st: Step,
                   tiles: string -> Map, before: map<string, Map>, log1: seq<Command>, region1: Region,
                   maps: map<string, Map>, log: seq<Command>, region: Region)
    requires Traced(m0, log0, region0, steps, tiles, before, log1, region1)
    requires st.AverageTile? && st.mapname != TileImport && TileRan(before, maps, st, tiles)
    requires log == log1 + StepCommands(st) && region == WithRes(tiles(st.input).region, st.res)
    ensures Traced(m0, log0, region0, steps + [st], tiles, maps, log, region)
  {
    StepsSnoc(steps, st);
    var s := steps + [st];
    forall k | k != TileImport && LastFor(s, k).None? ensures Agree(maps, m0, k) {
      assert Agree(maps, before, k) && Agree(before, m0, k);
    }
    forall k | LastFor(s, k).Some? ensures k != TileImport && Averaged(maps, LastFor(s, k).value, tiles) {
      if k != st.mapname {
        assert Agree(maps, before, k);
      }
    }
  }

  /** A VRT built after the steps leaves their trace as it was. */
  lemma TracedVrt(m0: map<string, Map>, log0: seq<Command>, region0: Region, steps: seq<Step>, st: Step,
                  tiles: string -> Map, maps: map<string, Map>, log: seq<Command>, region: Region)
    requires Traced(m0, log0, region0, steps, tiles, maps, log, region) && st.BuildVrt?
    ensures Traced(m0, log0, region0, steps + [st], tiles, maps, log, region)
  {
    StepsSnoc(steps, st);
  }

  // ---- read ----

  /** `{mapname}_tmp`: where `read` imports a region's VRT before copying it. */
  function Tmp(mapname: string): string
  {
    mapname + "_tmp"
  }

  /** What GDAL reads from a file, None when it cannot read it. */
  function RasterAt(rasters: map<string, Map>, file: string): Option<Map>
  {
    if file in rasters then Some(rasters[file]) else None
  }

  /**
   * The commands `read` issues for a region it does not skip: import,
   * copy, remove; with `own`, as corrected, `g.region raster=` on the
   * imported map comes before the copy.
   */
  function ReadSteps(input: string, mapname: string, own: bool): seq<Command>
  {
    [Import(input, Tmp(mapname))] + (if own then [RegionFromRaster(Tmp(mapname))] else []) +
    [Calc(mapname, [Tmp(mapname)]), Remove(Tmp(mapname))]
  }

  /**
   * The commands `read` issues for the first n regions when the maps named
   * in `keys` exist beforehand: nothing for a region whose map exists while
   * overwriting is off.
   */
  function ReadLog(rgns: seq<string>, n: nat, vrts: map<string, string>, keys: set<string>, overwrite: bool,
                   own: bool): seq<Command>
    requires n <= |rgns| && forall j :: 0 <= j < |rgns| ==> rgns[j] in vrts
  {
    if n == 0 then []
    else
      var g := rgns[n - 1];
      ReadLog(rgns, n - 1, vrts, keys, overwrite, own) +
      (if MapName(g) in keys && !overwrite then [] else ReadSteps(vrts[g], MapName(g), own))
  }

  /**
   * What `read` leaves for one map name mn, copied in the region `region`:
   * the map as it was when it existed and overwriting is off; otherwise no
   * temporary map, the map present in that region when its file could be
   * read and an exact copy of the file's raster when the raster lies in
   * that region and no mask is set, and the map untouched when the file
   * could not be read (and no stale temporary map stood in for it).
   */
  predicate Settled(before: map<string, Map>, after: map<string, Map>, mn: string, raster: Option<Map>,
                    overwrite: bool, region: Region, mask: Option<Mask>)
  {
    if mn in before && !overwrite then mn in after && after[mn] == before[mn]
    else
      Tmp(mn) !in after &&
      (raster.Some? ==>
        mn in after && after[mn].region == region &&
        (mask.None? && raster.value.region == region ==> after[mn] == raster.value)) &&
      (raster.None? && Tmp(mn) !in before ==> Agree(after, before, mn))
  }

  /** The region a region's map is copied in: with `own`, that of the raster read, else the current one. */
  function CopyIn(own: bool, raster: Option<Map>, region: Region): Region
  {
    if own && raster.Some? then raster.value.region else region
  }

  /**
   * The region `g.region raster={mapname}_tmp` leaves: the imported
   * raster's, or a stale temporary map's when the file could not be read.
   */
  function OwnRegion(before: map<string, Map>, mn: string, raster: Option<Map>, region: Region): Region
  {
    if raster.Some? then raster.value.region else if Tmp(mn) in before then before[Tmp(mn)].region else region
  }

  /** The region after `read` has handled the first n regions, started in region0. */
  function RegionAfterRead(rgns: seq<string>, n: nat, vrts: map<string, string>, rasters: map<string, Map>,
                           m0: map<string, Map>, overwrite: bool, own: bool, region0: Region): Region
    requires n <= |rgns| && forall j :: 0 <= j < |rgns| ==> rgns[j] in vrts
  {
    if n == 0 then region0
    else
      var prev := RegionAfterRead(rgns, n - 1, vrts, rasters, m0, overwrite, own, region0);
      var mn := MapName(rgns[n - 1]);
      if !own || (mn in m0 && !overwrite) then prev
      else OwnRegion(m0, mn, RasterAt(rasters, vrts[rgns[n - 1]]), prev)
  }

  /** As written, `read` never changes the region. */
  lemma {:induction false} RegionAfterFixed(rgns: seq<string>, n: nat, vrts: map<string, string>,
                                            rasters: map<string, Map>, m0: map<string, Map>, overwrite: bool,
                                            region0: Region)
    requires n <= |rgns| && forall j :: 0 <= j < |rgns| ==> rgns[j] in vrts
    ensures RegionAfterRead(rgns, n, vrts, rasters, m0, overwrite, false, region0) == region0
  {
    if n > 0 {
      RegionAfterFixed(rgns, n - 1, vrts, rasters, m0, overwrite, region0);
    }
  }

  /** The map names `read` may change for the first n regions: each map and its temporary map. */
  function Touched(rgns: seq<string>, n: nat): set<string>
    requires n <= |rgns|
  {
    if n == 0 then {}
    else Touched(rgns, n - 1) + {MapName(rgns[n - 1]), Tmp(MapName(rgns[n - 1]))}
  }

  /** A name is touched exactly when it is the map or the temporary map of one of the first n regions. */
  lemma {:induction false} TouchedMeaning(rgns: seq<string>, n: nat, k: string)
    requires n <= |rgns|
    ensures k in Touched(rgns, n) <==> exists j :: 0 <= j < n && (k == MapName(rgns[j]) || k == Tmp(MapName(rgns[j])))
  {
    if n > 0 {
      TouchedMeaning(rgns, n - 1, k);
    }
  }

  /**
   * One pass of the loop of `read`: skip the region when exactly one map
   * matches its name and overwriting is off; otherwise import the VRT to
   * the temporary map, copy it with `r.mapcalc`, and remove the temporary
   * map. The errors of the import and of the copy are swallowed. As
   * written the copy runs in the current region; with `own` the region is
   * first set from the temporary map.
   */
  method ReadRegion(e: Engine, input: string, mapname: string, raster: Option<Map>, overwrite: bool, own: bool)
    returns (skipped: bool)
    modifies e
    ensures skipped == (GrassUtils.MapExists(old(e.maps), mapname) && !overwrite)
    ensures skipped ==> e.maps == old(e.maps) && e.log == old(e.log)
    ensures !skipped ==> e.log == old(e.log) + ReadSteps(input, mapname, own)
    ensures !skipped ==> Settled(old(e.maps), e.maps, mapname, raster, true, CopyIn(own, raster, old(e.region)), e.mask)
    ensures forall k :: k != mapname && k != Tmp(mapname) ==> Agree(e.maps, old(e.maps), k)
    ensures e.region == if skipped || !own then old(e.region) else OwnRegion(old(e.maps), mapname, raster, old(e.region))
    ensures e.mask == old(e.mask) && e.saved == old(e.saved) && e.files == old(e.files)
  {
    var maplist := GrassUtils.MapList(e.maps, mapname);
    if |maplist| == 1 && !overwrite {
      return true;
    }
    var tmp := Tmp(mapname);
    assert |tmp| == |mapname| + 4;
    var m0, log0 := e.maps, e.log;
    var _ := e.ImportCmd(input, tmp, raster, true);
    if own {
      e.RegionFromRasterCmd(tmp);
    }
    var m1, log1 := e.maps, e.log;
    var _ := e.CalcRaising(mapname, [tmp], Copy, true);
    var m2 := e.maps;
    if raster.Some? && e.mask.None? && raster.value.region == e.region {
      CopiedRaster(m1, e.region, mapname, tmp, raster.value, m2);
    }
    e.RemoveNamedCmd(tmp);
    ReadSettled(m0, m1, m2, e.maps, mapname, raster, e.region, e.mask);
    Extended2(log1, Calc(mapname, [tmp]), Remove(tmp), e.log);
    skipped := false;
  }

  /** Two commands appended one at a time are the two appended together. */
  lemma Extended2(log0: seq<Command>, a: Command, b: Command, log: seq<Command>)
    requires log == log0 + [a] + [b]
    ensures log == log0 + [a, b]
  {
  }

  /** `r.mapcalc` copying the imported map over a map of the current region reproduces the raster. */
  lemma CopiedRaster(m1: map<string, Map>, region: Region, mapname: string, tmp: string, raster: Map,
                     m2: map<string, Map>)
    requires tmp in m1 && m1[tmp] == raster && raster.region == region
    requires CalcMaps(m1, None, region, mapname, [tmp], Copy, true) == Some(m2)
    ensures mapname in m2 && m2[mapname] == raster
  {
    CalcOneCells(m1, region, mapname, tmp, Copy, true, m2);
    assert m2[mapname].cells == raster.cells;
  }

  /** The map-level effect of an import, a copy in `region` and a removal of the temporary map, as `read` runs them. */
  lemma ReadSettled(m0: map<string, Map>, m1: map<string, Map>, m2: map<string, Map>, m3: map<string, Map>,
                    mn: string, raster: Option<Map>, region: Region, mask: Option<Mask>)
    requires m1 == (if raster.Some? then Store(m0, Tmp(mn), raster.value, true) else m0)
    requires m2.Keys == (if CalcFails(m1.Keys, mn, [Tmp(mn)], true) then m1.Keys else m1.Keys + {mn})
    requires forall k :: k != mn && k in m2 ==> m2[k] == m1[k]
    requires CalcFails(m1.Keys, mn, [Tmp(mn)], true) ==> m2 == m1
    requires !CalcFails(m1.Keys, mn, [Tmp(mn)], true) ==> mn in m2 && m2[mn].region == region
    requires raster.Some? && mask.None? && raster.value.region == region ==> mn in m2 && m2[mn] == raster.value
    requires m3 == m2 - {Tmp(mn)}
    ensures Settled(m0, m3, mn, raster, true, region, mask)
    ensures forall k :: k != mn && k != Tmp(mn) ==> Agree(m3, m0, k)
  {
    assert |Tmp(mn)| == |mn| + 4;
    if raster.Some? {
      assert Tmp(mn) in m1;
      assert !CalcFails(m1.Keys, mn, [Tmp(mn)], true);
    } else if Tmp(mn) !in m0 {
      assert [Tmp(mn)][0] !in m1.Keys;
      assert CalcFails(m1.Keys, mn, [Tmp(mn)], true);
    }
  }

  /** Distinct regions have distinct map names. */
  lemma MapNameInjective(g: string, h: string)
    ensures MapName(g) == MapName(h) ==> g == h
  {
    if MapName(g) == MapName(h) {
      assert g == MapName(g)[10..] && h == MapName(h)[10..];
    }
  }

  /** A temporary map name determines the map it stands for. */
  lemma TmpInjective(a: string, b: string)
    ensures Tmp(a) == Tmp(b) ==> a == b
  {
    if Tmp(a) == Tmp(b) {
      assert a == Tmp(a)[..|a|] && b == Tmp(b)[..|b|];
    }
  }

  /** Distinct region names, all of one length. */
  predicate Apart(rgns: seq<string>)
  {
    (forall i, j :: 0 <= i < j < |rgns| ==> rgns[i] != rgns[j]) &&
    (forall i :: 0 <= i < |rgns| ==> |rgns[i]| == |rgns[0]|)
  }

  /** The three MERIT regions are apart. */
  lemma MeritRegionsApart()
    ensures Apart(MeritRegions)
  {
  }

  /** The map names of the MERIT regions hold no wildcard. */
  lemma MeritNamesPlain()
    ensures forall j :: 0 <= j < |MeritRegions| ==> '*' !in MapName(MeritRegions[j])
  {
    var p := "merit_dem_";
    assert '*' !in p;
    forall j | 0 <= j < |MeritRegions| ensures '*' !in MapName(MeritRegions[j]) {
      assert '*' !in MeritRegions[j];
    }
  }

  /**
   * The map names of two apart regions are distinct, and neither is the
   * other's temporary map, being four characters shorter.
   */
  lemma NamesApart(rgns: seq<string>, j: nat, i: nat)
    requires Apart(rgns) && j < i < |rgns|
    ensures MapName(rgns[j]) != MapName(rgns[i]) && Tmp(MapName(rgns[j])) != Tmp(MapName(rgns[i]))
    ensures MapName(rgns[j]) != Tmp(MapName(rgns[i])) && Tmp(MapName(rgns[j])) != MapName(rgns[i])
  {
    MapNameInjective(rgns[j], rgns[i]);
    TmpInjective(MapName(rgns[j]), MapName(rgns[i]));
    assert |rgns[j]| == |rgns[i]|;
  }

  /** Before `read` reaches region i, neither its map nor its temporary map has been touched. */
  lemma ReadStep(rgns: seq<string>, i: nat)
    requires Apart(rgns) && i < |rgns|
    ensures MapName(rgns[i]) !in Touched(rgns, i) && Tmp(MapName(rgns[i])) !in Touched(rgns, i)
  {
    TouchedMeaning(rgns, i, MapName(rgns[i]));
    TouchedMeaning(rgns, i, Tmp(MapName(rgns[i])));
    forall j | 0 <= j < i
      ensures MapName(rgns[j]) != MapName(rgns[i]) && Tmp(MapName(rgns[j])) != Tmp(MapName(rgns[i]))
      ensures MapName(rgns[j]) != Tmp(MapName(rgns[i])) && Tmp(MapName(rgns[j])) != MapName(rgns[i])
    {
      NamesApart(rgns, j, i);
    }
  }

  /** Every one of the first n regions has its map and temporary map touched. */
  lemma {:induction false} TouchedHas(rgns: seq<string>, n: nat, j: nat)
    requires j < n <= |rgns|
    ensures MapName(rgns[j]) in Touched(rgns, n) && Tmp(MapName(rgns[j])) in Touched(rgns, n)
  {
    if j < n - 1 {
      TouchedHas(rgns, n - 1, j);
    }
  }

  /** A settled map stays settled while neither it nor its temporary map changes. */
  lemma SettledStays(m0: map<string, Map>, before: map<string, Map>, after: map<string, Map>, mn: string,
                     raster: Option<Map>, overwrite: bool, region: Region, mask: Option<Mask>)
    requires Settled(m0, before, mn, raster, overwrite, region, mask)
    requires Agree(after, before, mn) && Agree(after, before, Tmp(mn))
    ensures Settled(m0, after, mn, raster, overwrite, region, mask)
  {
  }

  /**
   * A region `read` has just handled is settled relative to the catalogue
   * at the start, which its map and temporary map still agreed with.
   */
  lemma SettledNow(m0: map<string, Map>, before: map<string, Map>, after: map<string, Map>, mn: string,
                   raster: Option<Map>, overwrite: bool, region: Region, mask: Option<Mask>, skipped: bool)
    requires Agree(before, m0, mn) && Agree(before, m0, Tmp(mn))
    requires skipped == (mn in before && !overwrite)
    requires skipped ==> after == before
    requires !skipped ==> Settled(before, after, mn, raster, true, region, mask)
    ensures skipped == (mn in m0 && !overwrite)
    ensures Settled(m0, after, mn, raster, overwrite, region, mask)
  {
  }

  /** The first n regions' maps are settled relative to m0, each copied in the region CopyIn gives. */
  ghost predicate SettledUpTo(rgns: seq<string>, n: nat, vrts: map<string, string>, rasters: map<string, Map>,
                              overwrite: bool, own: bool, m0: map<string, Map>, maps: map<string, Map>, region0: Region,
                              mask: Option<Mask>)
    requires n <= |rgns| && forall j :: 0 <= j < |rgns| ==> rgns[j] in vrts
  {
    forall j :: 0 <= j < n ==>
      Settled(m0, maps, MapName(rgns[j]), RasterAt(rasters, vrts[rgns[j]]), overwrite,
              CopyIn(own, RasterAt(rasters, vrts[rgns[j]]), region0), mask)
  }

  /** No map outside those the first n regions touch differs from m0. */
  ghost predicate UntouchedUpTo(rgns: seq<string>, n: nat, m0: map<string, Map>, maps: map<string, Map>)
    requires n <= |rgns|
  {
    forall k :: k !in Touched(rgns, n) ==> Agree(maps, m0, k)
  }

  /** Without a raster to copy, what is settled does not depend on the region. */
  lemma SettledNoRaster(before: map<string, Map>, after: map<string, Map>, mn: string, overwrite: bool,
                        r1: Region, r2: Region, mask: Option<Mask>)
    requires Settled(before, after, mn, None, overwrite, r1, mask)
    ensures Settled(before, after, mn, None, overwrite, r2, mask)
  {
  }

  /**
   * One pass of `read`, run in the region `at` (region0 as written),
   * keeps the earlier regions settled, since their names are apart from
   * this region's, and settles this region.
   */
  lemma SettledAdvance(rgns: seq<string>, i: nat, vrts: map<string, string>, rasters: map<string, Map>, overwrite: bool,
                       own: bool, m0: map<string, Map>, before: map<string, Map>, after: map<string, Map>,
                       region0: Region, at: Region, mask: Option<Mask>, skipped: bool)
    requires Apart(rgns) && i < |rgns| && forall j :: 0 <= j < |rgns| ==> rgns[j] in vrts
    requires SettledUpTo(rgns, i, vrts, rasters, overwrite, own, m0, before, region0, mask)
    requires UntouchedUpTo(rgns, i, m0, before)
    requires !own ==> at == region0
    requires skipped == (MapName(rgns[i]) in before && !overwrite)
    requires skipped ==> after == before
    requires !skipped ==>
      Settled(before, after, MapName(rgns[i]), RasterAt(rasters, vrts[rgns[i]]), true,
              CopyIn(own, RasterAt(rasters, vrts[rgns[i]]), at), mask)
    requires forall k :: k != MapName(rgns[i]) && k != Tmp(MapName(rgns[i])) ==> Agree(after, before, k)
    ensures skipped == (MapName(rgns[i]) in m0 && !overwrite)
    ensures SettledUpTo(rgns, i + 1, vrts, rasters, overwrite, own, m0, after, region0, mask)
  {
    var mn := MapName(rgns[i]);
    var raster := RasterAt(rasters, vrts[rgns[i]]);
    ReadStep(rgns, i);
    SettledNow(m0, before, after, mn, raster, overwrite, CopyIn(own, raster, at), mask, skipped);
    if raster.None? {
      SettledNoRaster(m0, after, mn, overwrite, CopyIn(own, raster, at), CopyIn(own, raster, region0), mask);
    }
    forall j | 0 <= j < i + 1
      ensures Settled(m0, after, MapName(rgns[j]), RasterAt(rasters, vrts[rgns[j]]), overwrite,
                      CopyIn(own, RasterAt(rasters, vrts[rgns[j]]), region0), mask)
    {
      if j < i {
        NamesApart(rgns, j, i);
        SettledStays(m0, before, after, MapName(rgns[j]), RasterAt(rasters, vrts[rgns[j]]), overwrite,
                     CopyIn(own, RasterAt(rasters, vrts[rgns[j]]), region0), mask);
      }
    }
  }

  /** One pass of `read` changes no map outside those touched so far. */
  lemma UntouchedAdvance(rgns: seq<string>, i: nat, m0: map<string, Map>, before: map<string, Map>, after: map<string, Map>)
    requires i < |rgns|
    requires UntouchedUpTo(rgns, i, m0, before)
    requires forall k :: k != MapName(rgns[i]) && k != Tmp(MapName(rgns[i])) ==> Agree(after, before, k)
    ensures UntouchedUpTo(rgns, i + 1, m0, after)
  {
    forall k | k !in Touched(rgns, i + 1) ensures Agree(after, m0, k) {
      assert Agree(after, before, k) && Agree(before, m0, k);
    }
  }

  /** Appending to a log in two steps appends the two parts in order. */
  lemma LogGrows(log0: seq<Command>, done: seq<Command>, more: seq<Command>)
    ensures log0 + done + more == log0 + (done + more)
  {
  }

  /**
   * Where `read` stands after the first n regions, started from the
   * catalogue m0, the log log0 and the region region0: the log has grown
   * by their commands, their maps are settled, no other map has changed,
   * and the region is the one their copies left.
   */
  ghost predicate ReadUpTo(rgns: seq<string>, n: nat, vrts: map<string, string>, rasters: map<string, Map>,
                           overwrite: bool, own: bool, m0: map<string, Map>, log0: seq<Command>, region0: Region,
                           maps: map<string, Map>, log: seq<Command>, region: Region, mask: Option<Mask>)
    requires n <= |rgns| && forall j :: 0 <= j < |rgns| ==> rgns[j] in vrts
  {
    log == log0 + ReadLog(rgns, n, vrts, m0.Keys, overwrite, own) &&
    SettledUpTo(rgns, n, vrts, rasters, overwrite, own, m0, maps, region0, mask) &&
    UntouchedUpTo(rgns, n, m0, maps) &&
    region == RegionAfterRead(rgns, n, vrts, rasters, m0, overwrite, own, region0)
  }

  /** The body of the loop of `read`: handle region i. */
  method ReadNext(e: Engine, rgns: seq<string>, i: nat, vrts: map<string, string>, mn: string,
                  rasters: map<string, Map>, overwrite: bool, own: bool, ghost m0: map<string, Map>,
                  ghost log0: seq<Command>, ghost region0: Region)
    requires Apart(rgns) && i < |rgns| && (forall j :: 0 <= j < |rgns| ==> rgns[j] in vrts)
    requires mn == MapName(rgns[i]) && '*' !in mn
    requires ReadUpTo(rgns, i, vrts, rasters, overwrite, own, m0, log0, region0, e.maps, e.log, e.region, e.mask)
    modifies e
    ensures ReadUpTo(rgns, i + 1, vrts, rasters, overwrite, own, m0, log0, region0, e.maps, e.log, e.region, e.mask)
    ensures e.mask == old(e.mask) && e.saved == old(e.saved) && e.files == old(e.files)
  {
    GrassUtils.MapExistsName(e.maps, mn);
    ghost var before, at := e.maps, e.region;
    var raster := RasterAt(rasters, vrts[rgns[i]]);
    var skipped := ReadRegion(e, vrts[rgns[i]], mn, raster, overwrite, own);
    if !own {
      RegionAfterFixed(rgns, i, vrts, rasters, m0, overwrite, region0);
    }
    SettledAdvance(rgns, i, vrts, rasters, overwrite, own, m0, before, e.maps, region0, at, e.mask, skipped);
    UntouchedAdvance(rgns, i, m0, before, e.maps);
    ReadStep(rgns, i);
    assert Agree(before, m0, Tmp(mn));
    LogGrows(log0, ReadLog(rgns, i, vrts, m0.Keys, overwrite, own), if skipped then [] else ReadSteps(vrts[rgns[i]], mn, own));
  }

  /** As written and with overwriting on, `read` imports, copies and cleans up every region: three commands each. */
  lemma {:induction false} ReadLogOverwrite(rgns: seq<string>, n: nat, vrts: map<string, string>, keys: set<string>)
    requires n <= |rgns| && forall j :: 0 <= j < |rgns| ==> rgns[j] in vrts
    ensures |ReadLog(rgns, n, vrts, keys, true, false)| == 3 * n
    ensures forall t :: 0 <= t < n ==>
      ReadLog(rgns, n, vrts, keys, true, false)[3 * t] == Import(vrts[rgns[t]], Tmp(MapName(rgns[t])))
  {
    if n > 0 {
      ReadLogOverwrite(rgns, n - 1, vrts, keys);
    }
  }

  /**
   * `read` is idempotent without overwriting: once every region's VRT
   * could be read, every map exists, so a second `read` issues nothing.
   */
  lemma {:induction false} ReadAgainSkips(rgns: seq<string>, n: nat, vrts: map<string, string>, rasters: map<string, Map>,
                                          own: bool, m0: map<string, Map>, maps: map<string, Map>, region0: Region,
                                          mask: Option<Mask>)
    requires n <= |rgns| && forall j :: 0 <= j < |rgns| ==> rgns[j] in vrts
    requires forall j :: 0 <= j < |rgns| ==> vrts[rgns[j]] in rasters
    requires SettledUpTo(rgns, n, vrts, rasters, false, own, m0, maps, region0, mask)
    ensures ReadLog(rgns, n, vrts, maps.Keys, false, own) == []
    ensures forall j :: 0 <= j < n ==> MapName(rgns[j]) in maps
  {
    if n > 0 {
      var raster := RasterAt(rasters, vrts[rgns[n - 1]]);
      assert Settled(m0, maps, MapName(rgns[n - 1]), raster, false, CopyIn(own, raster, region0), mask);
      ReadAgainSkips(rgns, n - 1, vrts, rasters, own, m0, maps, region0, mask);
    }
  }

  /**
   * As written, `read` copies every VRT it reads in the region it starts
   * in; after `preprocess` averaged a tile, that is the tile's bounds at
   * the region's cell size (TilesRegion). So a map `read` replaces lies in
   * the last tile's bounds, and is not the VRT whenever the VRT's north
   * edge is not the tile's, as for a whole-globe VRT and a 5-degree tile.
   */
  lemma ReadClippedToTile(rgns: seq<string>, n: nat, vrts: map<string, string>, rasters: map<string, Map>,
                          overwrite: bool, m0: map<string, Map>, maps: map<string, Map>, steps: seq<Step>,
                          region0: Region, tiles: string -> Map, mask: Option<Mask>, j: nat)
    requires n <= |rgns| && (forall i :: 0 <= i < |rgns| ==> rgns[i] in vrts) && j < n
    requires SettledUpTo(rgns, n, vrts, rasters, overwrite, false, m0, maps, TilesRegion(steps, region0, tiles), mask)
    requires LastTile(steps).Some?
    requires RasterAt(rasters, vrts[rgns[j]]).Some? && (overwrite || MapName(rgns[j]) !in m0)
    ensures var tile := tiles(LastTile(steps).value.input).region;
      MapName(rgns[j]) in maps && maps[MapName(rgns[j])].region.n == tile.n && maps[MapName(rgns[j])].region.s == tile.s &&
      maps[MapName(rgns[j])].region.e == tile.e && maps[MapName(rgns[j])].region.w == tile.w
    ensures tiles(LastTile(steps).value.input).region.n != RasterAt(rasters, vrts[rgns[j]]).value.region.n ==>
      maps[MapName(rgns[j])] != RasterAt(rasters, vrts[rgns[j]]).value
  {
    var raster := RasterAt(rasters, vrts[rgns[j]]);
    assert Settled(m0, maps, MapName(rgns[j]), raster, overwrite, TilesRegion(steps, region0, tiles), mask);
  }

  /**
   * As corrected, with the region set from each imported VRT, every map
   * `read` replaces from a readable VRT is an exact copy of it when no
   * mask is set.
   */
  lemma OwnRegionCopies(rgns: seq<string>, n: nat, vrts: map<string, string>, rasters: map<string, Map>,
                        overwrite: bool, m0: map<string, Map>, maps: map<string, Map>, region0: Region, j: nat)
    requires n <= |rgns| && (forall i :: 0 <= i < |rgns| ==> rgns[i] in vrts) && j < n
    requires SettledUpTo(rgns, n, vrts, rasters, overwrite, true, m0, maps, region0, None)
    requires RasterAt(rasters, vrts[rgns[j]]).Some? && (overwrite || MapName(rgns[j]) !in m0)
    ensures MapName(rgns[j]) in maps && maps[MapName(rgns[j])] == RasterAt(rasters, vrts[rgns[j]]).value
  {
    var raster := RasterAt(rasters, vrts[rgns[j]]);
    assert Settled(m0, maps, MapName(rgns[j]), raster, overwrite, CopyIn(true, raster, region0), None);
  }

  /**
   * The regions are apart, each has its map name `merit_dem_{rgn}` (and
   * nothing else has one), and no map name holds a wildcard.
   */
  ghost predicate Named(rgns: seq<string>, mapnames: map<string, string>)
  {
    Apart(rgns) && (forall j :: 0 <= j < |rgns| ==> '*' !in MapName(rgns[j])) &&
    (forall g :: g in mapnames <==> g in rgns) &&
    (forall g :: g in mapnames ==> mapnames[g] == MapName(g))
  }

  /** The loop of `read` over the regions rgns, whose VRTs are vrts and whose map names are mapnames. */
  method ReadRegions(e: Engine, rgns: seq<string>, vrts: map<string, string>, mapnames: map<string, string>,
                     rasters: map<string, Map>, overwrite: bool, own: bool)
    requires Named(rgns, mapnames) && forall j :: 0 <= j < |rgns| ==> rgns[j] in vrts
    modifies e
    ensures ReadUpTo(rgns, |rgns|, vrts, rasters, overwrite, own, old(e.maps), old(e.log), old(e.region),
                     e.maps, e.log, e.region, e.mask)
    ensures e.mask == old(e.mask) && e.saved == old(e.saved) && e.files == old(e.files)
  {
    ghost var m0, log0, region0 := e.maps, e.log, e.region;
    var i := 0;
    while i < |rgns|
      invariant 0 <= i <= |rgns|
      invariant ReadUpTo(rgns, i, vrts, rasters, overwrite, own, m0, log0, region0, e.maps, e.log, e.region, e.mask)
      invariant e.mask == old(e.mask) && e.saved == old(e.saved) && e.files == old(e.files)
    {
      assert rgns[i] in rgns;
      ReadNext(e, rgns, i, vrts, mapnames[rgns[i]], rasters, overwrite, own, m0, log0, region0);
      i := i + 1;
    }
  }

  // ---- the dataset ----

  /** `'NoneType' object is not subscriptable`: `read` before `preprocess`. */
  const NotSubscriptable: string := "'NoneType' object is not subscriptable"

  /**
   * The MERIT DEM dataset: its tiles, the map name of each region, and the
   * VRT of each region once preprocessed. The recursive glob under the
   * data directory is the constructor's parameter `found`.
   */
  class MeritDem {
    const regions: seq<string>
    const scratchDirectory: string
    const overwrite: bool
    var filenames: seq<string>
    var mapnames: map<string, string>
    var preprocessedFilenames: Option<map<string, string>>

    /** Every region has its map name, and once preprocessed its VRT. */
    ghost predicate Valid()
      reads this
    {
      Named(regions, mapnames) &&
      (preprocessedFilenames.Some? ==> forall j :: 0 <= j < |regions| ==> regions[j] in preprocessedFilenames.value)
    }

    /** `MERITDEM(config, overwrite)`: find the tiles and name the maps; nothing is preprocessed yet. */
    constructor(scratchDirectory: string, overwrite: bool, found: seq<string>)
      ensures Valid()
      ensures regions == MeritRegions
      ensures this.scratchDirectory == scratchDirectory && this.overwrite == overwrite
      ensures filenames == Kept(found, AsWritten)
      ensures preprocessedFilenames == None
    {
      regions := MeritRegions;
      this.scratchDirectory := scratchDirectory;
      this.overwrite := overwrite;
      filenames := [];
      mapnames := map[];
      preprocessedFilenames := None;
      new;
      GetInputFilenames(found);
      SetMapnames();
      MeritRegionsApart();
      MeritNamesPlain();
    }

    /** `get_input_filenames`: the found files the tile-name pattern admits. */
    method GetInputFilenames(found: seq<string>)
      modifies this
      ensures filenames == Kept(found, AsWritten)
      ensures mapnames == old(mapnames) && preprocessedFilenames == old(preprocessedFilenames)
    {
      filenames := KeepTiles(found, AsWritten);
    }

    /** `set_mapnames`: `merit_dem_{rgn}` for every region. */
    method SetMapnames()
      modifies this
      ensures forall g :: g in mapnames <==> g in regions
      ensures forall g :: g in mapnames ==> mapnames[g] == MapName(g)
      ensures filenames == old(filenames) && preprocessedFilenames == old(preprocessedFilenames)
    {
      mapnames := CollectMapnames(regions);
    }

    /**
     * `preprocess` in the session e with the files in `existing` present,
     * where GDAL reads `tiles(f)` from the file f: on success the VRT of
     * every region is recorded and the session is the one the steps leave;
     * a raised error leaves the record as it was and the session as some
     * run of steps left it.
     */
    method Preprocess(e: Engine, table: map<string, Constants.RegionSpec>, existing: set<string>, tiles: string -> Map)
      returns (r: Result<Preprocessed>)
      requires Valid()
      modifies this, e
      ensures Valid()
      ensures r == RegionsPass(regions, table, filenames, scratchDirectory, existing, overwrite)
      ensures preprocessedFilenames == (if r.Ok? then Some(r.value.vrts) else old(preprocessedFilenames))
      ensures filenames == old(filenames) && mapnames == old(mapnames)
      ensures r.Ok? ==> Traced(old(e.maps), old(e.log), old(e.region), r.value.steps, tiles, e.maps, e.log, e.region)
      ensures r.Err? ==> exists steps :: Traced(old(e.maps), old(e.log), old(e.region), steps, tiles, e.maps, e.log, e.region)
      ensures e.mask == old(e.mask) && e.saved == old(e.saved) && e.files == old(e.files)
    {
      ghost var done;
      r, done := PreprocessRegions(e, regions, table, filenames, scratchDirectory, existing, overwrite, tiles);
      if r.Ok? {
        RegionsPassNames(regions, table, filenames, scratchDirectory, existing, overwrite, r.value);
        preprocessedFilenames := Some(r.value.vrts);
      }
    }

    /**
     * `initial`: `preprocess`, then `read` unless `preprocess` raised.
     * `mid` is the catalogue between the two; `read` starts in the region
     * the tile loop left.
     */
    method Initial(e: Engine, table: map<string, Constants.RegionSpec>, existing: set<string>, tiles: string -> Map,
                   rasters: map<string, Map>)
      returns (r: Result<Preprocessed>, ghost mid: map<string, Map>)
      requires Valid()
      modifies this, e
      ensures Valid()
      ensures r == RegionsPass(regions, table, filenames, scratchDirectory, existing, overwrite)
      ensures filenames == old(filenames) && mapnames == old(mapnames)
      ensures r.Err? ==> preprocessedFilenames == old(preprocessedFilenames)
      ensures r.Err? ==> exists steps :: Traced(old(e.maps), old(e.log), old(e.region), steps, tiles, e.maps, e.log, e.region)
      ensures r.Ok? ==> preprocessedFilenames == Some(r.value.vrts)
      ensures r.Ok? ==> TileMaps(old(e.maps), mid, r.value.steps, tiles)
      ensures r.Ok? ==> e.region == TilesRegion(r.value.steps, old(e.region), tiles)
      ensures r.Ok? ==>
        ReadUpTo(regions, |regions|, r.value.vrts, rasters, overwrite, false, mid, old(e.log) + StepsLog(r.value.steps),
                 TilesRegion(r.value.steps, old(e.region), tiles), e.maps, e.log, e.region, e.mask)
      ensures e.mask == old(e.mask) && e.saved == old(e.saved) && e.files == old(e.files)
    {
      r := Preprocess(e, table, existing, tiles);
      mid := e.maps;
      if r.Ok? {
        var _ := Read(e, rasters);
      }
    }

    /**
     * `read`, where GDAL reads `rasters[f]` from the file f: before
     * `preprocess` it raises TypeError and changes nothing; otherwise it
     * issues the commands of ReadLog, settles every region's map copied in
     * the current region, and leaves every other map, the region and the
     * mask alone.
     */
    method Read(e: Engine, rasters: map<string, Map>) returns (r: Result<()>)
      requires Valid()
      modifies e
      ensures r.Ok? <==> preprocessedFilenames.Some?
      ensures r.Err? ==> r.error == TypeError(NotSubscriptable) && e.maps == old(e.maps) && e.log == old(e.log)
      ensures r.Ok? ==> ReadUpTo(regions, |regions|, preprocessedFilenames.value, rasters, overwrite, false, old(e.maps),
                                 old(e.log), old(e.region), e.maps, e.log, e.region, e.mask)
      ensures e.region == old(e.region) && e.mask == old(e.mask) && e.saved == old(e.saved) && e.files == old(e.files)
    {
      if preprocessedFilenames.None? {
        return Err(TypeError(NotSubscriptable));
      }
      ReadRegions(e, regions, preprocessedFilenames.value, mapnames, rasters, overwrite, false);
      RegionAfterFixed(regions, |regions|, preprocessedFilenames.value, rasters, old(e.maps), overwrite, old(e.region));
      return Ok(());
    }

    /**
     * `read` as corrected: each region's VRT is copied in its own region
     * (`g.region raster={mapname}_tmp` before the copy), so with no mask
     * every map replaced from a readable VRT is that VRT (OwnRegionCopies).
     */
    method ReadInOwnRegion(e: Engine, rasters: map<string, Map>) returns (r: Result<()>)
      requires Valid()
      modifies e
      ensures r.Ok? <==> preprocessedFilenames.Some?
      ensures r.Err? ==> r.error == TypeError(NotSubscriptable) && e.maps == old(e.maps) && e.log == old(e.log)
      ensures r.Ok? ==> ReadUpTo(regions, |regions|, preprocessedFilenames.value, rasters, overwrite, true, old(e.maps),
                                 old(e.log), old(e.region), e.maps, e.log, e.region, e.mask)
      ensures e.mask == old(e.mask) && e.saved == old(e.saved) && e.files == old(e.files)
    {
      if preprocessedFilenames.None? {
        return Err(TypeError(NotSubscriptable));
      }
      ReadRegions(e, regions, preprocessedFilenames.value, mapnames, rasters, overwrite, true);
      return Ok(());
    }
  }
}
