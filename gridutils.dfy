// Cell coordinates of the current region (jamr/utils/utils.py): the
// centres `raster2array` computes for the columns and rows, the cell edges
// `get_lat_lon_bnds` spreads evenly over an extent, and the 2-D grids of
// `get_lat_lon_grids`.
module GridUtils {
  import Grass

  // ---- get_lat_lon_bnds ----

  /** The spacing of k evenly spread points from a to b. */
  function Spacing(a: real, b: real, k: nat): real
    requires k >= 2
  {
    (b - a) / (k - 1) as real
  }

  /** `np.linspace(a, b, num=k, endpoint=True)`: k points from a to b, evenly spaced. */
  function Linspace(a: real, b: real, k: nat): (r: seq<real>)
    ensures |r| == k
  {
    if k == 1 then [a]
    else seq(k, i requires 0 <= i < k => a + i as real * Spacing(a, b, k))
  }

  /**
   * `get_lat_lon_bnds(vals, (lo, hi))`: |vals| + 1 edges from lo to hi,
   * and cell i spans edges i and i + 1.
   */
  function Bounds(vals: seq<real>, lo: real, hi: real): (b: seq<(real, real)>)
    ensures |b| == |vals|
  {
    var edge := Linspace(lo, hi, |vals| + 1);
    seq(|vals|, i requires 0 <= i < |vals| => (edge[i], edge[i + 1]))
  }

  lemma ProductStep(i: real, h: real)
    ensures (i + 1.0) * h == i * h + h
  {
  }

  lemma LastPoint(a: real, b: real, k: nat)
    requires k >= 2
    ensures a + (k - 1) as real * Spacing(a, b, k) == b
  {
  }

  /**
   * The bounds tile the extent: the first cell starts at lo, the last ends
   * at hi, each cell ends where the next begins, and all cells are
   * (hi - lo) / n wide.
   */
  lemma BoundsTile(vals: seq<real>, lo: real, hi: real)
    ensures |vals| > 0 ==> Bounds(vals, lo, hi)[0].0 == lo && Bounds(vals, lo, hi)[|vals| - 1].1 == hi
    ensures forall i :: 0 <= i < |vals| - 1 ==> Bounds(vals, lo, hi)[i].1 == Bounds(vals, lo, hi)[i + 1].0
    ensures forall i :: 0 <= i < |vals| ==>
      Bounds(vals, lo, hi)[i].1 - Bounds(vals, lo, hi)[i].0 == (hi - lo) / |vals| as real
  {
    var n := |vals|;
    if n > 0 {
      var b := Bounds(vals, lo, hi);
      var h := Spacing(lo, hi, n + 1);
      assert h == (hi - lo) / n as real;
      LastPoint(lo, hi, n + 1);
      forall i | 0 <= i < n
        ensures b[i].1 - b[i].0 == (hi - lo) / n as real
      {
        ProductStep(i as real, h);
      }
    }
  }

  /** From lo up to hi the cells climb, and from lo down to hi they descend. */
  lemma BoundsOrdered(vals: seq<real>, lo: real, hi: real)
    ensures lo < hi ==> forall i :: 0 <= i < |vals| ==> Bounds(vals, lo, hi)[i].0 < Bounds(vals, lo, hi)[i].1
    ensures hi < lo ==> forall i :: 0 <= i < |vals| ==> Bounds(vals, lo, hi)[i].1 < Bounds(vals, lo, hi)[i].0
  {
    BoundsTile(vals, lo, hi);
    if |vals| > 0 {
      assert lo < hi ==> (hi - lo) / |vals| as real > 0.0;
      assert hi < lo ==> (hi - lo) / |vals| as real < 0.0;
    }
  }

  // ---- get_lat_lon_grids ----

  /** `np.ones(n)`. */
  function Ones(n: nat): (r: seq<real>)
    ensures |r| == n
  {
    seq(n, _ => 1.0)
  }

  /** NumPy's broadcast product `col[:, None] * row[None, :]`. */
  function Outer(col: seq<real>, row: seq<real>): (m: seq<seq<real>>)
    ensures |m| == |col| && forall i :: 0 <= i < |col| ==> |m[i]| == |row|
  {
    seq(|col|, i requires 0 <= i < |col| => seq(|row|, j requires 0 <= j < |row| => col[i] * row[j]))
  }

  /**
   * `get_lat_lon_grids(lat, lon)`: two |lat| x |lon| grids, the first
   * holding each cell's longitude (constant down a column) and the second
   * its latitude (constant along a row).
   */
  function LatLonGrids(lat: seq<real>, lon: seq<real>): (g: (seq<seq<real>>, seq<seq<real>>))
    ensures |g.0| == |lat| && |g.1| == |lat|
    ensures forall i :: 0 <= i < |lat| ==> |g.0[i]| == |lon| && |g.1[i]| == |lon|
    ensures forall i, j :: 0 <= i < |lat| && 0 <= j < |lon| ==> g.0[i][j] == lon[j]
    ensures forall i, j :: 0 <= i < |lat| && 0 <= j < |lon| ==> g.1[i][j] == lat[i]
  {
    (Outer(Ones(|lat|), lon), Outer(lat, Ones(|lon|)))
  }

  // ---- raster2array's coordinates ----

  /** `np.arange(k) * res + start + res / 2.`: the centres of k cells of size res from start. */
  function Centres(start: real, res: real, k: nat): (c: seq<real>)
    ensures |c| == k
  {
    seq(k, i requires 0 <= i < k => i as real * res + start + res / 2.0)
  }

  /** `s[::-1]`. */
  function Reverse(s: seq<real>): (r: seq<real>)
    ensures |r| == |s|
  {
    seq(|s|, i requires 0 <= i < |s| => s[|s| - 1 - i])
  }

  lemma ReverseAt(s: seq<real>, i: nat)
    requires i < |s|
    ensures Reverse(s)[i] == s[|s| - 1 - i]
  {
  }

  /** Cell centres along both axes and the bounds of every cell. */
  datatype Coords = Coords(x: seq<real>, y: seq<real>, xBounds: seq<(real, real)>, yBounds: seq<(real, real)>)

  /**
   * The coordinates `raster2array` returns for the current region, whose
   * `rows` and `cols` are the counts g.region reports: x centres west to
   * east, y centres north to south, and the bounds of each spread over the
   * region's extent (y from north to south).
   */
  function RasterCoords(r: Grass.Region, rows: nat, cols: nat): (c: Coords)
    ensures |c.x| == cols && |c.xBounds| == cols && |c.y| == rows && |c.yBounds| == rows
  {
    var x := Centres(r.w, r.ewres, cols);
    var y := Reverse(Centres(r.s, r.nsres, rows));
    Coords(x, y, Bounds(x, r.w, r.e), Bounds(y, r.n, r.s))
  }

  /** Column i is centred half a cell east of its west edge. */
  lemma ColumnCentres(r: Grass.Region, rows: nat, cols: nat)
    ensures forall i :: 0 <= i < cols ==> RasterCoords(r, rows, cols).x[i] == r.w + (i as real + 0.5) * r.ewres
  {
  }

  /** Row i is counted from the north: it lies rows - 1 - i cells and a half north of the south edge. */
  lemma RowCentres(r: Grass.Region, rows: nat, cols: nat)
    ensures forall i :: 0 <= i < rows ==>
      RasterCoords(r, rows, cols).y[i] == r.s + ((rows - 1 - i) as real + 0.5) * r.nsres
  {
    var c := RasterCoords(r, rows, cols);
    assert c.y == Reverse(Centres(r.s, r.nsres, rows));
    forall i | 0 <= i < rows
      ensures c.y[i] == r.s + ((rows - 1 - i) as real + 0.5) * r.nsres
    {
      RowCentre(r.s, r.nsres, rows, i);
    }
  }

  /** With a positive cell size the first row is the northernmost and the rows descend. */
  lemma RowsDescend(r: Grass.Region, rows: nat, cols: nat)
    requires r.nsres > 0.0
    ensures forall i :: 0 <= i < rows - 1 ==> RasterCoords(r, rows, cols).y[i + 1] < RasterCoords(r, rows, cols).y[i]
  {
    var y := Reverse(Centres(r.s, r.nsres, rows));
    assert RasterCoords(r, rows, cols).y == y;
    forall i | 0 <= i < rows - 1
      ensures y[i + 1] < y[i]
    {
      RowCentre(r.s, r.nsres, rows, i);
      RowCentre(r.s, r.nsres, rows, i + 1);
      Descends(r.s, r.nsres, (rows - 1 - (i + 1)) as real, (rows - 1 - i) as real, y[i + 1], y[i]);
    }
  }

  /** Row i of the reversed centres lies rows - 1 - i cells and a half from start. */
  lemma RowCentre(start: real, res: real, rows: nat, i: nat)
    requires i < rows
    ensures Reverse(Centres(start, res, rows))[i] == start + ((rows - 1 - i) as real + 0.5) * res
  {
    var k := rows - 1 - i;
    assert Reverse(Centres(start, res, rows))[i] == k as real * res + start + res / 2.0 by {
      ReverseAt(Centres(start, res, rows), i);
      CentreAt(start, res, rows, k);
    }
    HalfStep(k as real, res);
  }

  lemma Descends(start: real, res: real, k: real, k1: real, lower: real, upper: real)
    requires res > 0.0 && k1 == k + 1.0
    requires lower == start + (k + 0.5) * res && upper == start + (k1 + 0.5) * res
    ensures lower < upper
  {
    ProductStep(k + 0.5, res);
  }

  lemma HalfStep(k: real, res: real)
    ensures k * res + res / 2.0 == (k + 0.5) * res
  {
  }

  /**
   * When the cell sizes divide the extent into exactly `cols` columns and
   * `rows` rows, every centre lies strictly inside its own cell's bounds.
   */
  lemma CentresInsideBounds(r: Grass.Region, rows: nat, cols: nat)
    requires r.w < r.e && cols > 0 && r.ewres == (r.e - r.w) / cols as real
    requires r.s < r.n && rows > 0 && r.nsres == (r.n - r.s) / rows as real
    ensures forall i :: 0 <= i < cols ==>
      RasterCoords(r, rows, cols).xBounds[i].0 < RasterCoords(r, rows, cols).x[i] < RasterCoords(r, rows, cols).xBounds[i].1
    ensures forall i :: 0 <= i < rows ==>
      RasterCoords(r, rows, cols).yBounds[i].1 < RasterCoords(r, rows, cols).y[i] < RasterCoords(r, rows, cols).yBounds[i].0
  {
    var c := RasterCoords(r, rows, cols);
    forall i | 0 <= i < cols
      ensures c.xBounds[i].0 < c.x[i] < c.xBounds[i].1
    {
      XInside(r, cols, i);
    }
    assert rows as real * r.nsres == r.n - r.s;
    assert Spacing(r.n, r.s, rows + 1) == -r.nsres;
    forall i | 0 <= i < rows
      ensures c.yBounds[i].1 < c.y[i] < c.yBounds[i].0
    {
      YInside(r, rows, i);
    }
  }

  lemma XInside(r: Grass.Region, cols: nat, i: nat)
    requires r.w < r.e && cols > 0 && r.ewres == (r.e - r.w) / cols as real && i < cols
    ensures Bounds(Centres(r.w, r.ewres, cols), r.w, r.e)[i].0 < Centres(r.w, r.ewres, cols)[i]
    ensures Centres(r.w, r.ewres, cols)[i] < Bounds(Centres(r.w, r.ewres, cols), r.w, r.e)[i].1
  {
    var h := Spacing(r.w, r.e, cols + 1);
    assert h == r.ewres;
    ProductStep(i as real, h);
  }

  lemma YInside(r: Grass.Region, rows: nat, i: nat)
    requires r.s < r.n && rows > 0 && i < rows
    requires rows as real * r.nsres == r.n - r.s && Spacing(r.n, r.s, rows + 1) == -r.nsres
    ensures Bounds(Reverse(Centres(r.s, r.nsres, rows)), r.n, r.s)[i].1 < Reverse(Centres(r.s, r.nsres, rows))[i]
    ensures Reverse(Centres(r.s, r.nsres, rows))[i] < Bounds(Reverse(Centres(r.s, r.nsres, rows)), r.n, r.s)[i].0
  {
    var ys := Centres(r.s, r.nsres, rows);
    var y := Reverse(ys);
    var h := Spacing(r.n, r.s, rows + 1);
    var k := rows - 1 - i;
    var b := Bounds(y, r.n, r.s)[i];
    var yi := y[i];
    assert b.0 == r.n + i as real * h && b.1 == r.n + (i + 1) as real * h by {
      RowEdges(y, r.n, r.s, i, h);
    }
    assert yi == k as real * r.nsres + r.s + r.nsres / 2.0 by {
      ReverseAt(ys, i);
      CentreAt(r.s, r.nsres, rows, k);
    }
    assert b.1 < yi < b.0 by {
      RowInside(r.n, r.s, rows as real, r.nsres, h, i as real, (i + 1) as real, k as real, b.0, b.1, yi);
    }
  }

  lemma CentreAt(start: real, res: real, k: nat, j: nat)
    requires j < k
    ensures Centres(start, res, k)[j] == j as real * res + start + res / 2.0
  {
  }

  /** Edges i and i + 1 of `Bounds` lie i and i + 1 steps of h from lo. */
  lemma RowEdges(vals: seq<real>, lo: real, hi: real, i: nat, h: real)
    requires i < |vals| && h == Spacing(lo, hi, |vals| + 1)
    ensures Bounds(vals, lo, hi)[i].0 == lo + i as real * h
    ensures Bounds(vals, lo, hi)[i].1 == lo + (i + 1) as real * h
  {
  }

  lemma RowInside(n: real, s: real, rows: real, res: real, h: real, i: real, i1: real, k: real, top: real, bottom: real, y: real)
    requires rows > 0.0 && rows * res == n - s && s < n && h == -res
    requires 0.0 <= i && i1 == i + 1.0 && k == rows - 1.0 - i && 0.0 <= k
    requires top == n + i * h && bottom == n + i1 * h && y == k * res + s + res / 2.0
    ensures bottom < y < top
  {
    assert res > 0.0;
    assert i1 * h == -(i * res) - res;
    assert i * h == -(i * res);
    assert k * res == rows * res - i * res - res;
  }
}
