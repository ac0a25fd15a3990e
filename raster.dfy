// Cell values of a GRASS raster and the two aggregations `r.resamp.stats`
// is asked for: the (weighted) average and the minimum of the fine cells
// that make up one coarse cell. A raster is a sequence of cells in row
// order; when the coarse resolution is k times the fine one, each coarse
// cell is idealised as a run of k consecutive fine cells.
module Raster {

  /** A raster cell: GRASS's null, or a value. */
  datatype Cell = Null | Val(v: real)

  /** The number of non-null cells. */
  function Count(b: seq<Cell>): (c: nat)
    ensures c <= |b|
  {
    if |b| == 0 then 0 else Count(b[..|b| - 1]) + (if b[|b| - 1].Val? then 1 else 0)
  }

  /** The sum of the non-null cells. */
  function Total(b: seq<Cell>): real
  {
    if |b| == 0 then 0.0 else Total(b[..|b| - 1]) + (if b[|b| - 1].Val? then b[|b| - 1].v else 0.0)
  }

  /** The average of the non-null cells; null when every cell is null. */
  function Mean(b: seq<Cell>): Cell
  {
    if Count(b) == 0 then Null else Val(Total(b) / Count(b) as real)
  }

  function MinCell(a: Cell, b: Cell): Cell
  {
    if a.Null? then b else if b.Null? then a else if a.v <= b.v then a else b
  }

  /** The smallest non-null cell; null when every cell is null. */
  function Minimum(b: seq<Cell>): Cell
  {
    if |b| == 0 then Null else MinCell(Minimum(b[..|b| - 1]), b[|b| - 1])
  }

  datatype Aggregate = Average | Min

  function Aggregated(how: Aggregate, b: seq<Cell>): Cell
  {
    match how
    case Average => Mean(b)
    case Min => Minimum(b)
  }

  /**
   * Coarse cells from fine ones: n coarse cells of k fine cells each, coarse
   * cell i aggregating fine cells i*k .. i*k+k-1.
   */
  function Blocks(how: Aggregate, cells: seq<Cell>, k: nat, n: nat): (r: seq<Cell>)
    requires |cells| == n * k
    ensures |r| == n
    decreases n
  {
    if n == 0 then []
    else
      assert |cells[k..]| == (n - 1) * k;
      [Aggregated(how, cells[..k])] + Blocks(how, cells[k..], k, n - 1)
  }

  /** The fine cells i*k .. i*k+k-1 that make coarse cell i. */
  function Block(cells: seq<Cell>, k: nat, i: nat): seq<Cell>
    requires i * k + k <= |cells|
  {
    cells[i * k..i * k + k]
  }

  /** Coarse cell i of the aggregation is the aggregate of its own block of fine cells. */
  lemma {:induction false} BlocksAt(how: Aggregate, cells: seq<Cell>, k: nat, n: nat, i: nat)
    requires |cells| == n * k && i < n
    ensures i * k + k <= |cells|
    ensures Blocks(how, cells, k, n)[i] == Aggregated(how, cells[i * k..i * k + k])
    decreases n
  {
    assert |cells[k..]| == (n - 1) * k;
    if i > 0 {
      BlocksAt(how, cells[k..], k, n - 1, i - 1);
      assert (i - 1) * k + k == i * k;
      assert cells[k..][(i - 1) * k..(i - 1) * k + k] == cells[i * k..i * k + k];
    } else {
      assert n * k == (n - 1) * k + k;
    }
  }

  // ---- cell-wise combination, as in map algebra: null in, null out ----

  function Zip(f: (real, real) -> real, a: seq<Cell>, b: seq<Cell>): (r: seq<Cell>)
    requires |a| == |b|
    ensures |r| == |a|
    ensures forall i :: 0 <= i < |r| ==>
      r[i] == (if a[i].Val? && b[i].Val? then Val(f(a[i].v, b[i].v)) else Null)
  {
    if |a| == 0 then []
    else
      var last := if a[|a| - 1].Val? && b[|b| - 1].Val? then Val(f(a[|a| - 1].v, b[|b| - 1].v)) else Null;
      Zip(f, a[..|a| - 1], b[..|b| - 1]) + [last]
  }

  /** The map-algebra sum `a + b`, cell by cell. */
  function AddCells(a: seq<Cell>, b: seq<Cell>): (r: seq<Cell>)
    requires |a| == |b|
    ensures |r| == |a|
    ensures forall i :: 0 <= i < |r| ==>
      r[i] == (if a[i].Val? && b[i].Val? then Val(a[i].v + b[i].v) else Null)
  {
    if |a| == 0 then []
    else
      var last := if a[|a| - 1].Val? && b[|b| - 1].Val? then Val(a[|a| - 1].v + b[|b| - 1].v) else Null;
      AddCells(a[..|a| - 1], b[..|b| - 1]) + [last]
  }

  predicate SameNulls(a: seq<Cell>, b: seq<Cell>) {
    |a| == |b| && forall i :: 0 <= i < |a| ==> (a[i].Null? <==> b[i].Null?)
  }

  predicate AllWithin(b: seq<Cell>, lo: real, hi: real) {
    forall i :: 0 <= i < |b| ==> b[i].Val? ==> lo <= b[i].v <= hi
  }

  // ---- properties of the average ----

  /** Averaging a block whose non-null cells all equal c gives c. */
  lemma {:induction false} TotalConstant(b: seq<Cell>, c: real)
    requires AllWithin(b, c, c)
    ensures Total(b) == c * Count(b) as real
  {
    if |b| > 0 {
      TotalConstant(b[..|b| - 1], c);
    }
  }

  lemma MeanConstant(b: seq<Cell>, c: real)
    requires AllWithin(b, c, c) && Count(b) > 0
    ensures Mean(b) == Val(c)
  {
    TotalConstant(b, c);
  }

  lemma {:induction false} TotalAtLeast(b: seq<Cell>, lo: real)
    requires forall i :: 0 <= i < |b| ==> b[i].Val? ==> lo <= b[i].v
    ensures lo * Count(b) as real <= Total(b)
  {
    if |b| > 0 {
      var init := b[..|b| - 1];
      TotalAtLeast(init, lo);
      MulSucc(lo, Count(init) as real);
    }
  }

  lemma {:induction false} TotalAtMost(b: seq<Cell>, hi: real)
    requires forall i :: 0 <= i < |b| ==> b[i].Val? ==> b[i].v <= hi
    ensures Total(b) <= hi * Count(b) as real
  {
    if |b| > 0 {
      var init := b[..|b| - 1];
      TotalAtMost(init, hi);
      MulSucc(hi, Count(init) as real);
    }
  }

  lemma MulSucc(a: real, c: real)
    ensures a * (c + 1.0) == a * c + a
  {
  }

  /** Dividing bounds on a total by a positive count bounds the average. */
  lemma DivideBounds(t: real, n: real, lo: real, hi: real)
    requires n > 0.0 && lo * n <= t <= hi * n
    ensures lo <= t / n <= hi
  {
    assert t / n * n == t;
  }

  /** The average lies within any bounds that every non-null cell respects. */
  lemma MeanWithin(b: seq<Cell>, lo: real, hi: real)
    requires AllWithin(b, lo, hi) && Count(b) > 0
    ensures Mean(b).Val? && lo <= Mean(b).v <= hi
  {
    TotalAtLeast(b, lo);
    TotalAtMost(b, hi);
    DivideBounds(Total(b), Count(b) as real, lo, hi);
  }

  lemma {:induction false} CountTotalAdd(a: seq<Cell>, b: seq<Cell>)
    requires SameNulls(a, b)
    ensures Count(AddCells(a, b)) == Count(a) == Count(b)
    ensures Total(AddCells(a, b)) == Total(a) + Total(b)
  {
    if |a| > 0 {
      var z := AddCells(a, b);
      assert z[..|z| - 1] == AddCells(a[..|a| - 1], b[..|b| - 1]);
      CountTotalAdd(a[..|a| - 1], b[..|b| - 1]);
    }
  }

  lemma DivideSum(x: real, y: real, n: real)
    requires n != 0.0
    ensures (x + y) / n == x / n + y / n
  {
  }

  /** Averaging commutes with a cell-wise sum of maps that are null in the same cells. */
  lemma MeanAdd(a: seq<Cell>, b: seq<Cell>)
    requires SameNulls(a, b) && Count(a) > 0
    ensures Mean(a).Val? && Mean(b).Val?
    ensures Mean(AddCells(a, b)) == Val(Mean(a).v + Mean(b).v)
  {
    var z := AddCells(a, b);
    CountTotalAdd(a, b);
    var n := Count(a) as real;
    var ta, tb := Total(a), Total(b);
    MeanOf(a, n, ta);
    MeanOf(b, n, tb);
    MeanOf(z, n, ta + tb);
    MeansAdd(Mean(a), Mean(b), Mean(z), ta, tb, n);
  }

  lemma MeansAdd(ma: Cell, mb: Cell, mz: Cell, ta: real, tb: real, n: real)
    requires n > 0.0 && ma == Val(ta / n) && mb == Val(tb / n) && mz == Val((ta + tb) / n)
    ensures mz == Val(ma.v + mb.v)
  {
    DivideSum(ta, tb, n);
  }

  /** The mean of cells whose count and total are known. */
  lemma MeanOf(b: seq<Cell>, n: real, t: real)
    requires Count(b) > 0 && Count(b) as real == n && Total(b) == t
    ensures Mean(b) == Val(t / n)
  {
  }

  // ---- properties of the minimum ----

  /** With non-negative values, the minimum is 0 exactly when some cell is 0. */
  lemma {:induction false} MinimumZero(b: seq<Cell>)
    requires AllWithin(b, 0.0, 1.0e300)
    ensures Minimum(b) == Val(0.0) <==> exists i :: 0 <= i < |b| && b[i] == Val(0.0)
  {
    if |b| > 0 {
      var init := b[..|b| - 1];
      MinimumZero(init);
      MinimumBounds(init);
      if exists i :: 0 <= i < |init| && init[i] == Val(0.0) {
        var i :| 0 <= i < |init| && init[i] == Val(0.0);
        assert b[i] == Val(0.0);
      }
    }
  }

  /** The minimum is one of the cells and below all of them, or null when all are null. */
  lemma {:induction false} MinimumBounds(b: seq<Cell>)
    ensures Minimum(b).Null? <==> forall i :: 0 <= i < |b| ==> b[i].Null?
    ensures Minimum(b).Val? ==> exists i :: 0 <= i < |b| && b[i] == Minimum(b)
    ensures Minimum(b).Val? ==> forall i :: 0 <= i < |b| && b[i].Val? ==> Minimum(b).v <= b[i].v
  {
    if |b| > 0 {
      var init, last := b[..|b| - 1], b[|b| - 1];
      MinimumBounds(init);
      var m := Minimum(b);
      assert m == MinCell(Minimum(init), last);
      if m.Val? {
        if m == last {
          assert b[|b| - 1] == m;
        } else {
          var i :| 0 <= i < |init| && init[i] == m;
          assert b[i] == m;
        }
        forall i | 0 <= i < |b| && b[i].Val? ensures m.v <= b[i].v {
          if i < |init| {
            assert init[i] == b[i];
          } else {
            assert b[i] == last;
          }
        }
      } else {
        forall i | 0 <= i < |b| ensures b[i].Null? {
          if i < |init| {
            assert init[i] == b[i];
          }
        }
      }
    }
  }
}
