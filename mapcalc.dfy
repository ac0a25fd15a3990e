// The per-cell operators of GRASS `r.mapcalc` the expressions in this
// project use. Every operator gives null when an operand is null;
// comparisons and logical operators give 1 or 0.
module MapCalc {
  import opened Raster
  import opened RealMath

  /** The i-th input of a cell's input list; null past its end. */
  function At(cs: seq<Cell>, i: nat): (c: Cell)
    ensures i < |cs| ==> c == cs[i]
  {
    if i < |cs| then cs[i] else Null
  }

  /** `out = in`: inputs [in]. */
  function Copy(cs: seq<Cell>): Cell
  {
    At(cs, 0)
  }

  function Add(a: Cell, b: Cell): (c: Cell)
    ensures c.Val? <==> a.Val? && b.Val?
    ensures c.Val? ==> c.v == a.v + b.v
  {
    if a.Val? && b.Val? then Val(a.v + b.v) else Null
  }

  function Sub(a: Cell, b: Cell): (c: Cell)
    ensures c.Val? <==> a.Val? && b.Val?
    ensures c.Val? ==> c.v == a.v - b.v
  {
    if a.Val? && b.Val? then Val(a.v - b.v) else Null
  }

  function Mul(a: Cell, b: Cell): (c: Cell)
    ensures c.Val? <==> a.Val? && b.Val?
    ensures c.Val? ==> c.v == a.v * b.v
  {
    if a.Val? && b.Val? then Val(a.v * b.v) else Null
  }

  /** `a / b` with a floating-point operand: the real quotient, null where b is 0. */
  function Div(a: Cell, b: Cell): (c: Cell)
    ensures c.Val? <==> a.Val? && b.Val? && b.v != 0.0
    ensures c.Val? ==> c.v == a.v / b.v
  {
    if a.Val? && b.Val? && b.v != 0.0 then Val(a.v / b.v) else Null
  }

  /** `a ^ b`: null where a is negative and b is not a whole number. */
  function Pow(m: Math, a: Cell, b: Cell): (c: Cell)
    ensures c.Val? <==> a.Val? && b.Val? && (a.v >= 0.0 || b.v.Floor as real == b.v)
    ensures c.Val? ==> c.v == m.pow(a.v, b.v)
  {
    if a.Val? && b.Val? && (a.v >= 0.0 || b.v.Floor as real == b.v) then Val(m.pow(a.v, b.v)) else Null
  }

  /** `10 ^ a`. */
  function Pow10(m: Math, a: Cell): (c: Cell)
    ensures c.Val? <==> a.Val?
    ensures c.Val? ==> c.v == m.pow10(a.v)
  {
    if a.Val? then Val(m.pow10(a.v)) else Null
  }

  /** `exp(a)`. */
  function Exp(m: Math, a: Cell): (c: Cell)
    ensures c.Val? <==> a.Val?
    ensures c.Val? ==> c.v == m.exp(a.v)
  {
    if a.Val? then Val(m.exp(a.v)) else Null
  }

  /** `a >= b`: 1 or 0. */
  function AtLeast(a: Cell, b: Cell): (c: Cell)
    ensures c.Val? <==> a.Val? && b.Val?
    ensures c.Val? ==> (c.v == 1.0 <==> a.v >= b.v) && (c.v == 0.0 <==> a.v < b.v)
  {
    if a.Val? && b.Val? then Val(if a.v >= b.v then 1.0 else 0.0) else Null
  }

  /** `a <= b`: 1 or 0. */
  function AtMost(a: Cell, b: Cell): (c: Cell)
    ensures c.Val? <==> a.Val? && b.Val?
    ensures c.Val? ==> (c.v == 1.0 <==> a.v <= b.v) && (c.v == 0.0 <==> a.v > b.v)
  {
    if a.Val? && b.Val? then Val(if a.v <= b.v then 1.0 else 0.0) else Null
  }

  /** `a == b`: 1 when equal, 0 otherwise. */
  function Equal(a: Cell, b: Cell): (c: Cell)
    ensures c.Val? <==> a.Val? && b.Val?
    ensures c.Val? ==> (c.v == 1.0 <==> a.v == b.v) && (c.v == 0.0 <==> a.v != b.v)
  {
    if a.Val? && b.Val? then Val(if a.v == b.v then 1.0 else 0.0) else Null
  }

  /** `a && b`: 1 when both are non-zero, 0 otherwise. */
  function And(a: Cell, b: Cell): (c: Cell)
    ensures c.Val? <==> a.Val? && b.Val?
    ensures c.Val? ==> (c.v == 1.0 <==> a.v != 0.0 && b.v != 0.0) && (c.v == 0.0 <==> a.v == 0.0 || b.v == 0.0)
  {
    if a.Val? && b.Val? then Val(if a.v != 0.0 && b.v != 0.0 then 1.0 else 0.0) else Null
  }

  /** `if(c, a, b)`: a where c is non-zero, b where it is zero, null where c is null. */
  function If(c: Cell, a: Cell, b: Cell): (r: Cell)
    ensures c.Null? ==> r.Null?
    ensures c.Val? && c.v != 0.0 ==> r == a
    ensures c.Val? && c.v == 0.0 ==> r == b
  {
    if c.Null? then Null else if c.v != 0.0 then a else b
  }

  /**
   * How `/` treats two integer-typed operands. In r.mapcalc the quotient of
   * two integer (CELL) values is itself an integer, truncated toward zero;
   * with a floating-point operand it is the real quotient.
   */
  datatype DivSemantics = IntegerDivision | RealDivision

  /** C's integer division: truncation toward zero. */
  function TruncDiv(a: int, d: nat): (q: int)
    requires d > 0
    ensures a >= 0 ==> q == a / d
    ensures a >= 0 ==> q * d <= a < q * d + d
  {
    if a >= 0 then a / d else -((-a) / d)
  }

  /** `a / d` for an integer-valued cell a and an integer constant d. */
  function Quot(sem: DivSemantics, a: Cell, d: nat): (c: Cell)
    requires d > 0
    ensures c.Val? <==> a.Val?
    ensures c.Val? && sem == RealDivision ==> c.v == a.v / d as real
  {
    if a.Null? then Null
    else if sem == RealDivision then Val(a.v / d as real)
    else Val(TruncDiv(a.v.Floor, d) as real)
  }
}
