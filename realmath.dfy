// The transcendental functions the map-algebra expressions call — `10^x`,
// `exp(x)` and `x^y` for fractional y — are not evaluated by this model.
// They are carried as a record of functions together with the laws every
// lemma about them may rely on: positivity, monotonicity and the exponent
// rules that hold of the real functions.
module RealMath {

  datatype Math = Math(pow10: real -> real, exp: real -> real, pow: (real, real) -> real)

  /** Addition, named so that the exponent rule below is used only where asked for. */
  function Plus(x: real, y: real): real {
    x + y
  }

  /** The laws of 10^x, e^x and x^y on the positive reals. */
  ghost predicate Lawful(m: Math) {
    && (forall x :: m.pow10(x) > 0.0)
    && (forall x, y :: x < y ==> m.pow10(x) < m.pow10(y))
    && m.pow10(0.0) == 1.0
    && m.pow10(1.0) == 10.0
    && (forall x, y {:trigger m.pow10(Plus(x, y))} :: m.pow10(Plus(x, y)) == m.pow10(x) * m.pow10(y))
    && (forall x :: m.exp(x) > 0.0)
    && m.exp(0.0) == 1.0
    && (forall x, y :: x < y ==> m.exp(x) < m.exp(y))
    && (forall e :: m.pow(1.0, e) == 1.0)
    && (forall x, e :: x > 0.0 ==> m.pow(x, e) > 0.0)
    && (forall x, y, e :: 0.0 < x < y && e > 0.0 ==> m.pow(x, e) < m.pow(y, e))
    && (forall x, y, e :: 0.0 < x < y && e < 0.0 ==> m.pow(x, e) > m.pow(y, e))
  }

  /** 10^2 = 100, from 10^1 = 10 and the exponent rule. */
  lemma Pow10Two(m: Math)
    requires Lawful(m)
    ensures m.pow10(2.0) == 100.0
  {
    assert m.pow10(Plus(1.0, 1.0)) == m.pow10(1.0) * m.pow10(1.0);
  }

  /** 10^5 = 100000, from 10^2 = 100 and the exponent rule applied twice. */
  lemma Pow10Five(m: Math)
    requires Lawful(m)
    ensures m.pow10(5.0) == 100000.0
  {
    Pow10Two(m);
    assert m.pow10(Plus(2.0, 2.0)) == m.pow10(2.0) * m.pow10(2.0);
    assert m.pow10(Plus(4.0, 1.0)) == m.pow10(4.0) * m.pow10(1.0);
  }

  /** 10^2.5 lies below 317, because its square is 10^5 = 100000. */
  lemma Pow10TwoAndAHalf(m: Math)
    requires Lawful(m)
    ensures m.pow10(2.5) < 317.0
  {
    Pow10Five(m);
    var h := m.pow10(2.5);
    assert m.pow10(Plus(2.5, 2.5)) == h * h;
    if h >= 317.0 {
      SquareMonotone(317.0, h);
    }
  }

  lemma SquareMonotone(a: real, b: real)
    requires 0.0 <= a <= b
    ensures a * a <= b * b
  {
    assert a * a <= a * b;
    assert a * b <= b * b;
  }
}
