// The named regions as GRASS sees them (jamr/regions.py): a resolution in
// decimal degrees is rounded to a tenth of an arc-second and written as
// `D:MM[:SS[.ss]]`, an extent is widened to whole degrees and labelled
// `12W`, `59N`, ..., and each region of the table is set and saved with
// `g.region`.
module Regions {
  import opened Wrappers
  import opened Strings
  import Grass
  import Constants

  // ---- numbers ----

  function Abs(x: real): real
  {
    if x < 0.0 then -x else x
  }

  /** `math.floor`. */
  function Floor(x: real): int
  {
    x.Floor
  }

  /** `math.ceil`. */
  function Ceil(x: real): (c: int)
    ensures c as real - 1.0 < x <= c as real
  {
    -((-x).Floor)
  }

  /** Python's `int(x)` on a float: truncation toward zero. */
  function Trunc(x: real): int
  {
    if x >= 0.0 then x.Floor else -((-x).Floor)
  }

  /** `x.is_integer()`. */
  predicate Whole(x: real)
  {
    x.Floor as real == x
  }

  /** NumPy's `np.rint`: the nearest integer, a tie going to the even one. */
  function RoundHalfEven(x: real): (k: int)
    ensures x - 0.5 <= k as real <= x + 0.5
    ensures (k as real - x == 0.5 || x - k as real == 0.5) ==> k % 2 == 0
    ensures x >= 0.0 ==> k >= 0
  {
    var f := x.Floor;
    var d := x - f as real;
    if d < 0.5 then f else if d > 0.5 then f + 1 else if f % 2 == 0 then f else f + 1
  }

  /** A whole number is its own rounding. */
  lemma RoundWhole(k: int)
    ensures RoundHalfEven(k as real) == k
  {
    assert (k as real).Floor == k;
  }

  // ---- to_dms ----

  /** One row of `to_dms`: degrees, minutes, seconds (all as floats) and the sign. */
  datatype Dms = Dms(degrees: real, minutes: real, seconds: real, sign: real)

  /** `np.round(abs(x) * 3600, 1)`, counted in tenths of an arc-second: within half a tenth of the exact value. */
  function Tenths(x: real): (t: nat)
    ensures -0.05 <= t as real / 10.0 - Abs(x) * 3600.0 <= 0.05
  {
    RoundHalfEven(Abs(x) * 36000.0)
  }

  /**
   * `to_dms(x)` for one number: the rounded arc-seconds split by `divmod`
   * into whole degrees, whole minutes below 60 and seconds below 60 (a
   * whole number of tenths), with -1 as the sign of a negative x.
   */
  function ToDms(x: real): (r: Dms)
    ensures r.sign == -1.0 <==> x < 0.0
    ensures r.sign == 1.0 <==> x >= 0.0
    ensures Whole(r.degrees) && r.degrees >= 0.0
    ensures Whole(r.minutes) && 0.0 <= r.minutes < 60.0
    ensures 0.0 <= r.seconds < 60.0 && Whole(r.seconds * 10.0)
    ensures r.degrees * 3600.0 + r.minutes * 60.0 + r.seconds == Tenths(x) as real / 10.0
  {
    var t := Tenths(x);
    var v := t as real / 10.0;
    var q := (v / 60.0).Floor;
    var s := v - 60.0 * q as real;
    TenthsDivmod(t);
    DmsOfTenths(t, q, s);
    Dms((q / 60) as real, (q % 60) as real, s, if x < 0.0 then -1.0 else 1.0)
  }

  /** The fields `divmod` gives for t tenths of an arc-second, whose quotient by 60 seconds is q and remainder s. */
  lemma DmsOfTenths(t: nat, q: int, s: real)
    requires q == t / 600 && s == (t % 600) as real / 10.0
    ensures Whole((q / 60) as real) && (q / 60) as real >= 0.0
    ensures Whole((q % 60) as real) && 0.0 <= (q % 60) as real < 60.0
    ensures 0.0 <= s < 60.0 && Whole(s * 10.0)
    ensures (q / 60) as real * 3600.0 + (q % 60) as real * 60.0 + s == t as real / 10.0
  {
    assert s * 10.0 == (t % 600) as real;
    assert q == (q / 60) * 60 + q % 60;
    assert t == q * 600 + t % 600;
  }

  /** `divmod(t / 10, 60)` on a whole number of tenths. */
  lemma TenthsDivmod(t: nat)
    ensures ((t as real / 10.0) / 60.0).Floor == t / 600
    ensures t as real / 10.0 - 60.0 * (t / 600) as real == (t % 600) as real / 10.0
  {
    var q, m := t / 600, t % 600;
    assert t as real == 600.0 * q as real + m as real;
    FloorIs((t as real / 10.0) / 60.0, q);
  }

  lemma FloorIs(x: real, n: int)
    requires n as real <= x < n as real + 1.0
    ensures x.Floor == n
  {
  }

  /**
   * The split is the only one with minutes and seconds below 60: any
   * degrees, minutes and seconds adding up to the rounded arc-seconds are
   * the ones `to_dms` returns.
   */
  lemma ToDmsUnique(x: real, d: nat, m: nat, s: real)
    requires m < 60 && 0.0 <= s < 60.0
    requires d as real * 3600.0 + m as real * 60.0 + s == Tenths(x) as real / 10.0
    ensures ToDms(x).degrees == d as real && ToDms(x).minutes == m as real && ToDms(x).seconds == s
  {
    var v := Tenths(x) as real / 10.0;
    var q := 60 * d + m;
    assert v == 60.0 * q as real + s;
    FloorIs(v / 60.0, q);
    assert q / 60 == d && q % 60 == m;
  }

  // ---- format_dms ----

  /** `'%05.2f' % x`: rounded to hundredths, zero-padded to five characters after any sign. */
  function Percent052(x: real): string
  {
    var c := RoundHalfEven(Abs(x) * 100.0);
    if x < 0.0 then "-" + Fixed2(c) else ZFill(Fixed2(c), 5)
  }

  /** The seconds field: two digits when whole, `%05.2f` otherwise. */
  function SecondsText(s: real): string
  {
    if Whole(s) then ZFill(IntToString(Trunc(s)), 2) else Percent052(s)
  }

  /**
   * `format_dms(dms)`: `D:MM`, with `:SS` or `:SS.ss` appended when the
   * seconds are not zero. (A negative field is already two characters
   * long, so zero-padding never meets a sign.)
   */
  function FormatDms(dms: Dms): string
  {
    var degrees := IntToString(Trunc(dms.degrees));
    var minutes := ZFill(IntToString(Trunc(dms.minutes)), 2);
    if dms.seconds == 0.0 then degrees + ":" + minutes
    else degrees + ":" + minutes + ":" + SecondsText(dms.seconds)
  }

  /** A number as written: the whole part, and the value and count of the digits after the point. */
  datatype Decimal = Decimal(whole: nat, frac: nat, digits: nat)

  /** k digits after the point with value n: n / 10^k. */
  function Fraction(n: nat, k: nat): real
  {
    if k == 0 then n as real else Fraction(n, k - 1) / 10.0
  }

  function DecimalValue(x: Decimal): real
  {
    x.whole as real + Fraction(x.frac, x.digits)
  }

  /** An angle as written: `D:MM` or `D:MM:S[.s]`. */
  datatype Angle = Angle(degrees: nat, minutes: nat, seconds: Decimal)

  /** The angle in degrees. */
  function AngleValue(a: Angle): real
  {
    a.degrees as real + a.minutes as real / 60.0 + DecimalValue(a.seconds) / 3600.0
  }

  /** `s` or `s.ddd`: how a digit string with at most one point is read. */
  function ReadDecimal(f: string): Option<Decimal>
  {
    var p := Split(f, '.');
    if |p| == 1 && |p[0]| > 0 && AllDigits(p[0]) then Some(Decimal(DigitsToNat(p[0]), 0, 0))
    else if |p| == 2 && |p[0]| > 0 && |p[1]| > 0 && AllDigits(p[0]) && AllDigits(p[1]) then
      Some(Decimal(DigitsToNat(p[0]), DigitsToNat(p[1]), |p[1]|))
    else None
  }

  /** How GRASS reads an angle written `D:MM` or `D:MM:S[.s]`. */
  function ReadDms(s: string): Option<Angle>
  {
    ReadFields(Split(s, ':'))
  }

  /** The colon-separated fields of an angle: degrees, minutes, and optional seconds. */
  function ReadFields(f: seq<string>): Option<Angle>
  {
    if |f| < 2 || |f| > 3 || |f[0]| == 0 || |f[1]| == 0 || !AllDigits(f[0]) || !AllDigits(f[1]) then None
    else if |f| == 2 then Some(Angle(DigitsToNat(f[0]), DigitsToNat(f[1]), Decimal(0, 0, 0)))
    else match ReadDecimal(f[2])
      case None => None
      case Some(sec) => Some(Angle(DigitsToNat(f[0]), DigitsToNat(f[1]), sec))
  }

  lemma DigitsHaveNo(s: string, c: char)
    requires AllDigits(s) && !IsDigit(c)
    ensures c !in s
  {
  }

  /** A digit string reads as its number. */
  lemma DigitsRead(t: string)
    requires |t| > 0 && AllDigits(t)
    ensures ReadDecimal(t) == Some(Decimal(DigitsToNat(t), 0, 0))
  {
    DigitsHaveNo(t, '.');
    SplitNone(t, '.');
  }

  /** `a.b` reads as a, and b over |b| digits. */
  lemma PointRead(a: string, b: string)
    requires |a| > 0 && |b| > 0 && AllDigits(a) && AllDigits(b)
    ensures ReadDecimal(a + "." + b) == Some(Decimal(DigitsToNat(a), DigitsToNat(b), |b|))
  {
    DigitsHaveNo(a, '.');
    DigitsHaveNo(b, '.');
    SplitAt(a, b, '.');
    SplitNone(b, '.');
  }

  lemma Pow10Two()
    ensures Pow10Nat(2) == 100
  {
    assert Pow10Nat(1) == 10;
  }

  /** Two zero-padded digits read back as their number. */
  lemma PaddedReads(n: nat)
    requires n < 100
    ensures AllDigits(ZFill(NatToString(n), 2)) && |ZFill(NatToString(n), 2)| == 2
    ensures DigitsToNat(ZFill(NatToString(n), 2)) == n
    ensures ReadDecimal(ZFill(NatToString(n), 2)) == Some(Decimal(n, 0, 0))
  {
    Pow10Two();
    PaddedValue(n, 2);
    DigitsRead(ZFill(NatToString(n), 2));
  }

  lemma ConcatAssoc(x: string, y: string, z: string)
    ensures x + (y + z) == (x + y) + z
  {
  }

  /** `'%05.2f'` of c hundredths below 100: zero padding, the whole part, a point and two digits. */
  lemma Fixed2Shape(c: nat)
    requires c < 10000
    ensures |Fixed2(c)| <= 5
    ensures ZFill(Fixed2(c), 5) == Zeros(5 - |Fixed2(c)|) + NatToString(c / 100) + "." + ZFill(NatToString(c % 100), 2)
  {
    Pow10Two();
    NatToStringLength(c / 100, 2);
    PaddedValue(c % 100, 2);
    ZFillShort(Fixed2(c), 5);
    var a, b := NatToString(c / 100), ZFill(NatToString(c % 100), 2);
    assert Fixed2(c) == a + "." + b;
    ConcatAssoc(Zeros(5 - |Fixed2(c)|), a + ".", b);
    ConcatAssoc(Zeros(5 - |Fixed2(c)|), a, ".");
  }

  /** `'%05.2f'` of c hundredths (below 100) reads back as c / 100, and has no colon. */
  lemma CentiReads(c: nat)
    requires c < 10000
    ensures ':' !in ZFill(Fixed2(c), 5)
    ensures ReadDecimal(ZFill(Fixed2(c), 5)) == Some(Decimal(c / 100, c % 100, 2))
  {
    Pow10Two();
    Fixed2Shape(c);
    var a, b := NatToString(c / 100), ZFill(NatToString(c % 100), 2);
    PaddedValue(c % 100, 2);
    ParseNatToString(c / 100);
    var k := 5 - |Fixed2(c)|;
    DigitsToNatZeroPrefix(k, a);
    var head := Zeros(k) + a;
    DigitsHaveNo(head, ':');
    DigitsHaveNo(b, ':');
    PointRead(head, b);
  }

  /** c hundredths, split at the point. */
  lemma CentiValue(c: nat)
    ensures DecimalValue(Decimal(c / 100, c % 100, 2)) == c as real / 100.0
  {
    assert Fraction(c % 100, 2) == (c % 100) as real / 100.0 by {
      assert Fraction(c % 100, 1) == (c % 100) as real / 10.0;
    }
    assert c as real == 100.0 * (c / 100) as real + (c % 100) as real;
  }

  /** Seconds that are a whole number of tenths are a whole number of hundredths. */
  lemma CentiOf(s: real, c: int)
    requires 0.0 < s < 60.0 && Whole(s * 10.0) && c == RoundHalfEven(Abs(s) * 100.0)
    ensures 0 <= c < 6000 && c as real / 100.0 == s
  {
    var t10 := (s * 10.0).Floor;
    assert Abs(s) * 100.0 == (10 * t10) as real;
    RoundWhole(10 * t10);
  }

  /** The seconds field of whole seconds is two digits. */
  lemma WholeSecondsText(s: real, n: int)
    requires 0.0 < s < 60.0 && Whole(s) && n == s.Floor
    ensures 0 <= n < 60 && SecondsText(s) == ZFill(NatToString(n), 2)
  {
    assert Trunc(s) == n;
  }

  /** The seconds field of fractional seconds is `%05.2f`. */
  lemma FractionSecondsText(s: real, c: nat)
    requires 0.0 < s < 60.0 && !Whole(s) && c == RoundHalfEven(Abs(s) * 100.0)
    ensures SecondsText(s) == ZFill(Fixed2(c), 5)
  {
    FractionIsPercent(s);
    PercentPositive(s, c);
  }

  lemma FractionIsPercent(s: real)
    requires !Whole(s)
    ensures SecondsText(s) == Percent052(s)
  {
  }

  lemma PercentPositive(s: real, c: nat)
    requires 0.0 < s && c == RoundHalfEven(Abs(s) * 100.0)
    ensures Percent052(s) == ZFill(Fixed2(c), 5)
  {
  }

  /** The seconds text of a `to_dms` row reads back as the seconds, and has no colon. */
  lemma SecondsReads(s: real) returns (sec: Decimal)
    requires 0.0 < s < 60.0 && Whole(s * 10.0)
    ensures ':' !in SecondsText(s) && ReadDecimal(SecondsText(s)) == Some(sec) && DecimalValue(sec) == s
  {
    if Whole(s) {
      var n := s.Floor;
      WholeSecondsText(s, n);
      PaddedReads(n);
      DigitsHaveNo(ZFill(NatToString(n), 2), ':');
      sec := Decimal(n, 0, 0);
    } else {
      var c := RoundHalfEven(Abs(s) * 100.0);
      CentiOf(s, c);
      FractionSecondsText(s, c);
      CentiReads(c);
      CentiValue(c);
      sec := Decimal(c / 100, c % 100, 2);
    }
  }

  /** Two fields without colons, joined by one. */
  lemma SplitTwo(a: string, b: string)
    requires ':' !in a && ':' !in b
    ensures Split(a + ":" + b, ':') == [a, b]
  {
    SplitAt(a, b, ':');
    SplitNone(b, ':');
  }

  /** Three fields without colons, joined by colons. */
  lemma SplitThree(a: string, b: string, c: string)
    requires ':' !in a && ':' !in b && ':' !in c
    ensures Split(a + ":" + b + ":" + c, ':') == [a, b, c]
  {
    assert a + ":" + b + ":" + c == a + [':'] + (b + [':'] + c);
    SplitAt(a, b + [':'] + c, ':');
    SplitAt(b, c, ':');
    SplitNone(c, ':');
  }

  /** The degree and minute fields of `format_dms` read back as their numbers. */
  lemma FieldsTwo(d: nat, m: nat)
    requires m < 100
    ensures ReadFields([NatToString(d), ZFill(NatToString(m), 2)]) == Some(Angle(d, m, Decimal(0, 0, 0)))
  {
    ParseNatToString(d);
    PaddedReads(m);
  }

  /** The same, followed by a seconds field. */
  lemma FieldsThree(d: nat, m: nat, ss: string, sec: Decimal)
    requires m < 100 && ReadDecimal(ss) == Some(sec)
    ensures ReadFields([NatToString(d), ZFill(NatToString(m), 2), ss]) == Some(Angle(d, m, sec))
  {
    ParseNatToString(d);
    PaddedReads(m);
  }

  /** `D:MM` reads as D degrees and MM minutes. */
  lemma TwoFieldsRead(d: nat, m: nat)
    requires m < 100
    ensures ReadDms(NatToString(d) + ":" + ZFill(NatToString(m), 2)) == Some(Angle(d, m, Decimal(0, 0, 0)))
  {
    var ds, ms := NatToString(d), ZFill(NatToString(m), 2);
    PaddedReads(m);
    DigitsHaveNo(ds, ':');
    DigitsHaveNo(ms, ':');
    SplitTwo(ds, ms);
    FieldsTwo(d, m);
  }

  /** `D:MM:S` reads as D degrees, MM minutes and the seconds S reads as, for any S without a colon. */
  lemma ThreeFieldsRead(d: nat, m: nat, ss: string, sec: Decimal)
    requires m < 100 && ':' !in ss && ReadDecimal(ss) == Some(sec)
    ensures ReadDms(NatToString(d) + ":" + ZFill(NatToString(m), 2) + ":" + ss) == Some(Angle(d, m, sec))
  {
    var ds, ms := NatToString(d), ZFill(NatToString(m), 2);
    assert Split(ds + ":" + ms + ":" + ss, ':') == [ds, ms, ss] by {
      PaddedReads(m);
      DigitsHaveNo(ds, ':');
      DigitsHaveNo(ms, ':');
      SplitThree(ds, ms, ss);
    }
    assert ReadFields([ds, ms, ss]) == Some(Angle(d, m, sec)) by {
      FieldsThree(d, m, ss, sec);
    }
  }

  /** The degrees and minutes of a row, as the whole numbers `int()` gives. */
  lemma RowFields(r: Dms, d: int, m: int)
    requires Whole(r.degrees) && r.degrees >= 0.0 && Whole(r.minutes) && 0.0 <= r.minutes < 60.0
    requires d == r.degrees.Floor && m == r.minutes.Floor
    ensures 0 <= d && 0 <= m < 60 && Trunc(r.degrees) == d && Trunc(r.minutes) == m
  {
  }

  /** A row with whole degrees and minutes and seconds below 60 is written as text that reads back as its angle. */
  lemma FormatDmsRow(r: Dms)
    requires Whole(r.degrees) && r.degrees >= 0.0 && Whole(r.minutes) && 0.0 <= r.minutes < 60.0
    requires 0.0 <= r.seconds < 60.0 && Whole(r.seconds * 10.0)
    ensures ReadDms(FormatDms(r)).Some?
    ensures AngleValue(ReadDms(FormatDms(r)).value) == r.degrees + r.minutes / 60.0 + r.seconds / 3600.0
  {
    var d, m := r.degrees.Floor, r.minutes.Floor;
    RowFields(r, d, m);
    var dm := NatToString(d) + ":" + ZFill(NatToString(m), 2);
    var a: Angle;
    if r.seconds == 0.0 {
      assert FormatDms(r) == dm by {
        DmsText(r, d, m);
      }
      TwoFieldsRead(d, m);
      a := Angle(d, m, Decimal(0, 0, 0));
    } else {
      var ss := SecondsText(r.seconds);
      var sec := SecondsReads(r.seconds);
      assert FormatDms(r) == dm + ":" + ss by {
        DmsText(r, d, m);
      }
      ThreeFieldsRead(d, m, ss, sec);
      a := Angle(d, m, sec);
    }
    AngleOfRow(r, a);
  }

  /** The text of a row whose degrees and minutes truncate to the whole numbers d and m. */
  lemma DmsText(r: Dms, d: nat, m: nat)
    requires Trunc(r.degrees) == d && Trunc(r.minutes) == m
    ensures r.seconds == 0.0 ==> FormatDms(r) == NatToString(d) + ":" + ZFill(NatToString(m), 2)
    ensures r.seconds != 0.0 ==>
      FormatDms(r) == NatToString(d) + ":" + ZFill(NatToString(m), 2) + ":" + SecondsText(r.seconds)
  {
  }

  lemma AngleOfRow(r: Dms, a: Angle)
    requires a.degrees as real == r.degrees && a.minutes as real == r.minutes && DecimalValue(a.seconds) == r.seconds
    ensures AngleValue(a) == r.degrees + r.minutes / 60.0 + r.seconds / 3600.0
  {
  }

  /**
   * The text `format_dms(to_dms(x))` is read back by GRASS as |x| rounded
   * to the nearest tenth of an arc-second, exactly.
   */
  lemma FormatDmsReads(x: real)
    ensures ReadDms(FormatDms(ToDms(x))).Some?
    ensures AngleValue(ReadDms(FormatDms(ToDms(x))).value) == Tenths(x) as real / 36000.0
  {
    FormatDmsRow(ToDms(x));
  }

  /** A resolution that is a whole number of tenths of an arc-second is passed on exactly. */
  lemma ResolutionExact(res: real)
    requires Whole(Abs(res) * 36000.0)
    ensures Tenths(res) as real / 36000.0 == Abs(res)
  {
    RoundWhole((Abs(res) * 36000.0).Floor);
  }

  /** Every resolution of the region table is a whole number of tenths of an arc-second (1/480 degree is 75). */
  lemma ListedResolutionsExact()
    ensures forall j :: 0 <= j < |Constants.Resolutions| ==>
      Whole(Abs(Constants.Resolutions[j]) * 36000.0) && Tenths(Constants.Resolutions[j]) as real / 36000.0 == Abs(Constants.Resolutions[j])
  {
    var ts: seq<int> := [18000, 9000, 3600, 4500, 3000, 2250, 1800, 1500, 600, 360, 300, 150, 75, 100, 30];
    forall j | 0 <= j < |Constants.Resolutions|
      ensures Whole(Abs(Constants.Resolutions[j]) * 36000.0) &&
              Tenths(Constants.Resolutions[j]) as real / 36000.0 == Abs(Constants.Resolutions[j])
    {
      assert Abs(Constants.Resolutions[j]) * 36000.0 == ts[j] as real;
      ResolutionExact(Constants.Resolutions[j]);
    }
  }

  // ---- format_extent ----

  /** `_format_longitude` / `_format_latitude` on a whole number: the magnitude and the hemisphere letter. */
  function Label(v: int, neg: char, pos: char): string
  {
    if v < 0 then NatToString(-v) + [neg] else NatToString(v) + [pos]
  }

  /** The whole number of degrees a label denotes. */
  function ReadLabel(s: string, neg: char, pos: char): Option<int>
  {
    if |s| < 2 || !AllDigits(s[..|s| - 1]) then None
    else if s[|s| - 1] == neg then Some(0 - DigitsToNat(s[..|s| - 1]))
    else if s[|s| - 1] == pos then Some(DigitsToNat(s[..|s| - 1]))
    else None
  }

  /** A label reads back as the number it labels: `0` is labelled with the positive letter. */
  lemma LabelReads(v: int, neg: char, pos: char)
    requires neg != pos
    ensures ReadLabel(Label(v, neg, pos), neg, pos) == Some(v)
  {
    var l := Label(v, neg, pos);
    var digits := if v < 0 then NatToString(-v) else NatToString(v);
    assert l[..|l| - 1] == digits;
    ParseNatToString(if v < 0 then -v else v);
  }

  /** The west edge: w rounded down to a whole degree, but not beyond -180. */
  function WestEdge(w: real): (r: int)
    ensures w >= -180.0 ==> r as real <= w < r as real + 1.0
    ensures w < -180.0 ==> r == -180
  {
    if Floor(w) < -180 then -180 else Floor(w)
  }

  /** The east edge: e rounded up to a whole degree, but not beyond 180. */
  function EastEdge(e: real): (r: int)
    ensures e <= 180.0 ==> r as real - 1.0 < e <= r as real
    ensures e > 180.0 ==> r == 180
  {
    if Ceil(e) > 180 then 180 else Ceil(e)
  }

  /** The south edge: s rounded down to a whole degree, but not beyond -90. */
  function SouthEdge(s: real): (r: int)
    ensures s >= -90.0 ==> r as real <= s < r as real + 1.0
    ensures s < -90.0 ==> r == -90
  {
    if Floor(s) < -90 then -90 else Floor(s)
  }

  /** The north edge: n rounded up to a whole degree, but not beyond 90. */
  function NorthEdge(n: real): (r: int)
    ensures n <= 90.0 ==> r as real - 1.0 < n <= r as real
    ensures n > 90.0 ==> r == 90
  {
    if Ceil(n) > 90 then 90 else Ceil(n)
  }

  /** What `format_extent` returns, in its order: west, east, south, north. */
  datatype Labels = Labels(west: string, east: string, south: string, north: string)

  /**
   * `format_extent(extent)` on `[w, s, e, n]`; unpacking anything but four
   * values raises ValueError.
   */
  function FormatExtent(extent: seq<real>): (r: Result<Labels>)
    ensures r.Ok? <==> |extent| == 4
    ensures r.Err? ==> r.error.ValueError?
  {
    if |extent| < 4 then Err(ValueError("not enough values to unpack (expected 4, got " + NatToString(|extent|) + ")"))
    else if |extent| > 4 then Err(ValueError("too many values to unpack (expected 4)"))
    else
      var w, s, e, n := extent[0], extent[1], extent[2], extent[3];
      Ok(Labels(Label(WestEdge(w), 'W', 'E'), Label(EastEdge(e), 'W', 'E'),
                Label(SouthEdge(s), 'S', 'N'), Label(NorthEdge(n), 'S', 'N')))
  }

  /**
   * The labels read back as the widened edges, so a region set from them
   * contains the extent wherever the extent lies on the globe.
   */
  lemma FormatExtentReads(extent: seq<real>)
    requires |extent| == 4
    ensures ReadLabel(FormatExtent(extent).value.west, 'W', 'E') == Some(WestEdge(extent[0]))
    ensures ReadLabel(FormatExtent(extent).value.east, 'W', 'E') == Some(EastEdge(extent[2]))
    ensures ReadLabel(FormatExtent(extent).value.south, 'S', 'N') == Some(SouthEdge(extent[1]))
    ensures ReadLabel(FormatExtent(extent).value.north, 'S', 'N') == Some(NorthEdge(extent[3]))
  {
    LabelReads(WestEdge(extent[0]), 'W', 'E');
    LabelReads(EastEdge(extent[2]), 'W', 'E');
    LabelReads(SouthEdge(extent[1]), 'S', 'N');
    LabelReads(NorthEdge(extent[3]), 'S', 'N');
  }

  /** An extent of whole degrees on the globe, such as every `REGIONS` extent, is kept as it is. */
  lemma WholeExtentKept(extent: seq<real>)
    requires |extent| == 4 && forall i :: 0 <= i < 4 ==> Whole(extent[i])
    requires -180.0 <= extent[0] && extent[2] <= 180.0 && -90.0 <= extent[1] && extent[3] <= 90.0
    ensures WestEdge(extent[0]) as real == extent[0] && EastEdge(extent[2]) as real == extent[2]
    ensures SouthEdge(extent[1]) as real == extent[1] && NorthEdge(extent[3]) as real == extent[3]
  {
    assert Whole(extent[0]) && Whole(extent[1]) && Whole(extent[2]) && Whole(extent[3]);
    CeilWhole(extent[2]);
    CeilWhole(extent[3]);
  }

  lemma CeilWhole(x: real)
    requires Whole(x)
    ensures Ceil(x) as real == x
  {
    FloorIs(-x, -(x.Floor));
  }

  // ---- _set_region and set_regions ----

  /**
   * The region `g.region e= w= n= s= res= save=` sets from the labels and
   * the resolution text: the widened edges, and |res| rounded to a tenth of
   * an arc-second as both cell sizes.
   */
  function Requested(extent: seq<real>, res: real): Grass.Region
    requires |extent| == 4
  {
    var step := Tenths(res) as real / 36000.0;
    Grass.Region(NorthEdge(extent[3]) as real, SouthEdge(extent[1]) as real,
                 EastEdge(extent[2]) as real, WestEdge(extent[0]) as real, step, step)
  }

  /**
   * `_set_region` as written: the labels and the resolution text are
   * computed, but the call passes `res`, a name the function never binds,
   * so every call with a well-formed extent raises NameError before
   * reaching GRASS.
   */
  function SetRegionAsWritten(name: string, res: real, extent: seq<real>): (r: Result<()>)
    ensures r.Err?
    ensures r.error.NameError? <==> |extent| == 4
  {
    match FormatExtent(extent)
    case Err(err) => Err(err)
    case Ok(labels) => Err(NameError("res"))
  }

  /** The default extent, the whole globe, shows it: the call fails although nothing is wrong with its input. */
  lemma SetRegionAlwaysFails(name: string, res: real)
    ensures SetRegionAsWritten(name, res, [-180.0, -90.0, 180.0, 90.0]) == Err(NameError("res"))
    ensures FormatExtent([-180.0, -90.0, 180.0, 90.0]).Ok?
  {
  }

  /**
   * How `g.region e= w= n= s= res=` reads its text arguments: the four
   * labels and the resolution angle, used for both cell sizes.
   */
  function ReadRegion(l: Labels, res: string): Option<Grass.Region>
  {
    var n, s := ReadLabel(l.north, 'S', 'N'), ReadLabel(l.south, 'S', 'N');
    var e, w := ReadLabel(l.east, 'W', 'E'), ReadLabel(l.west, 'W', 'E');
    var step := ReadDms(res);
    if n.None? || s.None? || e.None? || w.None? || step.None? then None
    else Some(Grass.Region(n.value as real, s.value as real, e.value as real, w.value as real,
                           AngleValue(step.value), AngleValue(step.value)))
  }

  /** What `_set_region` hands to `g.region` is read back as the widened extent and the rounded resolution. */
  lemma SetRegionReads(extent: seq<real>, res: real, l: Labels, text: string)
    requires |extent| == 4 && FormatExtent(extent) == Ok(l) && text == FormatDms(ToDms(Abs(res)))
    ensures ReadRegion(l, text) == Some(Requested(extent, res))
  {
    FormatExtentReads(extent);
    ResolutionReads(res, text);
    var step := ReadDms(text).value;
    ReadRegionOf(l, text, NorthEdge(extent[3]), SouthEdge(extent[1]), EastEdge(extent[2]), WestEdge(extent[0]), step);
    RequestedIs(extent, res, AngleValue(step));
  }

  /** The resolution text of `_set_region` reads back as |res| rounded to a tenth of an arc-second. */
  lemma ResolutionReads(res: real, text: string)
    requires text == FormatDms(ToDms(Abs(res)))
    ensures ReadDms(text).Some? && AngleValue(ReadDms(text).value) == Tenths(res) as real / 36000.0
  {
    FormatDmsReads(Abs(res));
    AbsTenths(res);
  }

  lemma RequestedIs(extent: seq<real>, res: real, step: real)
    requires |extent| == 4 && step == Tenths(res) as real / 36000.0
    ensures Requested(extent, res) == Grass.Region(NorthEdge(extent[3]) as real, SouthEdge(extent[1]) as real,
                                                   EastEdge(extent[2]) as real, WestEdge(extent[0]) as real, step, step)
  {
  }

  lemma ReadRegionOf(l: Labels, text: string, n: int, s: int, e: int, w: int, step: Angle)
    requires ReadLabel(l.north, 'S', 'N') == Some(n) && ReadLabel(l.south, 'S', 'N') == Some(s)
    requires ReadLabel(l.east, 'W', 'E') == Some(e) && ReadLabel(l.west, 'W', 'E') == Some(w)
    requires ReadDms(text) == Some(step)
    ensures ReadRegion(l, text) == Some(Grass.Region(n as real, s as real, e as real, w as real, AngleValue(step), AngleValue(step)))
  {
  }

  lemma AbsTenths(x: real)
    ensures Tenths(Abs(x)) == Tenths(x)
  {
    assert Abs(Abs(x)) == Abs(x);
  }

  /**
   * `_set_region` with the resolution text passed as `res`: GRASS reads
   * the labels and the text back, sets the region and saves it under the
   * name. A malformed extent raises before anything changes.
   */
  method SetRegion(e: Grass.Engine, name: string, res: real, extent: seq<real>) returns (r: Result<()>)
    modifies e
    ensures r.Ok? <==> |extent| == 4
    ensures r.Err? ==> r == Err(FormatExtent(extent).error)
    ensures r.Err? ==> e.region == old(e.region) && e.saved == old(e.saved) && e.log == old(e.log)
    ensures r.Ok? ==> e.region == Requested(extent, res) && e.saved == old(e.saved)[name := Requested(extent, res)]
    ensures r.Ok? ==> e.log == old(e.log) + [Grass.RegionSave(Requested(extent, res), name)]
    ensures e.maps == old(e.maps) && e.mask == old(e.mask) && e.files == old(e.files)
  {
    var labels := FormatExtent(extent);
    if labels.Err? {
      return Err(labels.error);
    }
    var resDms := FormatDms(ToDms(Abs(res)));
    SetRegionReads(extent, res, labels.value, resDms);
    var rg := ReadRegion(labels.value, resDms).value;
    e.RegionSaveCmd(rg, name);
    r := Ok(());
  }

  /** The first n entries of the table, in order, are known and have four-value extents. */
  predicate Fits(table: map<string, Constants.RegionSpec>, names: seq<string>, n: nat)
  {
    n <= |names| && forall j :: 0 <= j < n ==> names[j] in table && |table[names[j]].extent| == 4
  }

  function RequestedOf(spec: Constants.RegionSpec): Grass.Region
    requires |spec.extent| == 4
  {
    Requested(spec.extent, spec.res)
  }

  /** The saved regions after the first n entries have been set and saved. */
  function SavedAfter(saved: map<string, Grass.Region>, table: map<string, Constants.RegionSpec>,
                      names: seq<string>, n: nat): map<string, Grass.Region>
    requires Fits(table, names, n)
  {
    if n == 0 then saved
    else SavedAfter(saved, table, names, n - 1)[names[n - 1] := RequestedOf(table[names[n - 1]])]
  }

  /** The commands issued for the first n entries. */
  function SaveLog(table: map<string, Constants.RegionSpec>, names: seq<string>, n: nat): seq<Grass.Command>
    requires Fits(table, names, n)
  {
    if n == 0 then []
    else SaveLog(table, names, n - 1) + [Grass.RegionSave(RequestedOf(table[names[n - 1]]), names[n - 1])]
  }

  /**
   * After the first n entries, a region is saved under every one of their
   * names, each with its own table entry, and every other saved region is
   * as it was.
   */
  lemma {:induction false} SavedAfterMeaning(saved: map<string, Grass.Region>, table: map<string, Constants.RegionSpec>,
                                             names: seq<string>, n: nat, k: string)
    requires Fits(table, names, n)
    ensures k in SavedAfter(saved, table, names, n) <==> k in saved || exists j :: 0 <= j < n && names[j] == k
    ensures (exists j :: 0 <= j < n && names[j] == k) ==> SavedAfter(saved, table, names, n)[k] == RequestedOf(table[k])
    ensures (forall j :: 0 <= j < n ==> names[j] != k) && k in saved ==> SavedAfter(saved, table, names, n)[k] == saved[k]
  {
    if n > 0 {
      SavedAfterMeaning(saved, table, names, n - 1, k);
      if names[n - 1] != k && exists j :: 0 <= j < n && names[j] == k {
        var j :| 0 <= j < n && names[j] == k;
        assert j < n - 1;
      }
    }
  }

  /**
   * `set_regions` with the corrected `_set_region`: every entry of the
   * table, in the dict's order `names`, is set and saved; the first
   * malformed extent raises, leaving the entries before it saved.
   */
  method SetRegions(e: Grass.Engine, table: map<string, Constants.RegionSpec>, names: seq<string>) returns (r: Result<()>)
    requires forall j :: 0 <= j < |names| ==> names[j] in table
    modifies e
    ensures r.Ok? <==> Fits(table, names, |names|)
    ensures r.Ok? ==> e.saved == SavedAfter(old(e.saved), table, names, |names|)
    ensures r.Ok? ==> e.log == old(e.log) + SaveLog(table, names, |names|)
    ensures r.Ok? ==> e.region == if |names| == 0 then old(e.region) else RequestedOf(table[names[|names| - 1]])
    ensures r.Err? ==> exists j :: 0 <= j < |names| && Fits(table, names, j) && |table[names[j]].extent| != 4 &&
                        e.saved == SavedAfter(old(e.saved), table, names, j) &&
                        e.log == old(e.log) + SaveLog(table, names, j) &&
                        r == Err(FormatExtent(table[names[j]].extent).error)
    ensures e.maps == old(e.maps) && e.mask == old(e.mask) && e.files == old(e.files)
  {
    var i := 0;
    while i < |names|
      invariant i <= |names| && Fits(table, names, i)
      invariant e.saved == SavedAfter(old(e.saved), table, names, i)
      invariant e.log == old(e.log) + SaveLog(table, names, i)
      invariant e.region == if i == 0 then old(e.region) else RequestedOf(table[names[i - 1]])
      invariant e.maps == old(e.maps) && e.mask == old(e.mask) && e.files == old(e.files)
    {
      var spec := table[names[i]];
      r := SetRegion(e, names[i], spec.res, spec.extent);
      if r.Err? {
        return;
      }
      i := i + 1;
    }
    r := Ok(());
  }

  /**
   * `set_regions` as written: the first `_set_region` call raises
   * NameError, so nothing is saved unless the table is empty.
   */
  function SetRegionsAsWritten(table: map<string, Constants.RegionSpec>, names: seq<string>): (r: Result<()>)
    requires forall j :: 0 <= j < |names| ==> names[j] in table
    ensures r.Ok? <==> |names| == 0
  {
    if |names| == 0 then Ok(())
    else SetRegionAsWritten(names[0], table[names[0]].res, table[names[0]].extent)
  }
}
