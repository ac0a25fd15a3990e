// Decimal rendering and parsing used by the map-name, rule-text and
// region-name builders: Python's `str(n)`, `int(s)`, `s.zfill(w)`,
// `s.replace(a, b)` and fixed-point formatting with a given number of decimals.
module Strings {
  import opened Wrappers

  predicate IsDigit(c: char) {
    '0' <= c <= '9'
  }

  predicate AllDigits(s: string) {
    forall i :: 0 <= i < |s| ==> IsDigit(s[i])
  }

  function DigitChar(d: nat): (c: char)
    requires d < 10
    ensures IsDigit(c)
  {
    ['0', '1', '2', '3', '4', '5', '6', '7', '8', '9'][d]
  }

  function DigitValue(c: char): (d: nat)
    requires IsDigit(c)
    ensures d < 10 && DigitChar(d) == c
  {
    if c == '0' then 0 else if c == '1' then 1 else if c == '2' then 2
    else if c == '3' then 3 else if c == '4' then 4 else if c == '5' then 5
    else if c == '6' then 6 else if c == '7' then 7 else if c == '8' then 8
    else 9
  }

  lemma DigitValueOfChar(d: nat)
    requires d < 10
    ensures DigitValue(DigitChar(d)) == d
  {
  }

  /** Python's `str(n)` for a non-negative integer: shortest decimal, no sign. */
  function NatToString(n: nat): (s: string)
    ensures |s| >= 1 && AllDigits(s)
    ensures n < 10 <==> |s| == 1
    ensures |s| > 1 ==> s[0] != '0'
  {
    if n < 10 then [DigitChar(n)] else NatToString(n / 10) + [DigitChar(n % 10)]
  }

  /** Python's `int(s)` on a string of decimal digits. */
  function DigitsToNat(s: string): nat
    requires AllDigits(s)
  {
    if |s| == 0 then 0 else 10 * DigitsToNat(s[..|s| - 1]) + DigitValue(s[|s| - 1])
  }

  /** Parsing the rendering of a number gives the number back. */
  lemma {:induction false} ParseNatToString(n: nat)
    ensures DigitsToNat(NatToString(n)) == n
  {
    if n >= 10 {
      var s := NatToString(n);
      assert s[..|s| - 1] == NatToString(n / 10);
      ParseNatToString(n / 10);
      DigitValueOfChar(n % 10);
    } else {
      DigitValueOfChar(n);
    }
  }

  lemma NatToStringInjective(a: nat, b: nat)
    requires NatToString(a) == NatToString(b)
    ensures a == b
  {
    ParseNatToString(a);
    ParseNatToString(b);
  }

  /** Python's `str(i)` for any integer. */
  function IntToString(i: int): (s: string)
    ensures i >= 0 ==> s == NatToString(i)
    ensures i < 0 ==> s == "-" + NatToString(-i)
  {
    if i < 0 then "-" + NatToString(-i) else NatToString(i)
  }

  /** `str(i)` uses only digits and a leading minus sign. */
  lemma IntToStringChars(i: int, c: char)
    requires c != '-' && !IsDigit(c)
    ensures c !in IntToString(i)
  {
  }

  /** Distinct integers are written differently. */
  lemma IntToStringInjective(a: int, b: int)
    requires IntToString(a) == IntToString(b)
    ensures a == b
  {
    var sa, sb := IntToString(a), IntToString(b);
    if a < 0 && b < 0 {
      assert NatToString(-a) == sa[1..] == sb[1..] == NatToString(-b);
      NatToStringInjective(-a, -b);
    } else if a >= 0 && b >= 0 {
      NatToStringInjective(a, b);
    }
  }

  /** Splitting at the first occurrence of a separator is unique. */
  lemma SplitAtSeparator(a1: string, b1: string, a2: string, b2: string, c: char)
    requires c !in a1 && c !in a2
    requires a1 + [c] + b1 == a2 + [c] + b2
    ensures a1 == a2 && b1 == b2
  {
    var s := a1 + [c] + b1;
    if |a1| == |a2| {
      assert a1 == s[..|a1|] == a2;
      assert b1 == s[|a1| + 1..] == b2;
    } else if |a1| < |a2| {
      SeparatorAt(a1, b1, c);
      assert false;
    } else {
      SeparatorAt(a2, b2, c);
      assert false;
    }
  }

  /** The same, after a common prefix. */
  lemma SplitAfterPrefix(pre: string, a1: string, b1: string, a2: string, b2: string, c: char)
    requires c !in a1 && c !in a2
    requires pre + a1 + [c] + b1 == pre + a2 + [c] + b2
    ensures a1 == a2 && b1 == b2
  {
    var s1 := pre + a1 + [c] + b1;
    var s2 := pre + a2 + [c] + b2;
    assert s1[|pre|..] == a1 + [c] + b1;
    assert s2[|pre|..] == a2 + [c] + b2;
    SplitAtSeparator(a1, b1, a2, b2, c);
  }

  lemma SeparatorAt(a: string, b: string, c: char)
    ensures (a + [c] + b)[|a|] == c
  {
  }

  function Zeros(k: nat): (z: string)
    ensures |z| == k && forall i :: 0 <= i < k ==> z[i] == '0'
  {
    if k == 0 then [] else Zeros(k - 1) + ['0']
  }

  /** Python's `s.zfill(width)` for a string without a sign. */
  function ZFill(s: string, width: nat): (r: string)
    ensures |r| == if |s| >= width then |s| else width
    ensures r[|r| - |s|..] == s
    ensures forall i :: 0 <= i < |r| - |s| ==> r[i] == '0'
  {
    if |s| >= width then s else Zeros(width - |s|) + s
  }

  /** Leading zeros do not change the value of a digit string. */
  lemma {:induction false} DigitsToNatZeroPrefix(k: nat, s: string)
    requires AllDigits(s)
    ensures AllDigits(Zeros(k) + s)
    ensures DigitsToNat(Zeros(k) + s) == DigitsToNat(s)
  {
    if |s| == 0 {
      ZerosValue(k);
      assert Zeros(k) + s == Zeros(k);
    } else {
      var t := Zeros(k) + s;
      assert t[..|t| - 1] == Zeros(k) + s[..|s| - 1];
      DigitsToNatZeroPrefix(k, s[..|s| - 1]);
    }
  }

  lemma {:induction false} ZerosValue(k: nat)
    ensures AllDigits(Zeros(k)) && DigitsToNat(Zeros(k)) == 0
  {
    if k > 0 {
      assert Zeros(k)[..k - 1] == Zeros(k - 1);
      ZerosValue(k - 1);
    }
  }

  /** Python's `s.replace(a, b)` for single characters. */
  function ReplaceChar(s: string, a: char, b: char): (r: string)
    ensures |r| == |s|
    ensures forall i :: 0 <= i < |s| ==> r[i] == (if s[i] == a then b else s[i])
  {
    if |s| == 0 then [] else ReplaceChar(s[..|s| - 1], a, b) + [if s[|s| - 1] == a then b else s[|s| - 1]]
  }

  lemma ReplaceCharRemoves(s: string, a: char, b: char)
    requires a != b
    ensures a !in ReplaceChar(s, a, b)
  {
  }

  /**
   * Python's `f'{x:.6f}'` and `'%.2f' % x` once x has been rounded to a
   * whole number of millionths (hundredths): integer part, '.', 6 (2) digits.
   */
  function Fixed6(micro: nat): string
  {
    FixedParts(micro / 1000000, micro % 1000000, 6)
  }

  function Fixed2(centi: nat): string
  {
    FixedParts(centi / 100, centi % 100, 2)
  }

  /** The integer part, a '.', and the fraction zero-padded to k digits. */
  function FixedParts(whole: nat, frac: nat, k: nat): string
  {
    NatToString(whole) + "." + ZFill(NatToString(frac), k)
  }

  function Pow10Nat(k: nat): (p: nat)
    ensures p >= 1
  {
    if k == 0 then 1 else 10 * Pow10Nat(k - 1)
  }

  lemma {:induction false} NatToStringLength(n: nat, k: nat)
    requires k >= 1 && n < Pow10Nat(k)
    ensures |NatToString(n)| <= k
  {
    if n >= 10 {
      assert Pow10Nat(1) == 10;
      NatToStringLength(n / 10, k - 1);
    }
  }

  lemma SplitAtDot(a: string, b: string, s: string)
    requires s == a + "." + b
    ensures a == s[..|s| - |b| - 1] && b == s[|s| - |b|..]
  {
  }

  /** Rendering with six decimals loses nothing: equal renderings, equal numbers. */
  lemma Fixed6Injective(u1: nat, u2: nat)
    requires Fixed6(u1) == Fixed6(u2)
    ensures u1 == u2
  {
    assert Pow10Nat(6) == 1000000;
    FixedPartsInjective(u1 / 1000000, u1 % 1000000, u2 / 1000000, u2 % 1000000, 6);
  }

  lemma FixedPartsInjective(q1: nat, r1: nat, q2: nat, r2: nat, k: nat)
    requires k >= 1 && r1 < Pow10Nat(k) && r2 < Pow10Nat(k)
    requires FixedParts(q1, r1, k) == FixedParts(q2, r2, k)
    ensures q1 == q2 && r1 == r2
  {
    var f1, f2 := ZFill(NatToString(r1), k), ZFill(NatToString(r2), k);
    PaddedValue(r1, k);
    PaddedValue(r2, k);
    SplitAtDot(NatToString(q1), f1, FixedParts(q1, r1, k));
    SplitAtDot(NatToString(q2), f2, FixedParts(q1, r1, k));
    NatToStringInjective(q1, q2);
  }

  /** The zero-padded rendering of a number below 10^k parses back to it. */
  lemma PaddedValue(r: nat, k: nat)
    requires k >= 1 && r < Pow10Nat(k)
    ensures |ZFill(NatToString(r), k)| == k
    ensures AllDigits(ZFill(NatToString(r), k)) && DigitsToNat(ZFill(NatToString(r), k)) == r
  {
    var b := NatToString(r);
    NatToStringLength(r, k);
    ZFillShort(b, k);
    DigitsToNatZeroPrefix(k - |b|, b);
    ParseNatToString(r);
  }

  /** Padding a string no longer than the width prepends exactly the missing zeros. */
  lemma ZFillShort(s: string, width: nat)
    requires |s| <= width
    ensures ZFill(s, width) == Zeros(width - |s|) + s
  {
  }

  /** Python's `s.split(c)`: the pieces between the occurrences of c, in order. */
  function Split(s: string, c: char): (r: seq<string>)
    ensures |r| >= 1
  {
    if |s| == 0 then [""]
    else
      var rest := Split(s[1..], c);
      if s[0] == c then [""] + rest else [[s[0]] + rest[0]] + rest[1..]
  }

  /** A string without the separator is one piece. */
  lemma {:induction false} SplitNone(s: string, c: char)
    requires c !in s
    ensures Split(s, c) == [s]
  {
    if |s| > 0 {
      assert s[0] != c && c !in s[1..];
      SplitNone(s[1..], c);
      assert [s[0]] + s[1..] == s;
    }
  }

  /** Splitting at the first separator: the text before it is the first piece. */
  lemma {:induction false} SplitAt(a: string, b: string, c: char)
    requires c !in a
    ensures Split(a + [c] + b, c) == [a] + Split(b, c)
  {
    var s := a + [c] + b;
    if |a| > 0 {
      assert s[1..] == a[1..] + [c] + b;
      assert c !in a[1..];
      SplitAt(a[1..], b, c);
      assert [a[0]] + a[1..] == a;
    } else {
      assert s[1..] == b;
    }
  }

  // ---- Python's int(s) on a string ----

  /** The ASCII whitespace `int()` ignores around a number: space, tab, newline, return, vertical tab, form feed. */
  predicate IsSpace(c: char)
  {
    c == ' ' || (9 <= c as int <= 13)
  }

  /** The string without its leading whitespace. */
  function StripStart(s: string): (t: string)
    ensures |t| <= |s| && (|t| == 0 || !IsSpace(t[0]))
  {
    if |s| > 0 && IsSpace(s[0]) then StripStart(s[1..]) else s
  }

  /** The string without its trailing whitespace. */
  function StripEnd(s: string): (t: string)
    ensures |t| <= |s| && (|t| == 0 || !IsSpace(t[|t| - 1]))
  {
    if |s| > 0 && IsSpace(s[|s| - 1]) then StripEnd(s[..|s| - 1]) else s
  }

  /** A string that neither starts nor ends with whitespace is its own stripped form. */
  lemma Unpadded(s: string)
    requires |s| > 0 && !IsSpace(s[0]) && !IsSpace(s[|s| - 1])
    ensures StripEnd(StripStart(s)) == s
  {
  }

  /** Whether a stripped literal starts with a sign. */
  predicate Signed(t: string)
  {
    |t| > 0 && (t[0] == '+' || t[0] == '-')
  }

  /** An underscore at position i is followed by a digit. */
  predicate DigitAfter(s: string, i: nat)
    requires i < |s|
  {
    s[i] == '_' ==> i + 1 < |s| && IsDigit(s[i + 1])
  }

  /** Every character is a digit or an underscore. */
  predicate DigitsOrUnderscores(s: string)
  {
    forall i :: 0 <= i < |s| ==> IsDigit(s[i]) || s[i] == '_'
  }

  /** Digits, possibly grouped by single underscores between two digits (`1_000`). */
  predicate GroupedDigits(s: string)
  {
    |s| > 0 && IsDigit(s[0]) &&
    DigitsOrUnderscores(s) &&
    forall i :: 0 <= i < |s| ==> DigitAfter(s, i)
  }

  /** The digits of a grouped number, without the underscores. */
  function Ungrouped(s: string): (d: string)
    requires DigitsOrUnderscores(s)
    ensures AllDigits(d)
  {
    if |s| == 0 then [] else (if s[0] == '_' then [] else [s[0]]) + Ungrouped(s[1..])
  }

  /** The value of an unsigned literal, None unless it is grouped digits. */
  function ReadDigits(b: string): (r: Option<nat>)
    ensures r.Some? <==> GroupedDigits(b)
    ensures |b| > 0 && AllDigits(b) ==> r == Some(DigitsToNat(b))
  {
    if GroupedDigits(b) then
      if AllDigits(b) then UngroupedPlain(b); Some(DigitsToNat(Ungrouped(b)))
      else Some(DigitsToNat(Ungrouped(b)))
    else None
  }

  /** The value of a stripped literal: an optional sign, then grouped digits. */
  function ReadLiteral(t: string): Option<int>
  {
    if Signed(t) then
      match ReadDigits(t[1..])
      case None => None
      case Some(n) => Some(if t[0] == '-' then -(n as int) else n)
    else
      match ReadDigits(t)
      case None => None
      case Some(n) => Some(n)
  }

  /**
   * Python's `int(s)` with base 10: surrounding whitespace is ignored, an
   * optional sign precedes digits that single underscores may group; None
   * where it raises ValueError. A plain run of digits reads as itself.
   */
  function ParseInt(s: string): (r: Option<int>)
    ensures |s| > 0 && AllDigits(s) ==> r == Some(DigitsToNat(s))
  {
    if |s| > 0 && AllDigits(s) then UngroupedPlain(s); ReadLiteral(StripEnd(StripStart(s)))
    else ReadLiteral(StripEnd(StripStart(s)))
  }

  /** Ungrouping plain digits changes nothing. */
  lemma {:induction false} UngroupedPlain(s: string)
    requires AllDigits(s)
    ensures StripStart(s) == s && StripEnd(s) == s && !Signed(s)
    ensures DigitsOrUnderscores(s) && Ungrouped(s) == s
  {
    if |s| > 0 {
      UngroupedPlain(s[1..]);
    }
  }

  /** Leading whitespace does not change what is left after stripping it. */
  lemma {:induction false} StripStartSpaces(a: string, t: string)
    requires forall i :: 0 <= i < |a| ==> IsSpace(a[i])
    ensures StripStart(a + t) == StripStart(t)
  {
    if |a| > 0 {
      assert (a + t)[0] == a[0] && (a + t)[1..] == a[1..] + t;
      StripStartSpaces(a[1..], t);
    } else {
      assert a + t == t;
    }
  }

  /** Trailing whitespace does not change what is left after stripping it. */
  lemma {:induction false} StripEndSpaces(t: string, b: string)
    requires forall i :: 0 <= i < |b| ==> IsSpace(b[i])
    ensures StripEnd(t + b) == StripEnd(t)
  {
    if |b| > 0 {
      assert (t + b)[|t + b| - 1] == b[|b| - 1];
      assert (t + b)[..|t + b| - 1] == t + b[..|b| - 1];
      StripEndSpaces(t, b[..|b| - 1]);
    } else {
      assert t + b == t;
    }
  }

  /** `int()` reads back `str(n)`, whatever whitespace surrounds it. */
  lemma ParseIntPadded(a: string, n: nat, b: string)
    requires forall i :: 0 <= i < |a| ==> IsSpace(a[i])
    requires forall i :: 0 <= i < |b| ==> IsSpace(b[i])
    ensures ParseInt(a + NatToString(n) + b) == Some(n)
  {
    var d := NatToString(n);
    StripStartSpaces(a, d + b);
    assert a + d + b == a + (d + b);
    assert StripStart(d + b) == d + b by { assert (d + b)[0] == d[0]; }
    StripEndSpaces(d, b);
    UngroupedPlain(d);
    ParseNatToString(n);
  }

  /** A sign before the digits: `int("-n")` is -n and `int("+n")` is n. */
  lemma ParseIntSigned(n: nat, c: char)
    requires c == '+' || c == '-'
    ensures ParseInt([c] + NatToString(n)) == Some(if c == '-' then -(n as int) else n as int)
  {
    var d := NatToString(n);
    var s := [c] + d;
    assert s[0] == c && s[|s| - 1] == d[|d| - 1] && s[1..] == d;
    Unpadded(s);
    ParseNatToString(n);
    assert ReadDigits(d) == Some(n);
    ReadSigned(s, n);
  }

  lemma ReadSigned(t: string, n: nat)
    requires Signed(t) && ReadDigits(t[1..]) == Some(n)
    ensures ReadLiteral(t) == Some(if t[0] == '-' then -(n as int) else n as int)
  {
  }

  /** Underscores between digit groups are dropped: `int("1_000")` is `int("1000")`. */
  lemma ParseIntGrouped(d1: string, d2: string)
    requires |d1| > 0 && |d2| > 0 && AllDigits(d1) && AllDigits(d2)
    ensures ParseInt(d1 + "_" + d2) == Some(DigitsToNat(d1 + d2))
  {
    var s := d1 + "_" + d2;
    assert s[0] == d1[0] && s[|s| - 1] == d2[|d2| - 1];
    Unpadded(s);
    JoinedGroups(d1, d2);
    UngroupJoined(d1, d2);
    assert ReadDigits(s) == Some(DigitsToNat(d1 + d2));
    ReadUnsigned(s, DigitsToNat(d1 + d2));
  }

  lemma JoinedGroups(d1: string, d2: string)
    requires |d1| > 0 && |d2| > 0 && AllDigits(d1) && AllDigits(d2)
    ensures GroupedDigits(d1 + "_" + d2)
  {
    var s := d1 + "_" + d2;
    forall i | 0 <= i < |s| ensures (IsDigit(s[i]) || s[i] == '_') && DigitAfter(s, i) {
      if i < |d1| { assert s[i] == d1[i]; }
      else if i == |d1| { assert s[i + 1] == d2[0]; }
      else { assert s[i] == d2[i - |d1| - 1]; }
    }
  }

  lemma UngroupJoined(d1: string, d2: string)
    requires AllDigits(d1) && AllDigits(d2)
    ensures DigitsOrUnderscores(d1 + "_" + d2)
    ensures Ungrouped(d1 + "_" + d2) == d1 + d2
  {
    var u := "_" + d2;
    assert d1 + "_" + d2 == d1 + u;
    UngroupedPlain(d1);
    UngroupedPlain(d2);
    UngroupLeading(d2);
    UngroupedAppend(d1, u);
  }

  lemma UngroupLeading(d: string)
    requires AllDigits(d)
    ensures DigitsOrUnderscores("_" + d)
    ensures Ungrouped("_" + d) == Ungrouped(d)
  {
    var u := "_" + d;
    assert u[0] == '_' && u[1..] == d;
    forall i | 0 <= i < |u| ensures IsDigit(u[i]) || u[i] == '_' {
      if i > 0 { assert u[i] == d[i - 1]; }
    }
  }

  lemma ReadUnsigned(t: string, n: nat)
    requires |t| > 0 && IsDigit(t[0]) && ReadDigits(t) == Some(n)
    ensures ReadLiteral(t) == Some(n as int)
  {
  }

  /** A trailing underscore is a ValueError. */
  lemma ParseIntTrailingUnderscore(d: string)
    requires |d| > 0 && AllDigits(d)
    ensures ParseInt(d + "_").None?
  {
    var s := d + "_";
    assert s[0] == d[0] && s[|s| - 1] == '_';
    Unpadded(s);
    assert !DigitAfter(s, |s| - 1);
    assert !Signed(s) && ReadDigits(s).None?;
  }

  lemma {:induction false} UngroupedAppend(x: string, y: string)
    requires DigitsOrUnderscores(x) && DigitsOrUnderscores(y)
    ensures Ungrouped(x + y) == Ungrouped(x) + Ungrouped(y)
  {
    if |x| > 0 {
      assert (x + y)[0] == x[0] && (x + y)[1..] == x[1..] + y;
      UngroupedAppend(x[1..], y);
    } else {
      assert x + y == y;
    }
  }
}
