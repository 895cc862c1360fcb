/**
 * The resolvers receive ids as GraphQL ID strings and convert them with
 * JavaScript's parseInt (no radix). This module models that conversion on
 * unbounded integers, and the decimal rendering an id has on the wire.
 */
module JsNumber {
  import opened Wrappers

  /** The white-space and line-terminator characters parseInt skips. */
  predicate IsJsSpace(c: char)
  {
    c == '\t' || c == '\n' || c == '\U{B}' || c == '\U{C}' || c == '\r' || c == ' ' ||
    c == '\U{A0}' || c == '\U{1680}' || ('\U{2000}' <= c <= '\U{200A}') ||
    c == '\U{2028}' || c == '\U{2029}' || c == '\U{202F}' || c == '\U{205F}' ||
    c == '\U{3000}' || c == '\U{FEFF}'
  }

  /** The value of c as a digit in the given radix (10 or 16), or -1. */
  function DigitValue(c: char, radix: nat): (v: int)
    requires radix == 10 || radix == 16
    ensures -1 <= v < radix
  {
    if '0' <= c <= '9' then c as int - '0' as int
    else if radix == 16 && 'a' <= c <= 'f' then c as int - 'a' as int + 10
    else if radix == 16 && 'A' <= c <= 'F' then c as int - 'A' as int + 10
    else -1
  }

  predicate IsDigit(c: char, radix: nat)
    requires radix == 10 || radix == 16
  {
    DigitValue(c, radix) >= 0
  }

  function TrimStart(s: string): (t: string)
    ensures |t| <= |s| && t == s[|s| - |t|..]
    ensures t == [] || !IsJsSpace(t[0])
  {
    if |s| > 0 && IsJsSpace(s[0]) then TrimStart(s[1..]) else s
  }

  /** The longest prefix of s made of digits of the radix. */
  function DigitPrefix(s: string, radix: nat): (z: string)
    requires radix == 10 || radix == 16
    ensures z <= s
    ensures forall i :: 0 <= i < |z| ==> IsDigit(z[i], radix)
    ensures |z| == |s| || !IsDigit(s[|z|], radix)
  {
    if |s| > 0 && IsDigit(s[0], radix) then [s[0]] + DigitPrefix(s[1..], radix) else []
  }

  /** The value of a digit string, most significant digit first. */
  function DigitsValue(z: string, radix: nat): (v: nat)
    requires radix == 10 || radix == 16
    requires forall i :: 0 <= i < |z| ==> IsDigit(z[i], radix)
  {
    if z == [] then 0
    else
      assert IsDigit(z[|z| - 1], radix);
      DigitsValue(z[..|z| - 1], radix) * radix + DigitValue(z[|z| - 1], radix)
  }

  predicate HasHexPrefix(u: string)
  {
    |u| >= 2 && u[0] == '0' && (u[1] == 'x' || u[1] == 'X')
  }

  /** The value of the longest digit prefix of w, or None when w does not start with a digit. */
  function DigitRun(w: string, radix: nat): (r: Option<nat>)
    requires radix == 10 || radix == 16
  {
    var z := DigitPrefix(w, radix);
    if z == [] then None else Some(DigitsValue(z, radix))
  }

  /** The magnitude after the sign: a "0x"/"0X" prefix selects radix 16, else radix 10. */
  function Magnitude(u: string): (r: Option<nat>)
  {
    if HasHexPrefix(u) then DigitRun(u[2..], 16) else DigitRun(u, 10)
  }

  /** A leading minus sign. */
  predicate IsNegative(t: string)
  {
    |t| > 0 && t[0] == '-'
  }

  /** The text after an optional leading sign. */
  function Unsigned(t: string): (u: string)
  {
    if |t| > 0 && (t[0] == '-' || t[0] == '+') then t[1..] else t
  }

  /**
   * parseInt(s) with no radix: skip leading white space, read an optional
   * sign, then the magnitude; None stands for NaN.
   */
  function ParseInt(s: string): (r: Option<int>)
    ensures r.None? <==>
      var u := Unsigned(TrimStart(s));
      if HasHexPrefix(u) then |u| == 2 || !IsDigit(u[2], 16) else u == [] || !IsDigit(u[0], 10)
    ensures r.Some? && IsNegative(TrimStart(s)) ==> r.value <= 0
    ensures r.Some? && !IsNegative(TrimStart(s)) ==> r.value >= 0
  {
    var t := TrimStart(s);
    match Magnitude(Unsigned(t))
    case None => None
    case Some(v) =>
      var w: int := v;
      Some(if IsNegative(t) then -w else w)
  }

  function DigitChar(d: nat): (c: char)
    requires d < 10
    ensures IsDigit(c, 10) && DigitValue(c, 10) == d
  {
    ('0' as int + d) as char
  }

  /** Decimal digits of n, without leading zeros. */
  function Digits(n: nat): (z: string)
    ensures |z| >= 1
    ensures forall i :: 0 <= i < |z| ==> IsDigit(z[i], 10)
  {
    if n < 10 then [DigitChar(n)] else Digits(n / 10) + [DigitChar(n % 10)]
  }

  /** How an integer id is written in a GraphQL ID string. */
  function Show(n: int): (s: string)
    ensures |s| >= 1
  {
    if n < 0 then "-" + Digits(-n) else Digits(n)
  }

  lemma {:induction false} DigitsValueOfDigits(n: nat)
    ensures DigitsValue(Digits(n), 10) == n
  {
    var z := Digits(n);
    if n >= 10 {
      DigitsValueOfDigits(n / 10);
      assert z[..|z| - 1] == Digits(n / 10);
    }
  }

  lemma {:induction false} DigitPrefixOfDigits(z: string)
    requires forall i :: 0 <= i < |z| ==> IsDigit(z[i], 10)
    ensures DigitPrefix(z, 10) == z
  {
    if |z| > 0 {
      DigitPrefixOfDigits(z[1..]);
    }
  }

  lemma MagnitudeDecimal(z: string)
    requires |z| >= 1 && forall i :: 0 <= i < |z| ==> IsDigit(z[i], 10)
    ensures Magnitude(z) == Some(DigitsValue(z, 10))
  {
    if |z| >= 2 {
      assert IsDigit(z[1], 10);
    }
    assert !HasHexPrefix(z);
    DigitPrefixOfDigits(z);
  }

  /** A run of decimal digits followed by a non-digit: the digit prefix is the run. */
  lemma {:induction false} DigitPrefixStops(z: string, rest: string)
    requires forall i :: 0 <= i < |z| ==> IsDigit(z[i], 10)
    requires rest == [] || !IsDigit(rest[0], 10)
    ensures DigitPrefix(z + rest, 10) == z
  {
    if |z| > 0 {
      assert (z + rest)[1..] == z[1..] + rest;
      DigitPrefixStops(z[1..], rest);
    } else {
      assert z + rest == rest;
    }
  }

  lemma MagnitudeDigitRun(z: string, rest: string)
    requires |z| >= 1 && forall i :: 0 <= i < |z| ==> IsDigit(z[i], 10)
    requires rest == [] || !IsDigit(rest[0], 10)
    requires !HasHexPrefix(z + rest)
    ensures Magnitude(z + rest) == Some(DigitsValue(z, 10))
  {
    DigitPrefixStops(z, rest);
  }

  /**
   * parseInt reads the leading run of decimal digits and ignores whatever
   * follows ("12.5" gives 12, "7z" gives 7), unless the text starts with
   * a "0x" prefix.
   */
  lemma ParseIntDigitRun(z: string, rest: string)
    requires |z| >= 1 && forall i :: 0 <= i < |z| ==> IsDigit(z[i], 10)
    requires rest == [] || !IsDigit(rest[0], 10)
    requires !HasHexPrefix(z + rest)
    ensures ParseInt(z + rest) == Some(DigitsValue(z, 10) as int)
  {
    var s := z + rest;
    assert s[0] == z[0];
    DigitIsNoSign(z[0]);
    MagnitudeDigitRun(z, rest);
    ParseIntUnsigned(s, DigitsValue(z, 10));
  }

  lemma DigitIsNoSign(c: char)
    requires IsDigit(c, 10)
    ensures !IsJsSpace(c) && c != '-' && c != '+'
  {
  }

  lemma ParseIntUnsigned(s: string, v: nat)
    requires |s| > 0 && !IsJsSpace(s[0]) && s[0] != '-' && s[0] != '+'
    requires Magnitude(s) == Some(v)
    ensures ParseInt(s) == Some(v as int)
  {
    TrimStartKeeps(s);
  }

  /** A minus sign in front of unsigned, unpadded text negates what parseInt reads. */
  lemma ParseIntMinus(s: string)
    requires |s| > 0 && !IsJsSpace(s[0]) && s[0] != '-' && s[0] != '+'
    ensures ParseInt("-" + s) == match ParseInt(s) case None => None case Some(v) => Some(-v)
  {
    var m := "-" + s;
    TrimStartKeeps(s);
    TrimStartKeeps(m);
    assert m[1..] == s;
    assert Unsigned(m) == s && IsNegative(m);
    assert Unsigned(s) == s && !IsNegative(s);
  }

  lemma TrimStartKeeps(s: string)
    requires |s| > 0 && !IsJsSpace(s[0])
    ensures TrimStart(s) == s
  {
  }

  /** Rendering an id and parsing it back gives the id: the by-id resolvers find what was shown. */
  lemma ParseIntShow(n: int)
    ensures ParseInt(Show(n)) == Some(n)
  {
    var m: nat := if n < 0 then -n else n;
    var z := Digits(m);
    var s := Show(n);
    assert IsDigit(z[0], 10);
    assert s[0] == (if n < 0 then '-' else z[0]);
    TrimStartKeeps(s);
    assert Unsigned(s) == z;
    assert IsNegative(s) == (n < 0);
    MagnitudeDecimal(z);
    DigitsValueOfDigits(m);
  }
}
