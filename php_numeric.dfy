/**
 * PHP 8 numeric strings (`is_numeric`) and the value `$s * 1` gives them:
 * optional surrounding whitespace, an optional sign, decimal digits with at most
 * one '.', and an optional exponent. Integer syntax within the 64-bit range
 * gives an int; everything else numeric gives a float (an exact real here).
 */
module PhpNumeric {
  import opened Wrappers
  import opened Php

  const IntMax: int := 0x7FFF_FFFF_FFFF_FFFF
  const IntMin: int := -0x8000_0000_0000_0000

  datatype Number = IntNum(n: int) | FloatNum(r: real)

  predicate IsDigit(c: char) {
    '0' <= c <= '9'
  }

  predicate AllDigits(s: string) {
    forall i :: 0 <= i < |s| ==> IsDigit(s[i])
  }

  /** The whitespace `is_numeric` accepts around a number. */
  predicate IsWhitespace(c: char) {
    c == ' ' || c == '\t' || c == '\n' || c == '\r' || c == '\U{B}' || c == '\U{C}'
  }

  /** The decimal value of a digit string. */
  function DigitsValue(s: string): nat
    requires AllDigits(s)
  {
    if |s| == 0 then 0 else 10 * DigitsValue(s[..|s| - 1]) + (s[|s| - 1] as int - '0' as int)
  }

  function Pow10(k: nat): (r: nat)
    ensures r >= 1
  {
    if k == 0 then 1 else 10 * Pow10(k - 1)
  }

  function IndexOf(s: string, c: char): (r: Option<nat>)
    ensures r.Some? ==> r.value < |s| && s[r.value] == c && c !in s[..r.value]
    ensures r.None? ==> c !in s
  {
    if |s| == 0 then None
    else if s[0] == c then Some(0)
    else match IndexOf(s[1..], c)
      case None => None
      case Some(i) => assert s[..i + 1] == [s[0]] + s[1..][..i]; Some(i + 1)
  }

  function TrimLeadingWs(s: string): (r: string)
    ensures |r| <= |s| && r == s[|s| - |r|..]
    ensures |r| > 0 ==> !IsWhitespace(r[0])
  {
    if |s| > 0 && IsWhitespace(s[0]) then TrimLeadingWs(s[1..]) else s
  }

  function TrimTrailingWs(s: string): (r: string)
    ensures |r| <= |s| && r == s[..|r|]
    ensures |r| > 0 ==> !IsWhitespace(r[|r| - 1])
  {
    if |s| > 0 && IsWhitespace(s[|s| - 1]) then TrimTrailingWs(s[..|s| - 1]) else s
  }

  /** Digits with at most one '.', at least one digit: its value and whether it had no '.'. */
  function Mantissa(m: string): Option<(real, bool)> {
    match IndexOf(m, '.')
    case None =>
      if m != "" && AllDigits(m) then Some((DigitsValue(m) as real, true)) else None
    case Some(p) =>
      var whole, frac := m[..p], m[p + 1..];
      if (whole != "" || frac != "") && AllDigits(whole) && AllDigits(frac)
      then Some((DigitsValue(whole) as real + DigitsValue(frac) as real / Pow10(|frac|) as real, false))
      else None
  }

  /** `[+-]?digits` after an 'e' or 'E'. */
  function Exponent(x: string): Option<int> {
    if |x| > 0 && (x[0] == '+' || x[0] == '-') then
      var ds := x[1..];
      if ds != "" && AllDigits(ds) then Some(if x[0] == '-' then 0 - DigitsValue(ds) as int else DigitsValue(ds)) else None
    else if x != "" && AllDigits(x) then Some(DigitsValue(x))
    else None
  }

  function Scale(r: real, e: int): real {
    if e >= 0 then r * Pow10(e) as real else r / Pow10(-e) as real
  }

  /** An unsigned number: mantissa and optional exponent. */
  function Unsigned(u: string): Option<(real, bool)> {
    var e := match IndexOf(u, 'e') case Some(i) => Some(i) case None => IndexOf(u, 'E');
    match e
    case None => Mantissa(u)
    case Some(i) =>
      match (Mantissa(u[..i]), Exponent(u[i + 1..]))
      case (Some((m, _)), Some(x)) => Some((Scale(m, x), false))
      case _ => None
  }

  /** Leading and trailing whitespace removed; nothing else changes. */
  function Trim(s: string): (r: string)
    ensures forall c :: c in r ==> c in s
  {
    var l := TrimLeadingWs(s);
    var r := TrimTrailingWs(l);
    assert forall c :: c in r ==> c in l;
    r
  }

  /** An optional sign: whether it was '-', and the rest. */
  function SplitSign(t: string): (r: (bool, string))
    ensures forall c :: c in r.1 ==> c in t
  {
    if |t| > 0 && (t[0] == '+' || t[0] == '-') then (t[0] == '-', t[1..]) else (false, t)
  }

  /** An integral value within 64 bits is an int, anything else a float. */
  function Signed(m: Option<(real, bool)>, neg: bool): Option<Number> {
    match m
    case None => None
    case Some((v, integral)) =>
      var value := if neg then -v else v;
      if integral && IntMin as real <= value <= IntMax as real then Some(IntNum(value.Floor))
      else Some(FloatNum(value))
  }

  /** `$s * 1` for a string: None when `is_numeric($s)` is false. */
  function ParseNumeric(s: string): Option<Number> {
    var (neg, u) := SplitSign(Trim(s));
    Signed(Unsigned(u), neg)
  }

  predicate IsNumeric(s: string) {
    ParseNumeric(s).Some?
  }

  /** A plain digit string is numeric, with its decimal value; within range it is an int. */
  lemma DigitStringIsInt(s: string)
    requires s != "" && AllDigits(s)
    ensures IsNumeric(s)
    ensures DigitsValue(s) <= IntMax ==> ParseNumeric(s) == Some(IntNum(DigitsValue(s)))
    ensures DigitsValue(s) > IntMax ==> ParseNumeric(s) == Some(FloatNum(DigitsValue(s) as real))
  {
    NoWsInDigits(s);
    assert SplitSign(Trim(s)) == (false, s);
    DigitsUnsigned(s);
  }

  /** `-digits` is numeric, with the negated value of the digits. */
  lemma NegativeDigitString(ds: string)
    requires ds != "" && AllDigits(ds)
    ensures ParseNumeric("-" + ds) == Signed(Some((DigitsValue(ds) as real, true)), true)
  {
    NegativeSplit(ds);
    DigitsUnsigned(ds);
  }

  lemma NegativeSplit(ds: string)
    requires ds != "" && AllDigits(ds)
    ensures SplitSign(Trim("-" + ds)) == (true, ds)
  {
    var s := "-" + ds;
    NoWsInDigits(ds);
    assert TrimLeadingWs(s) == s;
    assert s[|s| - 1] == ds[|ds| - 1];
    assert s[1..] == ds;
  }

  lemma NegatedInt(v: nat)
    requires v <= -IntMin
    ensures Signed(Some((v as real, true)), true) == Some(IntNum(0 - v))
  {
    assert (-(v as real)).Floor == 0 - v;
  }

  lemma DigitsUnsigned(ds: string)
    requires ds != "" && AllDigits(ds)
    ensures Unsigned(ds) == Some((DigitsValue(ds) as real, true))
  {
    assert 'e' !in ds && 'E' !in ds && '.' !in ds;
  }

  lemma NoWsInDigits(s: string)
    requires AllDigits(s)
    ensures Trim(s) == s
  {
    if |s| > 0 {
      assert !IsWhitespace(s[0]) && !IsWhitespace(s[|s| - 1]);
    }
  }

  /** A string without any digit is never numeric. */
  lemma NoDigitNotNumeric(s: string)
    requires forall i :: 0 <= i < |s| ==> !IsDigit(s[i])
    ensures !IsNumeric(s)
  {
    var u := SplitSign(Trim(s)).1;
    assert forall i :: 0 <= i < |u| ==> !IsDigit(u[i]) by {
      forall i | 0 <= i < |u| ensures !IsDigit(u[i]) {
        assert u[i] in u;
      }
    }
    MantissaNeedsDigit(u);
    match IndexOf(u, 'e') {
      case Some(i) => MantissaNeedsDigit(u[..i]);
      case None =>
        match IndexOf(u, 'E') {
          case Some(i) => MantissaNeedsDigit(u[..i]);
          case None =>
        }
    }
  }

  lemma MantissaNeedsDigit(m: string)
    requires forall i :: 0 <= i < |m| ==> !IsDigit(m[i])
    ensures Mantissa(m).None?
  {
    match IndexOf(m, '.') {
      case None =>
        if m != "" { assert !IsDigit(m[0]); }
      case Some(p) =>
        var whole, frac := m[..p], m[p + 1..];
        if whole != "" { assert !IsDigit(whole[0]); }
        if frac != "" { assert !IsDigit(frac[0]); }
    }
  }

  // ---------------------------------------------------------------------------
  // `(string)$n` and PHP 8 loose comparison against an int

  function DigitChar(d: int): char
    requires 0 <= d < 10
  {
    ('0' as int + d) as char
  }

  /** The decimal digits of a natural number, without leading zeros. */
  function NatToString(n: nat): (r: string)
    ensures r != "" && AllDigits(r) && DigitsValue(r) == n
    ensures n > 0 ==> r[0] != '0'
  {
    if n < 10 then [DigitChar(n)]
    else
      var r := NatToString(n / 10) + [DigitChar(n % 10)];
      assert r[..|r| - 1] == NatToString(n / 10);
      r
  }

  /** `(string)$n` */
  function IntToString(n: int): string {
    if n < 0 then "-" + NatToString(-n) else NatToString(n)
  }

  /** `strcmp($a, $b) < 0`: byte-wise lexicographic order. */
  predicate LexLess(a: string, b: string) {
    if |a| == 0 then |b| > 0
    else if |b| == 0 then false
    else if a[0] != b[0] then a[0] < b[0]
    else LexLess(a[1..], b[1..])
  }

  /**
   * PHP 8 `$v < $n` for an int `$n`: numbers compare numerically, null and
   * booleans as booleans, numeric strings by their value, other strings
   * against `(string)$n`, and an array is never smaller.
   */
  predicate LooseLess(v: Value, n: int) {
    match v
    case Null => n != 0
    case Bool(b) => !b && n != 0
    case Int(m) => m < n
    case Float(r) => r < n as real
    case Str(s) =>
      (match ParseNumeric(s)
       case Some(IntNum(m)) => m < n
       case Some(FloatNum(r)) => r < n as real
       case None => LexLess(s, IntToString(n)))
    case Arr(_) => false
  }
}
