// Decimal text for 64-bit integers: std::stoll (the parse every task uses for
// its numeric request parameters) and std::to_string.
module Decimal {
  import StringUtil

  const INT64_MIN: int := -0x8000_0000_0000_0000
  const INT64_MAX: int := 0x7FFF_FFFF_FFFF_FFFF

  predicate IsInt64(n: int) { INT64_MIN <= n <= INT64_MAX }

  predicate IsDigit(c: char) { '0' <= c <= '9' }

  function DigitValue(c: char): nat
    requires IsDigit(c)
  {
    c as int - '0' as int
  }

  function DigitChar(d: nat): (c: char)
    requires d < 10
    ensures IsDigit(c) && DigitValue(c) == d
  {
    ('0' as int + d) as char
  }

  /** Length of the run of decimal digits at the start of s. */
  function DigitRun(s: string): (k: nat)
    ensures k <= |s|
    ensures forall i | 0 <= i < k :: IsDigit(s[i])
    ensures k < |s| ==> !IsDigit(s[k])
    decreases |s|
  {
    if |s| == 0 || !IsDigit(s[0]) then 0 else 1 + DigitRun(s[1..])
  }

  /** The number a string of decimal digits denotes. */
  function DigitsValue(ds: string): nat
    requires forall i | 0 <= i < |ds| :: IsDigit(ds[i])
    decreases |ds|
  {
    if |ds| == 0 then 0 else 10 * DigitsValue(ds[..|ds| - 1]) + DigitValue(ds[|ds| - 1])
  }

  /** The outcome of std::stoll: a value, or one of its two exceptions. */
  datatype StollResult = Parsed(value: int) | InvalidArgument | OutOfRange

  /**
   * std::stoll (strtoll, base 10): skip leading whitespace, read an optional
   * sign and the longest run of digits; later characters are ignored. No
   * digits throws invalid_argument, a value outside int64 throws out_of_range.
   */
  function Stoll(s: string): (r: StollResult)
  {
    var t := s[StringUtil.FirstNotSpace(s)..];
    var neg := |t| > 0 && t[0] == '-';
    var u := if |t| > 0 && (t[0] == '-' || t[0] == '+') then t[1..] else t;
    var k := DigitRun(u);
    if k == 0 then InvalidArgument
    else
      var v := if neg then -(DigitsValue(u[..k]) as int) else DigitsValue(u[..k]);
      if IsInt64(v) then Parsed(v) else OutOfRange
  }

  /** Decimal digits of a natural number, most significant first, no leading zeros. */
  function NatToString(n: nat): (s: string)
    ensures |s| > 0
    ensures forall i | 0 <= i < |s| :: IsDigit(s[i])
    decreases n
  {
    if n < 10 then [DigitChar(n)] else NatToString(n / 10) + [DigitChar(n % 10)]
  }

  /** std::to_string on an int64: a minus sign for negatives, then the digits. */
  function ToString(n: int): (s: string)
    ensures |s| > 0
  {
    if n < 0 then "-" + NatToString(-n) else NatToString(n)
  }

  lemma {:induction false} DigitsOfNat(n: nat)
    ensures DigitsValue(NatToString(n)) == n
    decreases n
  {
    var s := NatToString(n);
    if n >= 10 {
      DigitsOfNat(n / 10);
      assert s[..|s| - 1] == NatToString(n / 10);
    }
  }

  /** Parsing what std::to_string printed gives the number back. */
  lemma StollToString(n: int)
    requires IsInt64(n)
    ensures Stoll(ToString(n)) == Parsed(n)
  {
    var m: nat := if n < 0 then -n else n;
    var ds := NatToString(m);
    DigitsOfNat(m);
    if n < 0 {
      StollNegDigits(ds, m);
    } else {
      StollDigits(ds);
    }
  }

  /** A plain run of digits parses to its value. */
  lemma StollDigits(ds: string)
    requires |ds| > 0 && forall i | 0 <= i < |ds| :: IsDigit(ds[i])
    requires IsInt64(DigitsValue(ds))
    ensures Stoll(ds) == Parsed(DigitsValue(ds))
  {
    DigitRunAll(ds);
    assert ds[..|ds|] == ds;
    assert StringUtil.FirstNotSpace(ds) == 0;
    assert ds[0..] == ds;
  }

  /** A minus sign and a run of digits of value m parse to -m. */
  lemma StollNegDigits(ds: string, m: int)
    requires |ds| > 0 && forall i | 0 <= i < |ds| :: IsDigit(ds[i])
    requires m == DigitsValue(ds) && IsInt64(-m)
    ensures Stoll("-" + ds) == Parsed(-m)
  {
    DigitRunAll(ds);
    var s := "-" + ds;
    assert StringUtil.FirstNotSpace(s) == 0;
    var t := s[0..];
    assert t == s && t[0] == '-';
    var u := t[1..];
    assert u == ds && u[..|ds|] == ds;
  }

  lemma {:induction false} DigitRunAll(s: string)
    requires forall i | 0 <= i < |s| :: IsDigit(s[i])
    ensures DigitRun(s) == |s|
    decreases |s|
  {
    if |s| > 0 { DigitRunAll(s[1..]); }
  }

  /** Two different int64 values never print the same text. */
  lemma ToStringInjective(a: int, b: int)
    requires IsInt64(a) && IsInt64(b) && ToString(a) == ToString(b)
    ensures a == b
  {
    StollToString(a);
    StollToString(b);
  }
}
