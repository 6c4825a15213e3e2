/**
 * Decimal text for integers: Kotlin's `Int.toString()` (used when a count is
 * spliced into a preference key) and `String.toIntOrNull()` (used when a key
 * is read back), restricted to ASCII decimal digits.
 */
module Decimal {
  import opened Wrappers

  const MinInt32: int := -0x8000_0000
  const MaxInt32: int := 0x7fff_ffff

  /** Kotlin's `Int`. */
  newtype Int32 = n: int | MinInt32 <= n <= MaxInt32

  predicate IsDigit(c: char) {
    '0' <= c <= '9'
  }

  predicate IsDigitString(s: string) {
    forall i :: 0 <= i < |s| ==> IsDigit(s[i])
  }

  /** The character that prints the digit `d`. */
  function DigitChar(d: int): (c: char)
    requires 0 <= d < 10
    ensures IsDigit(c)
  {
    ('0' as int + d) as char
  }

  /** The digit a digit character stands for. */
  function DigitValue(c: char): (d: int)
    requires IsDigit(c)
    ensures 0 <= d < 10
  {
    c as int - '0' as int
  }

  lemma DigitCharValue(d: int)
    requires 0 <= d < 10
    ensures DigitValue(DigitChar(d)) == d
  {
  }

  lemma DigitValueChar(c: char)
    requires IsDigit(c)
    ensures DigitChar(DigitValue(c)) == c
  {
  }

  /** The value of a string of digits, most significant digit first. */
  function DigitsValue(s: string): (n: nat)
    requires IsDigitString(s)
  {
    if |s| == 0 then 0 else DigitsValue(s[..|s| - 1]) * 10 + DigitValue(s[|s| - 1])
  }

  /** Decimal digits of a natural number, without leading zeros. */
  function NatToString(n: nat): (s: string)
    ensures |s| > 0 && IsDigitString(s)
    ensures s[0] == '0' ==> n == 0
  {
    if n < 10 then [DigitChar(n)] else NatToString(n / 10) + [DigitChar(n % 10)]
  }

  /** Kotlin's `Int.toString()`: a '-' in front of negative numbers. */
  function IntToString(n: int): (s: string)
    ensures |s| > 0
    ensures n < 0 ==> s[0] == '-' && IsDigitString(s[1..])
    ensures n >= 0 ==> IsDigitString(s)
  {
    if n < 0 then "-" + NatToString(-n) else NatToString(n)
  }

  /**
   * An optional sign ('+' or '-') followed by at least one decimal digit,
   * read as an unbounded integer; `None` for anything else.
   */
  function ParseDecimal(s: string): (r: Option<int>)
    ensures r.Some? ==> |s| > 0
  {
    if |s| > 0 && (s[0] == '-' || s[0] == '+') then
      var body := s[1..];
      if |body| > 0 && IsDigitString(body) then
        var magnitude: int := DigitsValue(body);
        Some(if s[0] == '-' then -magnitude else magnitude)
      else None
    else if |s| > 0 && IsDigitString(s) then Some(DigitsValue(s))
    else None
  }

  /** Kotlin's `String.toIntOrNull()`: a decimal literal whose value fits an `Int`. */
  function ToIntOrNull(s: string): (r: Option<Int32>)
    ensures r.Some? <==> ParseDecimal(s).Some? && MinInt32 <= ParseDecimal(s).value <= MaxInt32
    ensures r.Some? ==> ParseDecimal(s) == Some(r.value as int)
  {
    match ParseDecimal(s)
    case Some(v) => if MinInt32 <= v <= MaxInt32 then Some(v as Int32) else None
    case None => None
  }

  /** Reading back the digits of a natural number gives that number. */
  lemma {:induction false} NatToStringRoundTrip(n: nat)
    ensures DigitsValue(NatToString(n)) == n
  {
    if n >= 10 {
      var s := NatToString(n);
      assert s[..|s| - 1] == NatToString(n / 10);
      NatToStringRoundTrip(n / 10);
      DigitCharValue(n % 10);
    } else {
      DigitCharValue(n);
    }
  }

  /** Parsing the printed form of any integer gives that integer back. */
  lemma ParseDecimalRoundTrip(n: int)
    ensures ParseDecimal(IntToString(n)) == Some(n)
  {
    var s := IntToString(n);
    if n < 0 {
      assert s[1..] == NatToString(-n);
      NatToStringRoundTrip(-n);
    } else {
      NatToStringRoundTrip(n);
    }
  }

  /** `toIntOrNull` inverts `toString` on the whole range of `Int`. */
  lemma ToIntOrNullRoundTrip(n: Int32)
    ensures ToIntOrNull(IntToString(n as int)) == Some(n)
  {
    ParseDecimalRoundTrip(n as int);
  }

  /** Distinct integers print differently. */
  lemma IntToStringInjective(a: int, b: int)
    ensures IntToString(a) == IntToString(b) ==> a == b
  {
    ParseDecimalRoundTrip(a);
    ParseDecimalRoundTrip(b);
  }

  /** `k` zero characters. */
  function Zeros(k: nat): (z: string)
    ensures |z| == k && IsDigitString(z)
  {
    seq(k, i => '0')
  }

  function Abs(n: int): nat {
    if n < 0 then -n else n
  }

  /** A sign `toIntOrNull` accepts in front of the digits of `n`. */
  predicate IsSignFor(sign: string, n: int) {
    (sign == "" && n >= 0) || (sign == "+" && n >= 0) || (sign == "-" && n <= 0)
  }

  /**
   * `s` spells `n`: an allowed sign, any number of leading zeros, and the
   * digits of `n`'s magnitude without leading zeros.
   */
  ghost predicate IsNumeralOf(s: string, n: int) {
    exists sign: string, k: nat :: IsSignFor(sign, n) && s == sign + Zeros(k) + NatToString(Abs(n))
  }

  lemma {:induction false} ZerosValue(k: nat)
    ensures DigitsValue(Zeros(k)) == 0
  {
    if k > 0 {
      assert Zeros(k)[..k - 1] == Zeros(k - 1);
      ZerosValue(k - 1);
    }
  }

  /** Leading zeros do not change the value of a digit string. */
  lemma {:induction false} LeadingZerosValue(k: nat, t: string)
    requires IsDigitString(t)
    ensures IsDigitString(Zeros(k) + t) && DigitsValue(Zeros(k) + t) == DigitsValue(t)
    decreases |t|
  {
    var s := Zeros(k) + t;
    assert forall i :: 0 <= i < |s| ==> s[i] == (if i < k then '0' else t[i - k]);
    if |t| == 0 {
      assert s == Zeros(k);
      ZerosValue(k);
    } else {
      var init := t[..|t| - 1];
      assert IsDigitString(init);
      assert s[..|s| - 1] == Zeros(k) + init;
      LeadingZerosValue(k, init);
    }
  }

  /** A digit string is worth at least its first digit. */
  lemma {:induction false} FirstDigitBound(s: string)
    requires |s| > 0 && IsDigitString(s)
    ensures DigitsValue(s) >= DigitValue(s[0])
    decreases |s|
  {
    if |s| > 1 {
      var init := s[..|s| - 1];
      assert IsDigitString(init) && init[0] == s[0];
      FirstDigitBound(init);
    }
  }

  /** A digit string without leading zeros is what `NatToString` prints for its value. */
  lemma {:induction false} CanonicalDigits(s: string)
    requires |s| > 0 && IsDigitString(s) && (|s| == 1 || s[0] != '0')
    ensures NatToString(DigitsValue(s)) == s
    decreases |s|
  {
    if |s| == 1 {
      assert s[..0] == "";
      DigitValueChar(s[0]);
      assert s == [s[0]];
    } else {
      var init := s[..|s| - 1];
      assert IsDigitString(init) && init[0] == s[0];
      CanonicalDigits(init);
      FirstDigitBound(init);
      var v := DigitsValue(s);
      var d := DigitValue(s[|s| - 1]);
      assert v == DigitsValue(init) * 10 + d;
      assert v / 10 == DigitsValue(init) && v % 10 == d;
      DigitValueChar(s[|s| - 1]);
      assert s == init + [s[|s| - 1]];
    }
  }

  /** Every non-empty digit string is some zeros followed by the canonical digits of its value. */
  lemma {:induction false} SplitLeadingZeros(s: string) returns (k: nat)
    requires |s| > 0 && IsDigitString(s)
    ensures s == Zeros(k) + NatToString(DigitsValue(s))
    decreases |s|
  {
    if |s| == 1 || s[0] != '0' {
      CanonicalDigits(s);
      k := 0;
      assert Zeros(0) + s == s;
    } else {
      var rest := s[1..];
      assert IsDigitString(rest);
      var j := SplitLeadingZeros(rest);
      assert s == Zeros(1) + rest;
      LeadingZerosValue(1, rest);
      k := j + 1;
      assert Zeros(k) == Zeros(1) + Zeros(j);
    }
  }

  /** The numerals of `n`, `Int` or not, are parsed as `n`. */
  lemma ParseNumeral(sign: string, k: nat, n: int)
    requires IsSignFor(sign, n)
    ensures ParseDecimal(sign + Zeros(k) + NatToString(Abs(n))) == Some(n)
  {
    var body := Zeros(k) + NatToString(Abs(n));
    LeadingZerosValue(k, NatToString(Abs(n)));
    NatToStringRoundTrip(Abs(n));
    var s := sign + body;
    assert s == sign + Zeros(k) + NatToString(Abs(n));
    if sign != "" {
      assert s[1..] == body;
    } else {
      assert s == body;
    }
  }

  /** Whatever `ParseDecimal` accepts is a numeral of the value it gives. */
  lemma ParsedIsNumeral(s: string)
    requires ParseDecimal(s).Some?
    ensures IsNumeralOf(s, ParseDecimal(s).value)
  {
    var n := ParseDecimal(s).value;
    if s[0] == '-' || s[0] == '+' {
      var body := s[1..];
      var k := SplitLeadingZeros(body);
      var sign := [s[0]];
      assert s == sign + body;
      assert Abs(n) == DigitsValue(body);
      assert IsSignFor(sign, n);
      assert s == sign + Zeros(k) + NatToString(Abs(n));
    } else {
      var k := SplitLeadingZeros(s);
      assert s == "" + Zeros(k) + NatToString(Abs(n));
      assert IsSignFor("", n);
    }
  }

  /**
   * `toIntOrNull` gives `n` exactly for the numerals of `n`: an optional '+'
   * (or '-', which a negative `n` requires), any leading zeros, then the
   * digits of `n`'s magnitude.
   */
  lemma ToIntOrNullExactly(s: string, n: Int32)
    ensures ToIntOrNull(s) == Some(n) <==> IsNumeralOf(s, n as int)
  {
    if ToIntOrNull(s) == Some(n) {
      ParsedIsNumeral(s);
    }
    if IsNumeralOf(s, n as int) {
      var sign: string, k: nat :| IsSignFor(sign, n as int) && s == sign + Zeros(k) + NatToString(Abs(n as int));
      ParseNumeral(sign, k, n as int);
    }
  }
}
