/*
 * The numeric text conversions the library relies on: std::stoll, std::stod
 * followed by std::to_string, and std::to_string of an int64_t.
 *
 * A double is never computed with: the model keeps the text std::to_string
 * prints for it ("%f": an optional '-', the integer digits, '.', six digits).
 */
module LucoNumbers {
  import opened LucoError

  const Int64Min: int := -0x8000_0000_0000_0000
  const Int64Max: int := 0x7FFF_FFFF_FFFF_FFFF
  const TwoTo64: int := 0x1_0000_0000_0000_0000

  /** int64_t */
  type Int64 = x: int | Int64Min <= x <= Int64Max

  /**
   * The text std::to_string prints for a finite double ("%f"): an optional
   * '-', at least one digit, '.', six digits.
   */
  predicate FixedShape(s: string)
  {
    var u := if |s| > 0 && s[0] == '-' then s[1..] else s;
    |u| >= 8 && u[|u| - 7] == '.' && AllDigits(u[..|u| - 7]) && AllDigits(u[|u| - 6..])
  }

  type DoubleText = s: string | FixedShape(s) witness "0.000000"

  /** Conversion of a C++ integer of at most 64 bits to int64_t: two's-complement wrap-around. */
  function Wrap64(x: int): (r: Int64)
    ensures Int64Min <= x <= Int64Max ==> r == x
    ensures (r - x) % TwoTo64 == 0
  {
    var w := (x - Int64Min) % TwoTo64 + Int64Min;
    assert (w - x) % TwoTo64 == 0 by {
      assert w - x == (x - Int64Min) % TwoTo64 - (x - Int64Min);
    }
    w
  }

  predicate IsDigit(c: char) { '0' <= c <= '9' }

  /** std::isspace in the "C" locale */
  predicate IsSpace(c: char) {
    c == ' ' || c == '\t' || c == '\n' || c == '\U{0B}' || c == '\U{0C}' || c == '\r'
  }

  predicate AllDigits(s: string) { forall k :: 0 <= k < |s| ==> IsDigit(s[k]) }

  function DigitValue(c: char): (d: nat)
    requires IsDigit(c)
    ensures d < 10
  {
    (c as int) - ('0' as int)
  }

  function DigitChar(d: nat): (c: char)
    requires d < 10
    ensures IsDigit(c) && DigitValue(c) == d
  {
    ('0' as int + d) as char
  }

  /** The number a string of decimal digits denotes. */
  function DigitsValue(s: string): nat
    requires AllDigits(s)
    decreases |s|
  {
    if s == [] then 0 else 10 * DigitsValue(s[..|s| - 1]) + DigitValue(s[|s| - 1])
  }

  /** The decimal digits of n, without leading zeros. */
  function NatToString(n: nat): (s: string)
    ensures |s| > 0 && AllDigits(s)
    ensures s[0] != '0' || n == 0
    decreases n
  {
    if n < 10 then [DigitChar(n)] else NatToString(n / 10) + [DigitChar(n % 10)]
  }

  /** std::to_string of an int64_t */
  function IntToString(i: int): (s: string)
    ensures |s| > 0
    ensures i < 0 <==> s[0] == '-'
  {
    if i < 0 then "-" + NatToString(-i) else NatToString(i)
  }

  lemma {:induction false} DigitsOfNatToString(n: nat)
    ensures DigitsValue(NatToString(n)) == n
  {
    if n >= 10 {
      DigitsOfNatToString(n / 10);
      var s := NatToString(n);
      assert s[..|s| - 1] == NatToString(n / 10);
    }
  }

  /** The text after the leading white space. */
  function SkipSpace(s: string): (t: string)
    ensures |t| <= |s| && t == s[|s| - |t|..]
    ensures |t| > 0 ==> !IsSpace(t[0])
    ensures forall k :: 0 <= k < |s| - |t| ==> IsSpace(s[k])
  {
    if |s| > 0 && IsSpace(s[0]) then SkipSpace(s[1..]) else s
  }

  /** The longest prefix of s made of digits. */
  function LeadingDigits(s: string): (d: string)
    ensures AllDigits(d) && |d| <= |s| && d == s[..|d|]
    ensures |d| < |s| ==> !IsDigit(s[|d|])
  {
    if |s| > 0 && IsDigit(s[0]) then [s[0]] + LeadingDigits(s[1..]) else []
  }

  lemma {:induction false} LeadingDigitsOfDigits(s: string)
    requires AllDigits(s)
    ensures LeadingDigits(s) == s
  {
    if |s| > 0 {
      LeadingDigitsOfDigits(s[1..]);
    }
  }

  /** The sign of a number's text, and the text after it. */
  function SplitSign(t: string): (bool, string)
  {
    if |t| > 0 && (t[0] == '-' || t[0] == '+') then (t[0] == '-', t[1..]) else (false, t)
  }

  /**
   * std::stoll(s) in base 10: leading white space, an optional sign, then at
   * least one digit; what follows the digits is ignored.  No digit throws
   * std::invalid_argument, a value outside int64_t throws std::out_of_range.
   */
  function Stoll(s: string): (r: Result<Int64>)
    ensures r.Err? ==> r.error == StdException
  {
    var (neg, u) := SplitSign(SkipSpace(s));
    var d := LeadingDigits(u);
    if d == [] then Err(StdException)
    else
      var m: int := if neg then -(DigitsValue(d) as int) else DigitsValue(d);
      if Int64Min <= m <= Int64Max then Ok(m) else Err(StdException)
  }

  /** std::stoll undoes std::to_string on every int64_t. */
  lemma StollOfIntToString(i: Int64)
    ensures Stoll(IntToString(i)) == Ok(i)
  {
    var n: nat := if i < 0 then -(i as int) else i;
    DigitsOfNatToString(n);
    if i < 0 {
      StollOfNegative(NatToString(n));
    } else {
      StollOfDigits(NatToString(n));
    }
  }

  /** What std::stoll makes of '-' and a non-empty string of digits. */
  lemma StollOfNegative(s: string)
    requires AllDigits(s) && s != []
    ensures var m := -(DigitsValue(s) as int); Stoll("-" + s) == if m >= Int64Min then Ok(m) else Err(StdException)
  {
    var t := "-" + s;
    assert t[0] == '-' && t[1..] == s;
    assert SkipSpace(t) == t;
    LeadingDigitsOfDigits(s);
  }

  /** What std::stoll makes of a non-empty string of digits. */
  lemma StollOfDigits(s: string)
    requires AllDigits(s) && s != []
    ensures Stoll(s) == if DigitsValue(s) <= Int64Max then Ok(DigitsValue(s)) else Err(StdException)
  {
    assert SkipSpace(s) == s;
    assert SplitSign(s) == (false, s);
    LeadingDigitsOfDigits(s);
  }

  function Zeros(n: nat): (z: string)
    ensures |z| == n && forall k :: 0 <= k < n ==> z[k] == '0'
  {
    if n == 0 then [] else Zeros(n - 1) + ['0']
  }

  function StripLeadingZeros(s: string): (t: string)
    ensures |t| <= |s| && t == s[|s| - |t|..]
    ensures |t| > 0 ==> t[0] != '0'
  {
    if |s| > 0 && s[0] == '0' then StripLeadingZeros(s[1..]) else s
  }

  /** The six fractional digits "%f" prints: the first six of frac, padded with '0'. */
  function SixDigits(frac: string): (r: string)
    ensures |r| == 6
    ensures AllDigits(frac) ==> AllDigits(r)
  {
    if |frac| >= 6 then frac[..6] else frac + Zeros(6 - |frac|)
  }

  /** std::to_string of the double a sign, integer digits and fraction digits denote. */
  function FixedText(neg: bool, whole: string, frac: string): DoubleText
    requires AllDigits(whole) && AllDigits(frac)
  {
    var w := StripLeadingZeros(whole);
    var digits := if w == [] then "0" else w;
    assert AllDigits(digits) by {
      assert forall k :: 0 <= k < |w| ==> w[k] == whole[|whole| - |w| + k];
    }
    FixedShapeOf(digits, SixDigits(frac));
    if neg then "-" + digits + "." + SixDigits(frac) else digits + "." + SixDigits(frac)
  }

  lemma FixedShapeOf(digits: string, six: string)
    requires |digits| > 0 && AllDigits(digits) && |six| == 6 && AllDigits(six)
    ensures FixedShape(digits + "." + six) && FixedShape("-" + digits + "." + six)
  {
    var u := digits + "." + six;
    assert u[..|u| - 7] == digits;
    assert u[|u| - 7] == '.';
    assert u[|u| - 6..] == six;
    assert !IsDigit('-');
    assert u[0] != '-';
    assert ("-" + digits + "." + six)[1..] == u;
  }

  /**
   * std::to_string(std::stod(s)) for decimal text: leading white space, an
   * optional sign, digits with at most one '.', at least one digit; what
   * follows is ignored.  No digit throws std::invalid_argument.  The
   * std::out_of_range of a value outside the double range is not modelled.
   */
  function StodText(s: string): (r: Result<DoubleText>)
    ensures r.Err? ==> r.error == StdException
  {
    var (neg, u) := SplitSign(SkipSpace(s));
    var whole := LeadingDigits(u);
    var rest := u[|whole|..];
    var frac := if |rest| > 0 && rest[0] == '.' then LeadingDigits(rest[1..]) else [];
    if whole == [] && frac == [] then Err(StdException) else Ok(FixedText(neg, whole, frac))
  }

  /** What std::stod makes of digits around exactly one '.'. */
  lemma StodOfDecimal(whole: string, frac: string)
    requires AllDigits(whole) && AllDigits(frac)
    ensures StodText(whole + "." + frac) ==
            if whole == [] && frac == [] then Err(StdException) else Ok(FixedText(false, whole, frac))
  {
    var s := whole + "." + frac;
    DecimalScan(whole, frac);
    assert ("." + frac)[1..] == frac;
    LeadingDigitsOfDigits(frac);
  }

  /** How std::stod scans digits around a '.': no space, no sign, the digits up to the '.'. */
  lemma DecimalScan(whole: string, frac: string)
    requires AllDigits(whole)
    ensures var s := whole + "." + frac;
      SkipSpace(s) == s && SplitSign(s) == (false, s) && LeadingDigits(s) == whole && s[|whole|..] == "." + frac
  {
    var s := whole + "." + frac;
    assert s[0] == if |whole| > 0 then whole[0] else '.';
    Unsigned(s);
    assert s == whole + ("." + frac);
    LeadingDigitsPrefix(whole, "." + frac);
  }

  /** Text that starts with a digit or '.' has no leading space and no sign. */
  lemma Unsigned(s: string)
    requires |s| > 0 && (IsDigit(s[0]) || s[0] == '.')
    ensures SkipSpace(s) == s && SplitSign(s) == (false, s)
  {
  }

  lemma {:induction false} LeadingDigitsPrefix(d: string, rest: string)
    requires AllDigits(d)
    requires |rest| > 0 && !IsDigit(rest[0])
    ensures LeadingDigits(d + rest) == d
  {
    if |d| > 0 {
      assert (d + rest)[1..] == d[1..] + rest;
      LeadingDigitsPrefix(d[1..], rest);
    } else {
      assert d + rest == rest;
    }
  }
}
