/*
 * luco::value (include/api.hpp:89-660): one scalar of a luco document.
 *
 * A value holds one alternative of a variant (string, double, int64_t, bool,
 * null, nothing) and, separately, a type tag.  The is_* predicates look at the
 * alternative held, type() at the tag; the two agree except where
 * set_value_type(text, number) stores a double under the tag `number`.
 */
module LucoValue {
  import opened LucoError
  import opened LucoNumbers

  /** luco::value_type (include/api.hpp:42-52) */
  datatype ValueType =
    | None | String | Number | Integer | DoubleT | Null | Boolean | TempEscapeType | Unknown

  /** The alternatives of value_type_variant; Empty is std::monostate. */
  datatype Payload =
    | Str(s: string)
    | Dbl(d: DoubleText)
    | Int(i: Int64)
    | Bool(b: bool)
    | NullP
    | Empty

  datatype Value = Value(payload: Payload, tag: ValueType)

  /** The result of try_as_number: the double held, or the integer held. */
  datatype Number = IntegerNumber(i: Int64) | DoubleNumber(d: DoubleText)

  predicate IsString(v: Value) { v.payload.Str? }
  predicate IsDouble(v: Value) { v.payload.Dbl? }
  predicate IsInteger(v: Value) { v.payload.Int? }
  predicate IsNumber(v: Value) { IsDouble(v) || IsInteger(v) }
  predicate IsBoolean(v: Value) { v.payload.Bool? }
  predicate IsNull(v: Value) { v.payload.NullP? }
  predicate IsEmpty(v: Value) { v.payload.Empty? }

  /** How many of the six exclusive kind predicates hold. */
  function KindsHeld(v: Value): nat
  {
    (if IsString(v) then 1 else 0) + (if IsDouble(v) then 1 else 0) + (if IsInteger(v) then 1 else 0)
    + (if IsBoolean(v) then 1 else 0) + (if IsNull(v) then 1 else 0) + (if IsEmpty(v) then 1 else 0)
  }

  /** Every value is of exactly one kind, and a number is exactly a double or an integer. */
  lemma ExactlyOneKind(v: Value)
    ensures KindsHeld(v) == 1
    ensures IsNumber(v) <==> IsDouble(v) || IsInteger(v)
  {
  }

  /** The tag the templated set_state gives each alternative (include/api.hpp:100-140). */
  function TagOf(p: Payload): ValueType
  {
    match p
    case Str(_) => String
    case Dbl(_) => DoubleT
    case Int(_) => Integer
    case Bool(_) => Boolean
    case NullP => Null
    case Empty => None
  }

  /** The tag agrees with the alternative held. */
  predicate Consistent(v: Value) { v.tag == TagOf(v.payload) }

  // ---- type_name -------------------------------------------------------

  /** value::type_name: the kind held, by name. */
  function TypeName(v: Value): (name: string)
    ensures name == "string" <==> IsString(v)
    ensures name == "double" <==> IsDouble(v)
    ensures name == "integer" <==> IsInteger(v)
    ensures name == "boolean" <==> IsBoolean(v)
    ensures name == "null" <==> IsNull(v)
    ensures name == "none" <==> IsEmpty(v)
  {
    if IsString(v) then "string"
    else if IsBoolean(v) then "boolean"
    else if IsNull(v) then "null"
    else if IsDouble(v) then "double"
    else if IsInteger(v) then "integer"
    else if IsEmpty(v) then "none"
    else "unknown"
  }

  // ---- try_as_* --------------------------------------------------------

  function TryAsString(v: Value): (r: Result<string>)
    ensures r.Ok? <==> IsString(v)
    ensures r.Ok? ==> r.value == v.payload.s
    ensures r.Err? ==> r.error == WrongTypeError
  {
    if IsString(v) then Ok(v.payload.s) else Err(WrongTypeError)
  }

  /** try_as_number accepts a double and an integer alike. */
  function TryAsNumber(v: Value): (r: Result<Number>)
    ensures r.Ok? <==> IsDouble(v) || IsInteger(v)
    ensures r.Ok? && IsDouble(v) ==> r.value == DoubleNumber(v.payload.d)
    ensures r.Ok? && IsInteger(v) ==> r.value == IntegerNumber(v.payload.i)
    ensures r.Err? ==> r.error == WrongTypeError
  {
    if IsDouble(v) then Ok(DoubleNumber(v.payload.d))
    else if IsInteger(v) then Ok(IntegerNumber(v.payload.i))
    else Err(WrongTypeError)
  }

  function TryAsInteger(v: Value): (r: Result<Int64>)
    ensures r.Ok? <==> IsInteger(v)
    ensures r.Ok? ==> r.value == v.payload.i
    ensures r.Err? ==> r.error == WrongTypeError
  {
    if IsInteger(v) then Ok(v.payload.i) else Err(WrongTypeError)
  }

  function TryAsDouble(v: Value): (r: Result<DoubleText>)
    ensures r.Ok? <==> IsDouble(v)
    ensures r.Ok? ==> r.value == v.payload.d
    ensures r.Err? ==> r.error == WrongTypeError
  {
    if IsDouble(v) then Ok(v.payload.d) else Err(WrongTypeError)
  }

  function TryAsBoolean(v: Value): (r: Result<bool>)
    ensures r.Ok? <==> IsBoolean(v)
    ensures r.Ok? ==> r.value == v.payload.b
    ensures r.Err? ==> r.error == WrongTypeError
  {
    if IsBoolean(v) then Ok(v.payload.b) else Err(WrongTypeError)
  }

  function TryAsNull(v: Value): (r: Result<()>)
    ensures r.Ok? <==> IsNull(v)
    ensures r.Err? ==> r.error == WrongTypeError
  {
    if IsNull(v) then Ok(()) else Err(WrongTypeError)
  }

  // ---- construction (the templated set_state) ---------------------------

  /** A value made from a string converts back to that string. */
  function FromString(s: string): (v: Value)
    ensures Consistent(v) && TryAsString(v) == Ok(s)
  {
    Value(Str(s), String)
  }

  /** A value made from a C++ integer of at most 64 bits holds it as int64_t. */
  function FromInteger(x: int): (v: Value)
    ensures Consistent(v) && TryAsInteger(v) == Ok(Wrap64(x))
    ensures Int64Min <= x <= Int64Max ==> TryAsInteger(v) == Ok(x)
  {
    Value(Int(Wrap64(x)), Integer)
  }

  function FromDouble(d: DoubleText): (v: Value)
    ensures Consistent(v) && TryAsDouble(v) == Ok(d) && TryAsNumber(v) == Ok(DoubleNumber(d))
  {
    Value(Dbl(d), DoubleT)
  }

  function FromBoolean(b: bool): (v: Value)
    ensures Consistent(v) && TryAsBoolean(v) == Ok(b)
  {
    Value(Bool(b), Boolean)
  }

  function FromNull(): (v: Value)
    ensures Consistent(v) && TryAsNull(v).Ok?
  {
    Value(NullP, Null)
  }

  /** The default value: nothing held, tag none. */
  function Nothing(): (v: Value)
    ensures Consistent(v) && IsEmpty(v) && TypeName(v) == "none"
  {
    Value(Empty, None)
  }

  // ---- set_state(text, type) -------------------------------------------

  /**
   * value::set_value_type(text, t) (include/api.hpp:142-175) applied to v:
   * the new value and the outcome.  The tag is assigned first, so a
   * conversion that throws leaves the new tag beside the old alternative; an
   * unsupported tag resets the value to nothing and reports wrong_type.
   */
  function SetStateText(v: Value, text: string, t: ValueType): (r: (Value, Result<()>))
    ensures t == Unknown || t == TempEscapeType <==> r.1 == Err(WrongTypeError)
    ensures r.1.Err? && r.1 != Err(WrongTypeError) ==> r.1.error == StdException && r.0 == v.(tag := t)
    ensures r.1.Ok? ==> r.0.tag == t
    ensures r.1.Ok? && t != Number ==> Consistent(r.0)
    ensures r.1.Ok? && t == String ==> TryAsString(r.0) == Ok(text)
    ensures r.1.Ok? && t == Boolean ==> TryAsBoolean(r.0) == Ok(text == "true")
  {
    match t
    case DoubleT | Number => SetDoubleText(v, text, t)
    case Integer => SetIntegerText(v, text)
    case String => (Value(Str(text), String), Ok(()))
    case Boolean => (Value(Bool(text == "true"), Boolean), Ok(()))
    case Null => (Value(NullP, Null), Ok(()))
    case None => (Value(Empty, None), Ok(()))
    case Unknown | TempEscapeType => (Value(Empty, None), Err(WrongTypeError))
  }

  /** The double branch of set_value_type: std::stod, or the exception with only the tag changed. */
  function SetDoubleText(v: Value, text: string, t: ValueType): (r: (Value, Result<()>))
    requires t == DoubleT || t == Number
    ensures r.1.Err? ==> r.1 == Err(StdException) && r.0 == v.(tag := t)
    ensures r.1.Ok? <==> StodText(text).Ok?
    ensures r.1.Ok? ==> r.0 == Value(Dbl(StodText(text).value), t)
  {
    match StodText(text)
    case Ok(d) => (Value(Dbl(d), t), Ok(()))
    case Err(e) => (v.(tag := t), Err(e))
  }

  /** The integer branch of set_value_type: std::stoll, or the exception with only the tag changed. */
  function SetIntegerText(v: Value, text: string): (r: (Value, Result<()>))
    ensures r.1.Err? ==> r.1 == Err(StdException) && r.0 == v.(tag := Integer)
    ensures r.1.Ok? <==> Stoll(text).Ok?
    ensures r.1.Ok? ==> r.0 == Value(Int(Stoll(text).value), Integer)
  {
    match Stoll(text)
    case Ok(i) => (Value(Int(i), Integer), Ok(()))
    case Err(e) => (v.(tag := Integer), Err(e))
  }

  // ---- stringify -------------------------------------------------------

  /** The text with the zeros that follow its '.' removed from the end. */
  function DropZeros(s: string): (t: string)
    ensures |t| <= |s| && t == s[..|t|]
    ensures |t| > 0 && t[|t| - 1] == '0' ==> '.' !in s
    ensures forall k :: |t| <= k < |s| ==> s[k] == '0'
  {
    if |s| > 0 && s[|s| - 1] == '0' && '.' in s then DropZeros(s[..|s| - 1]) else s
  }

  /**
   * The trimming stringify means to do on std::to_string's text: drop the
   * zeros at the end of the fraction, and put one back when only the '.' is left.
   */
  function TrimZeros(s: string): string
  {
    var t := DropZeros(s);
    if |t| > 0 && t[|t| - 1] == '.' then t + "0" else t
  }

  /** value::stringify (include/api.hpp:558-623), with the trimming as intended. */
  function Stringify(v: Value): string
  {
    match v.payload
    case Dbl(d) => TrimZeros(d)
    case Int(i) => IntToString(i)
    case Str(s) => s
    case Bool(b) => if b then "true" else "false"
    case NullP => "null"
    case Empty => ""
  }

  /** The fraction digits with the trailing zeros removed, "0" when none is left. */
  function SignificantFraction(frac: string): (g: string)
    ensures |g| > 0
    ensures g[|g| - 1] != '0' || g == "0"
    ensures g == "0" || (|g| <= |frac| && frac[..|g|] == g)
  {
    if frac == [] then "0"
    else if frac[|frac| - 1] == '0' then SignificantFraction(frac[..|frac| - 1])
    else frac
  }

  /** Trimming std::to_string's text keeps the integer digits and the significant fraction. */
  lemma TrimZerosOfDecimal(whole: string, frac: string)
    requires '.' !in whole && AllDigits(frac)
    ensures TrimZeros(whole + "." + frac) == whole + "." + SignificantFraction(frac)
  {
    DropZerosOfDecimal(whole, frac);
  }

  lemma {:induction false} DropZerosOfDecimal(whole: string, frac: string)
    requires '.' !in whole && AllDigits(frac)
    ensures DropZeros(whole + "." + frac) ==
            if SignificantFraction(frac) == "0" && (frac == [] || frac[0] == '0') then whole + "."
            else whole + "." + SignificantFraction(frac)
    decreases |frac|
  {
    var s := whole + "." + frac;
    if frac == [] {
      assert s[|s| - 1] == '.';
    } else if frac[|frac| - 1] == '0' {
      DropOneZero(whole, frac);
      DropZerosOfDecimal(whole, frac[..|frac| - 1]);
      if |frac| > 1 {
        assert frac[..|frac| - 1][0] == frac[0];
      }
    } else {
      assert s[|whole|] == '.';
      assert s[|s| - 1] == frac[|frac| - 1];
    }
  }

  /** A zero at the end of the fraction is dropped. */
  lemma DropOneZero(whole: string, frac: string)
    requires '.' !in whole && frac != [] && frac[|frac| - 1] == '0'
    ensures DropZeros(whole + "." + frac) == DropZeros(whole + "." + frac[..|frac| - 1])
  {
    var s := whole + "." + frac;
    assert s[|whole|] == '.';
    assert s[..|s| - 1] == whole + "." + frac[..|frac| - 1];
  }

  /**
   * A decimal in its shortest form (no leading zero, at most nine integer
   * digits, one to six fraction digits, no trailing zero unless the fraction
   * is "0") prints back as itself: std::stod, std::to_string and the
   * trimming compose to the identity.  The bound on the integer digits keeps
   * the value below 10^9, where the nearest double is within 2^-53 * 10^9,
   * less than half of the 10^-6 that std::to_string's last digit stands for,
   * so the six printed decimals are the decimal's own.
   */
  predicate ShortestDecimal(whole: string, frac: string)
  {
    AllDigits(whole) && AllDigits(frac) && 0 < |whole| <= 9 && (whole[0] != '0' || whole == "0")
    && 1 <= |frac| <= 6 && (frac[|frac| - 1] != '0' || frac == "0")
  }

  lemma StringifyParsedDecimal(whole: string, frac: string)
    requires ShortestDecimal(whole, frac)
    ensures StodText(whole + "." + frac).Ok?
    ensures Stringify(FromDouble(StodText(whole + "." + frac).value)) == whole + "." + frac
  {
    var t := FixedText(false, whole, frac);
    StodOfDecimal(whole, frac);
    assert StodText(whole + "." + frac) == Ok(t);
    TrimShortest(whole, frac);
    assert Stringify(FromDouble(t)) == TrimZeros(t);
  }

  lemma TrimShortest(whole: string, frac: string)
    requires ShortestDecimal(whole, frac)
    ensures TrimZeros(FixedText(false, whole, frac)) == whole + "." + frac
  {
    var padded := frac + Zeros(6 - |frac|);
    FixedTextOfShortest(whole, frac);
    assert AllDigits(padded);
    TrimZerosOfDecimal(whole, padded);
    SignificantFractionOfPadded(frac, 6 - |frac|);
  }

  lemma FixedTextOfShortest(whole: string, frac: string)
    requires ShortestDecimal(whole, frac)
    ensures FixedText(false, whole, frac) == whole + "." + (frac + Zeros(6 - |frac|))
    ensures '.' !in whole
  {
    SixDigitsOfShort(frac);
    var w := StripLeadingZeros(whole);
    if whole == "0" {
      assert whole[1..] == [];
      assert w == [];
    } else {
      assert w == whole;
    }
    assert forall k :: 0 <= k < |whole| ==> whole[k] != '.' by {
      assert AllDigits(whole);
    }
  }

  lemma SixDigitsOfShort(frac: string)
    requires |frac| <= 6
    ensures SixDigits(frac) == frac + Zeros(6 - |frac|)
  {
    if |frac| == 6 {
      assert frac[..6] == frac;
      assert frac + Zeros(0) == frac;
    }
  }

  lemma {:induction false} SignificantFractionOfPadded(frac: string, n: nat)
    requires AllDigits(frac) && |frac| > 0 && (frac[|frac| - 1] != '0' || frac == "0")
    ensures SignificantFraction(frac + Zeros(n)) == frac
  {
    if n > 0 {
      var p := frac + Zeros(n);
      assert p[..|p| - 1] == frac + Zeros(n - 1);
      SignificantFractionOfPadded(frac, n - 1);
    } else {
      assert frac + Zeros(0) == frac;
      if frac == "0" {
        assert SignificantFraction(frac) == SignificantFraction([]);
      }
    }
  }

  /** The intended trimming loop: pop the zeros after the '.', then restore ".0". */
  method PopZerosAtTheEnd(text: DoubleText) returns (str: string)
    ensures str == TrimZeros(text)
  {
    str := text;
    while |str| > 0 && str[|str| - 1] == '0' && '.' in str
      invariant DropZeros(str) == DropZeros(text)
      decreases |str|
    {
      str := str[..|str| - 1];
    }
    if |str| > 0 && str[|str| - 1] == '.' {
      str := str + "0";
    }
  }

  /** value::stringify */
  method StringifyValue(v: Value) returns (s: string)
    ensures s == Stringify(v)
  {
    match v.payload {
      case Dbl(d) => s := PopZerosAtTheEnd(d);
      case Int(i) => s := IntToString(i);
      case Str(t) => s := t;
      case Bool(b) => s := if b then "true" else "false";
      case NullP => s := "null";
      case Empty => s := "";
    }
  }

  // ---- the trimming loop as written ------------------------------------

  /**
   * How many characters the loop of include/api.hpp:564-592 pops when it
   * looks at position i - 1 of the original text next, with flag `found`.
   * The loop goes on past the '.' and past the first significant digit.
   */
  function Pops(s: string, i: nat, found: bool): (n: nat)
    requires i <= |s|
    ensures n <= i
    decreases i
  {
    if i == 0 then 0
    else if s[i - 1] == '0' && !found then Pops(s, i - 1, true)
    else if s[i - 1] == '0' then 1 + Pops(s, i - 1, true)
    else if found then 1 + Pops(s, i - 1, false)
    else 0
  }

  /** What the trimming of include/api.hpp:564-597 leaves of std::to_string's text. */
  function AsWrittenTrim(s: DoubleText): string
  {
    var t := s[..|s| - Pops(s, |s|, false)];
    if |t| > 0 && t[|t| - 1] == '.' then t + "0" else t
  }

  /** The trimming loop as the source writes it. */
  method PopZerosAtTheEndAsWritten(text: DoubleText) returns (str: string)
    ensures str == AsWrittenTrim(text)
  {
    str := text;
    var foundZero := false;
    var i := |text|;
    while i > 0
      invariant 0 <= i <= |str| <= |text| && str == text[..|str|]
      invariant |text| - |str| + Pops(text, i, foundZero) == Pops(text, |text|, false)
      decreases i
    {
      if text[i - 1] == '0' && !foundZero {
        foundZero := true;
      } else if text[i - 1] == '0' && foundZero {
        str := str[..|str| - 1];
      } else if foundZero {
        str := str[..|str| - 1];
        foundZero := false;
      } else {
        break;
      }
      i := i - 1;
    }
    if |str| > 0 && str[|str| - 1] == '.' {
      str := str + "0";
    }
  }

  /** 10.0 prints as "10" and 1.05 as "1.0": the loop pops digits that are significant. */
  lemma TrimmingAsWrittenDropsDigits()
    ensures AsWrittenTrim("10.000000") == "10"
    ensures AsWrittenTrim("1.050000") == "1.0"
    ensures TrimZeros("10.000000") == "10.0"
    ensures TrimZeros("1.050000") == "1.05"
  {
    TenAsWritten();
    OnePointZeroFiveAsWritten();
    TenTrimmed();
    OnePointZeroFiveTrimmed();
  }

  lemma TenAsWritten()
    ensures AsWrittenTrim("10.000000") == "10"
  {
    PopsOfTenPointZero();
    assert "10.000000"[..2] == "10";
  }

  lemma OnePointZeroFiveAsWritten()
    ensures AsWrittenTrim("1.050000") == "1.0"
  {
    PopsOfOnePointZeroFive();
    assert "1.050000"[..3] == "1.0";
  }

  lemma TenTrimmed()
    ensures TrimZeros("10.000000") == "10.0"
  {
    TrimmedOfPadded("10", "0", 5);
    assert "10" + "." + ("0" + Zeros(5)) == "10.000000";
  }

  lemma OnePointZeroFiveTrimmed()
    ensures TrimZeros("1.050000") == "1.05"
  {
    TrimmedOfPadded("1", "05", 4);
    assert "1" + "." + ("05" + Zeros(4)) == "1.050000";
  }

  /** Trimming removes exactly the zeros padded to a significant fraction. */
  lemma TrimmedOfPadded(whole: string, frac: string, n: nat)
    requires '.' !in whole
    requires AllDigits(frac) && |frac| > 0 && (frac[|frac| - 1] != '0' || frac == "0")
    ensures TrimZeros(whole + "." + (frac + Zeros(n))) == whole + "." + frac
  {
    assert AllDigits(frac + Zeros(n));
    TrimZerosOfDecimal(whole, frac + Zeros(n));
    SignificantFractionOfPadded(frac, n);
  }

  lemma PopsOfTenPointZero()
    ensures Pops("10.000000", 9, false) == 7
  {
    var a := "10.000000";
    assert a[2] == '.' && a[1] == '0' && a[0] == '1';
    assert Pops(a, 1, true) == 1;
    assert Pops(a, 2, false) == 1;
    assert Pops(a, 3, true) == 2;
    assert Pops(a, 4, true) == 3;
    assert Pops(a, 5, true) == 4;
    assert Pops(a, 6, true) == 5;
    assert Pops(a, 7, true) == 6;
    assert Pops(a, 8, true) == 7;
  }

  lemma PopsOfOnePointZeroFive()
    ensures Pops("1.050000", 8, false) == 5
  {
    var b := "1.050000";
    assert b[3] == '5' && b[2] == '0' && b[1] == '.' && b[0] == '1';
    assert Pops(b, 1, false) == 0;
    assert Pops(b, 2, true) == 1;
    assert Pops(b, 3, false) == 1;
    assert Pops(b, 4, true) == 2;
    assert Pops(b, 5, true) == 3;
    assert Pops(b, 6, true) == 4;
    assert Pops(b, 7, true) == 5;
  }
}
