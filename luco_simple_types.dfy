/*
 * luco_simple_types (include/parser.hpp:499-653, first half): what the text of
 * a key or a value is, and the type a value's text is given.
 */
module LucoSimpleTypes {
  import opened LucoError
  import opened LucoNumbers
  import V = LucoValue

  /** luco_value_type: how far the text of a key or a value has come. */
  datatype TextKind =
    | NoText             // none
    | Unquoted           // unqouted_string
    | Quoted1            // qouted_string_1, between '...'
    | Quoted2            // qouted_string_2, between "..."
    | EscapedUnquoted    // escaped_string_newline_unqouted: a '\' before the newline
    | EscapedQuoted1     // escaped_string_newline_qouted_1
    | EscapedQuoted2     // escaped_string_newline_qouted_2
    | EndString1         // end_string_1: the closing '
    | EndString2         // end_string_2: the closing "
    | EndStringUnquoted  // end_string_unqouted

  /** The text of a key or a value being read, and its kind (a std::pair in the parser). */
  datatype Text = Text(s: string, kind: TextKind)

  const EmptyText: Text := Text("", NoText)

  datatype NumberKind = NotNumber | FloatNumber | IntNumber

  datatype BooleanKind = NotBoolean | TrueBoolean | FalseBoolean

  // ---- character classes (token::is_empty, is_newline, is_empty_newline) --

  predicate IsBlank(c: char) { c == ' ' || c == '\t' }

  predicate IsNewline(c: char) { c == '\n' }

  predicate IsBlankOrNewline(c: char) { IsBlank(c) || IsNewline(c) }

  // ---- is_number ----------------------------------------------------------

  /** Decimal digits around exactly one '.' (either side may be empty). */
  ghost predicate DecimalShape(s: string)
  {
    exists p :: 0 <= p < |s| && s[p] == '.' && AllDigits(s[..p]) && AllDigits(s[p + 1..])
  }

  /**
   * The scan std::all_of performs in is_number from position k on: digits
   * pass, the first '.' passes and is remembered, anything else fails.
   */
  function Scan(s: string, k: nat, hasDecimal: bool): NumberKind
    requires k <= |s|
    decreases |s| - k
  {
    if k == |s| then (if hasDecimal then FloatNumber else IntNumber)
    else if IsDigit(s[k]) then Scan(s, k + 1, hasDecimal)
    else if s[k] == '.' && !hasDecimal then Scan(s, k + 1, true)
    else NotNumber
  }

  /**
   * luco_simple_types::is_number: the empty text is no number, digits alone
   * an integer, digits with one '.' a float, anything else (a sign, a second
   * '.', a blank) no number.
   */
  function IsNumber(s: string): (k: NumberKind)
    ensures s == [] ==> k == NotNumber
    ensures k == IntNumber <==> s != [] && AllDigits(s)
    ensures k == FloatNumber <==> DecimalShape(s)
  {
    if s == [] then NotNumber
    else
      ScanDigits(s, 0);
      Scan(s, 0, false)
  }

  lemma {:induction false} ScanDigits(s: string, k: nat)
    requires k <= |s| && AllDigits(s[..k])
    ensures Scan(s, k, false) == if AllDigits(s) then IntNumber else if DecimalShape(s) then FloatNumber else NotNumber
    decreases |s| - k
  {
    if k == |s| {
      assert s[..k] == s;
      NoDecimalInDigits(s);
    } else if IsDigit(s[k]) {
      assert s[..k + 1] == s[..k] + [s[k]];
      ScanDigits(s, k + 1);
    } else if s[k] == '.' {
      assert !AllDigits(s);
      ScanAfterDecimal(s, k, k + 1);
      DecimalPosition(s, k);
    } else {
      assert !AllDigits(s);
      NotDecimal(s, k);
    }
  }

  lemma {:induction false} ScanAfterDecimal(s: string, p: nat, k: nat)
    requires p < k <= |s| && s[p] == '.' && AllDigits(s[p + 1..k])
    ensures Scan(s, k, true) == if AllDigits(s[p + 1..]) then FloatNumber else NotNumber
    decreases |s| - k
  {
    if k == |s| {
      assert s[p + 1..k] == s[p + 1..];
    } else if IsDigit(s[k]) {
      assert s[p + 1..k + 1] == s[p + 1..k] + [s[k]];
      ScanAfterDecimal(s, p, k + 1);
    } else {
      assert s[p + 1..][k - p - 1] == s[k];
    }
  }

  lemma NoDecimalInDigits(s: string)
    requires AllDigits(s)
    ensures !DecimalShape(s)
  {
  }

  /** With digits before the '.' at p, the text has the decimal shape iff only digits follow p. */
  lemma DecimalPosition(s: string, p: nat)
    requires p < |s| && s[p] == '.' && AllDigits(s[..p])
    ensures DecimalShape(s) <==> AllDigits(s[p + 1..])
  {
  }

  /** A character that is neither a digit nor a '.', after digits only, rules the shape out. */
  lemma NotDecimal(s: string, k: nat)
    requires k < |s| && AllDigits(s[..k]) && !IsDigit(s[k]) && s[k] != '.'
    ensures !DecimalShape(s)
  {
  }

  /** A sign in front of the digits makes the text no number. */
  lemma SignedIsNotNumber(sign: char, digits: string)
    requires sign == '-' || sign == '+'
    ensures IsNumber([sign] + digits) == NotNumber
  {
    var s := [sign] + digits;
    assert !IsDigit(s[0]);
    NotDecimal(s, 0);
  }

  // ---- is_boolean, is_null ----------------------------------------------

  /** luco_simple_types::is_boolean: "on" and "true" are true, "off" and "false" false. */
  function IsBoolean(s: string): (b: BooleanKind)
    ensures b == TrueBoolean <==> s in {"on", "true"}
    ensures b == FalseBoolean <==> s in {"off", "false"}
  {
    if s == "on" || s == "true" then TrueBoolean
    else if s == "off" || s == "false" then FalseBoolean
    else NotBoolean
  }

  /** luco_simple_types::is_null */
  predicate IsNull(s: string) { s == "null" }

  // ---- get_type -----------------------------------------------------------

  /**
   * luco_simple_types::get_type: the value a value's text stands for, tried
   * in this order: null, a number (std::stoll for an integer, std::stod for a
   * float; either can throw), a boolean, and else the text itself.
   */
  function GetType(s: string): (r: Result<V.Value>)
    ensures r.Err? ==> r.error == StdException && IsNumber(s) != NotNumber
    ensures r.Ok? ==> V.Consistent(r.value)
    ensures IsNull(s) ==> r == Ok(V.FromNull())
    ensures !IsNull(s) && IsNumber(s) == IntNumber ==>
      r == (if DigitsValue(s) <= Int64Max then Ok(V.FromInteger(DigitsValue(s))) else Err(StdException))
    ensures !IsNull(s) && IsNumber(s) == FloatNumber ==> (r.Ok? <==> s != ".") && (r.Ok? ==> V.IsDouble(r.value))
    ensures !IsNull(s) && IsNumber(s) == NotNumber && IsBoolean(s) != NotBoolean ==>
      r == Ok(V.FromBoolean(IsBoolean(s) == TrueBoolean))
    ensures !IsNull(s) && IsNumber(s) == NotNumber && IsBoolean(s) == NotBoolean ==> r == Ok(V.FromString(s))
  {
    if IsNull(s) then Ok(V.FromNull())
    else
      match IsNumber(s)
      case IntNumber =>
        StollOfDigits(s);
        var x :- Stoll(s);
        Ok(V.FromInteger(x))
      case FloatNumber =>
        StodOfShape(s);
        var t :- StodText(s);
        Ok(V.FromDouble(t))
      case NotNumber =>
        match IsBoolean(s)
        case TrueBoolean => Ok(V.FromBoolean(true))
        case FalseBoolean => Ok(V.FromBoolean(false))
        case NotBoolean => Ok(V.FromString(s))
  }

  /** std::stod accepts digits around one '.' unless there is no digit at all. */
  lemma StodOfShape(s: string)
    requires DecimalShape(s)
    ensures StodText(s).Ok? <==> s != "."
  {
    var p :| 0 <= p < |s| && s[p] == '.' && AllDigits(s[..p]) && AllDigits(s[p + 1..]);
    assert s == s[..p] + "." + s[p + 1..];
    StodOfDecimal(s[..p], s[p + 1..]);
  }

  /** The text of a float takes the double std::stod reads from it. */
  lemma GetTypeOfDecimal(whole: string, frac: string)
    requires AllDigits(whole) && AllDigits(frac) && (whole != [] || frac != [])
    ensures GetType(whole + "." + frac) == Ok(V.FromDouble(FixedText(false, whole, frac)))
  {
    var s := whole + "." + frac;
    assert s[|whole|] == '.' && s[..|whole|] == whole && s[|whole| + 1..] == frac;
    assert DecimalShape(s);
    StodOfDecimal(whole, frac);
  }

  // ---- the kinds of text ------------------------------------------------

  /** luco_simple_types::is_quoted_string */
  predicate IsQuotedString(k: TextKind) { k == Quoted1 || k == Quoted2 }

  /** luco_simple_types::expected_multi_line_string: a '\' ended the line. */
  predicate ExpectedMultiLineString(k: TextKind)
  {
    k == EscapedQuoted1 || k == EscapedQuoted2 || k == EscapedUnquoted
  }

  /** luco_simple_types::end_of_string */
  predicate EndOfString(k: TextKind)
  {
    k == EndString1 || k == EndString2 || k == EndStringUnquoted
  }

  // ---- strip_if_unqouted_string -------------------------------------------

  /** The index strip_if_unqouted_string's loop stops at, counting down from i. */
  function LastKept(s: string, i: nat): (j: nat)
    requires i < |s|
    ensures j <= i
    ensures !IsBlank(s[j]) || j == 0
    ensures forall k :: j < k <= i ==> IsBlank(s[k])
  {
    if !IsBlank(s[i]) || i == 0 then i else LastKept(s, i - 1)
  }

  /**
   * luco_simple_types::strip_if_unqouted_string: an unquoted text loses the
   * blanks at its end; any other text is left as it is.  A text of blanks
   * only keeps its first blank.
   */
  function Strip(s: string, kind: TextKind): (t: string)
    ensures |t| <= |s| && t == s[..|t|]
    ensures kind != Unquoted || s == [] || !IsBlank(s[|s| - 1]) ==> t == s
    ensures forall k :: |t| <= k < |s| ==> IsBlank(s[k])
    ensures s != [] ==> |t| > 0
    ensures kind == Unquoted && |t| > 0 && IsBlank(t[|t| - 1]) ==> |t| == 1
  {
    if kind != Unquoted || s == [] || !IsBlank(s[|s| - 1]) then s
    else s[..LastKept(s, |s| - 1) + 1]
  }

  /** Stripping a stripped text changes nothing more. */
  lemma StripIdempotent(s: string, kind: TextKind)
    ensures Strip(Strip(s, kind), kind) == Strip(s, kind)
  {
  }

  /** The loop of strip_if_unqouted_string, on the text's characters. */
  method StripIfUnquoted(data: string, kind: TextKind) returns (t: string)
    ensures t == Strip(data, kind)
  {
    if kind != Unquoted || |data| == 0 || !IsBlank(data[|data| - 1]) {
      return data;
    }
    var i: nat := |data| - 1;
    while true
      invariant i < |data|
      invariant LastKept(data, |data| - 1) == LastKept(data, i)
      decreases i
    {
      if !IsBlank(data[i]) {
        break;
      }
      if i == 0 {
        break;
      }
      i := i - 1;
    }
    t := data;
    if i != |data| - 1 {
      t := data[..i + 1];
    }
  }
}
