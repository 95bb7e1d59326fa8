/*
 * The parser as it runs: one object holds struct parsing_data
 * (include/parser.hpp:215-227), the brackets_count of the comment
 * recognizer and the heap of nodes the parse builds, and its methods change
 * them in place one character at a time, as the token helpers, the
 * recognizers, parser::parsing and the loops of parser::try_parse do.  Each
 * method is proved against the function of LucoParseState, LucoRecognizers
 * or LucoParse that states what it does to the state as a whole.
 */
module LucoParser {
  import opened LucoError
  import opened LucoSimpleTypes
  import opened LucoParseState
  import opened LucoRecognizers
  import opened LucoParse
  import LucoTree
  import LucoValue

  class Parser {
    var line: string
    var i: nat
    var lineNumber: nat
    var shift: bool             // shift_index_backward_for_oldnewline
    var eof: bool
    var keys: seq<Text>
    var objs: seq<LucoTree.Ref>
    var escape: Escape          // escaped_special_char
    var raw: Text               // raw_value
    var hierarchy: seq<Frame>
    var brackets: nat           // comment::brackets_count
    var cells: LucoTree.Cells

    /** The fields taken together. */
    function State(): Data
      reads this
    {
      Data(line, i, lineNumber, shift, eof, keys, objs, escape, raw, hierarchy, brackets, cells)
    }

    /** A recognizer's answer beside the state it leaves. */
    function Reply(r: Result<bool>): Result<Outcome>
      reads this
    {
      if r.Ok? then Ok(Outcome(State(), r.value)) else Err(r.error)
    }

    /** The state try_parse sets up before the first character. */
    constructor ()
      ensures State() == Start()
    {
      line, i, lineNumber, shift, eof := [], 0, 1, false, false;
      keys := [EmptyText];
      objs := [0];
      escape := NoEscape;
      raw := EmptyText;
      hierarchy := [Frame(ObjectSyntax, 1, 0)];
      brackets := 0;
      cells := [LucoTree.NewCell(LucoTree.ObjectNode)];
    }

    // ---- token ---------------------------------------------------------------

    /** token::is_escaped */
    method IsEscaped(ch: char) returns (escaped: bool)
      requires i < |line|
      modifies this
      ensures (State(), escaped) == LucoParseState.IsEscaped(old(State()), ch)
    {
      var pos := lineNumber * i;
      if i + 1 < |line| && line[i + 1] == ch {
        if ch !in Special {
          escape := NoEscape;
          return false;
        }
        var append := false;
        if escape.ch != ch {
          append := false;
        } else if escape.pos != pos && escape.pos != 0 {
          append := true;
        }
        escape := Escape(pos, append, ch);
        return true;
      } else if escape.ch == ch && !escape.append {
        escape := Escape(pos, true, ch);
        return true;
      }
      escape := NoEscape;
      return false;
    }

    /** token::delimiter */
    method Delimiter(ch: char) returns (b: bool)
      requires i < |line|
      modifies this
      ensures (State(), b) == LucoParseState.Delimiter(old(State()), ch)
    {
      b := false;
      if line[i] == ch {
        var escaped := IsEscaped(ch);
        b := !escaped;
      }
    }

    /** `not delimiter(ch)` */
    method NotDelimiter(ch: char) returns (b: bool)
      requires i < |line|
      modifies this
      ensures (State(), b) == LucoRecognizers.NotDelimiter(old(State()), ch)
    {
      b := Delimiter(ch);
      b := !b;
    }

    /**
     * token::handle_not.  The C++ loop runs over a std::set, of which at
     * most one element is the cursor's character, so it comes down to that
     * element.
     */
    method HandleNot(chars: set<char>) returns (b: bool)
      requires i < |line|
      modifies this
      ensures (State(), b) == LucoParseState.HandleNot(old(State()), chars)
    {
      var c := line[i];
      if c !in chars {
        return true;
      }
      if c in Special {
        b := IsEscaped(c);
      } else {
        b := false;
      }
    }

    /** token::handle_expected: the loop over the expected characters in their order. */
    method HandleExpected(chars: seq<char>) returns (b: bool)
      requires i < |line|
      modifies this
      ensures (State(), b) == LucoParseState.HandleExpected(old(State()), chars)
    {
      var k := 0;
      while k < |chars|
        invariant 0 <= k <= |chars| && i < |line|
        invariant LucoParseState.HandleExpected(old(State()), chars) == LucoParseState.HandleExpected(State(), chars[k..])
        decreases |chars| - k
      {
        assert chars[k..][0] == chars[k] && chars[k..][1..] == chars[k + 1..];
        if chars[k] == line[i] {
          if chars[k] !in Special {
            return true;
          }
          var escaped := IsEscaped(chars[k]);
          if !escaped {
            return true;
          }
        }
        k := k + 1;
      }
      return false;
    }

    /** token::register_token */
    method Register(s: Syntax)
      modifies this
      ensures State() == LucoParseState.Register(old(State()), s)
    {
      hierarchy := hierarchy + [Frame(s, lineNumber, i)];
    }

    /** token::unregister_token where the stack is known not to be empty. */
    method Pop()
      requires |hierarchy| > 0
      modifies this
      ensures State() == LucoParseState.Pop(old(State()))
    {
      hierarchy := hierarchy[..|hierarchy| - 1];
    }

    // ---- the strings of luco_simple_types ------------------------------------

    /** luco_simple_types::append_string */
    method AppendString(kind: TextKind, ch: char) returns (b: bool)
      requires i < |line|
      modifies this
      ensures (State(), b) == LucoParseState.AppendString(old(State()), kind, ch)
    {
      var open := Delimiter('{');
      if open {
        return false;
      }
      var close := Delimiter('}');
      if close {
        return false;
      }
      if !IsNewline(ch) && kind == Unquoted {
        return true;
      }
      var q2 := Delimiter('"');
      if !q2 && kind == Quoted2 {
        return true;
      }
      var q1 := Delimiter('\'');
      return !q1 && kind == Quoted1;
    }

    /** luco_simple_types::handle_empty_in_string: the new kind of the text, and whether the character is part of it. */
    method HandleEmptyInString(kind: TextKind, ch: char) returns (kind': TextKind, take: bool)
      requires i < |line|
      modifies this
      ensures (State(), kind', take) == LucoParseState.HandleEmptyInString(old(State()), kind, ch)
    {
      if IsBlankOrNewline(ch) && (kind == NoText || ExpectedMultiLineString(kind)) {
        return kind, false;
      }
      if escape.pos != 0 {
        if !escape.append {
          return kind, false;
        }
        escape := NoEscape;
        return (if kind == NoText then Unquoted else kind), true;
      }
      var backslash := Delimiter('\\');
      if backslash {
        kind' := if kind == EndString1 then EscapedQuoted1 else if kind == EndString2 then EscapedQuoted2 else EscapedUnquoted;
        return kind', false;
      }
      if kind == EscapedQuoted1 {
        var q := Delimiter('\'');
        return (if q then Quoted1 else kind), false;
      } else if kind == EscapedQuoted2 {
        var q := Delimiter('"');
        return (if q then Quoted2 else kind), false;
      } else if kind == EscapedUnquoted {
        return Unquoted, true;
      }
      var append := AppendString(kind, ch);
      if append {
        return kind, true;
      }
      if kind == NoText {
        kind', take := OpenText();
      } else if kind == EndString1 || kind == EndString2 {
        return kind, false;
      } else {
        kind', take := CloseText(kind);
      }
    }

    /** The start of a text at a character append_string refused: a quote, a bracket, or an unquoted text. */
    method OpenText() returns (kind': TextKind, take: bool)
      requires i < |line|
      modifies this
      ensures (State(), kind', take) == StartOfText(old(State()))
    {
      var q1 := Delimiter('\'');
      if q1 {
        return Quoted1, false;
      }
      var q2 := Delimiter('"');
      if q2 {
        return Quoted2, false;
      }
      var open := Delimiter('{');
      if open {
        return NoText, false;
      }
      var close := Delimiter('}');
      if close {
        return NoText, false;
      }
      return Unquoted, true;
    }

    /** The end of a text at a character append_string refused: its closing quote or its newline. */
    method CloseText(kind: TextKind) returns (kind': TextKind, take: bool)
      requires i < |line|
      modifies this
      ensures (State(), kind', take) == EndOfText(old(State()), kind)
    {
      var q1 := Delimiter('\'');
      if q1 && kind == Quoted1 {
        return EndString1, true;
      }
      var q2 := Delimiter('"');
      if q2 && kind == Quoted2 {
        return EndString2, true;
      }
      if IsNewline(line[i]) && kind == Unquoted {
        return EndStringUnquoted, true;
      }
      return kind, false;
    }

    /** The state after a step that reports no error, or the error. */
    function Done(r: Result<()>): Result<Data>
      reads this
    {
      if r.Ok? then Ok(State()) else Err(r.error)
    }

    // ---- comment -------------------------------------------------------------

    /** comment::is_end_of_token */
    method CommentEnd() returns (end: bool)
      requires i < |line|
      modifies this
      ensures (State(), end) == LucoRecognizers.CommentEnd(old(State()))
    {
      if IsRegistered(State(), Comment) {
        end := HandleExpected(['\n']);
      } else if IsRegistered(State(), NestedComment) {
        var close := Delimiter('}');
        end := close && brackets == 0;
      } else {
        end := false;
      }
    }

    /** The part of comment::handle_token after the start and the end of a comment. */
    method CommentBody() returns (done: bool)
      requires LucoParseState.Valid(State())
      modifies this
      ensures Outcome(State(), done) == LucoRecognizers.CommentBody(old(State()))
    {
      if IsRegistered(State(), Comment) {
        var open := Delimiter('{');
        if open {
          Pop();
          Register(NestedComment);
        }
        return true;
      } else if IsRegistered(State(), NestedComment) {
        var open := Delimiter('{');
        if open {
          brackets := brackets + 1;
        } else {
          var close := Delimiter('}');
          if close && brackets > 0 {
            brackets := brackets - 1;
          }
        }
        return true;
      }
      return false;
    }

    /** comment::handle_token */
    method CommentToken() returns (done: bool)
      requires LucoParseState.Valid(State())
      modifies this
      ensures Outcome(State(), done) == LucoRecognizers.CommentToken(old(State()))
    {
      var token := Delimiter('#');
      if token {
        Register(Comment);
        done := CommentBody();
        return;
      }
      var end := CommentEnd();
      if end {
        if Top(State()) != NestedComment {
          shift := true;
        }
        Pop();
        return true;
      }
      done := CommentBody();
    }

    // ---- luco_key --------------------------------------------------------------

    /** The part of luco_key::handle_token while a key is registered. */
    method KeyBody() returns (r: Result<bool>)
      requires LucoParseState.Valid(State())
      modifies this
      ensures Reply(r) == LucoRecognizers.KeyBody(old(State()))
    {
      if !IsRegistered(State(), Key) {
        return Ok(false);
      }
      if |keys| == 0 {
        return Err(AssertionFailure);
      }
      var t := Last(keys);
      var kind, take := HandleEmptyInString(t.kind, line[i]);
      var s := if take && !EndOfString(kind) then t.s + [line[i]] else t.s;
      keys := SetTop(keys, Text(s, kind));
      return Ok(take);
    }

    /** luco_key::handle_token */
    method KeyToken() returns (r: Result<bool>)
      requires LucoParseState.Valid(State())
      modifies this
      ensures Reply(r) == LucoRecognizers.KeyToken(old(State()))
    {
      if |hierarchy| == 0 {
        return Err(AssertionFailure);
      }
      var token := false;
      if HandleIs(State(), {ObjectSyntax}) {
        token := HandleNot({'\t', '\n', ' ', '{', '}'});
      }
      if token {
        Register(Key);
        keys := keys + [EmptyText];
        r := KeyBody();
        return;
      }
      r := KeyEnd();
    }

    /** The part of luco_key::handle_token that ends the key registered at '=' or '{'. */
    method KeyEnd() returns (r: Result<bool>)
      requires LucoParseState.Valid(State())
      modifies this
      ensures Reply(r) == LucoRecognizers.KeyEnd(old(State()))
    {
      var end := false;
      if IsRegistered(State(), Key) {
        end := HandleExpected(['{', '=']);
      }
      if end && |keys| == 0 {
        return Err(UndefinedBehaviour);
      }
      if end && !ExpectedMultiLineString(Last(keys).kind) {
        Pop();
        var equal := Delimiter('=');
        Register(if equal then EqualSign else OpeningBracket);
        return Ok(true);
      }
      r := KeyBody();
    }

    // ---- luco_value --------------------------------------------------------------

    /** luco_value::insert_value */
    method InsertValue() returns (r: Result<()>)
      requires LucoParseState.Valid(State())
      modifies this
      ensures Done(r) == LucoRecognizers.InsertValue(old(State()))
    {
      var text := StripIfUnquoted(raw.s, raw.kind);
      var v := GetType(text);
      if v.Err? {
        return Err(v.error);
      }
      r := StoreValue(v.value);
    }

    /** The part of insert_value after get_type. */
    method StoreValue(v: LucoValue.Value) returns (r: Result<()>)
      requires LucoParseState.Valid(State())
      modifies this
      ensures Done(r) == LucoRecognizers.StoreValue(old(State()), v)
    {
      if |objs| == 0 {
        return Err(UndefinedBehaviour);
      }
      var o := Last(objs);
      assert o < |cells|;
      if cells[o].ObjectCell? {
        if |keys| == 0 {
          return Err(UndefinedBehaviour);
        }
        var key := StripIfUnquoted(Last(keys).s, Last(keys).kind);
        cells := LucoTree.Insert(cells, o, key, LucoTree.Scalar(v)).cells;
        keys := DropLast(keys);
      } else if cells[o].ArrayCell? {
        cells := LucoTree.PushBack(cells, o, LucoTree.Scalar(v)).cells;
      }
      raw := EmptyText;
      return Ok(());
    }

    /** luco_value::is_end_of_token */
    method ValueEnd() returns (end: bool)
      requires i < |line| && |hierarchy| > 0
      modifies this
      ensures (State(), end) == LucoRecognizers.ValueEnd(old(State()))
    {
      if IsRegistered(State(), ValueSyntax) {
        var newline := HandleExpected(['\n']);
        if !newline {
          return false;
        }
        end := NotDelimiter('\\');
      } else if Top(State()) == FlushValue {
        shift := true;
        end := true;
      } else {
        end := false;
      }
    }

    /** The part of luco_value::handle_token while a value is registered. */
    method ValueBody() returns (r: Result<bool>)
      requires LucoParseState.Valid(State())
      modifies this
      ensures Reply(r) == LucoRecognizers.ValueBody(old(State()))
    {
      if !IsRegistered(State(), ValueSyntax) {
        return Ok(false);
      }
      if |keys| == 0 {
        return Err(AssertionFailure);
      }
      var _ := IsEscaped(line[i]);
      var kind, take := HandleEmptyInString(raw.kind, line[i]);
      raw := raw.(kind := kind);
      if take {
        var done := ValueText();
        return Ok(done);
      }
      if line[i] == '{' {
        r := ValueBracket();
        return;
      }
      return Ok(false);
    }

    /** A character of the value's text. */
    method ValueText() returns (done: bool)
      requires LucoParseState.Valid(State())
      modifies this
      ensures Outcome(State(), done) == LucoRecognizers.ValueText(old(State()))
    {
      var equal := Delimiter('=');
      if equal {
        raw := raw.(kind := EndStringUnquoted);
        return false;
      }
      if !EndOfString(raw.kind) {
        raw := raw.(s := raw.s + [line[i]]);
      }
      return true;
    }

    /** An unescaped '{' after the value's text. */
    method ValueBracket() returns (r: Result<bool>)
      requires LucoParseState.Valid(State()) && |hierarchy| > 0
      modifies this
      ensures Reply(r) == LucoRecognizers.ValueBracket(old(State()))
    {
      var open := Delimiter('{');
      if !open {
        return Ok(false);
      }
      Pop();
      if raw.kind != NoText {
        var ok := InsertValue();
        if ok.Err? {
          return Err(ok.error);
        }
      }
      Register(TransientBracket);
      return Ok(true);
    }

    /** luco_value::handle_token */
    method ValueToken() returns (r: Result<bool>)
      requires LucoParseState.Valid(State())
      modifies this
      ensures Reply(r) == LucoRecognizers.ValueToken(old(State()))
    {
      if |hierarchy| == 0 {
        return Err(AssertionFailure);
      }
      var token := false;
      if HandleIs(State(), {EqualSign, ArraySyntax}) {
        token := HandleNot({'\n', '\t', ' ', '}'});
      }
      if token {
        if HandleIs(State(), {EqualSign, FlushValue}) {
          Pop();
        }
        Register(ValueSyntax);
        r := ValueBody();
        return;
      }
      r := ValueFinish();
    }

    /** The end of a value, or more of its text. */
    method ValueFinish() returns (r: Result<bool>)
      requires LucoParseState.Valid(State()) && |hierarchy| > 0
      modifies this
      ensures Reply(r) == LucoRecognizers.ValueFinish(old(State()))
    {
      var end := ValueEnd();
      if end && !ExpectedMultiLineString(raw.kind) {
        var ok := InsertValue();
        if ok.Err? {
          return Err(ok.error);
        }
        Pop();
        return Ok(true);
      }
      r := ValueBody();
    }

    // ---- opening_bracket ----------------------------------------------------------

    /** opening_bracket::is_end_of_token */
    method OpeningEnd() returns (end: bool)
      requires i < |line|
      modifies this
      ensures (State(), end) == LucoRecognizers.OpeningEnd(old(State()))
    {
      var notOpen := false;
      if raw.kind == NoText {
        notOpen := NotDelimiter('{');
      }
      if notOpen || |hierarchy| == 0 {
        return false;
      }
      end := false;
      if Top(State()) == TransientBracket {
        end := HandleExpected(['=', '{', '\n']);
      }
    }

    /** The container a transient bracket opened, stored and entered. */
    method OpenContainer() returns (r: Result<bool>)
      requires LucoParseState.Valid(State()) && HandleIs(State(), {OpeningBracket, EqualSign, FlushValue}) && |keys| > 0
      modifies this
      ensures Reply(r) == LucoRecognizers.OpenContainer(old(State()))
    {
      if |objs| == 0 {
        return Err(UndefinedBehaviour);
      }
      var o := Last(objs);
      var flush := Top(State()) == FlushValue;
      var t := if flush then LucoTree.ArrayNode else LucoTree.ObjectNode;
      var e := AddNew(cells, o, Last(keys).s, t);
      if e.result.Err? {
        return Err(e.result.error);
      }
      if !flush {
        keys, raw := keys + [raw], EmptyText;
      }
      cells, objs := e.cells, objs + [e.result.value];
      return Ok(true);
    }

    /** What opening_bracket::handle_token does when a transient bracket ends. */
    method OpeningFinish() returns (r: Result<bool>)
      requires LucoParseState.Valid(State()) && IsRegistered(State(), TransientBracket)
      modifies this
      ensures Reply(r) == LucoRecognizers.OpeningFinish(old(State()))
    {
      Pop();
      if |keys| == 0 {
        return Err(UndefinedBehaviour);
      }
      var k := Last(keys);
      var stripped := StripIfUnquoted(k.s, k.kind);
      keys := SetTop(keys, Text(stripped, k.kind));
      r := OpeningChoice();
    }

    /** The character after the transient bracket's text decides what it opened. */
    method OpeningChoice() returns (r: Result<bool>)
      requires LucoParseState.Valid(State()) && |keys| > 0
      modifies this
      ensures Reply(r) == LucoRecognizers.OpeningChoice(old(State()))
    {
      var equal := Delimiter('=');
      if equal {
        Register(ObjectSyntax);
        Register(EqualSign);
        r := OpenContainer();
        return;
      }
      var open := Delimiter('{');
      if open && raw.kind != NoText {
        Register(ObjectSyntax);
        Register(OpeningBracket);
        r := OpenContainer();
        return;
      }
      if IsNewline(line[i]) {
        Register(ArraySyntax);
        Register(FlushValue);
        r := OpenContainer();
        return;
      }
      var open2 := Delimiter('{');
      if open2 && raw.kind == NoText {
        Register(ArraySyntax);
        r := OpenBracketArray();
        return;
      }
      return Err(Luco(ParsingError, Nowhere));
    }

    /** A '{' right after the transient bracket: an array, entered, with a new transient bracket. */
    method OpenBracketArray() returns (r: Result<bool>)
      requires LucoParseState.Valid(State()) && |keys| > 0
      modifies this
      ensures Reply(r) == LucoRecognizers.OpenBracketArray(old(State()))
    {
      if |objs| == 0 {
        return Err(UndefinedBehaviour);
      }
      var e := InsertNew(cells, Last(objs), Last(keys).s, LucoTree.ArrayNode);
      if e.result.Err? {
        return Err(e.result.error);
      }
      cells, objs := e.cells, objs + [e.result.value];
      Register(TransientBracket);
      return Ok(true);
    }

    /** The part of opening_bracket::handle_token while a transient bracket is registered. */
    method OpeningBody() returns (r: Result<bool>)
      requires LucoParseState.Valid(State())
      modifies this
      ensures Reply(r) == LucoRecognizers.OpeningBody(old(State()))
    {
      if !IsRegistered(State(), TransientBracket) {
        return Ok(false);
      }
      if |keys| == 0 {
        return Err(AssertionFailure);
      }
      if raw.kind == NoText && IsNewline(line[i]) {
        return Ok(true);
      }
      var kind, take := HandleEmptyInString(raw.kind, line[i]);
      raw := raw.(kind := kind);
      if take && !EndOfString(kind) {
        raw := raw.(s := raw.s + [line[i]]);
      }
      return Ok(take);
    }

    /** opening_bracket::handle_token */
    method OpeningToken() returns (r: Result<bool>)
      requires LucoParseState.Valid(State())
      modifies this
      ensures Reply(r) == LucoRecognizers.OpeningToken(old(State()))
    {
      if |hierarchy| == 0 {
        return Err(AssertionFailure);
      }
      if HandleIs(State(), {OpeningBracket}) {
        Pop();
        Register(TransientBracket);
        r := OpeningBody();
        return;
      }
      var end := OpeningEnd();
      if end {
        r := OpeningFinish();
      } else {
        r := OpeningBody();
      }
    }

    // ---- closing_bracket ----------------------------------------------------------

    /** closing_bracket::prepare_for_next_token and the test after it, as intended. */
    method CloseContainer() returns (r: Result<bool>)
      requires LucoParseState.Valid(State()) && HandleIs(State(), {ObjectSyntax, ArraySyntax})
      modifies this
      ensures Reply(r) == LucoRecognizers.CloseContainer(old(State()))
    {
      Pop();
      if |hierarchy| > 0 && Top(State()) == ObjectSyntax {
        if |keys| == 0 {
          return Err(AssertionFailure);
        }
        keys := DropLast(keys);
      }
      if |objs| == 0 {
        return Err(AssertionFailure);
      }
      objs := DropLast(objs);
      if |hierarchy| == 0 {
        return Err(HereError(State()));
      }
      return Ok(true);
    }

    /** closing_bracket::handle_token */
    method ClosingToken() returns (r: Result<bool>)
      requires LucoParseState.Valid(State())
      modifies this
      ensures Reply(r) == LucoRecognizers.ClosingToken(old(State()))
    {
      if |hierarchy| == 0 {
        return Err(AssertionFailure);
      }
      var token := false;
      if HandleIs(State(), {ObjectSyntax, ArraySyntax}) {
        token := Delimiter('}');
      }
      if token {
        Register(ClosingBracket);
      }
      if IsRegistered(State(), ClosingBracket) {
        r := CloseFrame();
      } else {
        r := CloseTransient();
      }
    }

    /** The '}' registered as a closing bracket. */
    method CloseFrame() returns (r: Result<bool>)
      requires LucoParseState.Valid(State()) && IsRegistered(State(), ClosingBracket)
      modifies this
      ensures Reply(r) == LucoRecognizers.CloseFrame(old(State()))
    {
      Pop();
      if |keys| == 0 {
        return Err(AssertionFailure);
      }
      keys := SetTop(keys, EmptyText);
      if |hierarchy| == 0 {
        return Err(UndefinedBehaviour);
      }
      if Top(State()) != ObjectSyntax && Top(State()) != ArraySyntax {
        return Err(Luco(ParsingError, Nowhere));
      }
      r := CloseContainer();
    }

    /** A '}' right after a transient bracket. */
    method CloseTransient() returns (r: Result<bool>)
      requires LucoParseState.Valid(State())
      modifies this
      ensures Reply(r) == LucoRecognizers.CloseTransient(old(State()))
    {
      var close := false;
      if IsRegistered(State(), TransientBracket) {
        close := Delimiter('}');
      }
      if !close {
        return Ok(false);
      }
      if raw != EmptyText {
        return Err(AssertionFailure);
      }
      Pop();
      if |objs| == 0 || |keys| == 0 {
        return Err(UndefinedBehaviour);
      }
      var e := InsertNew(cells, Last(objs), Last(keys).s, LucoTree.ObjectNode);
      if e.result.Err? {
        return Err(e.result.error);
      }
      cells := e.cells;
      return Ok(true);
    }

    // ---- syntax_error and parsing -----------------------------------------------------

    /** syntax_error */
    method SyntaxError() returns (r: Result<()>)
      requires LucoParseState.Valid(State())
      modifies this
      ensures Done(r) == LucoRecognizers.SyntaxError(old(State()))
    {
      if IsBlankOrNewline(line[i]) {
        return Ok(());
      }
      if |hierarchy| == 0 {
        return Err(HereError(State()));
      }
      var here := HereError(State());
      var e1 := false;
      if raw.kind == EscapedQuoted1 {
        e1 := NotDelimiter('\\');
      }
      if e1 {
        return Err(here);
      }
      var e2 := false;
      if raw.kind == EscapedQuoted2 {
        e2 := NotDelimiter('\\');
      }
      if e2 {
        return Err(here);
      }
      r := SyntaxErrorTail();
    }

    /** The tests of syntax_error after the two about escaped quotes. */
    method SyntaxErrorTail() returns (r: Result<()>)
      requires LucoParseState.Valid(State()) && |hierarchy| > 0
      modifies this
      ensures Done(r) == LucoRecognizers.SyntaxErrorTail(old(State()))
    {
      var here := HereError(State());
      if (raw.kind == EscapedUnquoted && eof) || raw.kind == EndString1 || raw.kind == EndString2 {
        return Err(here);
      }
      if |keys| > 0 && EndOfString(Last(keys).kind) && Top(State()) == Key {
        return Err(here);
      }
      if EndOfString(raw.kind) && Top(State()) == ValueSyntax {
        return Err(here);
      }
      var e3 := false;
      if Top(State()) == ObjectSyntax {
        e3 := Delimiter('{');
      }
      if e3 {
        return Err(here);
      }
      var e4 := Delimiter('}');
      if e4 {
        return Err(here);
      }
      return Ok(());
    }

    /** parser::parsing: the recognizers in their order, then syntax_error. */
    method Parsing() returns (r: Result<()>)
      requires LucoParseState.Valid(State())
      modifies this
      ensures Done(r) == LucoRecognizers.Parsing(old(State()))
    {
      var done := CommentToken();
      if done {
        return Ok(());
      }
      var ok := KeyToken();
      if ok.Err? || ok.value {
        return if ok.Err? then Err(ok.error) else Ok(());
      }
      ok := ValueToken();
      if ok.Err? || ok.value {
        return if ok.Err? then Err(ok.error) else Ok(());
      }
      ok := OpeningToken();
      if ok.Err? || ok.value {
        return if ok.Err? then Err(ok.error) else Ok(());
      }
      ok := ClosingToken();
      if ok.Err? || ok.value {
        return if ok.Err? then Err(ok.error) else Ok(());
      }
      r := SyntaxError();
    }
    // ---- the loops of try_parse --------------------------------------------------------

    /**
     * The inner loop of try_parse over the chunk in line, from the cursor
     * on.  When a pass asks for the character once more the C++ loop steps
     * the cursor back before stepping it on (at column 0 the unsigned index
     * wraps round and comes back to 0), so the cursor stays put.
     */
    method RunLine() returns (r: Result<()>)
      requires Sound(State()) && i <= |line| && !shift
      modifies this
      ensures Done(r) == LucoParse.RunLine(old(State()))
    {
      while i < |line|
        invariant Sound(State()) && i <= |line| && !shift
        invariant LucoParse.RunLine(old(State())) == LucoParse.RunLine(State())
        decreases |line| - i, |hierarchy|
      {
        var more;
        r, more := Step();
        if !more {
          return;
        }
      }
      return Ok(());
    }

    /**
     * One round of the inner loop: a pass over the cursor's character, then
     * the cursor moved on, kept, or the stall.  It says whether the loop goes on.
     */
    method Step() returns (r: Result<()>, more: bool)
      requires LucoParseState.Valid(State()) && !shift
      modifies this
      ensures more ==> Sound(State()) && !shift && i <= |line| && line == old(line)
      ensures more ==> i > old(i) || (i == old(i) && |hierarchy| < old(|hierarchy|))
      ensures more ==> LucoParse.RunLine(old(State())) == LucoParse.RunLine(State())
      ensures !more ==> Done(r) == LucoParse.RunLine(old(State()))
    {
      var depth := |hierarchy|;
      ghost var d := State();
      var ok := Parsing();
      if ok.Err? {
        RunLineStops(d);
        return ok, false;
      }
      ghost var d1 := State();
      RunLineStep(d, d1);
      if shift && |hierarchy| >= depth {
        shift := false;
        r := Stall();
        return r, false;
      }
      Advance();
      return Ok(()), true;
    }

    /**
     * The cursor after a pass: the C++ loop steps it back when the pass
     * asked for the character once more, and then on.
     */
    method Advance()
      modifies this
      ensures State() == LucoParse.Advance(old(State()))
    {
      if shift {
        shift := false;
      } else {
        i := i + 1;
      }
    }

    /** The passes that follow a stalled one, up to the point where the state no longer changes. */
    method Stall() returns (r: Result<()>)
      requires LucoParseState.Valid(State())
      modifies this
      ensures Done(r) == Stalled(old(State()))
    {
      var ok := Parsing();
      if ok.Err? {
        return ok;
      }
      shift := false;
      ok := Parsing();
      if ok.Err? {
        return ok;
      }
      return Err(Diverges);
    }

    /**
     * The outer loop of try_parse: every character is added to the chunk,
     * and a terminator has the chunk parsed from column 0 and starts the next
     * chunk on the next line number.
     */
    method Feed(input: string) returns (r: Result<()>)
      requires Sound(State()) && !shift
      modifies this
      ensures Done(r) == LucoParse.Feed(old(State()), input)
    {
      var k := 0;
      while k < |input|
        invariant 0 <= k <= |input| && Sound(State()) && !shift
        invariant LucoParse.Feed(old(State()), input) == LucoParse.Feed(State(), input[k..])
        decreases |input| - k
      {
        assert input[k..][0] == input[k] && input[k..][1..] == input[k + 1..];
        var ok := Take(input[k]);
        if ok.Err? {
          return ok;
        }
        k := k + 1;
      }
      return Ok(());
    }

    /** One character of the input added to the chunk, and the chunk parsed when it ends there. */
    method Take(ch: char) returns (r: Result<()>)
      requires Sound(State()) && !shift
      modifies this
      ensures Done(r) == LucoParse.Take(old(State()), ch)
    {
      line := line + [ch];
      if Terminator(ch) {
        r := EndChunk();
      } else {
        r := Ok(());
      }
    }

    /** The end of a chunk: the inner loop from column 0, then the chunk cleared and the line number moved on. */
    method EndChunk() returns (r: Result<()>)
      requires Sound(State()) && !shift
      modifies this
      ensures Done(r) == LucoParse.EndChunk(old(State()))
    {
      ghost var d := State();
      i := 0;
      assert State() == d.(i := 0);
      r := RunLine();
      ghost var parsed := Done(r);
      assert LucoParse.EndChunk(d) == LucoParse.FinishChunk(parsed);
      if r.Ok? {
        NextLine();
        assert State() == parsed.value.(line := [], lineNumber := parsed.value.lineNumber + 1);
      }
    }

    /** line.clear() and line_number++ */
    method NextLine()
      modifies this
      ensures State() == old(State()).(line := [], lineNumber := old(lineNumber) + 1)
    {
      line, lineNumber := [], lineNumber + 1;
    }
  }

  /**
   * parser::try_parse(string): a parser set up on an empty root object is fed
   * the input; a nested comment left open is a parse error at the place it
   * opened.
   */
  method TryParse(input: string) returns (r: Result<Parsed>)
    ensures r == LucoParse.TryParse(input)
  {
    var p := new Parser();
    var ok := p.Feed(input);
    if ok.Err? {
      return Err(ok.error);
    }
    if |p.hierarchy| == 0 {
      return Err(UndefinedBehaviour);
    }
    var f := Last(p.hierarchy);
    if f.syntax == NestedComment {
      return Err(Luco(ParsingError, At(f.line, f.column)));
    }
    return Ok(Parsed(p.cells, 0));
  }
}