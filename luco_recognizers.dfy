/*
 * The recognizers of the parser (include/parser.hpp:817-1414): comment,
 * luco_key, luco_value, opening_bracket, closing_bracket, syntax_error, and
 * parser::parsing, which offers the character at the cursor to each of them
 * in turn (include/parser.hpp:1508-1540).
 *
 * A recognizer's handle_token answers true when it has consumed the
 * character, false when it leaves it to the next one, or an error.  The
 * C++ recognizers are objects, but the only state one of them keeps is the
 * comment's brackets_count, which lives in Data; each is a function here.
 */
module LucoRecognizers {
  import opened LucoError
  import opened LucoSimpleTypes
  import opened LucoParseState
  import opened LucoTree

  /** What a recognizer leaves behind: the new state, and whether it consumed the character. */
  datatype Outcome = Outcome(data: Data, done: bool)

  /** The parse error error_location(data) points at: the cursor. */
  function HereError(d: Data): Error
  {
    Luco(ParsingError, At(d.lineNumber, d.i))
  }

  /** `not delimiter(ch)`, with the state delimiter leaves. */
  function NotDelimiter(d: Data, ch: char): (r: (Data, bool))
    requires d.i < |d.line|
    ensures r.0 == d.(escape := r.0.escape)
    ensures SoundEscape(d.escape) ==> SoundEscape(r.0.escape)
    ensures r == (Delimiter(d, ch).0, !Delimiter(d, ch).1)
  {
    var (d1, b) := Delimiter(d, ch);
    (d1, !b)
  }

  // ---- new containers -------------------------------------------------------

  /**
   * luco_objs.top()->insert(key, luco::node(t)): a new empty container
   * stored under key in the object o; wrong_type when o is no object.
   */
  function InsertNew(cells: Cells, o: Ref, key: string, t: NodeType): (e: Edit)
    requires WellFormed(cells) && o < |cells|
    ensures WellFormed(e.cells) && |cells| < |e.cells| && KeepsKinds(cells, e.cells)
    ensures !cells[o].ObjectCell? ==> e.result == Err(WrongTypeError)
    ensures cells[o].ObjectCell? ==>
      && e.result == Ok(|cells|) && e.cells[|cells|] == NewCell(t)
      && e.cells == (cells + [NewCell(t)])[o := ObjectCell(Obj.Insert(cells[o].entries, key, |cells|))]
  {
    var cells' := cells + [NewCell(t)];
    AppendWellFormed(cells, NewCell(t));
    Insert(cells', o, key, Share(|cells|))
  }

  /** luco_objs.top()->push_back(luco::node(t)); wrong_type when o is no array. */
  function PushNew(cells: Cells, o: Ref, t: NodeType): (e: Edit)
    requires WellFormed(cells) && o < |cells|
    ensures WellFormed(e.cells) && |cells| < |e.cells| && KeepsKinds(cells, e.cells)
    ensures !cells[o].ArrayCell? ==> e.result == Err(WrongTypeError)
    ensures cells[o].ArrayCell? ==>
      && e.result == Ok(|cells|) && e.cells[|cells|] == NewCell(t)
      && e.cells == (cells + [NewCell(t)])[o := ArrayCell(cells[o].elements + [|cells|])]
  {
    var cells' := cells + [NewCell(t)];
    AppendWellFormed(cells, NewCell(t));
    PushBack(cells', o, Share(|cells|))
  }

  /** A new empty container stored in o: under key when o is an object, at its end when o is an array. */
  function AddNew(cells: Cells, o: Ref, key: string, t: NodeType): (e: Edit)
    requires WellFormed(cells) && o < |cells|
    ensures WellFormed(e.cells) && |cells| < |e.cells| && KeepsKinds(cells, e.cells)
    ensures e.result.Err? <==> cells[o].ValueCell?
    ensures e.result.Err? ==> e.result.error == WrongTypeError
    ensures e.result.Ok? ==> e.result == Ok(|cells|) && e.cells[|cells|] == NewCell(t)
  {
    if cells[o].ObjectCell? then InsertNew(cells, o, key, t) else PushNew(cells, o, t)
  }

  // ---- comment ----------------------------------------------------------------

  /** comment::is_end_of_token: a newline ends a line comment, an unescaped '}' at depth 0 a nested one. */
  function CommentEnd(d: Data): (r: (Data, bool))
    requires d.i < |d.line|
    ensures r.0 == d.(escape := r.0.escape)
    ensures SoundEscape(d.escape) ==> SoundEscape(r.0.escape)
    ensures r.1 ==> IsRegistered(d, Comment) || IsRegistered(d, NestedComment)
  {
    if IsRegistered(d, Comment) then HandleExpected(d, ['\n'])
    else if IsRegistered(d, NestedComment) then
      var (d1, close) := Delimiter(d, '}');
      (d1, close && d1.brackets == 0)
    else (d, false)
  }

  /** The part of comment::handle_token after the start and the end of a comment. */
  function CommentBody(d: Data): (o: Outcome)
    requires Valid(d)
    ensures Keeps(d, o.data) && o.data.shift == d.shift
    ensures o.done <==> IsRegistered(d, Comment) || IsRegistered(d, NestedComment)
    ensures !o.done ==> o.data == d
  {
    if IsRegistered(d, Comment) then
      var (d1, open) := Delimiter(d, '{');
      Outcome(if open then Register(Pop(d1), NestedComment) else d1, true)
    else if IsRegistered(d, NestedComment) then
      var (d1, open) := Delimiter(d, '{');
      if open then Outcome(d1.(brackets := d1.brackets + 1), true)
      else
        var (d2, close) := Delimiter(d1, '}');
        Outcome(if close && d2.brackets > 0 then d2.(brackets := d2.brackets - 1) else d2, true)
    else Outcome(d, false)
  }

  /**
   * comment::handle_token.  An unescaped '#' opens a line comment (anywhere,
   * even inside another comment or a quoted text); inside a comment every
   * character is consumed; an unescaped '{' turns a line comment into a
   * nested one, whose '{' and '}' are counted and which ends at a '}' at
   * depth 0.  Ending a line comment asks for the newline to be looked at once
   * more.  It never reports an error.
   */
  function CommentToken(d: Data): (o: Outcome)
    requires Valid(d)
    ensures Keeps(d, o.data)
    ensures !o.done ==> o.data == d
    ensures Char(d) == '#' ==> o.done && o.data.shift == d.shift
    ensures o.data.shift != d.shift ==> o.done && |o.data.hierarchy| < |d.hierarchy|
  {
    var (d1, token) := Delimiter(d, '#');
    if token then CommentBody(Register(d1, Comment))
    else
      var (d2, end) := CommentEnd(d1);
      if end then
        var d3 := if Top(d2) != NestedComment then d2.(shift := true) else d2;
        Outcome(Pop(d3), true)
      else CommentBody(d2)
  }

  /** A newline ends a line comment; an unescaped '}' ends a nested comment when no '{' in it is still open. */
  lemma CommentEnds(d: Data)
    requires d.i < |d.line|
    ensures CommentEnd(d).1 <==>
              || (IsRegistered(d, Comment) && Char(d) == '\n')
              || (IsRegistered(d, NestedComment) && Delimiter(d, '}').1 && d.brackets == 0)
  {
  }

  /**
   * Inside a line comment an unescaped '{' makes it a nested comment;
   * inside a nested comment an unescaped '{' counts one more and an unescaped
   * '}' one less while the count is above 0.  Nothing else changes.
   */
  lemma CommentBodyCounts(d: Data)
    requires Valid(d)
    ensures var o := CommentBody(d);
            && o.data.shift == d.shift && o.data.objs == d.objs && o.data.keys == d.keys && o.data.cells == d.cells
            && (IsRegistered(d, Comment) ==>
                  && o.data.brackets == d.brackets
                  && o.data.hierarchy == if Delimiter(d, '{').1 then DropLast(d.hierarchy) + [Frame(NestedComment, d.lineNumber, d.i)]
                                         else d.hierarchy)
            && (IsRegistered(d, NestedComment) ==>
                  && o.data.hierarchy == d.hierarchy
                  && o.data.brackets == if Delimiter(d, '{').1 then d.brackets + 1
                                        else if Delimiter(d, '}').1 && d.brackets > 0 then d.brackets - 1
                                        else d.brackets)
  {
  }

  /**
   * An unescaped '#' registers a line comment (even inside a comment); a
   * comment consumes every character; outside a comment any other character
   * is passed on untouched.
   */
  lemma CommentTokenOpens(d: Data)
    requires Valid(d)
    ensures var o := CommentToken(d);
            && (Char(d) == '#' ==> o.done && o.data == Register(Delimiter(d, '#').0, Comment))
            && (IsRegistered(d, Comment) || IsRegistered(d, NestedComment) ==> o.done)
            && (!IsRegistered(d, Comment) && !IsRegistered(d, NestedComment) && Char(d) != '#' ==> o == Outcome(d, false))
  {
  }

  /** A newline ends a line comment and asks for the newline to be looked at once more. */
  lemma LineCommentEnds(d: Data)
    requires Valid(d) && IsRegistered(d, Comment) && Char(d) == '\n'
    ensures var o := CommentToken(d);
            o.done && o.data.shift && o.data.hierarchy == DropLast(d.hierarchy) && o.data.brackets == d.brackets
  {
    assert Delimiter(d, '#') == (d, false);
    assert CommentEnd(d).1;
  }

  /**
   * Inside a nested comment an unescaped '{' counts one more, and an
   * unescaped '}' ends the comment at count 0 or counts one less.  The '}'
   * is tested twice, by is_end_of_token and then by handle_token, and the
   * second test sees the escape record the first one left.
   */
  lemma NestedCommentCounts(d: Data)
    requires Valid(d) && IsRegistered(d, NestedComment) && Char(d) != '#'
    ensures var o := CommentToken(d);
            var d1 := Delimiter(d, '}').0;
            && o.done && o.data.shift == d.shift
            && o.data.hierarchy == (if Delimiter(d, '}').1 && d.brackets == 0 then DropLast(d.hierarchy) else d.hierarchy)
            && (!(Delimiter(d, '}').1 && d.brackets == 0) ==>
                  o.data.brackets == if Delimiter(d, '{').1 then d.brackets + 1
                                     else if Delimiter(d1, '}').1 && d.brackets > 0 then d.brackets - 1
                                     else d.brackets)
  {
    assert Delimiter(d, '#') == (d, false);
    var (d2, end) := CommentEnd(d);
    assert d2 == Delimiter(d, '}').0;
    if !end && Char(d) == '{' {
      assert d2 == d;
    }
  }

  // ---- luco_key ---------------------------------------------------------------

  /** The part of luco_key::handle_token while a key is registered: read the key's text. */
  function KeyBody(d: Data): (r: Result<Outcome>)
    requires Valid(d)
    ensures r.Err? ==> r.error == AssertionFailure
    ensures r.Ok? ==> Keeps(d, r.value.data)
    ensures r.Ok? ==> r.value.data == d.(escape := r.value.data.escape, keys := r.value.data.keys)
    ensures !IsRegistered(d, Key) ==> r == Ok(Outcome(d, false))
  {
    if IsRegistered(d, Key) then
      if |d.keys| == 0 then Err(AssertionFailure)
      else
        var t := Last(d.keys);
        var (d1, kind, take) := HandleEmptyInString(d, t.kind, Char(d));
        var s := if take && !EndOfString(kind) then t.s + [Char(d)] else t.s;
        Ok(Outcome(d1.(keys := SetTop(d1.keys, Text(s, kind))), take))
    else Ok(Outcome(d, false))
  }

  /**
   * luco_key::handle_token.  In an object, a character that is not blank, a
   * newline or an unescaped bracket starts a key; an unescaped '=' or '{'
   * ends it, unless its text waits for the next line, and is registered as
   * the equal sign or the opening bracket that follows the key.
   */
  function KeyToken(d: Data): (r: Result<Outcome>)
    requires Valid(d)
    ensures r.Err? ==> r.error in {AssertionFailure, UndefinedBehaviour}
    ensures r.Ok? ==> Keeps(d, r.value.data) && r.value.data.shift == d.shift
    ensures r.Ok? ==> r.value.data.cells == d.cells && r.value.data.objs == d.objs && r.value.data.raw == d.raw
  {
    if |d.hierarchy| == 0 then Err(AssertionFailure)
    else
      var (d1, token) := if HandleIs(d, {ObjectSyntax}) then HandleNot(d, {'\t', '\n', ' ', '{', '}'}) else (d, false);
      if token then KeyBody(Register(d1, Key).(keys := d1.keys + [EmptyText]))
      else KeyEnd(d1)
  }

  /** The part of luco_key::handle_token that ends the key registered at '=' or '{'. */
  function KeyEnd(d: Data): (r: Result<Outcome>)
    requires Valid(d)
    ensures r.Err? ==> r.error in {AssertionFailure, UndefinedBehaviour}
    ensures r.Ok? ==> Keeps(d, r.value.data) && r.value.data.shift == d.shift
    ensures r.Ok? ==> r.value.data.cells == d.cells && r.value.data.objs == d.objs && r.value.data.raw == d.raw
  {
    var (d2, end) := if IsRegistered(d, Key) then HandleExpected(d, ['{', '=']) else (d, false);
    if end && |d2.keys| == 0 then Err(UndefinedBehaviour)
    else if end && !ExpectedMultiLineString(Last(d2.keys).kind) then
      var (d3, equal) := Delimiter(Pop(d2), '=');
      Ok(Outcome(Register(d3, if equal then EqualSign else OpeningBracket), true))
    else KeyBody(d2)
  }

  // ---- luco_value ---------------------------------------------------------------

  /**
   * luco_value::insert_value: the value's text, stripped, is given its type
   * and stored in the container on top of luco_objs: under the key on top of
   * keys (which is popped) in an object, at the end in an array.  The text
   * is then cleared.
   */
  function InsertValue(d: Data): (r: Result<Data>)
    requires Valid(d)
    ensures r.Err? ==> r.error in {StdException, UndefinedBehaviour}
    ensures r.Ok? ==> Keeps(d, r.value) && r.value.raw == EmptyText
    ensures r.Ok? ==> r.value == d.(cells := r.value.cells, keys := r.value.keys, raw := EmptyText)
    ensures r.Ok? ==> |d.objs| > 0
    ensures r.Ok? && d.cells[Last(d.objs)].ObjectCell? ==>
      && |d.keys| > 0 && r.value.keys == DropLast(d.keys)
      && GetType(Strip(d.raw.s, d.raw.kind)).Ok?
      && r.value.cells == Insert(d.cells, Last(d.objs), Strip(Last(d.keys).s, Last(d.keys).kind),
                                 Scalar(GetType(Strip(d.raw.s, d.raw.kind)).value)).cells
    ensures r.Ok? && d.cells[Last(d.objs)].ArrayCell? ==>
      && r.value.keys == d.keys
      && GetType(Strip(d.raw.s, d.raw.kind)).Ok?
      && r.value.cells == PushBack(d.cells, Last(d.objs), Scalar(GetType(Strip(d.raw.s, d.raw.kind)).value)).cells
  {
    var v :- GetType(Strip(d.raw.s, d.raw.kind));
    StoreValue(d, v)
  }

  /** The part of insert_value after get_type: v stored in the container on top of luco_objs. */
  function StoreValue(d: Data, v: LucoValue.Value): (r: Result<Data>)
    requires Valid(d)
    ensures r.Err? ==> r.error == UndefinedBehaviour
    ensures r.Ok? ==> Keeps(d, r.value) && r.value.raw == EmptyText
    ensures r.Ok? ==> r.value == d.(cells := r.value.cells, keys := r.value.keys, raw := EmptyText)
    ensures r.Ok? ==> |d.objs| > 0
    ensures r.Ok? && d.cells[Last(d.objs)].ObjectCell? ==>
      && |d.keys| > 0 && r.value.keys == DropLast(d.keys)
      && r.value.cells == Insert(d.cells, Last(d.objs), Strip(Last(d.keys).s, Last(d.keys).kind), Scalar(v)).cells
    ensures r.Ok? && d.cells[Last(d.objs)].ArrayCell? ==>
      && r.value.keys == d.keys && r.value.cells == PushBack(d.cells, Last(d.objs), Scalar(v)).cells
  {
    if |d.objs| == 0 then Err(UndefinedBehaviour)
    else
      var o := Last(d.objs);
      if d.cells[o].ObjectCell? then
        if |d.keys| == 0 then Err(UndefinedBehaviour)
        else
          var key := Strip(Last(d.keys).s, Last(d.keys).kind);
          var e := Insert(d.cells, o, key, Scalar(v));
          Ok(d.(cells := e.cells, keys := DropLast(d.keys), raw := EmptyText))
      else if d.cells[o].ArrayCell? then
        var e := PushBack(d.cells, o, Scalar(v));
        Ok(d.(cells := e.cells, raw := EmptyText))
      else Ok(d.(raw := EmptyText))
  }

  /** luco_value::is_end_of_token: a newline not after a '\' ends a value; a flush_value ends at once. */
  function ValueEnd(d: Data): (r: (Data, bool))
    requires d.i < |d.line| && |d.hierarchy| > 0
    ensures r.0 == d.(escape := r.0.escape, shift := r.0.shift)
    ensures SoundEscape(d.escape) ==> SoundEscape(r.0.escape)
    ensures r.0.shift != d.shift ==> Top(d) == FlushValue && r.1
    ensures r.1 ==> IsRegistered(d, ValueSyntax) || IsRegistered(d, FlushValue)
  {
    if IsRegistered(d, ValueSyntax) then
      var (d1, newline) := HandleExpected(d, ['\n']);
      if !newline then (d1, false) else NotDelimiter(d1, '\\')
    else if Top(d) == FlushValue then (d.(shift := true), true)
    else (d, false)
  }

  /** The part of luco_value::handle_token while a value is registered: read the value's text. */
  function ValueBody(d: Data): (r: Result<Outcome>)
    requires Valid(d)
    ensures r.Err? ==> r.error in {AssertionFailure, StdException, UndefinedBehaviour}
    ensures r.Ok? ==> Keeps(d, r.value.data) && r.value.data.shift == d.shift
    ensures !IsRegistered(d, ValueSyntax) ==> r == Ok(Outcome(d, false))
  {
    if IsRegistered(d, ValueSyntax) then
      if |d.keys| == 0 then Err(AssertionFailure)
      else
        var (d1, _) := IsEscaped(d, Char(d));
        var (d2, kind, take) := HandleEmptyInString(d1, d1.raw.kind, Char(d1));
        var d3 := d2.(raw := d2.raw.(kind := kind));
        if take then Ok(ValueText(d3))
        else if Char(d3) == '{' then ValueBracket(d3)
        else Ok(Outcome(d3, false))
    else Ok(Outcome(d, false))
  }

  /**
   * A character of the value's text: an unescaped '=' ends the text and is
   * passed on, a closing quote is consumed, any other character is appended.
   */
  function ValueText(d: Data): (o: Outcome)
    requires Valid(d)
    ensures Keeps(d, o.data) && o.data.shift == d.shift
    ensures o.data == d.(escape := o.data.escape, raw := o.data.raw)
  {
    var (d1, equal) := Delimiter(d, '=');
    if equal then Outcome(d1.(raw := d1.raw.(kind := EndStringUnquoted)), false)
    else if EndOfString(d1.raw.kind) then Outcome(d1, true)
    else Outcome(d1.(raw := d1.raw.(s := d1.raw.s + [Char(d1)])), true)
  }

  /**
   * An unescaped '{' after the value's text: the value read so far is
   * stored and a transient bracket takes the value's place.
   */
  function ValueBracket(d: Data): (r: Result<Outcome>)
    requires Valid(d) && |d.hierarchy| > 0
    ensures r.Err? ==> r.error in {StdException, UndefinedBehaviour}
    ensures r.Ok? ==> Keeps(d, r.value.data) && r.value.data.shift == d.shift
  {
    var (d1, open) := Delimiter(d, '{');
    if !open then Ok(Outcome(d1, false))
    else
      var d2 := Pop(d1);
      var d3 :- if d2.raw.kind != NoText then InsertValue(d2) else Ok(d2);
      Ok(Outcome(Register(d3, TransientBracket), true))
  }

  /**
   * Before an unescaped '{' nothing happens; at one, the value read so far,
   * if any, is stored, and a transient bracket replaces the value's frame.
   */
  lemma ValueBracketStores(d: Data)
    requires Valid(d) && |d.hierarchy| > 0
    ensures var r := ValueBracket(d);
            && (!Delimiter(d, '{').1 ==> r == Ok(Outcome(Delimiter(d, '{').0, false)))
            && (r.Ok? && r.value.done ==>
                  && r.value.data.hierarchy == DropLast(d.hierarchy) + [Frame(TransientBracket, d.lineNumber, d.i)]
                  && r.value.data.objs == d.objs)
            && (Delimiter(d, '{').1 && d.raw.kind == NoText ==>
                  r.Ok? && r.value.done && r.value.data.cells == d.cells && r.value.data.keys == d.keys)
            && (Delimiter(d, '{').1 && d.raw.kind != NoText ==>
                  var stored := InsertValue(Pop(Delimiter(d, '{').0));
                  && (r.Ok? <==> stored.Ok?)
                  && (r.Ok? ==> r.value.done && r.value.data.cells == stored.value.cells && r.value.data.keys == stored.value.keys
                                && r.value.data.raw == EmptyText))
  {
  }

  /**
   * luco_value::handle_token.  After an equal sign or in an array, a
   * character that is not blank, a newline or an unescaped '}' starts a
   * value; a newline not after a '\' ends it, unless its text waits for the
   * next line, and the value is stored.  A flush_value frame stores the
   * value read so far and asks for the character to be looked at once more.
   */
  function ValueToken(d: Data): (r: Result<Outcome>)
    requires Valid(d)
    ensures r.Err? ==> r.error in {AssertionFailure, StdException, UndefinedBehaviour}
    ensures r.Ok? ==> Keeps(d, r.value.data)
    ensures r.Ok? && r.value.data.shift != d.shift ==> HandleIs(d, {FlushValue})
  {
    if |d.hierarchy| == 0 then Err(AssertionFailure)
    else
      var (d1, token) := if HandleIs(d, {EqualSign, ArraySyntax}) then HandleNot(d, {'\n', '\t', ' ', '}'}) else (d, false);
      if token then
        var d2 := if HandleIs(d1, {EqualSign, FlushValue}) then Pop(d1) else d1;
        ValueBody(Register(d2, ValueSyntax))
      else ValueFinish(d1)
  }

  /** The end of a value: stored, and its frame popped; before the end, the value's text goes on. */
  function ValueFinish(d: Data): (r: Result<Outcome>)
    requires Valid(d) && |d.hierarchy| > 0
    ensures r.Err? ==> r.error in {AssertionFailure, StdException, UndefinedBehaviour}
    ensures r.Ok? ==> Keeps(d, r.value.data)
    ensures r.Ok? && r.value.data.shift != d.shift ==> HandleIs(d, {FlushValue})
  {
    var (d1, end) := ValueEnd(d);
    if end && !ExpectedMultiLineString(d1.raw.kind) then
      var d2 :- InsertValue(d1);
      Ok(Outcome(Pop(d2), true))
    else ValueBody(d1)
  }

  /**
   * At the end of a value whose text does not wait for the next line the
   * value is stored, or its error returned, and its frame popped; otherwise
   * the value's text goes on.
   */
  lemma ValueFinishStores(d: Data)
    requires Valid(d) && |d.hierarchy| > 0
    ensures var r := ValueFinish(d);
            && (ValueEnd(d).1 && !ExpectedMultiLineString(d.raw.kind) ==>
                  var stored := InsertValue(ValueEnd(d).0);
                  && (r.Ok? <==> stored.Ok?)
                  && (stored.Err? ==> r.error == stored.error)
                  && (r.Ok? ==> && r.value.done && r.value.data.hierarchy == DropLast(d.hierarchy) && r.value.data.raw == EmptyText
                                && r.value.data.cells == stored.value.cells && r.value.data.keys == stored.value.keys
                                && r.value.data.objs == d.objs))
            && (!(ValueEnd(d).1 && !ExpectedMultiLineString(d.raw.kind)) ==> r == ValueBody(ValueEnd(d).0))
  {
  }

  // ---- opening_bracket ----------------------------------------------------------

  /** opening_bracket::is_end_of_token: after a key, '=', '{' or a newline decides what the bracket opened. */
  function OpeningEnd(d: Data): (r: (Data, bool))
    requires d.i < |d.line|
    ensures r.0 == d.(escape := r.0.escape)
    ensures SoundEscape(d.escape) ==> SoundEscape(r.0.escape)
    ensures r.1 ==> IsRegistered(d, TransientBracket) && Char(d) in {'=', '{', '\n'}
  {
    var (d1, notOpen) := if d.raw.kind == NoText then NotDelimiter(d, '{') else (d, false);
    if notOpen || |d1.hierarchy| == 0 then (d1, false)
    else if Top(d1) == TransientBracket then HandleExpected(d1, ['=', '{', '\n'])
    else (d1, false)
  }

  /**
   * The container opened when a transient bracket ends: an object for a
   * key followed by '=' or '{', an array for a newline; it is stored in the
   * container on top of luco_objs and becomes the new top.  For an object
   * the text read so far becomes its first key.
   */
  function OpenContainer(d: Data): (r: Result<Outcome>)
    requires Valid(d) && HandleIs(d, {OpeningBracket, EqualSign, FlushValue}) && |d.keys| > 0
    ensures r.Err? ==> r.error in {UndefinedBehaviour, WrongTypeError}
    ensures r.Ok? ==> Keeps(d, r.value.data) && r.value.data.shift == d.shift && r.value.done
    ensures r.Ok? ==> |r.value.data.objs| == |d.objs| + 1 && r.value.data.objs[..|d.objs|] == d.objs
    ensures r.Ok? ==> r.value.data.cells[Last(r.value.data.objs)] == NewCell(if Top(d) == FlushValue then ArrayNode else ObjectNode)
  {
    if |d.objs| == 0 then Err(UndefinedBehaviour)
    else
      var o := Last(d.objs);
      var t := if Top(d) == FlushValue then ArrayNode else ObjectNode;
      var e := AddNew(d.cells, o, Last(d.keys).s, t);
      var d1 := if Top(d) == FlushValue then d else d.(keys := d.keys + [d.raw], raw := EmptyText);
      if e.result.Err? then Err(e.result.error)
      else Ok(Outcome(d1.(cells := e.cells, objs := d1.objs + [e.result.value]), true))
  }

  /**
   * The new container goes under the current key of an object, or at the
   * end of an array; a value on top of luco_objs, or no container, is an
   * error.  For an object the text read so far becomes the new key.
   */
  lemma OpenContainerStores(d: Data)
    requires Valid(d) && HandleIs(d, {OpeningBracket, EqualSign, FlushValue}) && |d.keys| > 0
    ensures var r := OpenContainer(d);
            && (r.Err? <==> |d.objs| == 0 || d.cells[Last(d.objs)].ValueCell?)
            && (r.Ok? ==> r.value.data.hierarchy == d.hierarchy && Last(r.value.data.objs) == |d.cells|)
            && (r.Ok? && d.cells[Last(d.objs)].ObjectCell? ==>
                  r.value.data.cells[Last(d.objs)] == ObjectCell(Obj.Insert(d.cells[Last(d.objs)].entries, Last(d.keys).s, |d.cells|)))
            && (r.Ok? && d.cells[Last(d.objs)].ArrayCell? ==>
                  r.value.data.cells[Last(d.objs)] == ArrayCell(d.cells[Last(d.objs)].elements + [|d.cells|]))
            && (r.Ok? && Top(d) != FlushValue ==> r.value.data.keys == d.keys + [d.raw] && r.value.data.raw == EmptyText)
            && (r.Ok? && Top(d) == FlushValue ==> r.value.data.keys == d.keys && r.value.data.raw == d.raw)
  {
  }

  /** What opening_bracket::handle_token does when a transient bracket ends. */
  function OpeningFinish(d: Data): (r: Result<Outcome>)
    requires Valid(d) && IsRegistered(d, TransientBracket)
    ensures r.Err? ==> r.error in {UndefinedBehaviour, WrongTypeError, Luco(ParsingError, Nowhere)}
    ensures r.Ok? ==> Keeps(d, r.value.data) && r.value.data.shift == d.shift && r.value.done
  {
    var d1 := Pop(d);
    if |d1.keys| == 0 then Err(UndefinedBehaviour)
    else
      var k := Last(d1.keys);
      OpeningChoice(d1.(keys := SetTop(d1.keys, Text(Strip(k.s, k.kind), k.kind))))
  }

  /** The transient bracket's frame is popped and its key stripped of trailing blanks before the choice. */
  lemma OpeningFinishStrips(d: Data)
    requires Valid(d) && IsRegistered(d, TransientBracket)
    ensures |d.keys| == 0 ==> OpeningFinish(d) == Err(UndefinedBehaviour)
    ensures |d.keys| > 0 ==>
              var k := Last(d.keys);
              OpeningFinish(d) == OpeningChoice(Pop(d).(keys := SetTop(d.keys, Text(Strip(k.s, k.kind), k.kind))))
  {
  }

  /** The character after the transient bracket's text decides what it opened. */
  function OpeningChoice(d: Data): (r: Result<Outcome>)
    requires Valid(d) && |d.keys| > 0
    ensures r.Err? ==> r.error in {UndefinedBehaviour, WrongTypeError, Luco(ParsingError, Nowhere)}
    ensures r.Ok? ==> Keeps(d, r.value.data) && r.value.data.shift == d.shift && r.value.done
  {
    var (d3, equal) := Delimiter(d, '=');
    if equal then OpenContainer(Register(Register(d3, ObjectSyntax), EqualSign))
    else
      var (d4, open) := Delimiter(d3, '{');
      if open && d4.raw.kind != NoText then OpenContainer(Register(Register(d4, ObjectSyntax), OpeningBracket))
      else if IsNewline(Char(d4)) then OpenContainer(Register(Register(d4, ArraySyntax), FlushValue))
      else
        var (d5, open2) := Delimiter(d4, '{');
        if open2 && d5.raw.kind == NoText then OpenBracketArray(Register(d5, ArraySyntax))
        else Err(Luco(ParsingError, Nowhere))
  }

  /** An unescaped '=' after the text: an object whose first key is that text, and an equal sign for its value. */
  lemma OpeningChoiceEqual(d: Data)
    requires Valid(d) && |d.keys| > 0 && Delimiter(d, '=').1
    ensures var r := OpeningChoice(d);
            && (r.Err? <==> |d.objs| == 0 || d.cells[Last(d.objs)].ValueCell?)
            && (r.Ok? ==>
                  && r.value.data.hierarchy == d.hierarchy + [Frame(ObjectSyntax, d.lineNumber, d.i), Frame(EqualSign, d.lineNumber, d.i)]
                  && r.value.data.objs == d.objs + [|d.cells|] && r.value.data.cells[|d.cells|] == NewCell(ObjectNode)
                  && r.value.data.keys == d.keys + [d.raw] && r.value.data.raw == EmptyText)
  {
    var d' := Register(Register(Delimiter(d, '=').0, ObjectSyntax), EqualSign);
    assert Top(d') == EqualSign;
  }

  /** An unescaped '{' after some text: an object whose first key is that text, and an opening bracket after it. */
  lemma OpeningChoiceBrace(d: Data)
    requires Valid(d) && |d.keys| > 0 && Char(d) == '{' && Delimiter(d, '{').1 && d.raw.kind != NoText
    ensures var r := OpeningChoice(d);
            && (r.Err? <==> |d.objs| == 0 || d.cells[Last(d.objs)].ValueCell?)
            && (r.Ok? ==>
                  && r.value.data.hierarchy == d.hierarchy + [Frame(ObjectSyntax, d.lineNumber, d.i), Frame(OpeningBracket, d.lineNumber, d.i)]
                  && r.value.data.objs == d.objs + [|d.cells|] && r.value.data.cells[|d.cells|] == NewCell(ObjectNode)
                  && r.value.data.keys == d.keys + [d.raw] && r.value.data.raw == EmptyText)
  {
    assert Delimiter(d, '=') == (d, false);
    var d' := Register(Register(Delimiter(d, '{').0, ObjectSyntax), OpeningBracket);
    assert Top(d') == OpeningBracket;
  }

  /** A newline after the transient bracket: an array, whose text read so far is its first value. */
  lemma OpeningChoiceNewline(d: Data)
    requires Valid(d) && |d.keys| > 0 && IsNewline(Char(d))
    ensures var r := OpeningChoice(d);
            && (r.Err? <==> |d.objs| == 0 || d.cells[Last(d.objs)].ValueCell?)
            && (r.Ok? ==>
                  && r.value.data.hierarchy == d.hierarchy + [Frame(ArraySyntax, d.lineNumber, d.i), Frame(FlushValue, d.lineNumber, d.i)]
                  && r.value.data.objs == d.objs + [|d.cells|] && r.value.data.cells[|d.cells|] == NewCell(ArrayNode)
                  && r.value.data.keys == d.keys && r.value.data.raw == d.raw)
  {
    assert Delimiter(d, '=') == (d, false);
    assert Delimiter(d, '{') == (d, false);
    var d' := Register(Register(d, ArraySyntax), FlushValue);
    assert Top(d') == FlushValue;
  }

  /** An unescaped '{' with no text before it: an array under the key, and a transient bracket for its first element. */
  lemma OpeningChoiceBracketArray(d: Data)
    requires Valid(d) && |d.keys| > 0 && Char(d) == '{' && Delimiter(d, '{').1 && d.raw.kind == NoText
    ensures var r := OpeningChoice(d);
            && (r.Err? <==> |d.objs| == 0 || !d.cells[Last(d.objs)].ObjectCell?)
            && (r.Ok? ==>
                  && r.value.data.hierarchy == d.hierarchy + [Frame(ArraySyntax, d.lineNumber, d.i), Frame(TransientBracket, d.lineNumber, d.i)]
                  && r.value.data.objs == d.objs + [|d.cells|] && r.value.data.cells[|d.cells|] == NewCell(ArrayNode)
                  && r.value.data.keys == d.keys && r.value.data.raw == d.raw)
  {
    assert Delimiter(d, '=') == (d, false);
    var d4 := Delimiter(d, '{').0;
    assert d4.escape == NoEscape;
    assert Delimiter(d4, '{') == (d4.(escape := NoEscape), true);
  }

  /** Any other character ends the transient bracket with a parse error. */
  lemma OpeningChoiceOther(d: Data)
    requires Valid(d) && |d.keys| > 0
    requires Char(d) !in {'=', '{', '\n'} || (Char(d) == '=' && !Delimiter(d, '=').1)
    ensures OpeningChoice(d) == Err(Luco(ParsingError, Nowhere))
  {
  }

  /**
   * A '{' right after the transient bracket: an array stored under the key,
   * entered, and a new transient bracket for its first element.
   */
  function OpenBracketArray(d: Data): (r: Result<Outcome>)
    requires Valid(d) && |d.keys| > 0
    ensures r.Err? ==> r.error in {UndefinedBehaviour, WrongTypeError}
    ensures r.Ok? ==> Keeps(d, r.value.data) && r.value.data.shift == d.shift && r.value.done
  {
    if |d.objs| == 0 then Err(UndefinedBehaviour)
    else
      var e := InsertNew(d.cells, Last(d.objs), Last(d.keys).s, ArrayNode);
      if e.result.Err? then Err(e.result.error)
      else Ok(Outcome(Register(d.(cells := e.cells, objs := d.objs + [e.result.value]), TransientBracket), true))
  }

  /** The array goes under the key of the object on top of luco_objs, and becomes the new top. */
  lemma OpenBracketArrayStores(d: Data)
    requires Valid(d) && |d.keys| > 0
    ensures var r := OpenBracketArray(d);
            && (r.Err? <==> |d.objs| == 0 || !d.cells[Last(d.objs)].ObjectCell?)
            && (r.Ok? ==>
                  && r.value.data.hierarchy == d.hierarchy + [Frame(TransientBracket, d.lineNumber, d.i)]
                  && r.value.data.objs == d.objs + [|d.cells|] && r.value.data.keys == d.keys && r.value.data.raw == d.raw
                  && |d.cells| < |r.value.data.cells| && r.value.data.cells[|d.cells|] == NewCell(ArrayNode)
                  && r.value.data.cells[Last(d.objs)] == ObjectCell(Obj.Insert(d.cells[Last(d.objs)].entries, Last(d.keys).s, |d.cells|)))
  {
  }

  /** The part of opening_bracket::handle_token while a transient bracket is registered. */
  function OpeningBody(d: Data): (r: Result<Outcome>)
    requires Valid(d)
    ensures r.Err? ==> r.error == AssertionFailure
    ensures r.Ok? ==> Keeps(d, r.value.data) && r.value.data.shift == d.shift
    ensures r.Ok? ==> r.value.data == d.(escape := r.value.data.escape, raw := r.value.data.raw)
    ensures !IsRegistered(d, TransientBracket) ==> r == Ok(Outcome(d, false))
  {
    if IsRegistered(d, TransientBracket) then
      if |d.keys| == 0 then Err(AssertionFailure)
      else if d.raw.kind == NoText && IsNewline(Char(d)) then Ok(Outcome(d, true))
      else
        var (d1, kind, take) := HandleEmptyInString(d, d.raw.kind, Char(d));
        var d2 := d1.(raw := d1.raw.(kind := kind));
        if take && !EndOfString(kind) then Ok(Outcome(d2.(raw := d2.raw.(s := d2.raw.s + [Char(d2)])), true))
        else Ok(Outcome(d2, take))
    else Ok(Outcome(d, false))
  }

  /**
   * opening_bracket::handle_token.  An opening bracket after a key becomes a
   * transient bracket: what follows it decides whether it opened an object
   * or an array, and until then its text is read into raw_value.
   */
  function OpeningToken(d: Data): (r: Result<Outcome>)
    requires Valid(d)
    ensures r.Ok? ==> Keeps(d, r.value.data) && r.value.data.shift == d.shift
  {
    if |d.hierarchy| == 0 then Err(AssertionFailure)
    else if HandleIs(d, {OpeningBracket}) then OpeningBody(Register(Pop(d), TransientBracket))
    else
      var (d1, end) := OpeningEnd(d);
      if end then OpeningFinish(d1) else OpeningBody(d1)
  }

  // ---- closing_bracket ----------------------------------------------------------

  function PopKey(d: Data): (r: Result<Data>)
    ensures |d.keys| == 0 <==> r == Err(AssertionFailure)
    ensures |d.keys| > 0 ==> r == Ok(d.(keys := DropLast(d.keys)))
  {
    if |d.keys| == 0 then Err(AssertionFailure) else Ok(d.(keys := DropLast(d.keys)))
  }

  /**
   * closing_bracket::prepare_for_next_token followed by the test of
   * handle_token, as intended: the object or array frame is popped, with
   * its key when the frame under it is an object, and the container is
   * popped from luco_objs; a '}' that closes the root object is a parse
   * error ("more '}' than '{'").
   */
  function CloseContainer(d: Data): (r: Result<Outcome>)
    requires Valid(d) && HandleIs(d, {ObjectSyntax, ArraySyntax})
    ensures r.Err? ==> r.error == AssertionFailure || r.error == HereError(d)
    ensures |d.hierarchy| == 1 ==> r.Err?
    ensures r.Ok? ==> Keeps(d, r.value.data) && r.value.data.shift == d.shift && r.value.done
    ensures r.Ok? ==> |d.objs| > 0 && r.value.data == d.(hierarchy := DropLast(d.hierarchy), objs := DropLast(d.objs), keys := r.value.data.keys)
  {
    var d1 := Pop(d);
    var d2 :- if |d1.hierarchy| > 0 && Top(d1) == ObjectSyntax then PopKey(d1) else Ok(d1);
    if |d2.objs| == 0 then Err(AssertionFailure)
    else
      var d3 := d2.(objs := DropLast(d2.objs));
      if |d3.hierarchy| == 0 then Err(HereError(d3)) else Ok(Outcome(d3, true))
  }

  /** Closing a container that sits in an object drops that object's key; in an array the keys stay. */
  lemma CloseContainerKeys(d: Data)
    requires Valid(d) && HandleIs(d, {ObjectSyntax, ArraySyntax})
    ensures var r := CloseContainer(d);
            r.Ok? ==>
              && |d.hierarchy| > 1
              && if d.hierarchy[|d.hierarchy| - 2].syntax == ObjectSyntax then |d.keys| > 0 && r.value.data.keys == DropLast(d.keys)
                 else r.value.data.keys == d.keys
  {
  }

  /**
   * The same code as written: the frame under the popped one is read
   * without a test that there is one, so the '}' that closes the root
   * object reads the top of an empty std::stack, and the test for "more '}'
   * than '{'" that follows can then never fail.
   */
  function CloseContainerAsWritten(d: Data): (r: Result<Outcome>)
    requires Valid(d) && HandleIs(d, {ObjectSyntax, ArraySyntax})
    ensures |d.hierarchy| == 1 ==> r == Err(UndefinedBehaviour)
    ensures |d.hierarchy| > 1 ==> r == CloseContainer(d)
  {
    var d1 := Pop(d);
    if |d1.hierarchy| == 0 then Err(UndefinedBehaviour)
    else
      var d2 :- if Top(d1) == ObjectSyntax then PopKey(d1) else Ok(d1);
      if |d2.objs| == 0 then Err(AssertionFailure)
      else Ok(Outcome(d2.(objs := DropLast(d2.objs)), true))
  }

  /**
   * closing_bracket::handle_token.  In an object or an array an unescaped
   * '}' closes it; after a key and '{' with nothing between, it closes an
   * empty object.
   */
  function ClosingToken(d: Data): (r: Result<Outcome>)
    requires Valid(d)
    ensures r.Ok? ==> Keeps(d, r.value.data) && r.value.data.shift == d.shift
  {
    if |d.hierarchy| == 0 then Err(AssertionFailure)
    else
      var (d1, token) := if HandleIs(d, {ObjectSyntax, ArraySyntax}) then Delimiter(d, '}') else (d, false);
      var d2 := if token then Register(d1, ClosingBracket) else d1;
      if IsRegistered(d2, ClosingBracket) then CloseFrame(d2) else CloseTransient(d2)
  }

  /** The '}' registered as a closing bracket: the key slot is emptied and the frame under it closed. */
  function CloseFrame(d: Data): (r: Result<Outcome>)
    requires Valid(d) && IsRegistered(d, ClosingBracket)
    ensures r.Ok? ==> Keeps(d, r.value.data) && r.value.data.shift == d.shift && r.value.done
  {
    var d1 := Pop(d);
    if |d1.keys| == 0 then Err(AssertionFailure)
    else
      var d2 := d1.(keys := SetTop(d1.keys, EmptyText));
      if |d2.hierarchy| == 0 then Err(UndefinedBehaviour)
      else if Top(d2) != ObjectSyntax && Top(d2) != ArraySyntax then Err(Luco(ParsingError, Nowhere))
      else CloseContainer(d2)
  }

  /** The '}' as a closing bracket fails without a key slot, at the root, or over a frame that is not a container. */
  lemma CloseFrameErrors(d: Data)
    requires Valid(d) && IsRegistered(d, ClosingBracket)
    ensures |d.keys| == 0 ==> CloseFrame(d) == Err(AssertionFailure)
    ensures |d.keys| > 0 && |d.hierarchy| == 1 ==> CloseFrame(d) == Err(UndefinedBehaviour)
    ensures |d.keys| > 0 && |d.hierarchy| > 1 && d.hierarchy[|d.hierarchy| - 2].syntax !in {ObjectSyntax, ArraySyntax} ==>
              CloseFrame(d) == Err(Luco(ParsingError, Nowhere))
  {
  }

  /**
   * The closing bracket's frame and the container's frame are popped, and
   * the container from luco_objs; the key slot emptied first goes with the
   * frame when the container sits in an object.
   */
  lemma CloseFrameCloses(d: Data)
    requires Valid(d) && IsRegistered(d, ClosingBracket)
    ensures var r := CloseFrame(d);
            r.Ok? ==>
              && |d.hierarchy| > 2 && |d.objs| > 0 && |d.keys| > 0
              && r.value.data.hierarchy == d.hierarchy[..|d.hierarchy| - 2] && r.value.data.objs == DropLast(d.objs)
              && r.value.data.keys == if d.hierarchy[|d.hierarchy| - 3].syntax == ObjectSyntax then DropLast(d.keys)
                                      else SetTop(d.keys, EmptyText)
  {
    if |d.keys| > 0 && |d.hierarchy| > 1 && d.hierarchy[|d.hierarchy| - 2].syntax in {ObjectSyntax, ArraySyntax} {
      var d2 := Pop(d).(keys := SetTop(d.keys, EmptyText));
      assert CloseFrame(d) == CloseContainer(d2);
      CloseContainerUnder(d, d2);
    }
  }

  /** CloseContainer on the state under the closing bracket, in terms of the state with it. */
  lemma CloseContainerUnder(d: Data, d2: Data)
    requires Valid(d) && |d.keys| > 0 && |d.hierarchy| > 1 && d.hierarchy[|d.hierarchy| - 2].syntax in {ObjectSyntax, ArraySyntax}
    requires d2 == Pop(d).(keys := SetTop(d.keys, EmptyText))
    ensures var r := CloseContainer(d2);
            r.Ok? ==>
              && |d.hierarchy| > 2 && |d.objs| > 0
              && r.value.data.hierarchy == d.hierarchy[..|d.hierarchy| - 2] && r.value.data.objs == DropLast(d.objs)
              && r.value.data.keys == if d.hierarchy[|d.hierarchy| - 3].syntax == ObjectSyntax then DropLast(d.keys)
                                      else SetTop(d.keys, EmptyText)
  {
    CloseContainerKeys(d2);
    assert |d2.hierarchy| == |d.hierarchy| - 1;
    assert DropLast(d2.hierarchy) == d.hierarchy[..|d.hierarchy| - 2];
    assert DropLast(d2.keys) == DropLast(d.keys);
  }

  /** A '}' right after a transient bracket: an empty object stored under the key. */
  function CloseTransient(d: Data): (r: Result<Outcome>)
    requires Valid(d)
    ensures r.Ok? ==> Keeps(d, r.value.data) && r.value.data.shift == d.shift
    ensures !IsRegistered(d, TransientBracket) ==> r == Ok(Outcome(d, false))
  {
    var (d1, close) := if IsRegistered(d, TransientBracket) then Delimiter(d, '}') else (d, false);
    if !close then Ok(Outcome(d1, false))
    else if d1.raw != EmptyText then Err(AssertionFailure)
    else
      var d2 := Pop(d1);
      if |d2.objs| == 0 || |d2.keys| == 0 then Err(UndefinedBehaviour)
      else
        var e := InsertNew(d2.cells, Last(d2.objs), Last(d2.keys).s, ObjectNode);
        if e.result.Err? then Err(e.result.error) else Ok(Outcome(d2.(cells := e.cells), true))
  }

  /**
   * An unescaped '}' right after a transient bracket, with no text between,
   * stores an empty object under the key of the object on top of luco_objs;
   * that is the only way it consumes the character.
   */
  lemma CloseTransientStores(d: Data)
    requires Valid(d)
    ensures var r := CloseTransient(d);
            r.Ok? && r.value.done ==>
              && IsRegistered(d, TransientBracket) && Char(d) == '}' && d.raw == EmptyText && |d.objs| > 0 && |d.keys| > 0
              && r.value.data.hierarchy == DropLast(d.hierarchy) && r.value.data.objs == d.objs && r.value.data.keys == d.keys
              && d.cells[Last(d.objs)].ObjectCell?
              && |d.cells| < |r.value.data.cells| && r.value.data.cells[|d.cells|] == NewCell(ObjectNode)
              && r.value.data.cells[Last(d.objs)] == ObjectCell(Obj.Insert(d.cells[Last(d.objs)].entries, Last(d.keys).s, |d.cells|))
    ensures && IsRegistered(d, TransientBracket) && Delimiter(d, '}').1 && d.raw == EmptyText && |d.objs| > 0 && |d.keys| > 0
            && d.cells[Last(d.objs)].ObjectCell?
            ==> CloseTransient(d).Ok? && CloseTransient(d).value.done
  {
  }

  // ---- syntax_error and parsing ---------------------------------------------------

  /**
   * syntax_error: the last recognizer, which reports what none of the others
   * accepted.  It never consumes a character; blanks and newlines always
   * pass; every error points at the cursor.
   */
  function SyntaxError(d: Data): (r: Result<Data>)
    requires Valid(d)
    ensures r.Ok? ==> r.value == d.(escape := r.value.escape) && Keeps(d, r.value)
    ensures r.Err? ==> r.error == HereError(d)
    ensures IsBlankOrNewline(Char(d)) ==> r == Ok(d)
    ensures !IsBlankOrNewline(Char(d)) && |d.hierarchy| == 0 ==> r.Err?
    ensures !IsBlankOrNewline(Char(d)) && HandleIs(d, {ObjectSyntax}) && Delimiter(d, '{').1 ==> r.Err?
    ensures !IsBlankOrNewline(Char(d)) && |d.hierarchy| > 0 && Delimiter(d, '}').1 ==> r.Err?
  {
    if IsBlankOrNewline(Char(d)) then Ok(d)
    else if |d.hierarchy| == 0 then Err(HereError(d))
    else
      var (d1, e1) := if d.raw.kind == EscapedQuoted1 then NotDelimiter(d, '\\') else (d, false);
      if e1 then Err(HereError(d))
      else
        var (d2, e2) := if d.raw.kind == EscapedQuoted2 then NotDelimiter(d1, '\\') else (d1, false);
        if e2 then Err(HereError(d))
        else
          assert Char(d) != '\\' ==> d2 == d;
          SyntaxErrorTail(d2)
  }

  /** The tests of syntax_error after the two about escaped quotes. */
  function SyntaxErrorTail(d: Data): (r: Result<Data>)
    requires Valid(d) && |d.hierarchy| > 0
    ensures r.Ok? ==> r.value == d.(escape := r.value.escape) && Keeps(d, r.value)
    ensures r.Err? ==> r.error == HereError(d)
    ensures HandleIs(d, {ObjectSyntax}) && Delimiter(d, '{').1 ==> r.Err?
    ensures Delimiter(d, '}').1 ==> r.Err?
  {
    if d.raw.kind == EscapedUnquoted && d.eof then Err(HereError(d))
    else if d.raw.kind == EndString1 || d.raw.kind == EndString2 then Err(HereError(d))
    else if |d.keys| > 0 && EndOfString(Last(d.keys).kind) && Top(d) == Key then Err(HereError(d))
    else if EndOfString(d.raw.kind) && Top(d) == ValueSyntax then Err(HereError(d))
    else
      var (d1, e3) := if Top(d) == ObjectSyntax then Delimiter(d, '{') else (d, false);
      if e3 then Err(HereError(d))
      else
        // the frame test that follows is `top != object || top != array`, always true
        var (d2, e4) := Delimiter(d1, '}');
        assert Char(d) == '}' ==> d1 == d;
        if e4 then Err(HereError(d)) else Ok(d2)
  }

  /**
   * parser::parsing: the character is offered to comment, luco_key,
   * luco_value, opening_bracket, closing_bracket and syntax_error in this
   * order; the first that consumes it or reports an error ends the round.
   */
  function Parsing(d: Data): (r: Result<Data>)
    requires Valid(d)
    ensures r.Ok? ==> Keeps(d, r.value)
  {
    var o1 := CommentToken(d);
    if o1.done then Ok(o1.data) else AfterComment(o1.data)
  }

  /** The round after the comment recognizer has passed the character on. */
  function AfterComment(d: Data): (r: Result<Data>)
    requires Valid(d)
    ensures r.Ok? ==> Keeps(d, r.value)
  {
    var o2 :- KeyToken(d);
    if o2.done then Ok(o2.data)
    else
      var r := AfterKey(o2.data);
      KeepsTransitive(d, o2.data, if r.Ok? then r.value else o2.data);
      r
  }

  /** The round after the key recognizer has passed the character on. */
  function AfterKey(d: Data): (r: Result<Data>)
    requires Valid(d)
    ensures r.Ok? ==> Keeps(d, r.value)
  {
    var o3 :- ValueToken(d);
    if o3.done then Ok(o3.data)
    else
      var r := AfterValue(o3.data);
      KeepsTransitive(d, o3.data, if r.Ok? then r.value else o3.data);
      r
  }

  /** The round after the value recognizer has passed the character on: no one asks for it again. */
  function AfterValue(d: Data): (r: Result<Data>)
    requires Valid(d)
    ensures r.Ok? ==> Keeps(d, r.value) && r.value.shift == d.shift
  {
    var o4 :- OpeningToken(d);
    if o4.done then Ok(o4.data)
    else
      var r := AfterOpening(o4.data);
      KeepsTransitive(d, o4.data, if r.Ok? then r.value else o4.data);
      r
  }

  /** The round after the opening recognizer has passed the character on. */
  function AfterOpening(d: Data): (r: Result<Data>)
    requires Valid(d)
    ensures r.Ok? ==> Keeps(d, r.value) && r.value.shift == d.shift
  {
    var o5 :- ClosingToken(d);
    if o5.done then Ok(o5.data)
    else
      var r := SyntaxError(o5.data);
      KeepsTransitive(d, o5.data, if r.Ok? then r.value else o5.data);
      r
  }

  /**
   * The order of the round: each recognizer is offered the character only
   * when every one before it passed it on, and the first that consumes it or
   * reports an error decides the round.
   */
  lemma DispatchOrder(d: Data)
    requires Valid(d)
    ensures CommentToken(d).done ==> Parsing(d) == Ok(CommentToken(d).data)
    ensures !CommentToken(d).done ==> Parsing(d) == AfterComment(d)
    ensures KeyToken(d).Err? ==> AfterComment(d) == Err(KeyToken(d).error)
    ensures KeyToken(d).Ok? && KeyToken(d).value.done ==> AfterComment(d) == Ok(KeyToken(d).value.data)
    ensures KeyToken(d).Ok? && !KeyToken(d).value.done ==> AfterComment(d) == AfterKey(KeyToken(d).value.data)
    ensures ValueToken(d).Err? ==> AfterKey(d) == Err(ValueToken(d).error)
    ensures ValueToken(d).Ok? && ValueToken(d).value.done ==> AfterKey(d) == Ok(ValueToken(d).value.data)
    ensures ValueToken(d).Ok? && !ValueToken(d).value.done ==> AfterKey(d) == AfterValue(ValueToken(d).value.data)
    ensures OpeningToken(d).Err? ==> AfterValue(d) == Err(OpeningToken(d).error)
    ensures OpeningToken(d).Ok? && OpeningToken(d).value.done ==> AfterValue(d) == Ok(OpeningToken(d).value.data)
    ensures OpeningToken(d).Ok? && !OpeningToken(d).value.done ==> AfterValue(d) == AfterOpening(OpeningToken(d).value.data)
    ensures ClosingToken(d).Err? ==> AfterOpening(d) == Err(ClosingToken(d).error)
    ensures ClosingToken(d).Ok? && ClosingToken(d).value.done ==> AfterOpening(d) == Ok(ClosingToken(d).value.data)
    ensures ClosingToken(d).Ok? && !ClosingToken(d).value.done ==> AfterOpening(d) == SyntaxError(ClosingToken(d).value.data)
  {
  }
}
