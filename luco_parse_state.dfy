/*
 * The state the parser threads through every character (struct parsing_data,
 * include/parser.hpp:215-227) and the helpers of class token
 * (include/parser.hpp:157-497) and luco_simple_types
 * (include/parser.hpp:655-814) that read and change it.
 *
 * Several of these helpers are predicates in C++ that also change the state:
 * token::is_escaped records which special character it met, and everything
 * that calls it (delimiter, handle_not, handle_expected, append_string,
 * handle_empty_in_string) inherits that.  Each one is a function here that
 * returns the new state beside its answer; the order in which C++'s && and ||
 * evaluate their operands is kept, since it decides which calls happen.
 */
module LucoParseState {
  import opened LucoError
  import opened LucoSimpleTypes
  import LucoTree

  /** luco_syntax, in its declaration order. */
  datatype Syntax =
    | NoSyntax | OpeningBracket | ClosingBracket | TransientBracket | UndeterminedTransientBracket
    | Quotes1 | Quotes2 | Key | EqualSign | ValueSyntax | StringType | BooleanSyntax | NullSyntax
    | NumberSyntax | NewlineSyntax | EmptySyntax | EscapedNewline | ObjectSyntax | Comment
    | NestedComment | ArraySyntax | MaybeEmptySpaceAfter | FlushValue

  /** An entry of the hierarchy stack: a syntax and the (line_number, i) it was registered at. */
  datatype Frame = Frame(syntax: Syntax, line: nat, column: nat)

  /** escaped_special_char: (position, append, character). */
  datatype Escape = Escape(pos: nat, append: bool, ch: char)

  const NoEscape: Escape := Escape(0, false, '\0')

  /**
   * parsing_data, plus the comment recognizer's brackets_count (a member of
   * the one comment object that lives as long as the parse) and the heap of
   * nodes the parser builds.  The stacks are sequences whose last element is
   * the top; the pointers of luco_objs are the cells of the nodes they point
   * to.
   */
  datatype Data = Data(
    line: string,
    i: nat,
    lineNumber: nat,
    shift: bool,            // shift_index_backward_for_oldnewline
    eof: bool,
    keys: seq<Text>,
    objs: seq<LucoTree.Ref>,
    escape: Escape,
    raw: Text,              // raw_value
    hierarchy: seq<Frame>,
    brackets: nat,          // comment::brackets_count
    cells: LucoTree.Cells)

  /** Only a special character (or none, '\0') is ever remembered as escaped. */
  predicate SoundEscape(e: Escape) { e.ch == '\0' || e.ch in Special }

  /** A well-formed heap, luco_objs pointing into it, a sound escape record. */
  predicate Sound(d: Data)
  {
    && LucoTree.WellFormed(d.cells)
    && (forall k :: 0 <= k < |d.objs| ==> d.objs[k] < |d.cells|)
    && SoundEscape(d.escape)
  }

  /** The state a recognizer may be handed: a sound state with a character to look at. */
  predicate Valid(d: Data)
  {
    d.i < |d.line| && Sound(d)
  }

  /** The character at the cursor. */
  function Char(d: Data): char
    requires d.i < |d.line|
  {
    d.line[d.i]
  }

  /** A step keeps the line, the cursor and the flag eof and keeps the kind of every node built; the state stays valid. */
  predicate Keeps(d: Data, d': Data)
  {
    d'.line == d.line && d'.i == d.i && d'.lineNumber == d.lineNumber && d'.eof == d.eof && Valid(d')
    && LucoTree.KeepsKinds(d.cells, d'.cells)
  }

  lemma KeepsTransitive(d: Data, d': Data, d'': Data)
    requires Keeps(d, d')
    ensures Keeps(d', d'') ==> Keeps(d, d'')
  {
  }

  /** token::special_chars */
  const Special: set<char> := {'{', '=', '}', '"', '\'', '\\'}

  // ---- escaping -----------------------------------------------------------

  /**
   * token::is_escaped(ch): a special character written twice stands for
   * itself.  The first of the pair is escaped and is remembered in
   * escaped_special_char; the second is escaped because it is remembered;
   * anything else forgets what was remembered and is not escaped.
   */
  function IsEscaped(d: Data, ch: char): (r: (Data, bool))
    requires d.i < |d.line|
    ensures r.0 == d.(escape := r.0.escape)
    ensures d.i + 1 < |d.line| && d.line[d.i + 1] == ch ==> (r.1 <==> ch in Special)
    ensures !(d.i + 1 < |d.line| && d.line[d.i + 1] == ch) ==> (r.1 <==> d.escape.ch == ch && !d.escape.append)
    ensures r.1 ==> r.0.escape.ch == ch && r.0.escape.pos == d.lineNumber * d.i
    ensures !r.1 ==> r.0.escape == NoEscape
    ensures SoundEscape(d.escape) ==> SoundEscape(r.0.escape)
  {
    var e := d.escape;
    var pos := d.lineNumber * d.i;
    if d.i + 1 < |d.line| && d.line[d.i + 1] == ch then
      if ch !in Special then (d.(escape := NoEscape), false)
      else
        var append := if e.ch != ch then false else e.pos != pos && e.pos != 0;
        (d.(escape := Escape(pos, append, ch)), true)
    else if e.ch == ch && !e.append then (d.(escape := Escape(pos, true, ch)), true)
    else (d.(escape := NoEscape), false)
  }

  /** token::delimiter(ch): the cursor is on ch and ch is not escaped. */
  function Delimiter(d: Data, ch: char): (r: (Data, bool))
    requires d.i < |d.line|
    ensures r.0 == d.(escape := r.0.escape)
    ensures SoundEscape(d.escape) ==> SoundEscape(r.0.escape)
    ensures r.1 ==> Char(d) == ch
    ensures Char(d) != ch ==> r == (d, false)
    ensures Char(d) == ch ==> r == (IsEscaped(d, ch).0, !IsEscaped(d, ch).1)
  {
    if Char(d) == ch then
      var (d1, escaped) := IsEscaped(d, ch);
      (d1, !escaped)
    else (d, false)
  }

  // ---- the hierarchy ------------------------------------------------------

  /** token::register_token: push the syntax with the place it starts at. */
  function Register(d: Data, s: Syntax): (d': Data)
    ensures d' == d.(hierarchy := d.hierarchy + [Frame(s, d.lineNumber, d.i)])
    ensures |d'.hierarchy| == |d.hierarchy| + 1 && d'.hierarchy[..|d.hierarchy|] == d.hierarchy
  {
    d.(hierarchy := d.hierarchy + [Frame(s, d.lineNumber, d.i)])
  }

  /** token::unregister_token: pop, after asserting there is something to pop. */
  function Unregister(d: Data): (r: Result<Data>)
    ensures |d.hierarchy| == 0 <==> r == Err(AssertionFailure)
    ensures |d.hierarchy| > 0 ==> r == Ok(d.(hierarchy := d.hierarchy[..|d.hierarchy| - 1]))
  {
    if |d.hierarchy| == 0 then Err(AssertionFailure) else Ok(Pop(d))
  }

  /** unregister_token where the stack is known not to be empty. */
  function Pop(d: Data): (d': Data)
    requires |d.hierarchy| > 0
    ensures d' == d.(hierarchy := d.hierarchy[..|d.hierarchy| - 1])
  {
    d.(hierarchy := d.hierarchy[..|d.hierarchy| - 1])
  }

  /** Unregistering undoes registering. */
  lemma UnregisterRegister(d: Data, s: Syntax)
    ensures Unregister(Register(d, s)) == Ok(d)
  {
    assert (d.hierarchy + [Frame(s, d.lineNumber, d.i)])[..|d.hierarchy|] == d.hierarchy;
  }

  /** token::is_registered_token (and token::is_comment for Comment). */
  predicate IsRegistered(d: Data, s: Syntax)
  {
    |d.hierarchy| > 0 && d.hierarchy[|d.hierarchy| - 1].syntax == s
  }

  /** token::handle_is: the stack is not empty and its top is one of the syntaxes. */
  predicate HandleIs(d: Data, ss: set<Syntax>)
  {
    |d.hierarchy| > 0 && d.hierarchy[|d.hierarchy| - 1].syntax in ss
  }

  /** The syntax on top of a stack known not to be empty. */
  function Top(d: Data): Syntax
    requires |d.hierarchy| > 0
  {
    d.hierarchy[|d.hierarchy| - 1].syntax
  }

  /** After registering s, s is registered, and handle_is holds exactly for the sets holding s. */
  lemma RegisteredAfterRegister(d: Data, s: Syntax, ss: set<Syntax>)
    ensures IsRegistered(Register(d, s), s)
    ensures HandleIs(Register(d, s), ss) <==> s in ss
  {
  }

  // ---- the character tests of token -----------------------------------------

  /**
   * token::handle_not(chars): the cursor is not on one of the characters,
   * or it is on an escaped special one.
   */
  function HandleNot(d: Data, chars: set<char>): (r: (Data, bool))
    requires d.i < |d.line|
    ensures r.0 == d.(escape := r.0.escape)
    ensures SoundEscape(d.escape) ==> SoundEscape(r.0.escape)
    ensures Char(d) !in chars ==> r == (d, true)
    ensures Char(d) in chars && Char(d) !in Special ==> r == (d, false)
    ensures Char(d) in chars && Char(d) in Special ==> r == IsEscaped(d, Char(d))
  {
    var c := Char(d);
    if c !in chars then (d, true)
    else if c in Special then IsEscaped(d, c)
    else (d, false)
  }

  /**
   * token::handle_expected: the characters of the expected multimap in its
   * iteration order; the first that is the cursor's character and is not an
   * escaped special one makes it true.
   */
  function HandleExpected(d: Data, chars: seq<char>): (r: (Data, bool))
    requires d.i < |d.line|
    ensures r.0 == d.(escape := r.0.escape)
    ensures SoundEscape(d.escape) ==> SoundEscape(r.0.escape)
    ensures r.1 ==> Char(d) in chars
    ensures Char(d) !in chars ==> r == (d, false)
    ensures Char(d) in chars && Char(d) !in Special ==> r == (d, true)
    decreases |chars|
  {
    if chars == [] then (d, false)
    else if chars[0] != Char(d) then HandleExpected(d, chars[1..])
    else if chars[0] !in Special then (d, true)
    else
      var (d1, escaped) := IsEscaped(d, chars[0]);
      if !escaped then (d1, true) else HandleExpected(d1, chars[1..])
  }

  // ---- strings: append_string and handle_empty_in_string --------------------

  /**
   * luco_simple_types::append_string: whether the character belongs to the
   * text.  Never an unescaped bracket; in an unquoted text anything but the
   * newline; in a quoted text anything but its unescaped closing quote.
   */
  function AppendString(d: Data, kind: TextKind, ch: char): (r: (Data, bool))
    requires d.i < |d.line|
    ensures r.0 == d.(escape := r.0.escape)
    ensures SoundEscape(d.escape) ==> SoundEscape(r.0.escape)
    ensures r.1 ==> kind in {Unquoted, Quoted1, Quoted2}
    ensures r.1 && kind == Unquoted ==> !IsNewline(ch)
    ensures Char(d) !in Special && kind in {Quoted1, Quoted2} ==> r == (d, true)
    ensures Char(d) !in Special && kind == Unquoted ==> r == (d, !IsNewline(ch))
  {
    var (d1, open) := Delimiter(d, '{');
    if open then (d1, false)
    else
      var (d2, close) := Delimiter(d1, '}');
      if close then (d2, false)
      else if !IsNewline(ch) && kind == Unquoted then (d2, true)
      else
        var (d3, q2) := Delimiter(d2, '"');
        if !q2 && kind == Quoted2 then (d3, true)
        else
          var (d4, q1) := Delimiter(d3, '\'');
          (d4, !q1 && kind == Quoted1)
  }

  /**
   * luco_simple_types::handle_empty_in_string: the new kind of the text and
   * whether the character is part of it; the caller appends the character
   * unless the text has just ended.
   */
  function HandleEmptyInString(d: Data, kind: TextKind, ch: char): (r: (Data, TextKind, bool))
    requires d.i < |d.line|
    ensures r.0 == d.(escape := r.0.escape)
    ensures SoundEscape(d.escape) ==> SoundEscape(r.0.escape)
    ensures IsBlankOrNewline(ch) && (kind == NoText || ExpectedMultiLineString(kind)) ==> r == (d, kind, false)
    ensures ch == Char(d) && IsNewline(ch) && kind == Unquoted && d.escape.pos == 0 ==> r == (d, EndStringUnquoted, true)
    ensures ch == Char(d) && ch !in Special && !IsBlankOrNewline(ch) && kind == NoText && d.escape.pos == 0 ==>
      r == (d, Unquoted, true)
    ensures r.2 ==> r.1 != NoText
  {
    if IsBlankOrNewline(ch) && (kind == NoText || ExpectedMultiLineString(kind)) then (d, kind, false)
    else if d.escape.pos != 0 then
      if !d.escape.append then (d, kind, false)
      else (d.(escape := NoEscape), if kind == NoText then Unquoted else kind, true)
    else
      var (d1, backslash) := Delimiter(d, '\\');
      if backslash then
        (d1, if kind == EndString1 then EscapedQuoted1 else if kind == EndString2 then EscapedQuoted2 else EscapedUnquoted, false)
      else if kind == EscapedQuoted1 then
        var (d2, q) := Delimiter(d1, '\'');
        (d2, if q then Quoted1 else kind, false)
      else if kind == EscapedQuoted2 then
        var (d2, q) := Delimiter(d1, '"');
        (d2, if q then Quoted2 else kind, false)
      else if kind == EscapedUnquoted then (d1, Unquoted, true)
      else
        var (d2, append) := AppendString(d1, kind, ch);
        if append then (d2, kind, true)
        else if kind == NoText then StartOfText(d2)
        else if kind == EndString1 || kind == EndString2 then (d2, kind, false)
        else EndOfText(d2, kind)
  }

  /** A character append_string refused where no text has begun: a quote opens one, a bracket none. */
  function StartOfText(d: Data): (r: (Data, TextKind, bool))
    requires d.i < |d.line|
    ensures r.0 == d.(escape := r.0.escape)
    ensures SoundEscape(d.escape) ==> SoundEscape(r.0.escape)
    ensures r.2 ==> r.1 == Unquoted
  {
    var (d3, q1) := Delimiter(d, '\'');
    if q1 then (d3, Quoted1, false)
    else
      var (d4, q2) := Delimiter(d3, '"');
      if q2 then (d4, Quoted2, false)
      else
        var (d5, open) := Delimiter(d4, '{');
        if open then (d5, NoText, false)
        else
          var (d6, close) := Delimiter(d5, '}');
          if close then (d6, NoText, false) else (d6, Unquoted, true)
  }

  /** A character append_string refused inside a text: its closing quote, or the newline of an unquoted one. */
  function EndOfText(d: Data, kind: TextKind): (r: (Data, TextKind, bool))
    requires d.i < |d.line|
    ensures r.0 == d.(escape := r.0.escape)
    ensures SoundEscape(d.escape) ==> SoundEscape(r.0.escape)
    ensures r.2 ==> EndOfString(r.1)
    ensures !r.2 ==> r.1 == kind
  {
    var (d3, q1) := Delimiter(d, '\'');
    if q1 && kind == Quoted1 then (d3, EndString1, true)
    else
      var (d4, q2) := Delimiter(d3, '"');
      if q2 && kind == Quoted2 then (d4, EndString2, true)
      else if IsNewline(Char(d4)) && kind == Unquoted then (d4, EndStringUnquoted, true)
      else (d4, kind, false)
  }

  // ---- stacks of texts and nodes --------------------------------------------

  /** The top of a non-empty stack replaced. */
  function SetTop<T>(s: seq<T>, x: T): (s': seq<T>)
    requires |s| > 0
    ensures |s'| == |s| && s'[|s| - 1] == x && s'[..|s| - 1] == s[..|s| - 1]
  {
    s[|s| - 1 := x]
  }

  function Last<T>(s: seq<T>): T
    requires |s| > 0
  {
    s[|s| - 1]
  }

  function DropLast<T>(s: seq<T>): (s': seq<T>)
    requires |s| > 0
    ensures |s'| == |s| - 1 && s' == s[..|s| - 1]
  {
    s[..|s| - 1]
  }
}
