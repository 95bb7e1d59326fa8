/*
 * What parser::try_parse (include/parser.hpp:1628-1673) makes of the lines
 * of a document: one character at a time through parser::parsing, the
 * states a key, an equal sign, a value or a container on one line goes
 * through, and what the whole text parses to.
 *
 * The step lemmas are about characters that leave the escape record empty
 * (token::is_escaped forgets it whenever it answers "not escaped"): plain
 * characters never ask for it, and a special character asks for it only
 * when the next character is not the same one.
 */
module LucoLines {
  import opened LucoError
  import opened LucoSimpleTypes
  import opened LucoParseState
  import opened LucoRecognizers
  import opened LucoParse
  import LucoTree

  /** A character of a name or a value that no recognizer treats specially. */
  predicate Plain(c: char)
  {
    c !in Special && c != '#' && !Terminator(c) && !IsBlankOrNewline(c) && c != '\0'
  }

  /** A plain character, or a blank inside a name or a value. */
  predicate Ordinary(c: char)
  {
    Plain(c) || IsBlank(c)
  }

  /** A state whose character is looked at for the first time, with no escape remembered. */
  predicate Ready(d: Data)
  {
    Valid(d) && !d.shift && d.escape == NoEscape && |d.hierarchy| > 0
  }

  /** The character after the cursor is not c: a special c at the cursor is not one of a pair. */
  predicate NotDoubled(d: Data, c: char)
  {
    d.i + 1 >= |d.line| || d.line[d.i + 1] != c
  }

  // ---- reading a text ---------------------------------------------------------

  /** handle_empty_in_string takes an ordinary character into a text that is open, and a plain one opens an unquoted text. */
  lemma TextTakes(d: Data, kind: TextKind)
    requires d.i < |d.line| && d.escape == NoEscape
    requires (kind == NoText && Plain(Char(d))) || (kind in {Unquoted, Quoted1, Quoted2} && Ordinary(Char(d)))
    ensures HandleEmptyInString(d, kind, Char(d)) == (d, if kind == NoText then Unquoted else kind, true)
  {
    if kind != NoText {
      assert Delimiter(d, '\\') == (d, false);
      assert AppendString(d, kind, Char(d)) == (d, true);
    }
  }

  /** handle_empty_in_string on a '"' that is not doubled: it opens a quoted text, or closes the quoted text it is in. */
  lemma TextQuote(d: Data, kind: TextKind)
    requires d.i < |d.line| && d.escape == NoEscape && Char(d) == '"' && NotDoubled(d, '"') && kind in {NoText, Quoted2}
    ensures HandleEmptyInString(d, kind, Char(d)) == if kind == NoText then (d, Quoted2, false) else (d, EndString2, true)
  {
    NotEscaped(d);
    assert Delimiter(d, '\\') == (d, false);
    assert AppendString(d, kind, Char(d)) == (d, false);
    if kind == NoText {
      assert StartOfText(d) == (d, Quoted2, false);
    } else {
      assert EndOfText(d, kind) == (d, EndString2, true);
    }
  }

  // ---- the round, from the recognizers' answers ------------------------------

  /** Outside a comment the comment recognizer passes on any character but '#'. */
  lemma CommentPasses(d: Data)
    requires Valid(d) && !IsRegistered(d, Comment) && !IsRegistered(d, NestedComment) && Char(d) != '#'
    ensures CommentToken(d) == Outcome(d, false)
  {
  }

  /** The key recognizer consumes the character the comment recognizer passed on. */
  lemma TakenByKey(d: Data, d': Data)
    requires Valid(d) && CommentToken(d) == Outcome(d, false) && KeyToken(d) == Ok(Outcome(d', true))
    ensures Parsing(d) == Ok(d')
  {
    DispatchOrder(d);
  }

  /** The value recognizer decides the round: it consumes the character or reports an error. */
  lemma TakenByValue(d: Data)
    requires Valid(d) && CommentToken(d) == Outcome(d, false) && KeyToken(d) == Ok(Outcome(d, false))
    requires ValueToken(d).Err? || ValueToken(d).value.done
    ensures Parsing(d) == if ValueToken(d).Err? then Err(ValueToken(d).error) else Ok(ValueToken(d).value.data)
  {
    DispatchOrder(d);
  }

  /** The opening recognizer decides the round. */
  lemma TakenByOpening(d: Data)
    requires Valid(d) && CommentToken(d) == Outcome(d, false) && KeyToken(d) == Ok(Outcome(d, false))
    requires ValueToken(d) == Ok(Outcome(d, false))
    requires OpeningToken(d).Err? || OpeningToken(d).value.done
    ensures Parsing(d) == if OpeningToken(d).Err? then Err(OpeningToken(d).error) else Ok(OpeningToken(d).value.data)
  {
    DispatchOrder(d);
  }

  /** The closing recognizer decides the round. */
  lemma TakenByClosing(d: Data)
    requires Valid(d) && CommentToken(d) == Outcome(d, false) && KeyToken(d) == Ok(Outcome(d, false))
    requires ValueToken(d) == Ok(Outcome(d, false)) && OpeningToken(d) == Ok(Outcome(d, false))
    requires ClosingToken(d).Err? || ClosingToken(d).value.done
    ensures Parsing(d) == if ClosingToken(d).Err? then Err(ClosingToken(d).error) else Ok(ClosingToken(d).value.data)
  {
    DispatchOrder(d);
  }

  /** The key recognizer changes the state but passes the character on, and every later one accepts it. */
  lemma ChangedByKey(d: Data, d': Data)
    requires Valid(d) && Valid(d') && CommentToken(d) == Outcome(d, false) && KeyToken(d) == Ok(Outcome(d', false))
    requires ValueToken(d') == Ok(Outcome(d', false)) && OpeningToken(d') == Ok(Outcome(d', false))
    requires ClosingToken(d') == Ok(Outcome(d', false)) && SyntaxError(d') == Ok(d')
    ensures Parsing(d) == Ok(d')
  {
    DispatchOrder(d);
    DispatchOrder(d');
  }

  /** The value recognizer changes the state but passes the character on, and every later one accepts it. */
  lemma ChangedByValue(d: Data, d': Data)
    requires Valid(d) && Valid(d') && CommentToken(d) == Outcome(d, false) && KeyToken(d) == Ok(Outcome(d, false))
    requires ValueToken(d) == Ok(Outcome(d', false)) && OpeningToken(d') == Ok(Outcome(d', false))
    requires ClosingToken(d') == Ok(Outcome(d', false)) && SyntaxError(d') == Ok(d')
    ensures Parsing(d) == Ok(d')
  {
    ParsingFallsThrough(d, d');
  }

  // ---- recognizers that pass the character on -----------------------------------

  /** The key recognizer ignores a character outside an object and a key. */
  lemma KeyPassesOutside(d: Data)
    requires Valid(d) && |d.hierarchy| > 0 && Top(d) !in {ObjectSyntax, Key}
    ensures KeyToken(d) == Ok(Outcome(d, false))
  {
  }

  /** In an object the key recognizer ignores a blank, a newline and a '}' that is not doubled. */
  lemma KeyPassesInObject(d: Data)
    requires Ready(d) && Top(d) == ObjectSyntax
    requires IsBlankOrNewline(Char(d)) || (Char(d) == '}' && NotDoubled(d, '}'))
    ensures KeyToken(d) == Ok(Outcome(d, false))
  {
    if Char(d) == '}' {
      NotEscaped(d);
    }
    assert HandleNot(d, {'\t', '\n', ' ', '{', '}'}) == (d, false);
    assert !IsRegistered(d, Key);
  }

  /** The value recognizer ignores a character where no value is read or expected. */
  lemma ValuePassesOutside(d: Data)
    requires Valid(d) && |d.hierarchy| > 0 && Top(d) !in {EqualSign, ArraySyntax, ValueSyntax, FlushValue}
    ensures ValueToken(d) == Ok(Outcome(d, false))
  {
    assert ValueEnd(d) == (d, false);
    assert ValueBody(d) == Ok(Outcome(d, false));
    assert ValueFinish(d) == ValueBody(d);
  }

  /** After an equal sign the value recognizer ignores a blank. */
  lemma ValuePassesBlank(d: Data)
    requires Valid(d) && |d.hierarchy| > 0 && Top(d) == EqualSign && IsBlank(Char(d))
    ensures ValueToken(d) == Ok(Outcome(d, false))
  {
  }

  /** The opening recognizer ignores a character where no bracket is open, unless it is a '{' before any text. */
  lemma OpeningPasses(d: Data)
    requires Valid(d) && |d.hierarchy| > 0 && Top(d) !in {OpeningBracket, TransientBracket}
    requires Char(d) != '{' || d.raw.kind != NoText
    ensures OpeningToken(d) == Ok(Outcome(d, false))
  {
  }

  /** The closing recognizer ignores a character that is not a '}' closing a container or a transient bracket. */
  lemma ClosingPasses(d: Data)
    requires Valid(d) && |d.hierarchy| > 0 && Top(d) !in {ClosingBracket, TransientBracket}
    requires Top(d) in {ObjectSyntax, ArraySyntax} ==> Char(d) != '}'
    ensures ClosingToken(d) == Ok(Outcome(d, false))
  {
  }

  /** A character every recognizer passes on and syntax_error accepts leaves the state as it was. */
  lemma Ignored(d: Data)
    requires Valid(d) && CommentToken(d) == Outcome(d, false) && KeyToken(d) == Ok(Outcome(d, false))
    requires ValueToken(d) == Ok(Outcome(d, false)) && OpeningToken(d) == Ok(Outcome(d, false))
    requires ClosingToken(d) == Ok(Outcome(d, false)) && SyntaxError(d) == Ok(d)
    ensures Parsing(d) == Ok(d)
  {
    ParsingFallsThrough(d, d);
  }

  // ---- blanks -------------------------------------------------------------------

  /** In an object, between entries, a blank or a newline changes nothing. */
  lemma BlankInObject(d: Data)
    requires Ready(d) && Top(d) == ObjectSyntax && d.raw == EmptyText && IsBlankOrNewline(Char(d))
    ensures Parsing(d) == Ok(d)
  {
    assert Char(d) != '#' && Char(d) !in {'{', '}'};
    CommentPasses(d);
    KeyPassesInObject(d);
    ValuePassesOutside(d);
    OpeningPasses(d);
    ClosingPasses(d);
    Ignored(d);
  }

  /** Between the equal sign and the value a blank changes nothing. */
  lemma BlankAfterEqual(d: Data)
    requires Ready(d) && Top(d) == EqualSign && d.raw == EmptyText && IsBlank(Char(d))
    ensures Parsing(d) == Ok(d)
  {
    CommentPasses(d);
    KeyPassesOutside(d);
    ValuePassesBlank(d);
    OpeningPasses(d);
    ClosingPasses(d);
    Ignored(d);
  }

  // ---- keys -------------------------------------------------------------------

  /** In an object, a character that is not blank, a newline or a bracket opens a key and is read into it. */
  lemma KeyTokenOpens(d: Data)
    requires Valid(d) && HandleIs(d, {ObjectSyntax}) && Char(d) !in {'\t', '\n', ' ', '{', '}'}
    ensures KeyToken(d) == KeyBody(Register(d, Key).(keys := d.keys + [EmptyText]))
  {
  }

  /** A key's text takes an ordinary character; a plain one starts an unquoted text. */
  lemma KeyBodyAppends(d: Data)
    requires Valid(d) && IsRegistered(d, Key) && |d.keys| > 0 && d.escape == NoEscape
    requires var k := Last(d.keys).kind; (k == NoText && Plain(Char(d))) || (k in {Unquoted, Quoted1, Quoted2} && Ordinary(Char(d)))
    ensures var k := Last(d.keys);
            KeyBody(d) == Ok(Outcome(d.(keys := SetTop(d.keys, Text(k.s + [Char(d)], if k.kind == NoText then Unquoted else k.kind))), true))
  {
    TextTakes(d, Last(d.keys).kind);
  }

  /** The key recognizer's answer to a plain character in an object. */
  lemma KeyTokenStarts(d: Data)
    requires Ready(d) && Top(d) == ObjectSyntax && Plain(Char(d))
    ensures KeyToken(d) == Ok(Outcome(Register(d, Key).(keys := d.keys + [Text([Char(d)], Unquoted)]), true))
  {
    var d1 := Register(d, Key).(keys := d.keys + [EmptyText]);
    KeyTokenOpens(d);
    KeyBodyAppends(d1);
    assert EmptyText.s + [Char(d)] == [Char(d)];
    assert SetTop(d1.keys, Text([Char(d)], Unquoted)) == d.keys + [Text([Char(d)], Unquoted)];
  }

  /** In an object, a plain character starts an unquoted key: a key frame and a new key holding it. */
  lemma KeyStarts(d: Data)
    requires Ready(d) && Top(d) == ObjectSyntax && Plain(Char(d))
    ensures Parsing(d) == Ok(Register(d, Key).(keys := d.keys + [Text([Char(d)], Unquoted)]))
  {
    CommentPasses(d);
    KeyTokenStarts(d);
    TakenByKey(d, Register(d, Key).(keys := d.keys + [Text([Char(d)], Unquoted)]));
  }

  /** Inside a key that is not over, the key recognizer takes any ordinary character. */
  lemma KeyTokenGoesOn(d: Data)
    requires Ready(d) && Top(d) == Key && |d.keys| > 0 && Last(d.keys).kind in {Unquoted, Quoted1, Quoted2} && Ordinary(Char(d))
    ensures KeyToken(d) == Ok(Outcome(d.(keys := SetTop(d.keys, Text(Last(d.keys).s + [Char(d)], Last(d.keys).kind))), true))
  {
    assert HandleExpected(d, ['{', '=']) == (d, false);
    KeyBodyAppends(d);
  }

  /** An ordinary character inside a key is appended to it. */
  lemma KeyGoesOn(d: Data)
    requires Ready(d) && Top(d) == Key && |d.keys| > 0 && Last(d.keys).kind in {Unquoted, Quoted1, Quoted2} && Ordinary(Char(d))
    ensures Parsing(d) == Ok(d.(keys := SetTop(d.keys, Text(Last(d.keys).s + [Char(d)], Last(d.keys).kind))))
  {
    CommentPasses(d);
    KeyTokenGoesOn(d);
    TakenByKey(d, d.(keys := SetTop(d.keys, Text(Last(d.keys).s + [Char(d)], Last(d.keys).kind))));
  }

  /** A special character that is not doubled, with no escape remembered, is not escaped and leaves the record empty. */
  lemma NotEscaped(d: Data)
    requires d.i < |d.line| && d.escape == NoEscape && Char(d) in Special && NotDoubled(d, Char(d))
    ensures IsEscaped(d, Char(d)) == (d, false)
    ensures Delimiter(d, Char(d)) == (d, true)
  {
  }

  /** The key recognizer's answer to an '=' that is not doubled after a key. */
  lemma KeyTokenEqual(d: Data)
    requires Ready(d) && Top(d) == Key && |d.keys| > 0 && !ExpectedMultiLineString(Last(d.keys).kind)
    requires Char(d) == '=' && NotDoubled(d, '=')
    ensures KeyToken(d) == Ok(Outcome(Register(Pop(d), EqualSign), true))
  {
    NotEscaped(d);
    NotEscaped(Pop(d));
    assert HandleExpected(d, ['=']) == (d, true);
    assert HandleExpected(d, ['{', '=']) == (d, true);
  }

  /** The key recognizer's answer to a '{' that is not doubled after a key. */
  lemma KeyTokenBrace(d: Data)
    requires Ready(d) && Top(d) == Key && |d.keys| > 0 && !ExpectedMultiLineString(Last(d.keys).kind)
    requires Char(d) == '{' && NotDoubled(d, '{')
    ensures KeyToken(d) == Ok(Outcome(Register(Pop(d), OpeningBracket), true))
  {
    NotEscaped(d);
    assert HandleExpected(d, ['{', '=']) == (d, true);
    assert Delimiter(Pop(d), '=') == (Pop(d), false);
  }

  /** An '=' or a '{' not doubled ends the key: its frame is replaced by the equal sign's or the opening bracket's. */
  lemma KeyEnds(d: Data)
    requires Ready(d) && Top(d) == Key && |d.keys| > 0 && !ExpectedMultiLineString(Last(d.keys).kind)
    requires Char(d) in {'=', '{'} && NotDoubled(d, Char(d))
    ensures Parsing(d) == Ok(Register(Pop(d), if Char(d) == '=' then EqualSign else OpeningBracket))
  {
    CommentPasses(d);
    if Char(d) == '=' { KeyTokenEqual(d); } else { KeyTokenBrace(d); }
    TakenByKey(d, Register(Pop(d), if Char(d) == '=' then EqualSign else OpeningBracket));
  }

  /** A '"' not doubled opens a quoted key, or closes the quoted key it is in. */
  lemma KeyBodyQuote(d: Data)
    requires Valid(d) && IsRegistered(d, Key) && |d.keys| > 0 && d.escape == NoEscape
    requires Char(d) == '"' && NotDoubled(d, '"') && Last(d.keys).kind in {NoText, Quoted2}
    ensures var k := Last(d.keys);
            KeyBody(d) == Ok(Outcome(d.(keys := SetTop(d.keys, Text(k.s, if k.kind == NoText then Quoted2 else EndString2))),
                                     k.kind == Quoted2))
  {
    TextQuote(d, Last(d.keys).kind);
  }

  /** The key recognizer's answer to the '"' that opens a key: a key frame and an empty quoted key, not yet consumed. */
  lemma KeyTokenQuoteOpens(d: Data)
    requires Ready(d) && Top(d) == ObjectSyntax && Char(d) == '"' && NotDoubled(d, '"')
    ensures KeyToken(d) == Ok(Outcome(Register(d, Key).(keys := d.keys + [Text("", Quoted2)]), false))
  {
    var d1 := Register(d, Key).(keys := d.keys + [EmptyText]);
    KeyTokenOpens(d);
    KeyBodyQuote(d1);
    assert SetTop(d1.keys, Text("", Quoted2)) == d.keys + [Text("", Quoted2)];
  }

  /** The characters of a text between quotes: none is a quote, a newline or anything special. */
  lemma SyntaxErrorInText(d: Data)
    requires Valid(d) && |d.hierarchy| > 0 && Top(d) in {Key, ValueSyntax} && Char(d) !in {'{', '}', '\\'}
    requires d.raw.kind in {NoText, Unquoted, Quoted1, Quoted2}
    requires Top(d) == Key ==> |d.keys| > 0 && !EndOfString(Last(d.keys).kind)
    requires !IsBlankOrNewline(Char(d))
    ensures SyntaxError(d) == Ok(d)
  {
    assert SyntaxErrorTail(d) == Ok(d);
  }

  /** Inside a key or a value text, a character that is no bracket, backslash, blank or newline is left to the text: the later recognizers pass it on. */
  lemma InTextPasses(d: Data)
    requires Valid(d) && |d.hierarchy| > 0 && Top(d) in {Key, ValueSyntax} && Char(d) !in {'{', '}', '\\'}
    requires d.raw.kind in {NoText, Unquoted, Quoted1, Quoted2} && !IsBlankOrNewline(Char(d))
    requires Top(d) == Key ==> |d.keys| > 0 && !EndOfString(Last(d.keys).kind)
    ensures OpeningToken(d) == Ok(Outcome(d, false)) && ClosingToken(d) == Ok(Outcome(d, false)) && SyntaxError(d) == Ok(d)
  {
    OpeningPasses(d);
    ClosingPasses(d);
    SyntaxErrorInText(d);
  }

  /** In an object, a '"' not doubled opens a quoted key. */
  lemma KeyQuoteOpens(d: Data)
    requires Ready(d) && Top(d) == ObjectSyntax && d.raw == EmptyText && Char(d) == '"' && NotDoubled(d, '"')
    ensures Parsing(d) == Ok(Register(d, Key).(keys := d.keys + [Text("", Quoted2)]))
  {
    var d' := Register(d, Key).(keys := d.keys + [Text("", Quoted2)]);
    KeyQuoteOpensPasses(d, d');
    ChangedByKey(d, d');
  }

  /** The recognizers before and after the key recognizer pass over the '"' that opens a key. */
  lemma KeyQuoteOpensPasses(d: Data, d': Data)
    requires Ready(d) && Top(d) == ObjectSyntax && d.raw == EmptyText && Char(d) == '"' && NotDoubled(d, '"')
    requires d' == Register(d, Key).(keys := d.keys + [Text("", Quoted2)])
    ensures Valid(d) && Valid(d') && CommentToken(d) == Outcome(d, false) && KeyToken(d) == Ok(Outcome(d', false))
    ensures ValueToken(d') == Ok(Outcome(d', false)) && OpeningToken(d') == Ok(Outcome(d', false))
    ensures ClosingToken(d') == Ok(Outcome(d', false)) && SyntaxError(d') == Ok(d')
  {
    CommentPasses(d);
    KeyTokenQuoteOpens(d);
    ValuePassesOutside(d');
    InTextPasses(d');
  }

  /** The '"' that closes a quoted key ends its text; the key frame stays for the '=' or '{' after it. */
  lemma KeyQuoteCloses(d: Data)
    requires Ready(d) && Top(d) == Key && |d.keys| > 0 && Last(d.keys).kind == Quoted2 && Char(d) == '"' && NotDoubled(d, '"')
    ensures Parsing(d) == Ok(d.(keys := SetTop(d.keys, Text(Last(d.keys).s, EndString2))))
  {
    CommentPasses(d);
    assert HandleExpected(d, ['{', '=']) == (d, false);
    KeyBodyQuote(d);
    TakenByKey(d, d.(keys := SetTop(d.keys, Text(Last(d.keys).s, EndString2))));
  }

  // ---- values -----------------------------------------------------------------

  /** After an equal sign, a character that is not blank, a newline or '}' starts a value. */
  lemma ValueTokenOpens(d: Data)
    requires Valid(d) && |d.hierarchy| > 0 && Top(d) == EqualSign && Char(d) !in {'\n', '\t', ' ', '}'}
    ensures ValueToken(d) == ValueBody(Register(Pop(d), ValueSyntax))
  {
  }

  /** Inside a value, a character other than a newline is the value recognizer's to read. */
  lemma ValueTokenInValue(d: Data)
    requires Valid(d) && |d.hierarchy| > 0 && Top(d) == ValueSyntax && !IsNewline(Char(d))
    ensures ValueToken(d) == ValueBody(d)
  {
  }

  /** luco_value's text takes a character that is not '=' into a text that has not ended. */
  lemma ValueTextAppends(d: Data)
    requires Valid(d) && d.raw.kind in {Unquoted, Quoted1, Quoted2} && Char(d) != '='
    ensures ValueText(d) == Outcome(d.(raw := d.raw.(s := d.raw.s + [Char(d)])), true)
  {
  }

  /** A value's text takes an ordinary character; a plain one starts an unquoted text. */
  lemma ValueBodyAppends(d: Data)
    requires Valid(d) && IsRegistered(d, ValueSyntax) && |d.keys| > 0 && d.escape == NoEscape
    requires (d.raw.kind == NoText && Plain(Char(d))) || (d.raw.kind in {Unquoted, Quoted1, Quoted2} && Ordinary(Char(d)))
    ensures ValueBody(d) == Ok(Outcome(d.(raw := Text(d.raw.s + [Char(d)], if d.raw.kind == NoText then Unquoted else d.raw.kind)), true))
  {
    assert IsEscaped(d, Char(d)) == (d, false);
    TextTakes(d, d.raw.kind);
    var d3 := d.(raw := d.raw.(kind := if d.raw.kind == NoText then Unquoted else d.raw.kind));
    ValueTextAppends(d3);
  }

  /** A '"' not doubled opens a quoted value, or closes the quoted value it is in. */
  lemma ValueBodyQuote(d: Data)
    requires Valid(d) && IsRegistered(d, ValueSyntax) && |d.keys| > 0 && d.escape == NoEscape
    requires Char(d) == '"' && NotDoubled(d, '"') && d.raw.kind in {NoText, Quoted2}
    ensures ValueBody(d) == Ok(Outcome(d.(raw := Text(d.raw.s, if d.raw.kind == NoText then Quoted2 else EndString2)),
                                       d.raw.kind == Quoted2))
  {
    NotEscaped(d);
    TextQuote(d, d.raw.kind);
  }

  /** After an equal sign, a plain character starts an unquoted value in place of the equal sign. */
  lemma ValueStarts(d: Data)
    requires Ready(d) && Top(d) == EqualSign && |d.keys| > 0 && d.raw == EmptyText && Plain(Char(d))
    ensures Parsing(d) == Ok(Register(Pop(d), ValueSyntax).(raw := Text([Char(d)], Unquoted)))
  {
    var d1 := Register(Pop(d), ValueSyntax);
    CommentPasses(d);
    KeyPassesOutside(d);
    ValueTokenOpens(d);
    ValueBodyAppends(d1);
    assert EmptyText.s + [Char(d)] == [Char(d)];
    TakenByValue(d);
  }

  /** The value recognizer's answer to the '"' that opens a value: the equal sign gives way to a quoted value. */
  lemma ValueTokenQuoteOpens(d: Data)
    requires Ready(d) && Top(d) == EqualSign && |d.keys| > 0 && d.raw == EmptyText && Char(d) == '"' && NotDoubled(d, '"')
    ensures Valid(Register(Pop(d), ValueSyntax).(raw := Text("", Quoted2)))
    ensures ValueToken(d) == Ok(Outcome(Register(Pop(d), ValueSyntax).(raw := Text("", Quoted2)), false))
  {
    var d1 := Register(Pop(d), ValueSyntax);
    assert d1.line == d.line && d1.i == d.i && d1.raw == EmptyText && Top(d1) == ValueSyntax;
    ValueTokenOpens(d);
    ValueBodyQuote(d1);
    assert d1.(raw := Text(d1.raw.s, Quoted2)) == d1.(raw := Text("", Quoted2));
  }

  /** After an equal sign, a '"' not doubled opens a quoted value in place of the equal sign. */
  lemma ValueQuoteOpens(d: Data)
    requires Ready(d) && Top(d) == EqualSign && |d.keys| > 0 && d.raw == EmptyText && Char(d) == '"' && NotDoubled(d, '"')
    ensures Parsing(d) == Ok(Register(Pop(d), ValueSyntax).(raw := Text("", Quoted2)))
  {
    var d' := Register(Pop(d), ValueSyntax).(raw := Text("", Quoted2));
    CommentPasses(d);
    KeyPassesOutside(d);
    ValueTokenQuoteOpens(d);
    InTextPasses(d');
    ChangedByValue(d, d');
  }

  /** An ordinary character inside a value is appended to its text. */
  lemma ValueGoesOn(d: Data)
    requires Ready(d) && Top(d) == ValueSyntax && |d.keys| > 0 && d.raw.kind in {Unquoted, Quoted1, Quoted2} && Ordinary(Char(d))
    ensures Parsing(d) == Ok(d.(raw := Text(d.raw.s + [Char(d)], d.raw.kind)))
  {
    CommentPasses(d);
    KeyPassesOutside(d);
    ValueTokenInValue(d);
    ValueBodyAppends(d);
    TakenByValue(d);
  }

  /** The '"' that closes a quoted value ends its text. */
  lemma ValueQuoteCloses(d: Data)
    requires Ready(d) && Top(d) == ValueSyntax && |d.keys| > 0 && d.raw.kind == Quoted2 && Char(d) == '"' && NotDoubled(d, '"')
    ensures Parsing(d) == Ok(d.(raw := Text(d.raw.s, EndString2)))
  {
    CommentPasses(d);
    KeyPassesOutside(d);
    ValueTokenInValue(d);
    ValueBodyQuote(d);
    TakenByValue(d);
  }

  /** The value recognizer's answer to the newline that ends a value: the value stored, and its frame popped. */
  lemma ValueTokenEnds(d: Data)
    requires Ready(d) && Top(d) == ValueSyntax && IsNewline(Char(d)) && !ExpectedMultiLineString(d.raw.kind)
    ensures ValueToken(d) == if InsertValue(d).Err? then Err(InsertValue(d).error) else Ok(Outcome(Pop(InsertValue(d).value), true))
  {
    assert ValueEnd(d) == (d, true);
  }

  /** A newline ends the value: it is stored in the container on top, and its frame popped. */
  lemma ValueEnds(d: Data)
    requires Ready(d) && Top(d) == ValueSyntax && IsNewline(Char(d)) && !ExpectedMultiLineString(d.raw.kind)
    ensures Parsing(d) == if InsertValue(d).Err? then Err(InsertValue(d).error) else Ok(Pop(InsertValue(d).value))
  {
    CommentPasses(d);
    KeyPassesOutside(d);
    ValueTokenEnds(d);
    TakenByValue(d);
  }

  // ---- runs of characters -------------------------------------------------------

  /** Between the entries of an object, or between an equal sign and its value: no text is being read. */
  predicate Idle(d: Data)
  {
    Ready(d) && Top(d) in {ObjectSyntax, EqualSign} && d.raw == EmptyText && (Top(d) == EqualSign ==> |d.keys| > 0)
  }

  /** A key is being read: its text, on top of keys, takes ordinary characters. */
  predicate InKey(d: Data)
  {
    Ready(d) && Top(d) == Key && |d.keys| > 0 && Last(d.keys).kind in {Unquoted, Quoted1, Quoted2}
  }

  /** A value is being read: its text takes ordinary characters. */
  predicate InValue(d: Data)
  {
    Ready(d) && Top(d) == ValueSyntax && |d.keys| > 0 && d.raw.kind in {Unquoted, Quoted1, Quoted2}
  }

  /** A blank where no text is read. */
  predicate BlankAt(d: Data)
  {
    Idle(d) && IsBlank(Char(d))
  }

  /** An ordinary character of a key. */
  predicate KeyCharAt(d: Data)
  {
    InKey(d) && Ordinary(Char(d))
  }

  /** An ordinary character of a value. */
  predicate ValueCharAt(d: Data)
  {
    InValue(d) && Ordinary(Char(d))
  }

  /** One blank where no text is read. */
  lemma BlankStep(d: Data)
    ensures BlankAt(d) ==> RunLine(d) == RunLine(Skip(d, 1))
  {
    if BlankAt(d) {
      if Top(d) == ObjectSyntax {
        BlankInObject(d);
      } else {
        BlankAfterEqual(d);
      }
      RunLineNext(d, d);
      assert Skip(d, 1) == d.(i := d.i + 1);
    }
  }

  /** The state after one ordinary character of a key: the character is appended to the key on top of keys. */
  function KeyNext(d: Data): (r: Data)
    requires KeyCharAt(d)
    ensures r.i == d.i + 1 && r.line == d.line && r.hierarchy == d.hierarchy && r.raw == d.raw
    ensures |r.keys| == |d.keys| && r.keys[..|r.keys| - 1] == d.keys[..|d.keys| - 1]
    ensures Last(r.keys) == Text(Last(d.keys).s + [Char(d)], Last(d.keys).kind)
  {
    d.(i := d.i + 1, keys := SetTop(d.keys, Text(Last(d.keys).s + [Char(d)], Last(d.keys).kind)))
  }

  /** The state after one ordinary character of a value: the character is appended to the value's text. */
  function ValueNext(d: Data): (r: Data)
    requires ValueCharAt(d)
    ensures r.i == d.i + 1 && r.line == d.line && r.hierarchy == d.hierarchy && r.keys == d.keys
    ensures r.raw == Text(d.raw.s + [Char(d)], d.raw.kind)
  {
    d.(i := d.i + 1, raw := Text(d.raw.s + [Char(d)], d.raw.kind))
  }

  /** One ordinary character of a key. */
  lemma KeyStep(d: Data)
    ensures KeyCharAt(d) ==> RunLine(d) == RunLine(KeyNext(d))
  {
    if KeyCharAt(d) {
      KeyGoesOn(d);
      RunLineNext(d, d.(keys := SetTop(d.keys, Text(Last(d.keys).s + [Char(d)], Last(d.keys).kind))));
    }
  }

  /** One ordinary character of a value. */
  lemma ValueStep(d: Data)
    ensures ValueCharAt(d) ==> RunLine(d) == RunLine(ValueNext(d))
  {
    if ValueCharAt(d) {
      ValueGoesOn(d);
      var d1 := d.(raw := Text(d.raw.s + [Char(d)], d.raw.kind));
      RunLineNext(d, d1);
      assert ValueNext(d) == d1.(i := d.i + 1);
    }
  }

  /** The n characters of line from i are blanks. */
  predicate Blanks(line: string, i: nat, n: nat)
  {
    i + n <= |line| && forall k :: i <= k < i + n ==> IsBlank(line[k])
  }

  /** The n characters of line from i are ordinary ones. */
  predicate Ordinaries(line: string, i: nat, n: nat)
  {
    i + n <= |line| && forall k :: i <= k < i + n ==> Ordinary(line[k])
  }

  /** The next n characters are blanks where no text is read. */
  predicate BlanksAhead(d: Data, n: nat)
  {
    Idle(d) && d.i + n < |d.line| && Blanks(d.line, d.i, n)
  }

  /** The next n characters are ordinary ones of a key. */
  predicate KeyCharsAhead(d: Data, n: nat)
  {
    InKey(d) && d.i + n < |d.line| && Ordinaries(d.line, d.i, n)
  }

  /** The next n characters are ordinary ones of a value. */
  predicate ValueCharsAhead(d: Data, n: nat)
  {
    InValue(d) && d.i + n < |d.line| && Ordinaries(d.line, d.i, n)
  }

  /** The state after n characters that leave everything but the position unchanged. */
  function Skip(d: Data, n: nat): (r: Data)
    ensures r.i == d.i + n && r.line == d.line && r.hierarchy == d.hierarchy && r.keys == d.keys && r.raw == d.raw
  {
    d.(i := d.i + n)
  }

  /** After the first of several blanks, the rest lie ahead of the next state and lead to the same end. */
  lemma BlanksAheadNext(d: Data, n: nat)
    requires BlanksAhead(d, n)
    ensures n == 0 ==> Skip(d, n) == d
    ensures n > 0 ==> BlankAt(d) && BlanksAhead(Skip(d, 1), n - 1) && Skip(Skip(d, 1), n - 1) == Skip(d, n)
  {
  }

  /** Blanks between entries of an object, or between an equal sign and its value, change nothing: the loop goes on from e. */
  lemma {:induction false} BlankRun(d: Data, n: nat, e: Data)
    requires BlanksAhead(d, n) && e == Skip(d, n)
    ensures RunLine(d) == RunLine(e)
    decreases n
  {
    BlanksAheadNext(d, n);
    if n > 0 {
      BlankRun(Skip(d, 1), n - 1, e);
      BlankStep(d);
    }
  }

  /** The state after n ordinary characters of a key. */
  function KeyAfter(d: Data, n: nat): Data
    requires |d.keys| > 0 && d.i + n <= |d.line|
  {
    d.(i := d.i + n, keys := SetTop(d.keys, Text(Last(d.keys).s + d.line[d.i..d.i + n], Last(d.keys).kind)))
  }

  /** The state after n ordinary characters of a value. */
  function ValueAfter(d: Data, n: nat): Data
    requires d.i + n <= |d.line|
  {
    d.(i := d.i + n, raw := Text(d.raw.s + d.line[d.i..d.i + n], d.raw.kind))
  }

  /** After the first of several key characters, the rest lie ahead of the next state and lead to the same end. */
  lemma KeyCharsAheadNext(d: Data, n: nat)
    requires KeyCharsAhead(d, n)
    ensures n == 0 ==> KeyAfter(d, n) == d
    ensures n > 0 ==> KeyCharAt(d) && KeyCharsAhead(KeyNext(d), n - 1) && KeyAfter(KeyNext(d), n - 1) == KeyAfter(d, n)
  {
    var t := Last(d.keys);
    if n == 0 {
      assert t.s + d.line[d.i..d.i] == t.s;
      assert SetTop(d.keys, Text(t.s, t.kind)) == d.keys;
    } else {
      assert KeyCharAt(d);
      var d1 := KeyNext(d);
      assert d1.line[d1.i..d1.i + (n - 1)] == d.line[d.i + 1..d.i + n];
      assert t.s + [Char(d)] + d.line[d.i + 1..d.i + n] == t.s + d.line[d.i..d.i + n];
      assert SetTop(d1.keys, Text(t.s + d.line[d.i..d.i + n], t.kind)) == SetTop(d.keys, Text(t.s + d.line[d.i..d.i + n], t.kind));
    }
  }

  /** After the first of several value characters, the rest lie ahead of the next state and lead to the same end. */
  lemma ValueCharsAheadNext(d: Data, n: nat)
    requires ValueCharsAhead(d, n)
    ensures n == 0 ==> ValueAfter(d, n) == d
    ensures n > 0 ==> ValueCharAt(d) && ValueCharsAhead(ValueNext(d), n - 1) && ValueAfter(ValueNext(d), n - 1) == ValueAfter(d, n)
  {
    if n == 0 {
      assert d.raw.s + d.line[d.i..d.i] == d.raw.s;
    } else {
      assert ValueCharAt(d);
      var d1 := ValueNext(d);
      assert d1.line[d1.i..d1.i + (n - 1)] == d.line[d.i + 1..d.i + n];
      assert d.raw.s + [Char(d)] + d.line[d.i + 1..d.i + n] == d.raw.s + d.line[d.i..d.i + n];
    }
  }

  /** Ordinary characters are read into the key on top of keys, one pass each: the loop goes on from e. */
  lemma {:induction false} KeyRun(d: Data, n: nat, e: Data)
    requires KeyCharsAhead(d, n) && e == KeyAfter(d, n)
    ensures RunLine(d) == RunLine(e)
    decreases n
  {
    KeyCharsAheadNext(d, n);
    if n > 0 {
      KeyRun(KeyNext(d), n - 1, e);
      KeyStep(d);
    }
  }

  /** Ordinary characters are read into the value's text, one pass each: the loop goes on from e. */
  lemma {:induction false} ValueRun(d: Data, n: nat, e: Data)
    requires ValueCharsAhead(d, n) && e == ValueAfter(d, n)
    ensures RunLine(d) == RunLine(e)
    decreases n
  {
    ValueCharsAheadNext(d, n);
    if n > 0 {
      ValueRun(ValueNext(d), n - 1, e);
      ValueStep(d);
    }
  }
}
