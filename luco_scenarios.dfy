/*
 * What try_parse does on a few short texts: the ones of the invalid_luco
 * test (tests/test.cpp:304-320) and the edge cases of the comment and the
 * closing-bracket recognizers.
 */
module LucoScenarios {
  import opened LucoError
  import opened LucoParseState
  import opened LucoRecognizers
  import opened LucoParse

  /** The state with which try_parse starts parsing its first chunk. */
  function FirstChunk(chunk: string): (d: Data)
    requires chunk != []
    ensures Valid(d) && d.line == chunk && d.i == 0 && d.lineNumber == 1
  {
    Start().(line := chunk)
  }

  /**
   * A '}' with no '{' before it reaches the closing of the root object: the
   * frame stack then holds the root's object frame only, so the closing as
   * written reads the top of an empty stack.
   */
  lemma ClosingTheRootAsWritten()
    ensures var d := FirstChunk("}");
            && ClosingToken(d) == CloseContainer(d)
            && |d.hierarchy| == 1
            && CloseContainerAsWritten(d) == Err(UndefinedBehaviour)
  {
    var d := FirstChunk("}");
    assert Delimiter(d, '}') == (d, true);
    assert Pop(Register(d, ClosingBracket)) == d;
    assert d.keys == SetTop(d.keys, LucoSimpleTypes.EmptyText);
  }

  /** No recognizer before closing_bracket takes a '}' that follows nothing. */
  lemma ClosingTheRootPassedOn()
    ensures var d := FirstChunk("}");
            && CommentToken(d) == Outcome(d, false)
            && KeyToken(d) == Ok(Outcome(d, false))
            && ValueToken(d) == Ok(Outcome(d, false))
            && OpeningToken(d) == Ok(Outcome(d, false))
  {
    var d := FirstChunk("}");
    assert Delimiter(d, '#') == (d, false);
    assert HandleNot(d, {'\t', '\n', ' ', '{', '}'}) == (d, false);
    assert OpeningEnd(d) == (d, false);
  }

  /** With the closing as intended, the '}' that closes the root is an error at the '}'. */
  lemma ClosingTheRootToken()
    ensures ClosingToken(FirstChunk("}")) == Err(Luco(ParsingError, At(1, 0)))
  {
    var d := FirstChunk("}");
    ClosingTheRootAsWritten();
    assert CloseContainer(d) == Err(Luco(ParsingError, At(1, 0)));
  }

  /** With the closing as intended, a '}' with no '{' before it is a parse error at the '}'. */
  lemma ClosingTheRoot()
    ensures TryParse("}") == Err(Luco(ParsingError, At(1, 0)))
  {
    ClosingTheRootFed();
  }

  lemma ClosingTheRootFed()
    ensures Feed(Start(), "}") == Err(Luco(ParsingError, At(1, 0)))
  {
    var d := FirstChunk("}");
    ClosingTheRootParsing();
    RunLineStops(d);
    FeedTerminator(Start(), '}', "");
    assert Start().(line := Start().line + "}", i := 0) == d;
    assert "}" + "" == "}";
  }

  lemma ClosingTheRootParsing()
    ensures Parsing(FirstChunk("}")) == Err(Luco(ParsingError, At(1, 0)))
  {
    ClosingTheRootPassedOn();
    ClosingTheRootToken();
    DispatchOrder(FirstChunk("}"));
  }

  /**
   * A '{' in a line comment makes it a nested comment, which a newline does
   * not end: at the end of the text it is still open, which is a parse error
   * at the place of the '{'.
   */
  lemma UnterminatedNestedComment()
    ensures TryParse("#{\n") == Err(Luco(ParsingError, At(1, 1)))
  {
    var d := NestedCommentOpen().(i := 3);
    NestedCommentFed();
    assert Top(d.(line := [], lineNumber := 2)) == NestedComment;
  }

  /** The text "#{\n" is one chunk, and the next line would start with the nested comment open. */
  lemma NestedCommentFed()
    ensures var d := NestedCommentOpen().(i := 3);
            Feed(Start(), "#{\n") == Ok(d.(line := [], lineNumber := 2))
  {
    NestedCommentCollected();
    NestedCommentTerminated();
  }

  /** Before the newline, "#{" is only collected into the chunk. */
  lemma NestedCommentCollected()
    ensures Feed(Start(), "#{\n") == Feed(Start().(line := "#{"), "\n")
  {
    CommentMarksCollected(Start(), "\n");
    assert "#{" + "\n" == "#{\n";
    assert Start().(line := Start().line + "#{") == Start().(line := "#{");
  }

  lemma CommentMarksCollected(d: Data, rest: string)
    requires Sound(d) && !d.shift
    ensures Feed(d, "#{" + rest) == Feed(d.(line := d.line + "#{"), rest)
  {
    FeedPrefix(d, "#{", rest);
  }

  lemma NestedCommentTerminated()
    ensures var d := NestedCommentOpen().(i := 3);
            Feed(Start().(line := "#{"), "\n") == Ok(d.(line := [], lineNumber := 2))
  {
    NestedCommentChunk();
    FeedTerminator(Start().(line := "#{"), '\n', "");
    assert Start().(line := "#{").(line := "#{" + "\n", i := 0) == FirstChunk("#{\n");
  }

  /** The three passes over "#{\n": the comment opens, becomes nested, and the newline stays in it. */
  lemma NestedCommentChunk()
    ensures var d0 := FirstChunk("#{\n");
            RunLine(d0) == Ok(NestedCommentOpen().(i := 3))
  {
    var d0 := FirstChunk("#{\n");
    var c0 := LineCommentOpen();
    var c1 := NestedCommentOpen();
    HashOpensComment();
    RunLineNext(d0, c0);
    BraceNestsComment();
    RunLineNext(c0.(i := 1), c1);
    NewlineInNestedComment();
    RunLineNext(c1.(i := 2), c1.(i := 2));
  }

  /** The state after the '#': a comment frame at line 1, column 0 on top of the root's frame. */
  function LineCommentOpen(): (d: Data)
    ensures Valid(d) && d.i == 0 && d.hierarchy == [Frame(ObjectSyntax, 1, 0), Frame(Comment, 1, 0)]
  {
    Register(FirstChunk("#{\n"), Comment)
  }

  /** The state after the '{': the comment frame became a nested comment at column 1. */
  function NestedCommentOpen(): (d: Data)
    ensures Valid(d) && d.i == 1 && d.hierarchy == [Frame(ObjectSyntax, 1, 0), Frame(NestedComment, 1, 1)]
  {
    Register(Pop(LineCommentOpen().(i := 1)), NestedComment)
  }

  lemma HashOpensComment()
    ensures Parsing(FirstChunk("#{\n")) == Ok(LineCommentOpen())
  {
    var d0 := FirstChunk("#{\n");
    assert Delimiter(d0, '#') == (d0, true);
    assert CommentToken(d0) == Outcome(LineCommentOpen(), true);
    DispatchOrder(d0);
  }

  lemma BraceNestsComment()
    ensures Parsing(LineCommentOpen().(i := 1)) == Ok(NestedCommentOpen())
  {
    var d1 := LineCommentOpen().(i := 1);
    assert Delimiter(d1, '{') == (d1, true);
    assert CommentToken(d1) == Outcome(NestedCommentOpen(), true);
    DispatchOrder(d1);
  }

  lemma NewlineInNestedComment()
    ensures Parsing(NestedCommentOpen().(i := 2)) == Ok(NestedCommentOpen().(i := 2))
  {
    var d2 := NestedCommentOpen().(i := 2);
    assert CommentToken(d2) == Outcome(d2, true);
    DispatchOrder(d2);
  }

  // ---- the invalid_luco test --------------------------------------------------------

  /**
   * A text "{...}" whose first '{' is not doubled: the root object's frame
   * is on top, so the unescaped '{' is a syntax error at line 1, column 0.
   * This is the failure of "{invalid}", "{\"name\":}", "{\"age\":3 5}",
   * "{\"smol\":tru e}" and "{\"\"key\":nu ll}".
   */
  lemma BracedText(s: string)
    requires s != [] && s[0] != '{'
    requires forall k :: 0 <= k < |s| ==> !Terminator(s[k])
    ensures TryParse("{" + s + "}") == Err(Luco(ParsingError, At(1, 0)))
  {
    var chunk := "{" + s + "}";
    BracedTextFed(s);
    assert ("{" + s) + "}" == chunk;
  }

  /** The chunk "{...}" is collected and then fails at its first character. */
  lemma BracedTextFed(s: string)
    requires s != [] && s[0] != '{'
    requires forall k :: 0 <= k < |s| ==> !Terminator(s[k])
    ensures Feed(Start(), ("{" + s) + "}") == Err(Luco(ParsingError, At(1, 0)))
  {
    var prefix := "{" + s;
    assert prefix[0] == '{' && prefix[1] == s[0];
    BracedTextCollected(s);
    BracedTextTerminated(prefix);
  }

  lemma BracedTextCollected(s: string)
    requires forall k :: 0 <= k < |s| ==> !Terminator(s[k])
    ensures Feed(Start(), ("{" + s) + "}") == Feed(Start().(line := "{" + s), "}")
  {
    var prefix := "{" + s;
    assert forall k :: 0 <= k < |prefix| ==> !Terminator(prefix[k]) by {
      forall k | 0 <= k < |prefix| ensures !Terminator(prefix[k]) {
        if k > 0 { assert prefix[k] == s[k - 1]; }
      }
    }
    FeedPrefix(Start(), prefix, "}");
    assert Start().line + prefix == prefix;
  }

  lemma BracedTextTerminated(prefix: string)
    requires |prefix| >= 2 && prefix[0] == '{' && prefix[1] != '{'
    ensures Feed(Start().(line := prefix), "}") == Err(Luco(ParsingError, At(1, 0)))
  {
    var d := Start().(line := prefix);
    FeedTerminator(d, '}', "");
    var chunk := prefix + "}";
    assert d.(line := d.line + "}", i := 0) == FirstChunk(chunk);
    BraceAtStart(chunk);
    RunLineStops(FirstChunk(chunk));
  }

  /** An unescaped '{' at the start of the text: no recognizer takes it, and syntax_error reports it. */
  lemma BraceAtStart(chunk: string)
    requires |chunk| >= 2 && chunk[0] == '{' && chunk[1] != '{'
    ensures Parsing(FirstChunk(chunk)) == Err(Luco(ParsingError, At(1, 0)))
  {
    var d := FirstChunk(chunk);
    BraceAtStartPassedOn(chunk);
    BraceAtStartSyntaxError(chunk);
    DispatchOrder(d);
  }

  lemma BraceAtStartSyntaxError(chunk: string)
    requires |chunk| >= 2 && chunk[0] == '{' && chunk[1] != '{'
    ensures SyntaxError(FirstChunk(chunk)) == Err(Luco(ParsingError, At(1, 0)))
  {
    var d := FirstChunk(chunk);
    assert Delimiter(d, '{') == (d, true);
  }

  lemma BraceAtStartPassedOn(chunk: string)
    requires |chunk| >= 2 && chunk[0] == '{' && chunk[1] != '{'
    ensures var d := FirstChunk(chunk);
            && CommentToken(d) == Outcome(d, false)
            && KeyToken(d) == Ok(Outcome(d, false))
            && ValueToken(d) == Ok(Outcome(d, false))
            && OpeningToken(d) == Ok(Outcome(d, false))
            && ClosingToken(d) == Ok(Outcome(d, false))
  {
    BraceAtStartNoComment(chunk);
    BraceAtStartNoElement(chunk);
    BraceAtStartNoBracket(chunk);
  }

  lemma BraceAtStartNoComment(chunk: string)
    requires |chunk| >= 2 && chunk[0] == '{' && chunk[1] != '{'
    ensures var d := FirstChunk(chunk); CommentToken(d) == Outcome(d, false)
  {
    var d := FirstChunk(chunk);
    assert IsEscaped(d, '{') == (d, false);
    assert Delimiter(d, '#') == (d, false);
  }

  lemma BraceAtStartNoElement(chunk: string)
    requires |chunk| >= 2 && chunk[0] == '{' && chunk[1] != '{'
    ensures var d := FirstChunk(chunk);
            && KeyToken(d) == Ok(Outcome(d, false))
            && ValueToken(d) == Ok(Outcome(d, false))
  {
    var d := FirstChunk(chunk);
    assert HandleNot(d, {'\t', '\n', ' ', '{', '}'}) == (d, false);
  }

  lemma BraceAtStartNoBracket(chunk: string)
    requires |chunk| >= 2 && chunk[0] == '{' && chunk[1] != '{'
    ensures var d := FirstChunk(chunk);
            && OpeningToken(d) == Ok(Outcome(d, false))
            && ClosingToken(d) == Ok(Outcome(d, false))
  {
    var d := FirstChunk(chunk);
    assert IsEscaped(d, '{') == (d, false);
    assert OpeningEnd(d) == (d, false);
  }

  // ---- "{{}": a doubled '{' is escaped ------------------------------------

  /**
   * try_parse("{{}"): the doubled '{' is an escaped brace, so it starts a
   * key whose text is "{{"; the unescaped '}' after it is taken by no
   * recognizer, and syntax_error reports it at line 1, column 2.
   */
  lemma DoubledBraceText()
    ensures TryParse("{{}") == Err(Luco(ParsingError, At(1, 2)))
  {
    DoubledBraceFed();
  }

  lemma DoubledBraceFed()
    ensures Feed(Start(), ("{{") + "}") == Err(Luco(ParsingError, At(1, 2)))
  {
    BracedTextCollected("{");
    assert "{" + "{" == "{{";
    var d := Start().(line := "{{");
    FeedTerminator(d, '}', "");
    assert d.(line := d.line + "}", i := 0) == FirstChunk("{{}");
    DoubledBraceChunk();
  }

  /** The three passes over "{{}": the key opens, takes the second '{', and the '}' fails. */
  lemma DoubledBraceChunk()
    ensures RunLine(FirstChunk("{{}")) == Err(Luco(ParsingError, At(1, 2)))
  {
    var d0 := FirstChunk("{{}");
    DoubledBraceOpensKey();
    RunLineNext(d0, KeyOfOneBrace());
    DoubledBraceExtendsKey();
    RunLineNext(KeyOfOneBrace().(i := 1), KeyOfTwoBraces());
    ClosingBraceAfterKey();
    RunLineStops(KeyOfTwoBraces().(i := 2));
  }

  /** The state after the first '{': a key frame, the key "{", and the escaped '{' recorded. */
  function KeyOfOneBrace(): (d: Data)
    ensures Valid(d) && d.i == 0 && !d.shift
    ensures d.hierarchy == [Frame(ObjectSyntax, 1, 0), Frame(Key, 1, 0)]
    ensures d.keys == [LucoSimpleTypes.EmptyText, LucoSimpleTypes.Text("{", LucoSimpleTypes.Unquoted)]
  {
    FirstChunk("{{}").(keys := [LucoSimpleTypes.EmptyText, LucoSimpleTypes.Text("{", LucoSimpleTypes.Unquoted)],
                       escape := Escape(0, false, '{'),
                       hierarchy := [Frame(ObjectSyntax, 1, 0), Frame(Key, 1, 0)])
  }

  /** The state after the second '{': the key "{{" and no escape recorded. */
  function KeyOfTwoBraces(): (d: Data)
    ensures Valid(d) && d.i == 1 && !d.shift
    ensures d.hierarchy == [Frame(ObjectSyntax, 1, 0), Frame(Key, 1, 0)]
    ensures d.keys == [LucoSimpleTypes.EmptyText, LucoSimpleTypes.Text("{{", LucoSimpleTypes.Unquoted)]
  {
    KeyOfOneBrace().(i := 1, keys := [LucoSimpleTypes.EmptyText, LucoSimpleTypes.Text("{{", LucoSimpleTypes.Unquoted)], escape := NoEscape)
  }

  lemma DoubledBraceOpensKey()
    ensures Parsing(FirstChunk("{{}")) == Ok(KeyOfOneBrace())
  {
    var d0 := FirstChunk("{{}");
    assert CommentToken(d0) == Outcome(d0, false) by {
      assert Delimiter(d0, '#') == (d0, false);
    }
    FirstBraceStartsKey();
    DispatchOrder(d0);
  }

  /** The first '{' is followed by another, so it is escaped and key_token takes it. */
  lemma FirstBraceStartsKey()
    ensures KeyToken(FirstChunk("{{}")) == Ok(Outcome(KeyOfOneBrace(), true))
  {
    var d0 := FirstChunk("{{}");
    var e := d0.(escape := Escape(0, false, '{'));
    var r := Register(e, Key).(keys := e.keys + [LucoSimpleTypes.EmptyText]);
    EscapedBraceStartsKey(d0);
    FirstBraceKeyBody(r);
    assert r.(keys := SetTop(r.keys, LucoSimpleTypes.Text("{", LucoSimpleTypes.Unquoted))) == KeyOfOneBrace();
  }

  /** In an object, a '{' doubled at the start of the line is escaped: key_token registers a key. */
  lemma EscapedBraceStartsKey(d: Data)
    requires Valid(d) && d.i == 0 && |d.line| >= 2 && d.line[0] == '{' && d.line[1] == '{'
    requires d.escape == NoEscape && IsRegistered(d, ObjectSyntax)
    ensures var e := d.(escape := Escape(0, false, '{'));
            KeyToken(d) == KeyBody(Register(e, Key).(keys := e.keys + [LucoSimpleTypes.EmptyText]))
  {
    assert IsEscaped(d, '{') == (d.(escape := Escape(0, false, '{')), true);
  }

  lemma FirstBraceKeyBody(r: Data)
    requires Valid(r) && r.i == 0 && |r.line| >= 2 && r.line[0] == '{' && r.line[1] == '{'
    requires r.escape == Escape(0, false, '{') && IsRegistered(r, Key)
    requires |r.keys| > 0 && Last(r.keys) == LucoSimpleTypes.EmptyText
    ensures KeyBody(r) == Ok(Outcome(r.(keys := SetTop(r.keys, LucoSimpleTypes.Text("{", LucoSimpleTypes.Unquoted))), true))
  {
    assert IsEscaped(r, '{') == (r, true);
    assert AppendString(r, LucoSimpleTypes.NoText, '{') == (r, false);
    assert StartOfText(r) == (r, LucoSimpleTypes.Unquoted, true);
    assert HandleEmptyInString(r, LucoSimpleTypes.NoText, '{') == (r, LucoSimpleTypes.Unquoted, true);
    assert [] + ['{'] == "{";
  }

  lemma DoubledBraceExtendsKey()
    ensures Parsing(KeyOfOneBrace().(i := 1)) == Ok(KeyOfTwoBraces())
  {
    var d1 := KeyOfOneBrace().(i := 1);
    assert CommentToken(d1) == Outcome(d1, false) by {
      assert Delimiter(d1, '#') == (d1, false);
    }
    SecondBraceExtendsKey();
    DispatchOrder(d1);
  }

  /** The second '{' is escaped by the first, so the key takes it as text. */
  lemma SecondBraceExtendsKey()
    ensures KeyToken(KeyOfOneBrace().(i := 1)) == Ok(Outcome(KeyOfTwoBraces(), true))
  {
    var d1 := KeyOfOneBrace().(i := 1);
    var e := d1.(escape := Escape(1, true, '{'));
    assert HandleExpected(d1, ['{', '=']) == (e, false) by {
      assert IsEscaped(d1, '{') == (e, true);
      assert HandleExpected(e, ['=']) == (e, false);
    }
    assert KeyToken(d1) == KeyEnd(d1);
    assert KeyEnd(d1) == KeyBody(e);
    SecondBraceKeyBody(e);
    assert e.(escape := NoEscape, keys := SetTop(e.keys, LucoSimpleTypes.Text("{{", LucoSimpleTypes.Unquoted))) == KeyOfTwoBraces();
  }

  lemma SecondBraceKeyBody(e: Data)
    requires Valid(e) && e.escape == Escape(1, true, '{') && Char(e) == '{' && IsRegistered(e, Key)
    requires |e.keys| > 0 && Last(e.keys) == LucoSimpleTypes.Text("{", LucoSimpleTypes.Unquoted)
    ensures KeyBody(e) == Ok(Outcome(e.(escape := NoEscape, keys := SetTop(e.keys, LucoSimpleTypes.Text("{{", LucoSimpleTypes.Unquoted))), true))
  {
    assert HandleEmptyInString(e, LucoSimpleTypes.Unquoted, '{') == (e.(escape := NoEscape), LucoSimpleTypes.Unquoted, true);
    assert "{" + ['{'] == "{{";
  }

  lemma ClosingBraceAfterKey()
    ensures Parsing(KeyOfTwoBraces().(i := 2)) == Err(Luco(ParsingError, At(1, 2)))
  {
    var d2 := KeyOfTwoBraces().(i := 2);
    ClosingBraceNoComment();
    ClosingBraceNoElement();
    ClosingBraceNoBracket();
    ClosingBraceSyntaxError();
    DispatchOrder(d2);
  }

  lemma ClosingBraceNoComment()
    ensures var d2 := KeyOfTwoBraces().(i := 2); CommentToken(d2) == Outcome(d2, false)
  {
  }

  lemma ClosingBraceNoElement()
    ensures var d2 := KeyOfTwoBraces().(i := 2);
            && KeyToken(d2) == Ok(Outcome(d2, false))
            && ValueToken(d2) == Ok(Outcome(d2, false))
  {
    ClosingBraceNoKey();
    ClosingBraceNoValue();
  }

  lemma ClosingBraceNoKey()
    ensures var d2 := KeyOfTwoBraces().(i := 2); KeyToken(d2) == Ok(Outcome(d2, false))
  {
    var d2 := KeyOfTwoBraces().(i := 2);
    ClosingBraceEndsNoKey(d2);
    assert SetTop(d2.keys, LucoSimpleTypes.Text("{{", LucoSimpleTypes.Unquoted)) == d2.keys;
  }

  lemma ClosingBraceNoValue()
    ensures var d2 := KeyOfTwoBraces().(i := 2); ValueToken(d2) == Ok(Outcome(d2, false))
  {
    NoValueInKey(KeyOfTwoBraces().(i := 2));
  }

  /** While a key is being read, value_token takes no character. */
  lemma NoValueInKey(d: Data)
    requires Valid(d) && IsRegistered(d, Key)
    ensures ValueToken(d) == Ok(Outcome(d, false))
  {
    assert !HandleIs(d, {EqualSign, ArraySyntax});
    assert ValueToken(d) == ValueFinish(d);
    assert ValueEnd(d) == (d, false);
  }

  /** An unescaped '}' at the end of the line is no part of an unquoted key and does not end it. */
  lemma ClosingBraceEndsNoKey(d: Data)
    requires Valid(d) && d.i + 1 == |d.line| && Char(d) == '}' && d.escape == NoEscape
    requires IsRegistered(d, Key) && |d.keys| > 0 && Last(d.keys).kind == LucoSimpleTypes.Unquoted
    ensures KeyToken(d) == Ok(Outcome(d.(keys := SetTop(d.keys, Last(d.keys))), false))
  {
    assert !HandleIs(d, {ObjectSyntax});
    assert HandleExpected(d, ['{', '=']) == (d, false);
    assert AppendString(d, LucoSimpleTypes.Unquoted, '}') == (d, false) by {
      assert IsEscaped(d, '}') == (d, false);
    }
    assert HandleEmptyInString(d, LucoSimpleTypes.Unquoted, '}') == (d, LucoSimpleTypes.Unquoted, false);
  }

  lemma ClosingBraceNoBracket()
    ensures var d2 := KeyOfTwoBraces().(i := 2);
            && OpeningToken(d2) == Ok(Outcome(d2, false))
            && ClosingToken(d2) == Ok(Outcome(d2, false))
  {
  }

  lemma ClosingBraceSyntaxError()
    ensures SyntaxError(KeyOfTwoBraces().(i := 2)) == Err(Luco(ParsingError, At(1, 2)))
  {
  }

  // The texts of invalid_luco whose first '{' is not doubled.

  lemma InvalidText()
    ensures TryParse("{invalid}") == Err(Luco(ParsingError, At(1, 0)))
  {
    var s := "invalid";
    assert "{" + s + "}" == "{invalid}";
    BracedText(s);
  }

  lemma MissingValueText()
    ensures TryParse("{\"name\":}") == Err(Luco(ParsingError, At(1, 0)))
  {
    var s := "\"name\":";
    assert "{" + s + "}" == "{\"name\":}";
    BracedText(s);
  }

  lemma TwoNumbersText()
    ensures TryParse("{\"age\":3 5}") == Err(Luco(ParsingError, At(1, 0)))
  {
    var s := "\"age\":3 5";
    assert "{" + s + "}" == "{\"age\":3 5}";
    BracedText(s);
  }

  lemma SplitBooleanText()
    ensures TryParse("{\"smol\":tru e}") == Err(Luco(ParsingError, At(1, 0)))
  {
    var s := "\"smol\":tru e";
    assert "{" + s + "}" == "{\"smol\":tru e}";
    BracedText(s);
  }

  lemma SplitNullText()
    ensures TryParse("{\"\"key\":nu ll}") == Err(Luco(ParsingError, At(1, 0)))
  {
    var s := "\"\"key\":nu ll";
    assert "{" + s + "}" == "{\"\"key\":nu ll}";
    BracedText(s);
  }
}
