/*
 * parser::try_parse(string) (include/parser.hpp:1628-1673): the text is cut
 * into chunks, each ending at a newline, a ',' or a '}'; every character of a
 * chunk is offered to parser::parsing, and a recognizer that asks for it may
 * have the character looked at once more (shift_index_backward_for_oldnewline).
 */
module LucoParse {
  import opened LucoError
  import opened LucoSimpleTypes
  import opened LucoParseState
  import opened LucoRecognizers
  import LucoTree

  // ---- the loop over one chunk --------------------------------------------------

  /**
   * The inner loop of try_parse over the chunk held in d.line, from the
   * cursor on.  A pass that asks for the character once more and closes a
   * frame runs again on the same character; one that closes none is stalled
   * (see Stalled).
   */
  function RunLine(d: Data): (r: Result<Data>)
    requires Sound(d) && d.i <= |d.line| && !d.shift
    ensures r.Ok? ==> Sound(r.value) && !r.value.shift && r.value.i == |d.line|
    ensures r.Ok? ==> r.value.line == d.line && r.value.lineNumber == d.lineNumber && r.value.eof == d.eof
    ensures r.Ok? ==> LucoTree.KeepsKinds(d.cells, r.value.cells)
    decreases |d.line| - d.i, |d.hierarchy|, 1
  {
    if d.i == |d.line| then Ok(d) else Pass(d)
  }

  /** One round of the inner loop: a pass over the cursor's character, and the rest of the chunk after it. */
  function Pass(d: Data): (r: Result<Data>)
    requires Valid(d) && !d.shift
    ensures r.Ok? ==> Sound(r.value) && !r.value.shift && r.value.i == |d.line|
    ensures r.Ok? ==> r.value.line == d.line && r.value.lineNumber == d.lineNumber && r.value.eof == d.eof
    ensures r.Ok? ==> LucoTree.KeepsKinds(d.cells, r.value.cells)
    decreases |d.line| - d.i, |d.hierarchy|, 0
  {
    var d1 :- Parsing(d);
    if d1.shift && |d1.hierarchy| >= |d.hierarchy| then Stalled(d1.(shift := false))
    else
      var r := RunLine(Advance(d1));
      if r.Ok? then KeepsKindsTransitive(d.cells, d1.cells, r.value.cells); r else r
  }

  /** After a pass: the next character, or the same one once more when the pass asked for it. */
  function Advance(d: Data): (d': Data)
    ensures d'.shift == false && d'.hierarchy == d.hierarchy
    ensures d.shift ==> d' == d.(shift := false)
    ensures !d.shift ==> d' == d.(i := d.i + 1)
  {
    if d.shift then d.(shift := false) else d.(i := d.i + 1)
  }

  lemma KeepsKindsTransitive(a: LucoTree.Cells, b: LucoTree.Cells, c: LucoTree.Cells)
    requires LucoTree.KeepsKinds(a, b) && LucoTree.KeepsKinds(b, c)
    ensures LucoTree.KeepsKinds(a, c)
  {
  }

  /**
   * A pass asked for the character once more without closing a frame.  The
   * C++ loop runs the same pass again and again; the model runs two more
   * passes and, when neither reports an error, gives Diverges.  Such a pass
   * comes only from a stuck state (StallIsStuck), where a pass reduces to
   * syntax_error (StuckPass, StalledOnlySyntaxError), and after those two
   * passes the state is a fixed point (StalledRunsForever), from which the
   * C++ loop does not come back.
   */
  function Stalled(d: Data): (r: Result<Data>)
    requires Valid(d)
    ensures r.Err?
  {
    var p1 :- Parsing(d);
    LastPass(p1.(shift := false))
  }

  /** The second of the two passes of Stalled. */
  function LastPass(d: Data): (r: Result<Data>)
    requires Valid(d)
    ensures r.Err?
  {
    var _ :- Parsing(d);
    Err(Diverges)
  }

  // ---- the chunks ---------------------------------------------------------------

  /** The characters that end a chunk. */
  predicate Terminator(c: char) { c == '\n' || c == ',' || c == '}' }

  /**
   * The outer loop of try_parse over the rest of the input: each character is
   * added to the chunk, and a terminator has the chunk parsed and starts a new
   * one on the next line number.  What follows the last terminator is never
   * parsed.
   */
  function Feed(d: Data, input: string): (r: Result<Data>)
    requires Sound(d) && !d.shift
    ensures r.Ok? ==> Sound(r.value) && !r.value.shift
    ensures r.Ok? ==> LucoTree.KeepsKinds(d.cells, r.value.cells)
    decreases |input|
  {
    if input == [] then Ok(d)
    else
      var d1 :- Take(d, input[0]);
      var r := Feed(d1, input[1..]);
      if r.Ok? then KeepsKindsTransitive(d.cells, d1.cells, r.value.cells); r else r
  }

  /** One character of the input: added to the chunk, which a terminator has parsed. */
  function Take(d: Data, ch: char): (r: Result<Data>)
    requires Sound(d) && !d.shift
    ensures r.Ok? ==> Sound(r.value) && !r.value.shift && LucoTree.KeepsKinds(d.cells, r.value.cells)
    ensures !Terminator(ch) ==> r == Ok(d.(line := d.line + [ch]))
  {
    var d1 := d.(line := d.line + [ch]);
    if Terminator(ch) then EndChunk(d1) else Ok(d1)
  }

  /**
   * The end of a chunk: it is parsed from its first character, then
   * cleared, and the line number counts one more.
   */
  function EndChunk(d: Data): (r: Result<Data>)
    requires Sound(d) && !d.shift
    ensures r.Ok? ==> Sound(r.value) && !r.value.shift && LucoTree.KeepsKinds(d.cells, r.value.cells)
    ensures r.Ok? ==> r.value.line == [] && r.value.lineNumber == d.lineNumber + 1
  {
    FinishChunk(RunLine(d.(i := 0)))
  }

  /** After the inner loop: the line is cleared and the line number moves on; an error stops the feed. */
  function FinishChunk(r: Result<Data>): (f: Result<Data>)
    ensures r.Err? <==> f.Err?
    ensures r.Err? ==> f.error == r.error
    ensures r.Ok? ==> f.value == r.value.(line := [], lineNumber := r.value.lineNumber + 1)
  {
    var d2 :- r;
    Ok(d2.(line := [], lineNumber := d2.lineNumber + 1))
  }

  /** The chunk extended by the given characters and parsed from its start; the rest of the input is fed on the next line. */
  function NextChunk(d: Data, chunk: string, rest: string): Result<Data>
    requires Sound(d) && !d.shift
  {
    var d2 :- RunLine(d.(line := d.line + chunk, i := 0));
    Feed(d2.(line := [], lineNumber := d2.lineNumber + 1), rest)
  }

  /** Characters other than terminators are only collected into the chunk. */
  lemma {:induction false} FeedPrefix(d: Data, prefix: string, rest: string)
    requires Sound(d) && !d.shift
    requires forall k :: 0 <= k < |prefix| ==> !Terminator(prefix[k])
    ensures Feed(d, prefix + rest) == Feed(d.(line := d.line + prefix), rest)
    decreases |prefix|
  {
    if prefix == [] {
      assert prefix + rest == rest && d.line + prefix == d.line;
    } else {
      var p := prefix[1..];
      var d1 := d.(line := d.line + [prefix[0]]);
      assert !Terminator(prefix[0]);
      FeedOrdinary(d, prefix[0], p + rest);
      assert [prefix[0]] + (p + rest) == prefix + rest;
      assert forall k :: 0 <= k < |p| ==> p[k] == prefix[k + 1];
      FeedPrefix(d1, p, rest);
      assert d1.line + p == d.line + prefix;
    }
  }

  lemma FeedOrdinary(d: Data, ch: char, rest: string)
    requires Sound(d) && !d.shift && !Terminator(ch)
    ensures Feed(d, [ch] + rest) == Feed(d.(line := d.line + [ch]), rest)
  {
    var input := [ch] + rest;
    assert input[0] == ch && input[1..] == rest;
  }

  /** A terminator has the chunk parsed; the next chunk starts on the next line. */
  lemma FeedTerminator(d: Data, t: char, rest: string)
    requires Sound(d) && !d.shift && Terminator(t)
    ensures Feed(d, [t] + rest) == NextChunk(d, [t], rest)
  {
    var input := [t] + rest;
    assert input[0] == t && input[1..] == rest;
  }

  /** What follows the last terminator is only collected, never parsed. */
  lemma FeedTail(d: Data, tail: string)
    requires Sound(d) && !d.shift
    requires forall k :: 0 <= k < |tail| ==> !Terminator(tail[k])
    ensures Feed(d, tail) == Ok(d.(line := d.line + tail))
  {
    FeedPrefix(d, tail, []);
    assert tail + [] == tail;
  }

  /** A pass that consumes the character, or passes it on, moves the cursor to the next one. */
  lemma RunLineNext(d: Data, d1: Data)
    requires Valid(d) && !d.shift && Parsing(d) == Ok(d1) && !d1.shift
    ensures RunLine(d) == RunLine(d1.(i := d.i + 1))
  {
    assert Advance(d1) == d1.(i := d.i + 1);
  }

  /** After a pass that reports no error, the chunk goes on from where the pass left the cursor. */
  lemma RunLineStep(d: Data, d1: Data)
    requires Valid(d) && !d.shift && Parsing(d) == Ok(d1)
    ensures RunLine(d) == if d1.shift && |d1.hierarchy| >= |d.hierarchy| then Stalled(d1.(shift := false)) else RunLine(Advance(d1))
  {
  }

  /** An error of a pass ends the chunk, and with it the parse. */
  lemma RunLineStops(d: Data)
    requires Valid(d) && !d.shift && Parsing(d).Err?
    ensures RunLine(d) == Err(Parsing(d).error)
  {
  }

  /**
   * The parsing_data try_parse starts from: an empty root object (cell 0)
   * on luco_objs, its object frame registered at line 1, column 0, and one
   * empty key.
   */
  function Start(): (d: Data)
    ensures Sound(d) && !d.shift && d.line == [] && d.lineNumber == 1
    ensures d.hierarchy == [Frame(ObjectSyntax, 1, 0)] && d.objs == [0] && d.keys == [EmptyText]
    ensures d.cells == [LucoTree.NewCell(LucoTree.ObjectNode)] && d.raw == EmptyText && d.escape == NoEscape
  {
    Data([], 0, 1, false, false, [EmptyText], [0], NoEscape, EmptyText, [Frame(ObjectSyntax, 1, 0)], 0,
         [LucoTree.NewCell(LucoTree.ObjectNode)])
  }

  /** What try_parse returns: the heap of nodes and the root node. */
  datatype Parsed = Parsed(cells: LucoTree.Cells, root: LucoTree.Ref)

  /**
   * parser::try_parse(string): an error of a recognizer ends the parse; at
   * the end a nested comment still open is a parse error at the place it
   * opened.  The result is always an object: the root is the object cell 0,
   * which the parser only ever inserts into.
   */
  function TryParse(input: string): (r: Result<Parsed>)
    ensures r.Ok? ==> LucoTree.WellFormed(r.value.cells) && r.value.root < |r.value.cells|
    ensures r.Ok? ==> r.value.root == 0 && r.value.cells[0].ObjectCell?
  {
    var d :- Feed(Start(), input);
    if |d.hierarchy| == 0 then Err(UndefinedBehaviour)
    else if Top(d) == NestedComment then
      var f := Last(d.hierarchy);
      Err(Luco(ParsingError, At(f.line, f.column)))
    else Ok(Parsed(d.cells, 0))
  }

  // ---- a stalled pass runs for ever -----------------------------------------------

  /**
   * The states in which a pass asks for the character once more without
   * closing a frame: a flush_value frame on top while the value's text waits
   * for its next line.
   */
  predicate Stuck(d: Data)
  {
    Valid(d) && !d.shift && IsRegistered(d, FlushValue) && ExpectedMultiLineString(d.raw.kind) && Char(d) != '#'
  }

  /** The escape record a pass over a stuck state leaves: only syntax_error may call is_escaped. */
  function StuckEscape(d: Data): Escape
    requires d.i < |d.line|
  {
    if Char(d) == '}' || (Char(d) == '\\' && d.raw.kind in {EscapedQuoted1, EscapedQuoted2}) then
      IsEscaped(d, Char(d)).0.escape
    else d.escape
  }

  /** The comment, the key, the opening and the closing recognizer leave a stuck state alone. */
  lemma QuietOnStuck(d: Data)
    requires Stuck(d)
    ensures CommentToken(d) == Outcome(d, false)
    ensures KeyToken(d) == Ok(Outcome(d, false))
    ensures OpeningToken(d.(shift := true)) == Ok(Outcome(d.(shift := true), false))
    ensures ClosingToken(d.(shift := true)) == Ok(Outcome(d.(shift := true), false))
  {
    CommentOnStuck(d);
    KeyOnFlush(d);
    OpeningOnStuck(d);
    ClosingOnStuck(d);
  }

  lemma CommentOnStuck(d: Data)
    requires Stuck(d)
    ensures CommentToken(d) == Outcome(d, false)
  {
    assert Delimiter(d, '#') == (d, false);
  }

  lemma OpeningOnStuck(d: Data)
    requires Stuck(d)
    ensures OpeningToken(d.(shift := true)) == Ok(Outcome(d.(shift := true), false))
  {
    var d' := d.(shift := true);
    assert OpeningEnd(d') == (d', false);
  }

  lemma ClosingOnStuck(d: Data)
    requires Stuck(d)
    ensures ClosingToken(d.(shift := true)) == Ok(Outcome(d.(shift := true), false))
  {
  }

  /** The value recognizer asks for the character of a stuck state once more. */
  lemma ValueOnStuck(d: Data)
    requires Stuck(d)
    ensures ValueToken(d) == Ok(Outcome(d.(shift := true), false))
  {
    assert ValueEnd(d) == (d.(shift := true), true);
  }

  /** syntax_error on a stuck state: at most one is_escaped, and an error or nothing else. */
  lemma SyntaxErrorOnStuck(d: Data)
    requires Stuck(d)
    ensures var d' := d.(shift := true);
            SyntaxError(d').Ok? ==> SyntaxError(d').value == d'.(escape := StuckEscape(d))
  {
    var d' := d.(shift := true);
    assert Char(d') == Char(d);
    assert IsEscaped(d', Char(d)).0.escape == IsEscaped(d, Char(d)).0.escape;
  }

  /** When no recognizer consumes the character, syntax_error has the last word. */
  lemma ParsingFallsThrough(d: Data, d': Data)
    requires Valid(d) && Valid(d')
    requires CommentToken(d) == Outcome(d, false) && KeyToken(d) == Ok(Outcome(d, false))
    requires ValueToken(d) == Ok(Outcome(d', false)) && OpeningToken(d') == Ok(Outcome(d', false))
    requires ClosingToken(d') == Ok(Outcome(d', false))
    ensures Parsing(d) == SyntaxError(d')
  {
    assert AfterComment(d) == AfterKey(d);
    assert AfterKey(d) == AfterValue(d');
    assert AfterValue(d') == AfterOpening(d');
  }

  /** A pass over a stuck state changes nothing but the request and the escape record. */
  lemma StuckPass(d: Data)
    requires Stuck(d)
    ensures Parsing(d).Ok? ==> Parsing(d).value == d.(shift := true, escape := StuckEscape(d))
  {
    var d' := d.(shift := true);
    assert Valid(d');
    QuietOnStuck(d);
    ValueOnStuck(d);
    ParsingFallsThrough(d, d');
    SyntaxErrorOnStuck(d);
  }

  /** A pass over a stuck state fails exactly when syntax_error does, with its error. */
  lemma StuckPassFails(d: Data)
    requires Stuck(d)
    ensures Parsing(d).Err? <==> SyntaxError(d.(shift := true)).Err?
    ensures Parsing(d).Err? ==> Parsing(d) == Err(SyntaxError(d.(shift := true)).error)
  {
    var d' := d.(shift := true);
    assert Valid(d');
    QuietOnStuck(d);
    ValueOnStuck(d);
    ParsingFallsThrough(d, d');
  }

  /** The key recognizer does not consume a character while a flush_value frame is on top. */
  lemma KeyOnFlush(d: Data)
    requires Valid(d) && IsRegistered(d, FlushValue)
    ensures KeyToken(d) == Ok(Outcome(d, false))
  {
  }

  /**
   * A pass that does not consume the character leaves a flush_value frame
   * on top only when it found one there.
   */
  lemma KeyKeepsFlush(d: Data)
    requires Valid(d) && KeyToken(d).Ok? && !KeyToken(d).value.done && IsRegistered(KeyToken(d).value.data, FlushValue)
    ensures IsRegistered(d, FlushValue)
  {
  }

  /** Only a pass over a stuck state asks for the character once more without closing a frame. */
  lemma StallIsStuck(d: Data)
    requires Valid(d) && !d.shift && Parsing(d).Ok?
    requires Parsing(d).value.shift && |Parsing(d).value.hierarchy| >= |d.hierarchy|
    ensures Stuck(d)
  {
    var o1 := CommentToken(d);
    if !o1.done {
      var r2 := KeyToken(d);
      assert r2.Ok?;
      if !r2.value.done {
        var r3 := ValueToken(r2.value.data);
        assert r3.Ok?;
        if r3.value.data.shift {
          KeyKeepsFlush(d);
          KeyOnFlush(d);
          if !ExpectedMultiLineString(d.raw.kind) {
            ValueOnFlushEnd(d);
          }
        }
      }
    }
  }

  /** A flush_value frame whose text is complete: the value is stored and the frame closed. */
  lemma ValueOnFlushEnd(d: Data)
    requires Valid(d) && IsRegistered(d, FlushValue) && !ExpectedMultiLineString(d.raw.kind)
    ensures ValueToken(d).Ok? ==> ValueToken(d).value.done && |ValueToken(d).value.data.hierarchy| < |d.hierarchy|
  {
    assert ValueEnd(d) == (d.(shift := true), true);
  }

  /** The escape record settles after two passes: is_escaped at a fixed place is idempotent from there on. */
  lemma EscapeSettles(d: Data)
    requires d.i < |d.line| && SoundEscape(d.escape)
    ensures var d1 := d.(escape := StuckEscape(d));
            var d2 := d1.(escape := StuckEscape(d1));
            StuckEscape(d2) == d2.escape
  {
  }

  /**
   * Only syntax_error can end a stalled chunk: the first pass of Stalled
   * fails exactly when syntax_error fails on the stalled state, with its
   * error, and the last pass starts from a stuck state again (StuckLastPass).
   */
  lemma StalledOnlySyntaxError(d: Data, d1: Data)
    requires Valid(d) && !d.shift && Parsing(d) == Ok(d1) && d1.shift && |d1.hierarchy| >= |d.hierarchy|
    ensures var s1 := d1.(shift := false);
            var s2 := s1.(escape := StuckEscape(s1));
            Stuck(s2) && Stalled(s1) == if SyntaxError(d1).Err? then Err(SyntaxError(d1).error) else LastPass(s2)
  {
    StallIsStuck(d);
    StuckPass(d);
    assert d1.(shift := false) == d.(escape := StuckEscape(d));
    StuckStallEnds(d);
  }

  lemma StuckStallEnds(d: Data)
    requires Stuck(d)
    ensures var s1 := d.(escape := StuckEscape(d));
            var s2 := s1.(escape := StuckEscape(s1));
            var e := SyntaxError(s1.(shift := true));
            Stuck(s2) && Stalled(s1) == if e.Err? then Err(e.error) else LastPass(s2)
  {
    StuckEscapeStuck(d);
    var s1 := d.(escape := StuckEscape(d));
    StuckEscapeStuck(s1);
    StuckFirstPass(s1);
  }

  /** The escape record a pass leaves does not unstick the state. */
  lemma StuckEscapeStuck(d: Data)
    requires Stuck(d)
    ensures Stuck(d.(escape := StuckEscape(d)))
  {
  }

  /** From a stuck state the first pass of Stalled is syntax_error's. */
  lemma StuckFirstPass(s: Data)
    requires Stuck(s)
    ensures var e := SyntaxError(s.(shift := true));
            Stalled(s) == if e.Err? then Err(e.error) else LastPass(s.(escape := StuckEscape(s)))
  {
    StuckPassFails(s);
    StuckStep(s);
  }

  /** From a stuck state the last pass of Stalled fails with syntax_error's error, or Stalled gives Diverges. */
  lemma StuckLastPass(s: Data)
    requires Stuck(s)
    ensures var e := SyntaxError(s.(shift := true));
            LastPass(s) == if e.Err? then Err(e.error) else Err(Diverges)
  {
    StuckPassFails(s);
  }

  /**
   * A stalled pass runs for ever: when the two passes after it report no
   * error the state is back where the second left it, and the C++ loop
   * looks at the same character in the same state again.
   */
  lemma StalledRunsForever(d: Data)
    requires Valid(d) && !d.shift && Parsing(d).Ok?
    requires Parsing(d).value.shift && |Parsing(d).value.hierarchy| >= |d.hierarchy|
    ensures var s1 := Parsing(d).value.(shift := false);
            Parsing(s1).Ok? ==>
              var s2 := Parsing(s1).value.(shift := false);
              Parsing(s2).Ok? ==> s2 == d.(escape := s2.escape) && Parsing(s2) == Ok(s2.(shift := true))
  {
    StallIsStuck(d);
    StuckPass(d);
    assert Parsing(d).value.(shift := false) == d.(escape := StuckEscape(d));
    StuckFixpoint(d);
  }

  /** From a stuck state, two passes that report no error reach a state the next pass leaves alone. */
  lemma StuckFixpoint(d: Data)
    requires Stuck(d)
    ensures var s1 := d.(escape := StuckEscape(d));
            Parsing(s1).Ok? ==>
              var s2 := Parsing(s1).value.(shift := false);
              Parsing(s2).Ok? ==> s2 == d.(escape := s2.escape) && Parsing(s2) == Ok(s2.(shift := true))
  {
    var s1 := d.(escape := StuckEscape(d));
    assert Stuck(s1);
    StuckStep(s1);
    if Parsing(s1).Ok? {
      var s2 := Parsing(s1).value.(shift := false);
      StuckPass(s2);
      EscapeSettles(d);
    }
  }

  /** A pass from a stuck state that reports no error leaves a stuck state; only the escape record changes. */
  lemma StuckStep(s: Data)
    requires Stuck(s)
    ensures Parsing(s).Ok? ==> Parsing(s).value.(shift := false) == s.(escape := StuckEscape(s))
    ensures Parsing(s).Ok? ==> Stuck(Parsing(s).value.(shift := false))
  {
    StuckPass(s);
    StuckEscapeStuck(s);
  }


}
