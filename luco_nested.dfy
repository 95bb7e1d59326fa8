/*
 * A container inside the root object: a key followed by '{' opens a
 * transient bracket (include/parser.hpp:936-1045), the next line's text
 * and its '=' make it an object holding that text as its first key, and a
 * '}' on a line of its own closes it (include/parser.hpp:1334-1399).
 */
module LucoNested {
  import opened LucoError
  import opened LucoSimpleTypes
  import opened LucoParseState
  import opened LucoRecognizers
  import opened LucoParse
  import opened LucoLines
  import opened LucoEntries
  import opened LucoTree
  import opened LucoValue
  import Obj = LucoObject
  import opened LucoDocuments
  import opened LucoNumbers

  // ---- the rounds of a transient bracket ---------------------------------------

  /** The opening-bracket frame a key and its '{' leave, on the newline: it becomes a transient bracket. */
  lemma BracketAtNewline(d: Data)
    requires Ready(d) && Top(d) == OpeningBracket && d.raw == EmptyText && |d.keys| > 0 && Char(d) == '\n'
    ensures Parsing(d) == Ok(Register(Pop(d), TransientBracket))
  {
    CommentPasses(d);
    KeyPassesOutside(d);
    ValuePassesOutside(d);
    var t := Register(Pop(d), TransientBracket);
    assert OpeningBody(t) == Ok(Outcome(t, true));
    assert OpeningToken(d) == Ok(Outcome(t, true));
    TakenByOpening(d);
  }

  /** The opening recognizer's answer to a plain character under a transient bracket with no text read. */
  lemma BracketBodyStarts(d: Data)
    requires Ready(d) && Top(d) == TransientBracket && d.raw == EmptyText && |d.keys| > 0 && Plain(Char(d))
    ensures OpeningToken(d) == Ok(Outcome(d.(raw := Text([Char(d)], Unquoted)), true))
  {
    assert OpeningEnd(d) == (d, false);
    TextTakes(d, NoText);
    var d2 := d.(raw := Text("", Unquoted));
    assert d2.(raw := d2.raw.(s := d2.raw.s + [Char(d2)])) == d.(raw := Text([Char(d)], Unquoted));
  }

  /** Under a transient bracket with no text read, a plain character starts its unquoted text. */
  lemma BracketTextStarts(d: Data)
    requires Ready(d) && Top(d) == TransientBracket && d.raw == EmptyText && |d.keys| > 0 && Plain(Char(d))
    ensures Parsing(d) == Ok(d.(raw := Text([Char(d)], Unquoted)))
  {
    CommentPasses(d);
    KeyPassesOutside(d);
    ValuePassesOutside(d);
    BracketBodyStarts(d);
    TakenByOpening(d);
  }

  /** The opening recognizer's answer to an ordinary character under a transient bracket with unquoted text. */
  lemma BracketBodyGoesOn(d: Data)
    requires Ready(d) && Top(d) == TransientBracket && d.raw.kind == Unquoted && |d.keys| > 0 && Ordinary(Char(d))
    ensures OpeningToken(d) == Ok(Outcome(d.(raw := Text(d.raw.s + [Char(d)], Unquoted)), true))
  {
    assert HandleExpected(d, ['=', '{', '\n']) == (d, false);
    assert OpeningEnd(d) == (d, false);
    TextTakes(d, Unquoted);
  }

  /** Under a transient bracket, an ordinary character is appended to the unquoted text. */
  lemma BracketTextGoesOn(d: Data)
    requires Ready(d) && Top(d) == TransientBracket && d.raw.kind == Unquoted && |d.keys| > 0 && Ordinary(Char(d))
    ensures Parsing(d) == Ok(d.(raw := Text(d.raw.s + [Char(d)], Unquoted)))
  {
    CommentPasses(d);
    KeyPassesOutside(d);
    ValuePassesOutside(d);
    BracketBodyGoesOn(d);
    TakenByOpening(d);
  }

  /** The transient bracket popped and the key under it stripped of its trailing blanks. */
  function Stripped(d: Data): Data
    requires |d.hierarchy| > 0 && |d.keys| > 0
  {
    var k := Last(d.keys);
    Pop(d).(keys := SetTop(d.keys, Text(Strip(k.s, k.kind), k.kind)))
  }

  /**
   * The state after an '=' ends the text read under a transient bracket:
   * a new empty object stored under the stripped key in the object on top of
   * luco_objs and pushed onto it, with an object frame and an equal sign over
   * the bracket's place, and the text read as the new object's first key.
   */
  function ObjectOpened(d: Data): Data
    requires InObject(d) && |d.hierarchy| > 0 && |d.keys| > 0
  {
    var k := Last(d.keys);
    var key := Strip(k.s, k.kind);
    var o := Last(d.objs);
    d.(hierarchy := DropLast(d.hierarchy) + [Frame(ObjectSyntax, d.lineNumber, d.i), Frame(EqualSign, d.lineNumber, d.i)],
       keys := SetTop(d.keys, Text(key, k.kind)) + [d.raw], raw := EmptyText, objs := d.objs + [|d.cells|],
       cells := (d.cells + [NewCell(ObjectNode)])[o := ObjectCell(Obj.Insert(d.cells[o].entries, key, |d.cells|))])
  }

  /** An '=' not doubled ends the transient bracket's text: it chooses an object behind an equal sign. */
  lemma BracketEqualToken(d: Data)
    requires Ready(d) && Top(d) == TransientBracket && d.raw.kind == Unquoted && |d.keys| > 0
    requires Char(d) == '=' && NotDoubled(d, '=')
    ensures OpeningToken(d) == OpenContainer(Register(Register(Stripped(d), ObjectSyntax), EqualSign))
  {
    NotEscaped(d);
    assert HandleExpected(d, ['=', '{', '\n']) == (d, true);
    assert OpeningEnd(d) == (d, true);
    var s := Stripped(d);
    assert s.i == d.i && s.line == d.line && s.escape == NoEscape;
    NotEscaped(s);
    assert OpeningFinish(d) == OpeningChoice(s);
  }

  /** The container the equal sign opens in an object. */
  lemma ObjectOpenedIs(d: Data)
    requires Ready(d) && InObject(d) && |d.keys| > 0
    ensures OpenContainer(Register(Register(Stripped(d), ObjectSyntax), EqualSign)) == Ok(Outcome(ObjectOpened(d), true))
  {
    var k := Last(d.keys);
    var key := Strip(k.s, k.kind);
    var s := Register(Register(Stripped(d), ObjectSyntax), EqualSign);
    assert Top(s) == EqualSign && Last(s.keys).s == key && s.objs == d.objs && s.cells == d.cells;
    var o := Last(d.objs);
    var e := AddNew(s.cells, o, key, ObjectNode);
    assert e == InsertNew(d.cells, o, key, ObjectNode);
    assert e.result == Ok(|d.cells|);
    assert e.cells == (d.cells + [NewCell(ObjectNode)])[o := ObjectCell(Obj.Insert(d.cells[o].entries, key, |d.cells|))];
    assert s.hierarchy == DropLast(d.hierarchy) + [Frame(ObjectSyntax, d.lineNumber, d.i), Frame(EqualSign, d.lineNumber, d.i)];
  }

  /** An '=' not doubled after the transient bracket's text opens an object under the key. */
  lemma BracketEqual(d: Data)
    requires Ready(d) && Top(d) == TransientBracket && d.raw.kind == Unquoted && |d.keys| > 0 && InObject(d)
    requires Char(d) == '=' && NotDoubled(d, '=')
    ensures Parsing(d) == Ok(ObjectOpened(d))
  {
    CommentPasses(d);
    KeyPassesOutside(d);
    ValuePassesOutside(d);
    BracketEqualToken(d);
    ObjectOpenedIs(d);
    TakenByOpening(d);
  }

  /** A '}' not doubled in an object that sits in an object closes it, with its key and its place on luco_objs. */
  lemma CloseNested(d: Data)
    requires Ready(d) && Top(d) == ObjectSyntax && |d.hierarchy| > 1 && d.hierarchy[|d.hierarchy| - 2].syntax == ObjectSyntax
    requires |d.keys| > 0 && |d.objs| > 0 && Char(d) == '}' && NotDoubled(d, '}')
    ensures Parsing(d) == Ok(d.(hierarchy := DropLast(d.hierarchy), keys := DropLast(d.keys), objs := DropLast(d.objs)))
  {
    CommentPasses(d);
    KeyPassesInObject(d);
    ValuePassesOutside(d);
    OpeningPasses(d);
    NotEscaped(d);
    var c := Register(d, ClosingBracket);
    var d2 := Pop(c).(keys := SetTop(c.keys, EmptyText));
    assert Pop(d2).hierarchy == DropLast(d.hierarchy);
    assert DropLast(d2.keys) == DropLast(d.keys);
    assert CloseFrame(c) == CloseContainer(d2);
    TakenByClosing(d);
  }

  // ---- the document "a {\nb = 2\n}\n" -------------------------------------------

  /** The heap the document leaves: the root holds "a", an object that holds "b", the integer 2. */
  function NestedCells(): Cells
  {
    [ObjectCell([Obj.Entry("a", 1)]), ObjectCell([Obj.Entry("b", 2)]), ValueCell(FromInteger(2))]
  }

  /** A '{' not doubled ends the key: an opening-bracket frame takes the key's place. */
  lemma KeyBraceStep(d: Data)
    requires Ready(d) && Top(d) == Key && |d.keys| > 0 && Last(d.keys).kind == Unquoted
    requires Char(d) == '{' && NotDoubled(d, '{')
    ensures RunLine(d) == RunLine(Register(Pop(d), OpeningBracket).(i := d.i + 1))
  {
    var x := Register(Pop(d), OpeningBracket);
    KeyBrace(d);
    RunLineNextTo(d, x, x.(i := d.i + 1));
  }

  /** A '{' not doubled ends an unquoted key and registers an opening bracket in place of the key's frame. */
  lemma KeyBrace(d: Data)
    requires Ready(d) && Top(d) == Key && |d.keys| > 0 && Last(d.keys).kind == Unquoted
    requires Char(d) == '{' && NotDoubled(d, '{')
    ensures Parsing(d) == Ok(Register(Pop(d), OpeningBracket))
  {
    assert !ExpectedMultiLineString(Last(d.keys).kind);
    KeyEnds(d);
  }

  /** The states "a {" goes through: the key opened, its blank read, its '{'. */
  lemma OpenKeyStates(d: Data, d1: Data, d2: Data)
    requires InRoot(d) && d.i == 0 && d.line == "a {\n"
    requires d1 == Register(d, Key).(keys := [EmptyText, Text("a", Unquoted)], i := 1)
    requires d2 == d1.(i := 2, keys := [EmptyText, Text("a ", Unquoted)])
    ensures Idle(d) && Top(d) == ObjectSyntax && Plain(Char(d)) && KeyOpened(d) == d1
    ensures KeyCharAt(d1) && KeyNext(d1) == d2
    ensures Ready(d2) && Top(d2) == Key && |d2.keys| > 0 && Last(d2.keys).kind == Unquoted
    ensures Char(d2) == '{' && NotDoubled(d2, '{')
  {
    assert Plain(d.line[0]) && Ordinary(d.line[1]);
    assert Char(d1) == ' ' && Last(d1.keys).s + [' '] == "a ";
    assert SetTop(d1.keys, Text("a ", Unquoted)) == d2.keys;
  }

  /** "a " and its '{': the key is read with its blank and an opening-bracket frame takes the key's place. */
  lemma OpenKey(d: Data)
    requires InRoot(d) && d.i == 0 && d.line == "a {\n"
    ensures RunLine(d) == RunLine(d.(i := 3, hierarchy := d.hierarchy + [Frame(OpeningBracket, d.lineNumber, 2)],
                                     keys := [EmptyText, Text("a ", Unquoted)]))
  {
    var d1 := Register(d, Key).(keys := [EmptyText, Text("a", Unquoted)], i := 1);
    var d2 := d1.(i := 2, keys := [EmptyText, Text("a ", Unquoted)]);
    OpenKeyStates(d, d1, d2);
    KeyOpenStep(d);
    KeyStep(d1);
    KeyBraceStep(d2);
  }

  /** The newline after "a {": the opening bracket becomes a transient bracket and the line is done. */
  lemma OpenBracket(d: Data)
    requires Ready(d) && Top(d) == OpeningBracket && d.raw == EmptyText && |d.keys| > 0 && d.i == 3 && d.line == "a {\n"
    ensures RunLine(d) == Ok(Register(Pop(d), TransientBracket).(i := 4))
  {
    BracketAtNewline(d);
    var x := Register(Pop(d), TransientBracket);
    RunLineNextTo(d, x, x.(i := 4));
  }

  /** The state "a {" leaves before its newline, and what the newline makes of it. */
  lemma OpenLineStates(d: Data, b: Data, e: Data)
    requires InRoot(d) && d.i == 0 && d.line == "a {\n"
    requires b == d.(i := 3, hierarchy := d.hierarchy + [Frame(OpeningBracket, d.lineNumber, 2)], keys := [EmptyText, Text("a ", Unquoted)])
    requires e == d.(i := 4, hierarchy := [Frame(ObjectSyntax, 1, 0), Frame(TransientBracket, d.lineNumber, 3)],
                     keys := [EmptyText, Text("a ", Unquoted)])
    ensures Ready(b) && Top(b) == OpeningBracket && b.raw == EmptyText && |b.keys| > 0 && b.i == 3 && b.line == "a {\n"
    ensures Register(Pop(b), TransientBracket).(i := 4) == e
  {
  }

  /** The first line "a {\n" in the root object leaves a transient bracket over the key "a ". */
  lemma OpenLine(d: Data, e: Data)
    requires InRoot(d) && d.i == 0 && d.line == "a {\n"
    requires e == d.(i := 4, hierarchy := [Frame(ObjectSyntax, 1, 0), Frame(TransientBracket, d.lineNumber, 3)],
                     keys := [EmptyText, Text("a ", Unquoted)])
    ensures RunLine(d) == Ok(e)
  {
    var b := d.(i := 3, hierarchy := d.hierarchy + [Frame(OpeningBracket, d.lineNumber, 2)], keys := [EmptyText, Text("a ", Unquoted)]);
    OpenLineStates(d, b, e);
    OpenKey(d);
    OpenBracket(b);
  }

  /** The transient bracket over the key "a " that the first line leaves, before any text of its own. */
  predicate AfterOpen(x: Data)
  {
    Sound(x) && !x.shift && x.hierarchy == [Frame(ObjectSyntax, 1, 0), Frame(TransientBracket, 1, 3)]
    && x.keys == [EmptyText, Text("a ", Unquoted)] && x.objs == [0] && x.raw == EmptyText && x.escape == NoEscape
    && x.cells == [NewCell(ObjectNode)]
  }

  /** The states "b " goes through under the transient bracket. */
  lemma InnerTextStates(c: Data, y1: Data, y2: Data)
    requires AfterOpen(c) && c.i == 0 && c.line == "b = 2\n"
    requires y1 == c.(raw := Text("b", Unquoted), i := 1) && y2 == y1.(raw := Text("b ", Unquoted), i := 2)
    ensures Ready(c) && Top(c) == TransientBracket && c.raw == EmptyText && |c.keys| > 0 && Plain(Char(c))
    ensures y1 == c.(raw := Text([Char(c)], Unquoted)).(i := c.i + 1)
    ensures Ready(y1) && Top(y1) == TransientBracket && y1.raw.kind == Unquoted && |y1.keys| > 0 && Ordinary(Char(y1))
    ensures y2 == y1.(raw := Text(y1.raw.s + [Char(y1)], Unquoted)).(i := y1.i + 1)
  {
    assert Plain(c.line[0]) && Ordinary(c.line[1]);
    assert y1.raw.s + [Char(y1)] == "b ";
  }

  /** The text "b " read under the transient bracket. */
  lemma InnerText(c: Data, y2: Data)
    requires AfterOpen(c) && c.i == 0 && c.line == "b = 2\n"
    requires y2 == c.(raw := Text("b ", Unquoted), i := 2)
    ensures RunLine(c) == RunLine(y2)
  {
    var y1 := c.(raw := Text("b", Unquoted), i := 1);
    InnerTextStates(c, y1, y2);
    BracketTextStarts(c);
    RunLineNextTo(c, c.(raw := Text([Char(c)], Unquoted)), y1);
    BracketTextGoesOn(y1);
    RunLineNextTo(y1, y1.(raw := Text(y1.raw.s + [Char(y1)], Unquoted)), y2);
  }

  /** The state after the '=' of "b = 2": the object under "a", entered, with "b " as its key. */
  lemma OpenedState(y2: Data, e: Data)
    requires AfterOpen(y2.(raw := EmptyText, i := 0)) && y2.raw == Text("b ", Unquoted) && y2.i == 2 && y2.line == "b = 2\n"
    requires e == y2.(i := 3, hierarchy := [Frame(ObjectSyntax, 1, 0), Frame(ObjectSyntax, y2.lineNumber, 2), Frame(EqualSign, y2.lineNumber, 2)],
                      keys := [EmptyText, Text("a", Unquoted), Text("b ", Unquoted)], raw := EmptyText, objs := [0, 1],
                      cells := [ObjectCell([Obj.Entry("a", 1)]), ObjectCell([])])
    ensures Ready(y2) && Top(y2) == TransientBracket && y2.raw.kind == Unquoted && |y2.keys| > 0 && InObject(y2)
    ensures Char(y2) == '=' && NotDoubled(y2, '=')
    ensures ObjectOpened(y2).(i := 3) == e
  {
    StripBlanks("a", " ");
    assert "a" + " " == "a ";
    assert Obj.Insert([], "a", 1) == [Obj.Entry("a", 1)];
  }

  /** The '=' of "b = 2" opens the object under "a" and enters it. */
  lemma InnerEqual(y2: Data, e: Data)
    requires AfterOpen(y2.(raw := EmptyText, i := 0)) && y2.raw == Text("b ", Unquoted) && y2.i == 2 && y2.line == "b = 2\n"
    requires e == y2.(i := 3, hierarchy := [Frame(ObjectSyntax, 1, 0), Frame(ObjectSyntax, y2.lineNumber, 2), Frame(EqualSign, y2.lineNumber, 2)],
                      keys := [EmptyText, Text("a", Unquoted), Text("b ", Unquoted)], raw := EmptyText, objs := [0, 1],
                      cells := [ObjectCell([Obj.Entry("a", 1)]), ObjectCell([])])
    ensures RunLine(y2) == RunLine(e)
  {
    OpenedState(y2, e);
    BracketEqual(y2);
    RunLineNextTo(y2, ObjectOpened(y2), e);
  }

  /** The states the value "2" is read and stored through, inside the object under "a". */
  lemma InnerValueStates(e: Data, g: Data)
    requires !e.shift && e.escape == NoEscape && e.line == "b = 2\n" && e.i == 3
    requires e.hierarchy == [Frame(ObjectSyntax, 1, 0), Frame(ObjectSyntax, e.lineNumber, 2), Frame(EqualSign, e.lineNumber, 2)]
    requires e.keys == [EmptyText, Text("a", Unquoted), Text("b ", Unquoted)] && e.raw == EmptyText && e.objs == [0, 1]
    requires e.cells == [ObjectCell([Obj.Entry("a", 1)]), ObjectCell([])]
    requires g == e.(hierarchy := DropLast(e.hierarchy), keys := DropLast(e.keys))
    ensures BlanksAhead(e, 1) && ValueAt(Skip(e, 1), 1, false)
    ensures Sound(g) && |g.objs| > 0 && g.raw == EmptyText && Word(Skip(e, 1).line, Skip(e, 1).i, 1, false)
    ensures Skip(e, 1) == g.(hierarchy := g.hierarchy + [Frame(EqualSign, g.lineNumber, 2)], keys := g.keys + [Text("b ", Unquoted)], i := 4)
    ensures WordText(e.line, 4, 1, false) == Text("2", Unquoted)
  {
    assert LucoTree.WellFormed(e.cells) by {
      assert CellIn(e.cells[0], 2) && CellIn(e.cells[1], 2);
    }
    assert IsBlank(e.line[3]) && Plain(e.line[4]);
    assert e.line[4..5] == "2";
  }

  /** get_type("2") and the heap once 2 is stored under "b" in the object under "a". */
  lemma InnerStored(g: Data)
    requires Sound(g) && g.objs == [0, 1] && g.cells == [ObjectCell([Obj.Entry("a", 1)]), ObjectCell([])] && |g.line| == 6
    ensures Stored(g, "b", Text("2", Unquoted)) == Ok(g.(i := 6, cells := NestedCells()))
  {
    StripKeeps(Text("2", Unquoted));
    var s := "2";
    assert AllDigits(s) && s[..0] == "";
    assert DigitsValue(s) == 2;
    TypeOfDigits(s);
    var x := Scalar(FromInteger(2));
    assert Bind(g.cells, x).0 == g.cells + [ValueCell(FromInteger(2))];
    assert Obj.Insert([], "b", 2) == [Obj.Entry("b", 2)];
    assert Insert(g.cells, 1, "b", x).cells == NestedCells();
  }

  /** "b = 2" after the '=': 2 is stored under "b" in the object under "a". */
  lemma InnerValue(e: Data, g: Data)
    requires !e.shift && e.escape == NoEscape && e.line == "b = 2\n" && e.i == 3
    requires e.hierarchy == [Frame(ObjectSyntax, 1, 0), Frame(ObjectSyntax, e.lineNumber, 2), Frame(EqualSign, e.lineNumber, 2)]
    requires e.keys == [EmptyText, Text("a", Unquoted), Text("b ", Unquoted)] && e.raw == EmptyText && e.objs == [0, 1]
    requires e.cells == [ObjectCell([Obj.Entry("a", 1)]), ObjectCell([])]
    requires g == e.(hierarchy := DropLast(e.hierarchy), keys := DropLast(e.keys))
    ensures RunLine(e) == Ok(g.(i := 6, cells := NestedCells()))
  {
    InnerRead(e, g, Skip(e, 1));
    InnerStored(g);
  }

  /** "b = 2" after the '=': the value read is stored under the stripped key "b". */
  lemma InnerRead(e: Data, g: Data, v: Data)
    requires !e.shift && e.escape == NoEscape && e.line == "b = 2\n" && e.i == 3
    requires e.hierarchy == [Frame(ObjectSyntax, 1, 0), Frame(ObjectSyntax, e.lineNumber, 2), Frame(EqualSign, e.lineNumber, 2)]
    requires e.keys == [EmptyText, Text("a", Unquoted), Text("b ", Unquoted)] && e.raw == EmptyText && e.objs == [0, 1]
    requires e.cells == [ObjectCell([Obj.Entry("a", 1)]), ObjectCell([])]
    requires g == e.(hierarchy := DropLast(e.hierarchy), keys := DropLast(e.keys)) && v == Skip(e, 1)
    ensures Sound(g) && |g.objs| > 0
    ensures RunLine(e) == Stored(g, "b", Text("2", Unquoted))
  {
    InnerValueStates(e, g);
    InnerWord(e, g, v);
    InnerKey(e, g, v);
  }

  /** "b = 2" after the '=': the blank is skipped and the word "2" read. */
  lemma InnerWord(e: Data, g: Data, v: Data)
    requires !e.shift && e.escape == NoEscape && e.line == "b = 2\n" && e.i == 3
    requires e.hierarchy == [Frame(ObjectSyntax, 1, 0), Frame(ObjectSyntax, e.lineNumber, 2), Frame(EqualSign, e.lineNumber, 2)]
    requires e.keys == [EmptyText, Text("a", Unquoted), Text("b ", Unquoted)] && e.raw == EmptyText && e.objs == [0, 1]
    requires e.cells == [ObjectCell([Obj.Entry("a", 1)]), ObjectCell([])]
    requires g == e.(hierarchy := DropLast(e.hierarchy), keys := DropLast(e.keys)) && v == Skip(e, 1)
    requires BlanksAhead(e, 1) && ValueAt(v, 1, false)
    ensures RunLine(e) == ValueStored(ValueRead(v, 1, false))
  {
    AfterEqual(e, 1, 1, false);
  }

  /** The word "2" read after "b =" is stored under "b" in the object on top of luco_objs. */
  lemma InnerKey(e: Data, g: Data, v: Data)
    requires !e.shift && e.escape == NoEscape && e.line == "b = 2\n" && e.i == 3
    requires e.hierarchy == [Frame(ObjectSyntax, 1, 0), Frame(ObjectSyntax, e.lineNumber, 2), Frame(EqualSign, e.lineNumber, 2)]
    requires e.keys == [EmptyText, Text("a", Unquoted), Text("b ", Unquoted)] && e.raw == EmptyText && e.objs == [0, 1]
    requires e.cells == [ObjectCell([Obj.Entry("a", 1)]), ObjectCell([])]
    requires g == e.(hierarchy := DropLast(e.hierarchy), keys := DropLast(e.keys)) && v == Skip(e, 1)
    requires Sound(g) && |g.objs| > 0 && g.raw == EmptyText && Word(v.line, v.i, 1, false) && |v.hierarchy| > 0
    requires v == g.(hierarchy := g.hierarchy + [Frame(EqualSign, g.lineNumber, 2)], keys := g.keys + [Text("b ", Unquoted)], i := 4)
    requires WordText(e.line, 4, 1, false) == Text("2", Unquoted)
    requires Sound(ValueRead(v, 1, false)) && |ValueRead(v, 1, false).objs| > 0 && |ValueRead(v, 1, false).keys| > 0
    ensures ValueStored(ValueRead(v, 1, false)) == Stored(g, "b", Text("2", Unquoted))
  {
    StoredOver(g, v, 2, Text("b ", Unquoted), 1, false);
    StripBlanks("b", " ");
    assert "b" + " " == "b ";
  }

  /** The states of "b = 2" after its text and after its '=', and the state its value is stored from. */
  lemma InnerStates(c: Data, y2: Data, e: Data, g: Data, f: Data)
    requires AfterOpen(c) && c.i == 0 && c.line == "b = 2\n"
    requires y2 == c.(raw := Text("b ", Unquoted), i := 2)
    requires e == y2.(i := 3, hierarchy := [Frame(ObjectSyntax, 1, 0), Frame(ObjectSyntax, y2.lineNumber, 2), Frame(EqualSign, y2.lineNumber, 2)],
                      keys := [EmptyText, Text("a", Unquoted), Text("b ", Unquoted)], raw := EmptyText, objs := [0, 1],
                      cells := [ObjectCell([Obj.Entry("a", 1)]), ObjectCell([])])
    requires g == e.(hierarchy := DropLast(e.hierarchy), keys := DropLast(e.keys))
    requires f == c.(i := 6, hierarchy := [Frame(ObjectSyntax, 1, 0), Frame(ObjectSyntax, c.lineNumber, 2)],
                     keys := [EmptyText, Text("a", Unquoted)], objs := [0, 1], cells := NestedCells())
    ensures AfterOpen(y2.(raw := EmptyText, i := 0)) && y2.raw == Text("b ", Unquoted) && y2.i == 2 && y2.line == "b = 2\n"
    ensures !e.shift && e.escape == NoEscape && e.line == "b = 2\n" && e.i == 3
    ensures e.hierarchy == [Frame(ObjectSyntax, 1, 0), Frame(ObjectSyntax, e.lineNumber, 2), Frame(EqualSign, e.lineNumber, 2)]
    ensures e.keys == [EmptyText, Text("a", Unquoted), Text("b ", Unquoted)] && e.raw == EmptyText && e.objs == [0, 1]
    ensures e.cells == [ObjectCell([Obj.Entry("a", 1)]), ObjectCell([])]
    ensures g.(i := 6, cells := NestedCells()) == f
  {
    assert y2.(raw := EmptyText, i := 0) == c;
  }

  /** The line "b = 2" under the transient bracket: an object under "a", entered, holding 2 under "b". */
  lemma InnerLine(c: Data, f: Data)
    requires AfterOpen(c) && c.i == 0 && c.line == "b = 2\n"
    requires f == c.(i := 6, hierarchy := [Frame(ObjectSyntax, 1, 0), Frame(ObjectSyntax, c.lineNumber, 2)],
                     keys := [EmptyText, Text("a", Unquoted)], objs := [0, 1], cells := NestedCells())
    ensures RunLine(c) == Ok(f)
  {
    var y2 := c.(raw := Text("b ", Unquoted), i := 2);
    var e := y2.(i := 3, hierarchy := [Frame(ObjectSyntax, 1, 0), Frame(ObjectSyntax, y2.lineNumber, 2), Frame(EqualSign, y2.lineNumber, 2)],
                 keys := [EmptyText, Text("a", Unquoted), Text("b ", Unquoted)], raw := EmptyText, objs := [0, 1],
                 cells := [ObjectCell([Obj.Entry("a", 1)]), ObjectCell([])]);
    var g := e.(hierarchy := DropLast(e.hierarchy), keys := DropLast(e.keys));
    InnerStates(c, y2, e, g, f);
    InnerText(c, y2);
    InnerEqual(y2, e);
    InnerValue(e, g);
  }

  // ---- the document "a {\nb = 2\n}\n" ----------------------------------------------

  /** The state the line "}" starts from: the object under "a" entered, 2 stored under "b". */
  predicate InInner(x: Data)
  {
    Sound(x) && !x.shift && x.hierarchy == [Frame(ObjectSyntax, 1, 0), Frame(ObjectSyntax, 2, 2)]
    && x.keys == [EmptyText, Text("a", Unquoted)] && x.objs == [0, 1] && x.raw == EmptyText && x.escape == NoEscape
    && x.cells == NestedCells()
  }

  /** The line "}" closes the object under "a"; the root object alone is left. */
  lemma CloseLine(c: Data, e: Data)
    requires InInner(c) && c.i == 0 && c.line == "}"
    requires e == c.(i := 1, hierarchy := [Frame(ObjectSyntax, 1, 0)], keys := [EmptyText], objs := [0])
    ensures RunLine(c) == Ok(e)
  {
    var d1 := c.(hierarchy := DropLast(c.hierarchy), keys := DropLast(c.keys), objs := DropLast(c.objs));
    CloseNested(c);
    RunLineNextTo(c, d1, e);
  }

  /** The first line, "a {", fed from the start. */
  lemma NestedOpenFed(s: Data, rest: string, f: Data)
    requires s == Start()
    requires f == s.(i := 4, lineNumber := 2, hierarchy := [Frame(ObjectSyntax, 1, 0), Frame(TransientBracket, 1, 3)],
                     keys := [EmptyText, Text("a ", Unquoted)])
    ensures AfterOpen(f) && f.line == [] && f.lineNumber == 2
    ensures Feed(s, "a {\n" + rest) == Feed(f, rest)
  {
    FeedChunk(s, "a {\n", rest);
    var c := s.(line := s.line + "a {\n", i := 0);
    var e := c.(i := 4, hierarchy := [Frame(ObjectSyntax, 1, 0), Frame(TransientBracket, c.lineNumber, 3)],
                keys := [EmptyText, Text("a ", Unquoted)]);
    OpenLine(c, e);
    NextChunkOk(s, "a {\n", rest, e, f);
  }

  /** The second line, "b = 2", fed after the first. */
  lemma NestedInnerFed(x: Data, rest: string, f: Data)
    requires AfterOpen(x) && x.line == [] && x.lineNumber == 2
    requires f == x.(i := 6, lineNumber := 3, hierarchy := [Frame(ObjectSyntax, 1, 0), Frame(ObjectSyntax, 2, 2)],
                     keys := [EmptyText, Text("a", Unquoted)], objs := [0, 1], cells := NestedCells())
    ensures InInner(f) && f.line == [] && f.lineNumber == 3
    ensures Feed(x, "b = 2\n" + rest) == Feed(f, rest)
  {
    FeedChunk(x, "b = 2\n", rest);
    var c := x.(line := x.line + "b = 2\n", i := 0);
    var e := c.(i := 6, hierarchy := [Frame(ObjectSyntax, 1, 0), Frame(ObjectSyntax, c.lineNumber, 2)],
                keys := [EmptyText, Text("a", Unquoted)], objs := [0, 1], cells := NestedCells());
    InnerLine(c, e);
    NextChunkOk(x, "b = 2\n", rest, e, f);
  }

  /** The closing "}", fed after the second line. */
  lemma NestedBraceFed(x: Data, rest: string, f: Data)
    requires InInner(x) && x.line == [] && x.lineNumber == 3
    requires f == x.(i := 1, lineNumber := 4, hierarchy := [Frame(ObjectSyntax, 1, 0)], keys := [EmptyText], objs := [0])
    ensures InRoot(f) && f.line == []
    ensures Feed(x, "}" + rest) == Feed(f, rest)
  {
    FeedChunk(x, "}", rest);
    var c := x.(line := x.line + "}", i := 0);
    var e := c.(i := 1, hierarchy := [Frame(ObjectSyntax, 1, 0)], keys := [EmptyText], objs := [0]);
    CloseLine(c, e);
    NextChunkOk(x, "}", rest, e, f);
  }

  /** An empty line parsed in the root object, and the start of the next line. */
  lemma EmptyChunk(x: Data, e: Data, f: Data)
    requires InRoot(x) && x.line == [] && e == x.(line := "\n", i := 1) && f == x.(i := 1, lineNumber := x.lineNumber + 1)
    ensures RunLine(x.(line := x.line + "\n", i := 0)) == Ok(e) && f == e.(line := [], lineNumber := e.lineNumber + 1)
  {
    var c := x.(line := x.line + "\n", i := 0);
    EmptyLine(c);
    assert c.(i := 1) == e;
  }

  /** An empty line fed in the root object changes nothing but the line count. */
  lemma EmptyLineFed(x: Data, rest: string, f: Data)
    requires InRoot(x) && x.line == [] && f == x.(i := 1, lineNumber := x.lineNumber + 1)
    ensures InRoot(f) && f.line == []
    ensures Feed(x, "\n" + rest) == Feed(f, rest)
  {
    var e := x.(line := "\n", i := 1);
    EmptyChunk(x, e, f);
    ChunkFed(x, "\n", rest, e, f);
  }

  /** The final newline, fed in the root object. */
  lemma NestedNewlineFed(x: Data, f: Data)
    requires InRoot(x) && x.line == [] && f == x.(i := 1, lineNumber := x.lineNumber + 1)
    ensures Feed(x, "\n") == Ok(f)
  {
    EmptyLineFed(x, [], f);
    assert "\n" + [] == "\n";
  }

  /** The closing "}" and the final newline, fed after the second line. */
  lemma NestedCloseFed(x: Data, f: Data)
    requires InInner(x) && x.line == [] && x.lineNumber == 3
    requires f == x.(i := 1, lineNumber := 5, hierarchy := [Frame(ObjectSyntax, 1, 0)], keys := [EmptyText], objs := [0])
    ensures Feed(x, "}" + "\n") == Ok(f)
  {
    var g := x.(i := 1, lineNumber := 4, hierarchy := [Frame(ObjectSyntax, 1, 0)], keys := [EmptyText], objs := [0]);
    NestedBraceFed(x, "\n", g);
    NestedNewlineFed(g, f);
  }

  lemma NestedInput(input: string)
    requires input == "a {\nb = 2\n}\n"
    ensures input == "a {\n" + ("b = 2\n" + ("}" + "\n"))
  {
  }

  /**
   * try_parse("a {\nb = 2\n}\n"): the root object holds under "a" an object
   * whose one entry "b" is the integer 2.
   */
  lemma NestedObject(input: string)
    requires input == "a {\nb = 2\n}\n"
    ensures TryParse(input) == Ok(Parsed(NestedCells(), 0))
  {
    NestedInput(input);
    var s := Start();
    var f1 := s.(i := 4, lineNumber := 2, hierarchy := [Frame(ObjectSyntax, 1, 0), Frame(TransientBracket, 1, 3)],
                 keys := [EmptyText, Text("a ", Unquoted)]);
    NestedOpenFed(s, "b = 2\n" + ("}" + "\n"), f1);
    var f2 := f1.(i := 6, lineNumber := 3, hierarchy := [Frame(ObjectSyntax, 1, 0), Frame(ObjectSyntax, 2, 2)],
                  keys := [EmptyText, Text("a", Unquoted)], objs := [0, 1], cells := NestedCells());
    NestedInnerFed(f1, "}" + "\n", f2);
    var f3 := f2.(i := 1, lineNumber := 5, hierarchy := [Frame(ObjectSyntax, 1, 0)], keys := [EmptyText], objs := [0]);
    NestedCloseFed(f2, f3);
    ParsedAsFed(input, f3);
  }
}
