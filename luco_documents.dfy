/*
 * What try_parse builds from valid texts: one entry per line, and the
 * document of the parsing_simple_luco test (tests/test.cpp:33-61).
 */
module LucoDocuments {
  import opened LucoError
  import opened LucoSimpleTypes
  import opened LucoParseState
  import opened LucoParse
  import opened LucoLines
  import opened LucoEntries
  import opened LucoTree
  import opened LucoValue
  import opened LucoNumbers
  import Obj = LucoObject
  import LucoScenarios

  /** get_type on a numeral that fits in 64 bits: the integer. */
  lemma TypeOfDigits(s: string)
    requires s != [] && AllDigits(s) && DigitsValue(s) <= Int64Max
    ensures GetType(s) == Ok(FromInteger(DigitsValue(s)))
  {
    assert !LucoSimpleTypes.IsNull(s) by {
      assert IsDigit(s[0]) && !IsDigit("null"[0]);
    }
  }

  /** get_type("1"): the integer 1. */
  lemma TypeOfOne()
    ensures GetType("1") == Ok(FromInteger(1))
  {
    var s := "1";
    assert AllDigits(s) && s[..0] == "";
    assert DigitsValue(s) == 1;
    TypeOfDigits(s);
  }

  /** The heap after "a" is set to 1 in the empty root object. */
  lemma RootGetsA()
    ensures Insert([NewCell(ObjectNode)], 0, "a", Scalar(FromInteger(1))).cells
         == [ObjectCell([Obj.Entry("a", 1)]), ValueCell(FromInteger(1))]
  {
  }

  /** A text that does not end in a blank is kept whole by strip_if_unqouted_string. */
  lemma StripKeeps(t: Text)
    requires t.s != [] && !IsBlank(t.s[|t.s| - 1])
    ensures Strip(t.s, t.kind) == t.s
  {
  }

  /** The line "a=1\n" has the entry shape: the key "a" and the value "1". */
  lemma OneEntryShape(d: Data)
    requires d == LucoScenarios.FirstChunk("a=1\n")
    ensures EntryLine(d, Layout(0, 1, false, 0, 1, false))
    ensures KeyText(d, Layout(0, 1, false, 0, 1, false)) == Text("a", Unquoted)
    ensures ValueText(d, Layout(0, 1, false, 0, 1, false)) == Text("1", Unquoted)
  {
    assert Plain(d.line[0]) && Plain(d.line[2]);
  }

  /** The key of "a=1\n" strips to "a" and its value types to the integer 1. */
  lemma OneEntryTexts(key: Text, value: Text)
    requires key == Text("a", Unquoted) && value == Text("1", Unquoted)
    ensures Strip(key.s, key.kind) == "a" && GetType(Strip(value.s, value.kind)) == Ok(FromInteger(1))
  {
    StripKeeps(key);
    StripKeeps(value);
    TypeOfOne();
  }

  /** The first chunk of "a=1\n" stores 1 under "a" in the root object. */
  lemma OneEntryChunk(d: Data)
    requires d == LucoScenarios.FirstChunk("a=1\n")
    ensures RunLine(d) == Ok(d.(i := 4, cells := [ObjectCell([Obj.Entry("a", 1)]), ValueCell(FromInteger(1))]))
  {
    var l := Layout(0, 1, false, 0, 1, false);
    OneEntryShape(d);
    OneEntryTexts(KeyText(d, l), ValueText(d, l));
    EntryLineSets(d, Layout(0, 1, false, 0, 1, false), "a", FromInteger(1));
    RootGetsA();
  }

  /** The text "a=1\n" is one chunk, after which the next line starts with the root object's frame alone. */
  lemma OneEntryFed(s: Data, input: string)
    requires s == Start() && input == "a=1\n"
    ensures Feed(s, input) == Ok(s.(i := 4, lineNumber := 2, cells := [ObjectCell([Obj.Entry("a", 1)]), ValueCell(FromInteger(1))]))
  {
    assert input == "a=1\n" + "";
    FeedChunk(s, "a=1\n", "");
    var c := s.(line := s.line + "a=1\n", i := 0);
    OneEntryChunk(c);
    var e := c.(i := 4, cells := [ObjectCell([Obj.Entry("a", 1)]), ValueCell(FromInteger(1))]);
    NextChunkOk(s, "a=1\n", "", e, e.(line := [], lineNumber := 2));
  }

  /**
   * try_parse("a=1\n"): the root object, whose one entry "a" holds the
   * integer 1.
   */
  lemma OneEntry()
    ensures TryParse("a=1\n") == Ok(Parsed([ObjectCell([Obj.Entry("a", 1)]), ValueCell(FromInteger(1))], 0))
  {
    OneEntryFed(Start(), "a=1\n");
  }

  // ---- a line `k = v` --------------------------------------------------------

  /** A name or a value no recognizer treats specially: plain at both ends, ordinary inside. */
  predicate PlainText(w: string)
  {
    w != [] && Plain(w[0]) && Plain(w[|w| - 1]) && forall k :: 0 < k < |w| ==> Ordinary(w[k])
  }

  /** The entry shape of the line `k = v`: the key read as "k " and the value as v. */
  function SpacedLayout(k: string, v: string): Layout
  {
    Layout(0, |k| + 1, false, 1, |v|, false)
  }

  /** The characters of `k = v` and its newline, by position. */
  lemma SpacedChars(line: string, k: string, v: string)
    requires line == k + " = " + v + "\n"
    ensures |line| == |k| + |v| + 4
    ensures forall j :: 0 <= j < |k| ==> line[j] == k[j]
    ensures line[|k|] == ' ' && line[|k| + 1] == '=' && line[|k| + 2] == ' ' && line[|k| + 3 + |v|] == '\n'
    ensures forall j :: 0 <= j < |v| ==> line[|k| + 3 + j] == v[j]
  {
  }

  /** The line `k = v` in the root object has the entry shape. */
  lemma SpacedShape(d: Data, k: string, v: string)
    requires InRoot(d) && d.i == 0 && PlainText(k) && PlainText(v) && d.line == k + " = " + v + "\n"
    ensures EntryLine(d, SpacedLayout(k, v))
    ensures KeyText(d, SpacedLayout(k, v)) == Text(k + " ", Unquoted)
    ensures ValueText(d, SpacedLayout(k, v)) == Text(v, Unquoted)
  {
    var line := d.line;
    SpacedChars(line, k, v);
    forall j | 1 <= j < 1 + |k|
      ensures Ordinary(line[j])
    {
      if j < |k| {
        assert line[j] == k[j];
      }
    }
    forall j | |k| + 4 <= j < |k| + 3 + |v|
      ensures Ordinary(line[j])
    {
      assert line[j] == v[j - (|k| + 3)];
    }
    assert line[..|k| + 1] == k + " ";
    assert line[|k| + 3..|k| + 3 + |v|] == v;
  }

  /** No character of `k = v` before its newline ends a chunk. */
  lemma SpacedOneChunk(line: string, k: string, v: string)
    requires PlainText(k) && PlainText(v) && line == k + " = " + v + "\n"
    ensures line != [] && Terminator(line[|line| - 1])
    ensures forall j :: 0 <= j < |line| - 1 ==> !Terminator(line[j])
  {
    SpacedChars(line, k, v);
    forall j | 0 <= j < |line| - 1
      ensures !Terminator(line[j])
    {
      if j < |k| {
        assert Ordinary(k[j]);
      } else if |k| + 3 <= j {
        assert Ordinary(v[j - (|k| + 3)]);
      }
    }
  }

  /** The key "k " strips to k and the value v keeps its text. */
  lemma SpacedTexts(k: string, v: string, key: Text, value: Text)
    requires PlainText(k) && PlainText(v) && key == Text(k + " ", Unquoted) && value == Text(v, Unquoted)
    ensures Strip(key.s, key.kind) == k && Strip(value.s, value.kind) == v
  {
    StripBlanks(k, " ");
    StripKeeps(value);
  }

  /**
   * The line `k = v` in the root object: the value get_type makes of v is
   * stored under k, and the cursor ends past the newline.
   */
  lemma SpacedLine(d: Data, k: string, v: string, x: LucoValue.Value)
    requires InRoot(d) && d.i == 0 && PlainText(k) && PlainText(v) && d.line == k + " = " + v + "\n"
    requires GetType(v) == Ok(x)
    ensures RunLine(d) == Ok(d.(i := |d.line|, cells := Insert(d.cells, 0, k, Scalar(x)).cells))
  {
    var l := SpacedLayout(k, v);
    SpacedShape(d, k, v);
    SpacedTexts(k, v, KeyText(d, l), ValueText(d, l));
    assert Last(d.objs) == 0;
    EntryLineSets(d, l, k, x);
  }

  /** The text `k = v` and its newline is one chunk, after which the next line starts in the root object. */
  lemma SpacedFed(s: Data, k: string, v: string, x: LucoValue.Value, input: string, f: Data)
    requires s == Start() && PlainText(k) && PlainText(v) && GetType(v) == Ok(x) && input == k + " = " + v + "\n"
    requires f == s.(i := |input|, lineNumber := 2, cells := Insert(s.cells, 0, k, Scalar(x)).cells)
    ensures Feed(s, input) == Ok(f)
  {
    SpacedOneChunk(input, k, v);
    assert input == input + "";
    FeedChunk(s, input, "");
    var c := s.(line := s.line + input, i := 0);
    SpacedLine(c, k, v, x);
    var e := c.(i := |input|, cells := Insert(s.cells, 0, k, Scalar(x)).cells);
    assert f == e.(line := [], lineNumber := e.lineNumber + 1);
    NextChunkOk(s, input, "", e, f);
  }

  /**
   * try_parse(k + " = " + v + "\n") for a plain key k and a plain value v: the
   * root object whose one entry k holds get_type(v).
   */
  lemma SpacedEntry(k: string, v: string, x: LucoValue.Value, input: string)
    requires PlainText(k) && PlainText(v) && GetType(v) == Ok(x) && input == k + " = " + v + "\n"
    ensures TryParse(input) == Ok(Parsed(Insert([NewCell(ObjectNode)], 0, k, Scalar(x)).cells, 0))
  {
    var s := Start();
    var f := s.(i := |input|, lineNumber := 2, cells := Insert(s.cells, 0, k, Scalar(x)).cells);
    SpacedFed(s, k, v, x, input, f);
    ParsedAsFed(input, f);
  }

  // ---- chunks -------------------------------------------------------------------

  /** Parsing a chunk whose last character came on its own is parsing the chunk. */
  lemma ChunkCollected(d: Data, d1: Data, chunk: string, rest: string)
    requires Sound(d) && !d.shift && chunk != [] && d1 == d.(line := d.line + chunk[..|chunk| - 1])
    ensures NextChunk(d1, [chunk[|chunk| - 1]], rest) == NextChunk(d, chunk, rest)
  {
    assert d1.line + [chunk[|chunk| - 1]] == d.line + chunk;
    assert d1.(line := d1.line + [chunk[|chunk| - 1]], i := 0) == d.(line := d.line + chunk, i := 0);
  }

  /** The characters of a chunk before its terminator are only collected. */
  lemma ChunkPrefix(d: Data, d1: Data, chunk: string, rest: string)
    requires Sound(d) && !d.shift && chunk != [] && d1 == d.(line := d.line + chunk[..|chunk| - 1])
    requires forall k :: 0 <= k < |chunk| - 1 ==> !Terminator(chunk[k])
    ensures Feed(d, chunk + rest) == Feed(d1, [chunk[|chunk| - 1]] + rest)
  {
    var prefix := chunk[..|chunk| - 1];
    assert chunk + rest == prefix + ([chunk[|chunk| - 1]] + rest);
    FeedPrefix(d, prefix, [chunk[|chunk| - 1]] + rest);
  }

  /** A chunk that ends at its first terminator is parsed as one line, then the rest is fed. */
  lemma FeedChunk(d: Data, chunk: string, rest: string)
    requires Sound(d) && !d.shift && chunk != [] && Terminator(chunk[|chunk| - 1])
    requires forall k :: 0 <= k < |chunk| - 1 ==> !Terminator(chunk[k])
    ensures Feed(d, chunk + rest) == NextChunk(d, chunk, rest)
  {
    var d1 := d.(line := d.line + chunk[..|chunk| - 1]);
    ChunkPrefix(d, d1, chunk, rest);
    FeedTerminator(d1, chunk[|chunk| - 1], rest);
    ChunkCollected(d, d1, chunk, rest);
  }

  /** A chunk parsed without error to e has the rest fed from f, the start of the next line after e. */
  lemma NextChunkOk(d: Data, chunk: string, rest: string, e: Data, f: Data)
    requires Sound(d) && !d.shift && RunLine(d.(line := d.line + chunk, i := 0)) == Ok(e)
    requires f == e.(line := [], lineNumber := e.lineNumber + 1)
    ensures NextChunk(d, chunk, rest) == Feed(f, rest)
  {
  }

  /** A chunk parsed without error to e: feeding it and the rest is feeding the rest from the next line after e. */
  lemma ChunkFed(d: Data, chunk: string, rest: string, e: Data, f: Data)
    requires Sound(d) && !d.shift && chunk != [] && Terminator(chunk[|chunk| - 1])
    requires forall k :: 0 <= k < |chunk| - 1 ==> !Terminator(chunk[k])
    requires RunLine(d.(line := d.line + chunk, i := 0)) == Ok(e) && f == e.(line := [], lineNumber := e.lineNumber + 1)
    ensures Feed(d, chunk + rest) == Feed(f, rest)
  {
    FeedChunk(d, chunk, rest);
    NextChunkOk(d, chunk, rest, e, f);
  }

  // ---- the parsing_simple_luco document -----------------------------------------

  /** The root object alone on the frame stack, no key or value being read. */
  predicate InRoot(d: Data)
  {
    Sound(d) && !d.shift && d.hierarchy == [Frame(ObjectSyntax, 1, 0)] && d.objs == [0] && d.keys == [EmptyText]
    && d.raw == EmptyText && d.escape == NoEscape && |d.cells| > 0 && d.cells[0].ObjectCell?
  }

  lemma EmptyLineReady(d: Data)
    requires InRoot(d) && d.line == "\n" && d.i == 0
    ensures Ready(d) && Top(d) == ObjectSyntax && d.raw == EmptyText && IsBlankOrNewline(Char(d))
  {
  }

  /** A line that is only its newline changes nothing. */
  lemma EmptyLine(d: Data)
    requires InRoot(d) && d.line == "\n" && d.i == 0
    ensures RunLine(d) == Ok(d.(i := 1))
  {
    EmptyLineReady(d);
    BlankInObject(d);
    RunLineNext(d, d);
  }

  /** strip_if_unqouted_string drops the blanks after an unquoted text. */
  lemma StripBlanks(w: string, b: string)
    requires w != [] && !IsBlank(w[|w| - 1]) && forall k :: 0 <= k < |b| ==> IsBlank(b[k])
    ensures Strip(w + b, Unquoted) == w
  {
    var s := w + b;
    if b != [] {
      var j := LastKept(s, |s| - 1);
      assert !IsBlank(s[|w| - 1]);
      assert forall k :: |w| <= k < |s| ==> IsBlank(s[k]) by {
        forall k | |w| <= k < |s| ensures IsBlank(s[k]) { assert s[k] == b[k - |w|]; }
      }
      assert j == |w| - 1;
      assert s[..j + 1] == w;
    } else {
      assert s == w;
    }
  }

  /** get_type on a text that is no number, boolean or null: the string. */
  lemma TypeOfWord(s: string)
    requires s != [] && !IsDigit(s[0]) && s[0] != '.' && s !in {"null", "on", "true", "off", "false"}
    ensures GetType(s) == Ok(FromString(s))
  {
    NoDecimalShape(s);
    assert !AllDigits(s);
  }

  /** A text starting with neither a digit nor '.' is no decimal. */
  lemma NoDecimalShape(s: string)
    requires s != [] && !IsDigit(s[0]) && s[0] != '.'
    ensures !DecimalShape(s)
  {
    forall p | 0 <= p < |s| && s[p] == '.'
      ensures !AllDigits(s[..p])
    {
      assert p > 0 && s[..p][0] == s[0];
    }
  }

  lemma TypeOfCat()
    ensures GetType("cat") == Ok(FromString("cat"))
  {
    var s := "cat";
    TypeOfWord(s);
  }

  lemma TypeOfFive()
    ensures GetType("5") == Ok(FromInteger(5))
  {
    var s := "5";
    assert AllDigits(s) && s[..0] == "";
    assert DigitsValue(s) == 5;
    TypeOfDigits(s);
  }

  lemma TypeOfTrue()
    ensures GetType("true") == Ok(FromBoolean(true))
  {
    var s := "true";
    assert !AllDigits(s) by { assert !IsDigit(s[0]); }
    NoDecimalShape(s);
  }

  /** The root object after `name = "cat"`. */
  function NameCells(): Cells
  {
    [ObjectCell([Obj.Entry("name", 1)]), ValueCell(FromString("cat"))]
  }

  /** The root object after `"age"= 5`. */
  function AgeCells(): Cells
  {
    [ObjectCell([Obj.Entry("age", 2), Obj.Entry("name", 1)]), ValueCell(FromString("cat")), ValueCell(FromInteger(5))]
  }

  /** The root object after `smol=true`: its entries sorted by key, each a value cell of its own. */
  function CatCells(): Cells
  {
    [ObjectCell([Obj.Entry("age", 2), Obj.Entry("name", 1), Obj.Entry("smol", 3)]),
     ValueCell(FromString("cat")), ValueCell(FromInteger(5)), ValueCell(FromBoolean(true))]
  }

  lemma NameInserted()
    ensures Insert([NewCell(ObjectNode)], 0, "name", Scalar(FromString("cat"))).cells == NameCells()
  {
    var cells := [NewCell(ObjectNode)];
    var e := Insert(cells, 0, "name", Scalar(FromString("cat")));
    assert Bind(cells, Scalar(FromString("cat"))).1 == 1;
    assert Obj.Insert(cells[0].entries, "name", 1) == [Obj.Entry("name", 1)];
    assert e.cells[0] == ObjectCell([Obj.Entry("name", 1)]);
  }

  lemma AgeInserted()
    ensures Insert(NameCells(), 0, "age", Scalar(FromInteger(5))).cells == AgeCells()
  {
    var cells := NameCells();
    var e := Insert(cells, 0, "age", Scalar(FromInteger(5)));
    assert Bind(cells, Scalar(FromInteger(5))).1 == 2;
    assert Obj.Less("age", "name");
    assert Obj.Insert(cells[0].entries, "age", 2) == [Obj.Entry("age", 2), Obj.Entry("name", 1)];
    assert e.cells[0] == ObjectCell([Obj.Entry("age", 2), Obj.Entry("name", 1)]);
  }

  lemma SmolEntries(es: seq<Obj.Entry<nat>>)
    requires es == [Obj.Entry("age", 2), Obj.Entry("name", 1)]
    ensures Obj.Sorted(es) && Obj.Insert(es, "smol", 3) == es + [Obj.Entry("smol", 3)]
  {
    assert Obj.Less("age", "name");
    var t := es[1..];
    var u := t[1..];
    assert u == [];
    assert !Obj.Less("smol", "name");
    assert Obj.Insert(t, "smol", 3) == [t[0]] + Obj.Insert(u, "smol", 3);
    assert !Obj.Less("smol", "age");
    assert Obj.Insert(es, "smol", 3) == [es[0]] + Obj.Insert(t, "smol", 3);
  }

  lemma AgeCellsWellFormed(cells: Cells)
    requires cells == AgeCells()
    ensures WellFormed(cells)
  {
    assert Obj.Less("age", "name");
    assert CellIn(cells[0], 3);
  }

  lemma SmolInserted()
    ensures Insert(AgeCells(), 0, "smol", Scalar(FromBoolean(true))).cells == CatCells()
  {
    var cells := AgeCells();
    AgeCellsWellFormed(cells);
    var x := Scalar(FromBoolean(true));
    var e := Insert(cells, 0, "smol", x);
    var grown := cells + [ValueCell(FromBoolean(true))];
    assert Bind(cells, x) == (grown, 3);
    SmolEntries(cells[0].entries);
    assert e.cells[0] == CatCells()[0];
    assert e.cells == grown[0 := CatCells()[0]];
  }

  /** The line `name = "cat"`: the unquoted key takes the blank before the equal sign. */
  lemma NameShape(d: Data)
    requires InRoot(d) && d.i == 0 && d.line == "\t\tname = \"cat\"\n"
    ensures EntryLine(d, Layout(2, 5, false, 1, 5, true))
    ensures KeyText(d, Layout(2, 5, false, 1, 5, true)) == Text("name ", Unquoted)
    ensures ValueText(d, Layout(2, 5, false, 1, 5, true)) == Text("cat", EndString2)
  {
    assert Plain(d.line[2]);
  }

  lemma NameTexts(key: Text, value: Text)
    requires key == Text("name ", Unquoted) && value == Text("cat", EndString2)
    ensures Strip(key.s, key.kind) == "name" && GetType(Strip(value.s, value.kind)) == Ok(FromString("cat"))
  {
    assert key.s == "name" + " ";
    StripBlanks("name", " ");
    TypeOfCat();
  }

  lemma NameLine(d: Data)
    requires InRoot(d) && d.i == 0 && d.line == "\t\tname = \"cat\"\n" && d.cells == [NewCell(ObjectNode)]
    ensures RunLine(d) == Ok(d.(i := 15, cells := NameCells()))
  {
    var l := Layout(2, 5, false, 1, 5, true);
    NameShape(d);
    NameTexts(KeyText(d, l), ValueText(d, l));
    EntryLineSets(d, l, "name", FromString("cat"));
    NameInserted();
  }

  /** The line `"age"= 5`: a quoted key right before its equal sign. */
  lemma AgeShape(d: Data)
    requires InRoot(d) && d.i == 0 && d.line == "\t\t\"age\"= 5\n"
    ensures EntryLine(d, Layout(2, 5, true, 1, 1, false))
    ensures KeyText(d, Layout(2, 5, true, 1, 1, false)) == Text("age", EndString2)
    ensures ValueText(d, Layout(2, 5, true, 1, 1, false)) == Text("5", Unquoted)
  {
    assert Plain(d.line[9]);
  }

  lemma AgeTexts(key: Text, value: Text)
    requires key == Text("age", EndString2) && value == Text("5", Unquoted)
    ensures Strip(key.s, key.kind) == "age" && GetType(Strip(value.s, value.kind)) == Ok(FromInteger(5))
  {
    StripKeeps(value);
    TypeOfFive();
  }

  lemma AgeLine(d: Data)
    requires InRoot(d) && d.i == 0 && d.line == "\t\t\"age\"= 5\n" && d.cells == NameCells()
    ensures RunLine(d) == Ok(d.(i := 11, cells := AgeCells()))
  {
    var l := Layout(2, 5, true, 1, 1, false);
    AgeShape(d);
    AgeTexts(KeyText(d, l), ValueText(d, l));
    EntryLineSets(d, l, "age", FromInteger(5));
    AgeInserted();
  }

  /** The line `smol=true`: no blank around the equal sign. */
  lemma SmolShape(d: Data)
    requires InRoot(d) && d.i == 0 && d.line == "\t\tsmol=true\n"
    ensures EntryLine(d, Layout(2, 4, false, 0, 4, false))
    ensures KeyText(d, Layout(2, 4, false, 0, 4, false)) == Text("smol", Unquoted)
    ensures ValueText(d, Layout(2, 4, false, 0, 4, false)) == Text("true", Unquoted)
  {
    assert Plain(d.line[2]) && Plain(d.line[7]);
  }

  lemma SmolTexts(key: Text, value: Text)
    requires key == Text("smol", Unquoted) && value == Text("true", Unquoted)
    ensures Strip(key.s, key.kind) == "smol" && GetType(Strip(value.s, value.kind)) == Ok(FromBoolean(true))
  {
    StripKeeps(key);
    StripKeeps(value);
    TypeOfTrue();
  }

  lemma SmolLine(d: Data)
    requires InRoot(d) && d.i == 0 && d.line == "\t\tsmol=true\n" && d.cells == AgeCells()
    ensures RunLine(d) == Ok(d.(i := 12, cells := CatCells()))
  {
    var l := Layout(2, 4, false, 0, 4, false);
    SmolShape(d);
    SmolTexts(KeyText(d, l), ValueText(d, l));
    EntryLineSets(d, l, "smol", FromBoolean(true));
    SmolInserted();
  }

  /** The state try_parse ends the document with: its last line "\t\t" collected, k lines after x. */
  function Final(x: Data, k: nat): Data
  {
    x.(line := "\t\t", i := 12, lineNumber := x.lineNumber + k, cells := CatCells())
  }

  /** After a chunk read to column j with the heap cells, the next line starts from f. */
  lemma LineDone(x: Data, chunk: string, j: nat, cells: Cells, e: Data, f: Data)
    requires InRoot(x) && x.line == [] && e == x.(line := x.line + chunk, i := 0).(i := j, cells := cells)
    requires Sound(e) && |cells| > 0 && cells[0].ObjectCell?
    requires f == x.(i := j, lineNumber := x.lineNumber + 1, cells := cells)
    ensures InRoot(f) && f.line == [] && f == e.(line := [], lineNumber := e.lineNumber + 1)
  {
  }

  lemma FinalFrom(x: Data, f: Data, j: nat, cells: Cells, k: nat)
    requires f == x.(i := j, lineNumber := x.lineNumber + 1, cells := cells)
    ensures Final(f, k) == Final(x, k + 1)
  {
    assert f.lineNumber + k == x.lineNumber + (k + 1);
  }

  /** The closing "\t\t" of the document is collected, never parsed. */
  lemma CatTail(x: Data, tail: string)
    requires InRoot(x) && x.line == [] && x.i == 12 && x.cells == CatCells() && tail == "\t\t"
    ensures Feed(x, tail) == Ok(Final(x, 0))
  {
    FeedTail(x, tail);
    assert x.line + tail == tail;
  }

  lemma SmolStep(x: Data, chunk: string, tail: string, f: Data)
    requires InRoot(x) && x.line == [] && x.cells == AgeCells() && chunk == "\t\tsmol=true\n"
    requires f == x.(i := 12, lineNumber := x.lineNumber + 1, cells := CatCells())
    ensures InRoot(f)
    ensures Feed(x, chunk + tail) == Feed(f, tail)
  {
    FeedChunk(x, chunk, tail);
    var c := x.(line := x.line + chunk, i := 0);
    SmolLine(c);
    var e := c.(i := 12, cells := CatCells());
    LineDone(x, chunk, 12, CatCells(), e, f);
    NextChunkOk(x, chunk, tail, e, f);
  }

  lemma SmolFed(x: Data, input: string)
    requires InRoot(x) && x.line == [] && x.cells == AgeCells() && input == "\t\tsmol=true\n" + "\t\t"
    ensures Feed(x, input) == Ok(Final(x, 1))
  {
    var chunk, tail := "\t\tsmol=true\n", "\t\t";
    var f := x.(i := 12, lineNumber := x.lineNumber + 1, cells := CatCells());
    SmolStep(x, chunk, tail, f);
    CatTail(f, tail);
    FinalFrom(x, f, 12, CatCells(), 0);
  }

  lemma AgeFed(x: Data, input: string)
    requires InRoot(x) && x.line == [] && x.cells == NameCells()
    requires input == "\t\t\"age\"= 5\n" + ("\t\tsmol=true\n" + "\t\t")
    ensures Feed(x, input) == Ok(Final(x, 2))
  {
    var chunk := "\t\t\"age\"= 5\n";
    var rest := "\t\tsmol=true\n" + "\t\t";
    FeedChunk(x, chunk, rest);
    var c := x.(line := x.line + chunk, i := 0);
    AgeLine(c);
    var e := c.(i := 11, cells := AgeCells());
    var f := x.(i := 11, lineNumber := x.lineNumber + 1, cells := AgeCells());
    LineDone(x, chunk, 11, AgeCells(), e, f);
    NextChunkOk(x, chunk, rest, e, f);
    SmolFed(f, rest);
    FinalFrom(x, f, 11, AgeCells(), 1);
  }

  lemma NameFed(x: Data, input: string)
    requires InRoot(x) && x.line == [] && x.cells == [NewCell(ObjectNode)]
    requires input == "\t\tname = \"cat\"\n" + ("\t\t\"age\"= 5\n" + ("\t\tsmol=true\n" + "\t\t"))
    ensures Feed(x, input) == Ok(Final(x, 3))
  {
    var chunk := "\t\tname = \"cat\"\n";
    var rest := "\t\t\"age\"= 5\n" + ("\t\tsmol=true\n" + "\t\t");
    FeedChunk(x, chunk, rest);
    var c := x.(line := x.line + chunk, i := 0);
    NameLine(c);
    var e := c.(i := 15, cells := NameCells());
    var f := x.(i := 15, lineNumber := x.lineNumber + 1, cells := NameCells());
    LineDone(x, chunk, 15, NameCells(), e, f);
    NextChunkOk(x, chunk, rest, e, f);
    AgeFed(f, rest);
    FinalFrom(x, f, 15, NameCells(), 2);
  }

  /** The document starts with an empty line, then its three entries follow. */
  lemma CatFed(s: Data, input: string)
    requires s == Start()
    requires input == "\n" + ("\t\tname = \"cat\"\n" + ("\t\t\"age\"= 5\n" + ("\t\tsmol=true\n" + "\t\t")))
    ensures Feed(s, input) == Ok(Final(s, 4))
  {
    var rest := "\t\tname = \"cat\"\n" + ("\t\t\"age\"= 5\n" + ("\t\tsmol=true\n" + "\t\t"));
    FeedChunk(s, "\n", rest);
    var c := s.(line := s.line + "\n", i := 0);
    EmptyLine(c);
    var e := c.(i := 1);
    var f := s.(i := 1, lineNumber := s.lineNumber + 1, cells := s.cells);
    LineDone(s, "\n", 1, s.cells, e, f);
    NextChunkOk(s, "\n", rest, e, f);
    NameFed(f, rest);
    FinalFrom(s, f, 1, s.cells, 3);
  }

  /** A text fed to its end with only the root frame left parses to the cells built. */
  lemma ParsedAsFed(input: string, d: Data)
    requires Feed(Start(), input) == Ok(d) && d.hierarchy == [Frame(ObjectSyntax, 1, 0)]
    ensures TryParse(input) == Ok(Parsed(d.cells, 0))
  {
  }

  /** A text fed to its end inside a nested comment is the parse error at the comment's frame. */
  lemma UnclosedCommentFails(input: string, d: Data)
    requires Feed(Start(), input) == Ok(d) && |d.hierarchy| > 0 && Top(d) == NestedComment
    ensures TryParse(input) == Err(Luco(ParsingError, At(Last(d.hierarchy).line, Last(d.hierarchy).column)))
  {
  }

  lemma CatInput(input: string)
    requires input == "\n\t\tname = \"cat\"\n\t\t\"age\"= 5\n\t\tsmol=true\n\t\t"
    ensures input == "\n" + ("\t\tname = \"cat\"\n" + ("\t\t\"age\"= 5\n" + ("\t\tsmol=true\n" + "\t\t")))
  {
  }

  /**
   * The parsing_simple_luco test (tests/test.cpp:33-61): the root object
   * holds "age" as the integer 5, "name" as the string "cat" and "smol" as
   * the boolean true.
   */
  lemma SimpleLuco(input: string)
    requires input == "\n\t\tname = \"cat\"\n\t\t\"age\"= 5\n\t\tsmol=true\n\t\t"
    ensures TryParse(input) == Ok(Parsed(CatCells(), 0))
  {
    CatInput(input);
    CatFed(Start(), input);
    ParsedAsFed(input, Final(Start(), 4));
  }
}
