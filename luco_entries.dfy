/**
 * Whole lines through the inner loop of try_parse: a line holding one
 * entry `key = value` stores the typed value under the stripped key in the
 * object on top of luco_objs and changes nothing else.  Each lemma relates
 * only a few states of the loop, the rest are composed from them.
 */
module LucoEntries {
  import opened LucoError
  import opened LucoSimpleTypes
  import opened LucoParseState
  import opened LucoRecognizers
  import opened LucoParse
  import opened LucoLines
  import LucoTree
  import LucoValue

  // ---- one character each -------------------------------------------------------

  /** The state after the first character of an unquoted key. */
  function KeyOpened(d: Data): Data
    requires d.i < |d.line|
  {
    Register(d, Key).(keys := d.keys + [Text([Char(d)], Unquoted)], i := d.i + 1)
  }

  /** The state after the opening '"' of a quoted key. */
  function KeyQuoted(d: Data): Data
  {
    Register(d, Key).(keys := d.keys + [Text("", Quoted2)], i := d.i + 1)
  }

  /** The state after the closing '"' of a quoted key. */
  function KeyUnquoted(d: Data): Data
    requires |d.keys| > 0
  {
    d.(keys := SetTop(d.keys, Text(Last(d.keys).s, EndString2)), i := d.i + 1)
  }

  /** The state after the equal sign that ends a key. */
  function KeyClosed(d: Data): Data
    requires |d.hierarchy| > 0
  {
    Register(Pop(d), EqualSign).(i := d.i + 1)
  }

  /** The state after the first character of an unquoted value. */
  function ValueOpened(d: Data): Data
    requires d.i < |d.line| && |d.hierarchy| > 0
  {
    Register(Pop(d), ValueSyntax).(raw := Text([Char(d)], Unquoted), i := d.i + 1)
  }

  /** The state after the opening '"' of a quoted value. */
  function ValueQuoted(d: Data): Data
    requires |d.hierarchy| > 0
  {
    Register(Pop(d), ValueSyntax).(raw := Text("", Quoted2), i := d.i + 1)
  }

  /** The state after the closing '"' of a quoted value. */
  function ValueUnquoted(d: Data): Data
  {
    d.(raw := Text(d.raw.s, EndString2), i := d.i + 1)
  }

  /** A pass that reports no error and asks for no rewind moves the loop on to e, the next character of its state. */
  lemma RunLineNextTo(d: Data, d1: Data, e: Data)
    requires Valid(d) && !d.shift && Parsing(d) == Ok(d1) && !d1.shift && e == d1.(i := d.i + 1)
    ensures RunLine(d) == RunLine(e)
  {
    RunLineNext(d, d1);
  }

  /** A plain character in an object starts an unquoted key. */
  lemma KeyOpenStep(d: Data)
    requires Idle(d) && Top(d) == ObjectSyntax && Plain(Char(d))
    ensures RunLine(d) == RunLine(KeyOpened(d))
  {
    var x := Register(d, Key).(keys := d.keys + [Text([Char(d)], Unquoted)]);
    assert KeyOpened(d) == x.(i := d.i + 1);
    KeyStarts(d);
    RunLineNextTo(d, x, KeyOpened(d));
  }

  /** A '"' in an object, not one of a pair, starts a quoted key. */
  lemma KeyQuoteStep(d: Data)
    requires Idle(d) && Top(d) == ObjectSyntax && Char(d) == '"' && NotDoubled(d, '"')
    ensures RunLine(d) == RunLine(KeyQuoted(d))
  {
    var x := Register(d, Key).(keys := d.keys + [Text("", Quoted2)]);
    assert KeyQuoted(d) == x.(i := d.i + 1);
    KeyQuoteOpens(d);
    RunLineNextTo(d, x, KeyQuoted(d));
  }

  /** A '"' in a quoted key, not one of a pair, ends its text. */
  lemma KeyUnquoteStep(d: Data)
    requires InKey(d) && Last(d.keys).kind == Quoted2 && Char(d) == '"' && NotDoubled(d, '"')
    ensures RunLine(d) == RunLine(KeyUnquoted(d))
  {
    var x := d.(keys := SetTop(d.keys, Text(Last(d.keys).s, EndString2)));
    assert KeyUnquoted(d) == x.(i := d.i + 1);
    KeyQuoteCloses(d);
    RunLineNextTo(d, x, KeyUnquoted(d));
  }

  /** An equal sign, not one of a pair, ends the key and waits for the value. */
  lemma KeyCloseStep(d: Data)
    requires Ready(d) && Top(d) == Key && |d.keys| > 0 && Last(d.keys).kind in {Unquoted, EndString2}
    requires Char(d) == '=' && NotDoubled(d, '=')
    ensures RunLine(d) == RunLine(KeyClosed(d))
  {
    var x := Register(Pop(d), EqualSign);
    assert KeyClosed(d) == x.(i := d.i + 1);
    KeyEnds(d);
    RunLineNextTo(d, x, KeyClosed(d));
  }

  /** A plain character after an equal sign starts an unquoted value. */
  lemma ValueOpenStep(d: Data)
    requires Idle(d) && Top(d) == EqualSign && Plain(Char(d))
    ensures RunLine(d) == RunLine(ValueOpened(d))
  {
    var x := Register(Pop(d), ValueSyntax).(raw := Text([Char(d)], Unquoted));
    assert ValueOpened(d) == x.(i := d.i + 1);
    ValueStarts(d);
    RunLineNextTo(d, x, ValueOpened(d));
  }

  /** A '"' after an equal sign, not one of a pair, starts a quoted value. */
  lemma ValueQuoteStep(d: Data)
    requires Idle(d) && Top(d) == EqualSign && Char(d) == '"' && NotDoubled(d, '"')
    ensures RunLine(d) == RunLine(ValueQuoted(d))
  {
    var x := Register(Pop(d), ValueSyntax).(raw := Text("", Quoted2));
    assert ValueQuoted(d) == x.(i := d.i + 1);
    ValueQuoteOpens(d);
    RunLineNextTo(d, x, ValueQuoted(d));
  }

  /** A '"' in a quoted value, not one of a pair, ends its text. */
  lemma ValueUnquoteStep(d: Data)
    requires InValue(d) && d.raw.kind == Quoted2 && Char(d) == '"' && NotDoubled(d, '"')
    ensures RunLine(d) == RunLine(ValueUnquoted(d))
  {
    var x := d.(raw := Text(d.raw.s, EndString2));
    assert ValueUnquoted(d) == x.(i := d.i + 1);
    ValueQuoteCloses(d);
    RunLineNextTo(d, x, ValueUnquoted(d));
  }

  /** The newline after a value ends the line: the value is inserted and its frame popped, or its error ends the parse. */
  lemma ValueCloseStep(d: Data)
    requires Ready(d) && Top(d) == ValueSyntax && d.raw.kind in {Unquoted, EndString2}
    requires Char(d) == '\n' && d.i + 1 == |d.line|
    ensures InsertValue(d).Err? ==> RunLine(d) == Err(InsertValue(d).error)
    ensures InsertValue(d).Ok? ==> RunLine(d) == Ok(Pop(InsertValue(d).value).(i := |d.line|))
  {
    ValueEnds(d);
    if InsertValue(d).Ok? {
      var x := Pop(InsertValue(d).value);
      RunLineNextTo(d, x, x.(i := |d.line|));
    }
  }

  // ---- words --------------------------------------------------------------------

  /** The n characters of line from i are a key or a value: plain ones, or ordinary ones between two '"'. */
  predicate Word(line: string, i: nat, n: nat, quoted: bool)
  {
    i + n <= |line| &&
    if quoted then n >= 3 && line[i] == '"' && line[i + n - 1] == '"' && Ordinaries(line, i + 1, n - 2)
    else n > 0 && Plain(line[i]) && Ordinaries(line, i + 1, n - 1)
  }

  /** The text a word leaves: a quoted one without its quotes, marked as ended. */
  function WordText(line: string, i: nat, n: nat, quoted: bool): Text
    requires Word(line, i, n, quoted)
  {
    if quoted then Text(line[i + 1..i + n - 1], EndString2) else Text(line[i..i + n], Unquoted)
  }

  /** A word at the cursor, and the next character is the one after it. */
  lemma WordStarts(d: Data, n: nat, quoted: bool)
    requires Word(d.line, d.i, n, quoted)
    ensures quoted ==> Char(d) == '"' && NotDoubled(d, '"')
    ensures !quoted ==> Plain(Char(d))
  {
    if quoted {
      assert Ordinary(d.line[d.i + 1]);
    }
  }

  /** The state after the equal sign at column j that ends the key t. */
  function Entered(d: Data, t: Text, j: nat): Data
  {
    d.(hierarchy := d.hierarchy + [Frame(EqualSign, d.lineNumber, j)], keys := d.keys + [t], i := j + 1)
  }

  /**
   * insert_value for a value read on a line of an object: the typed value is
   * stored under key in the object on top of luco_objs and the line is done,
   * or the typing error ends the parse.
   */
  function Stored(d: Data, key: string, value: Text): Result<Data>
    requires Sound(d) && |d.objs| > 0
  {
    var v :- GetType(Strip(value.s, value.kind));
    Ok(d.(i := |d.line|, cells := LucoTree.Insert(d.cells, Last(d.objs), key, LucoTree.Scalar(v)).cells))
  }

  /** What a line ends with once the value of the key on top of keys is read into g.raw. */
  function ValueStored(g: Data): Result<Data>
    requires Sound(g) && |g.objs| > 0 && |g.keys| > 0 && |g.hierarchy| > 0
  {
    Stored(Pop(g).(keys := DropLast(g.keys), raw := EmptyText), Strip(Last(g.keys).s, Last(g.keys).kind), g.raw)
  }

  /** An '=' at the cursor, not one of a pair, and more of the line after it. */
  predicate EqualAt(d: Data)
  {
    d.i + 1 < |d.line| && d.line[d.i] == '=' && d.line[d.i + 1] != '='
  }

  /** A key's closing '"' at the cursor, directly followed by its equal sign. */
  predicate QuoteEqualAt(d: Data)
  {
    d.i + 2 < |d.line| && d.line[d.i] == '"' && d.line[d.i + 1] == '=' && d.line[d.i + 2] != '='
  }

  /** The newline that ends the line at the cursor. */
  predicate NewlineAt(d: Data)
  {
    d.i + 1 == |d.line| && d.line[d.i] == '\n'
  }

  /** A value's closing '"' at the cursor, directly followed by the newline that ends the line. */
  predicate QuoteNewlineAt(d: Data)
  {
    d.i + 2 == |d.line| && d.line[d.i] == '"' && d.line[d.i + 1] == '\n'
  }

  /** The object on top of luco_objs is an object node. */
  predicate InObject(d: Data)
  {
    Sound(d) && |d.objs| > 0 && d.cells[Last(d.objs)].ObjectCell?
  }

  // ---- keys ---------------------------------------------------------------------

  /** The closing '"' and the '=' of a quoted key. */
  lemma KeyQuoteTail(c: Data, e: Data)
    requires InKey(c) && Last(c.keys).kind == Quoted2 && QuoteEqualAt(c) && e == KeyClosed(KeyUnquoted(c))
    ensures RunLine(c) == RunLine(e)
  {
    KeyUnquoteStep(c);
    KeyCloseStep(KeyUnquoted(c));
  }

  /** After the first character of an unquoted key: the rest of it, then its '='. */
  predicate PlainKeyAhead(b: Data, m: nat)
  {
    KeyCharsAhead(b, m) && Last(b.keys).kind == Unquoted && EqualAt(KeyAfter(b, m))
  }

  /** After the opening '"' of a key: its text, its closing '"', then its '='. */
  predicate QuotedKeyAhead(b: Data, m: nat)
  {
    KeyCharsAhead(b, m) && Last(b.keys).kind == Quoted2 && QuoteEqualAt(KeyAfter(b, m))
  }

  /** The rest of an unquoted key and its '='. */
  lemma KeyBody(b: Data, m: nat, e: Data)
    requires PlainKeyAhead(b, m) && e == KeyClosed(KeyAfter(b, m))
    ensures RunLine(b) == RunLine(e)
  {
    var c := KeyAfter(b, m);
    KeyRun(b, m, c);
    KeyCloseStep(c);
  }

  /** The text of a quoted key, its closing '"' and its '='. */
  lemma KeyQuotedBody(b: Data, m: nat, e: Data)
    requires QuotedKeyAhead(b, m) && e == KeyClosed(KeyUnquoted(KeyAfter(b, m)))
    ensures RunLine(b) == RunLine(e)
  {
    var c := KeyAfter(b, m);
    KeyRun(b, m, c);
    KeyQuoteTail(c, e);
  }

  /** A key, then its equal sign, at the cursor of an object. */
  predicate KeyAt(d: Data, n: nat, quoted: bool)
  {
    Idle(d) && Top(d) == ObjectSyntax && Word(d.line, d.i, n, quoted) && EqualAt(d.(i := d.i + n))
  }

  /** The states of an unquoted key end with its text pushed on keys and its equal sign registered. */
  lemma KeyPlainEntered(d: Data, n: nat)
    requires |d.hierarchy| > 0 && n > 0 && d.i + n <= |d.line|
    ensures KeyClosed(KeyAfter(KeyOpened(d), n - 1)) == Entered(d, Text(d.line[d.i..d.i + n], Unquoted), d.i + n)
  {
    var b := KeyOpened(d);
    var c := KeyAfter(b, n - 1);
    assert [d.line[d.i]] + d.line[d.i + 1..d.i + n] == d.line[d.i..d.i + n];
    assert c.keys == d.keys + [Text(d.line[d.i..d.i + n], Unquoted)];
    assert Pop(c).hierarchy == d.hierarchy;
  }

  /** The states of a quoted key end with its text, marked as ended, pushed on keys and its equal sign registered. */
  lemma KeyQuotedEntered(d: Data, n: nat)
    requires |d.hierarchy| > 0 && n >= 3 && d.i + n <= |d.line|
    ensures KeyClosed(KeyUnquoted(KeyAfter(KeyQuoted(d), n - 2))) == Entered(d, Text(d.line[d.i + 1..d.i + n - 1], EndString2), d.i + n)
  {
    var b := KeyQuoted(d);
    var u := KeyUnquoted(KeyAfter(b, n - 2));
    assert "" + d.line[d.i + 1..d.i + n - 1] == d.line[d.i + 1..d.i + n - 1];
    assert u.keys == d.keys + [Text(d.line[d.i + 1..d.i + n - 1], EndString2)];
    assert Pop(u).hierarchy == d.hierarchy;
  }

  /** The first character of an unquoted key opens a key whose other characters lie ahead. */
  lemma KeyPlainOpens(d: Data, n: nat)
    requires KeyAt(d, n, false)
    ensures KeyCharsAhead(KeyOpened(d), n - 1) && Last(KeyOpened(d).keys).kind == Unquoted
  {
    var b := KeyOpened(d);
    assert b.line == d.line && b.i == d.i + 1 && b.cells == d.cells && b.objs == d.objs && b.escape == d.escape;
    assert Sound(b) && Top(b) == Key;
    assert Ordinaries(b.line, b.i, n - 1);
  }

  /** After the first character of an unquoted key, the rest of it and its '=' lie ahead. */
  lemma KeyPlainAhead(d: Data, n: nat)
    requires KeyAt(d, n, false)
    ensures PlainKeyAhead(KeyOpened(d), n - 1)
  {
    KeyPlainOpens(d, n);
    var c := KeyAfter(KeyOpened(d), n - 1);
    assert c.line == d.line && c.i == d.i + n;
  }

  /** The opening '"' of a key opens a key whose text lies ahead. */
  lemma KeyQuotedOpens(d: Data, n: nat)
    requires KeyAt(d, n, true)
    ensures KeyCharsAhead(KeyQuoted(d), n - 2) && Last(KeyQuoted(d).keys).kind == Quoted2
  {
    var b := KeyQuoted(d);
    assert b.line == d.line && b.i == d.i + 1 && b.cells == d.cells && b.objs == d.objs && b.escape == d.escape;
    assert Sound(b) && Top(b) == Key;
    assert Ordinaries(b.line, b.i, n - 2);
  }

  /** After the opening '"' of a key, its text, its closing '"' and its '=' lie ahead. */
  lemma KeyQuotedAhead(d: Data, n: nat)
    requires KeyAt(d, n, true)
    ensures QuotedKeyAhead(KeyQuoted(d), n - 2)
  {
    KeyQuotedOpens(d, n);
    var c := KeyAfter(KeyQuoted(d), n - 2);
    assert c.line == d.line && c.i == d.i + n - 1;
  }

  /** What the steps of an unquoted key need, all of it RunLine-free. */
  lemma KeyPlainReady(d: Data, n: nat, e: Data)
    requires KeyAt(d, n, false) && e == Entered(d, WordText(d.line, d.i, n, false), d.i + n)
    ensures Plain(Char(d)) && PlainKeyAhead(KeyOpened(d), n - 1) && e == KeyClosed(KeyAfter(KeyOpened(d), n - 1))
  {
    WordStarts(d, n, false);
    KeyPlainAhead(d, n);
    KeyPlainEntered(d, n);
  }

  /** What the steps of a quoted key need, all of it RunLine-free. */
  lemma KeyQuotedReady(d: Data, n: nat, e: Data)
    requires KeyAt(d, n, true) && e == Entered(d, WordText(d.line, d.i, n, true), d.i + n)
    ensures Char(d) == '"' && NotDoubled(d, '"') && QuotedKeyAhead(KeyQuoted(d), n - 2)
    ensures e == KeyClosed(KeyUnquoted(KeyAfter(KeyQuoted(d), n - 2)))
  {
    WordStarts(d, n, true);
    KeyQuotedAhead(d, n);
    KeyQuotedEntered(d, n);
  }

  /** An unquoted key and its equal sign. */
  lemma KeyPlainWord(d: Data, n: nat, e: Data)
    requires KeyAt(d, n, false) && e == Entered(d, WordText(d.line, d.i, n, false), d.i + n)
    ensures RunLine(d) == RunLine(e)
  {
    KeyPlainReady(d, n, e);
    KeyBody(KeyOpened(d), n - 1, e);
    KeyOpenStep(d);
  }

  /** A quoted key and its equal sign. */
  lemma KeyQuotedWord(d: Data, n: nat, e: Data)
    requires KeyAt(d, n, true) && e == Entered(d, WordText(d.line, d.i, n, true), d.i + n)
    ensures RunLine(d) == RunLine(e)
  {
    KeyQuotedReady(d, n, e);
    KeyQuotedBody(KeyQuoted(d), n - 2, e);
    KeyQuoteStep(d);
  }

  /** A key, plain or quoted, and the equal sign after it: its text is pushed on keys and the value is awaited. */
  lemma KeyWord(d: Data, n: nat, quoted: bool, e: Data)
    requires KeyAt(d, n, quoted) && e == Entered(d, WordText(d.line, d.i, n, quoted), d.i + n)
    ensures RunLine(d) == RunLine(e)
  {
    if quoted {
      KeyQuotedWord(d, n, e);
    } else {
      KeyPlainWord(d, n, e);
    }
  }

  // ---- values -------------------------------------------------------------------

  /** A value read to the end of its line: the cursor on the newline, the frame of the value on top. */
  predicate ValueEndsAt(g: Data)
  {
    Ready(g) && Top(g) == ValueSyntax && g.raw.kind in {Unquoted, EndString2} && NewlineAt(g)
    && InObject(g) && |g.keys| > 0
  }

  /** insert_value in an object is ValueStored. */
  lemma ValueStoredIs(g: Data)
    requires Valid(g) && InObject(g) && |g.keys| > 0 && |g.hierarchy| > 0
    ensures InsertValue(g).Err? ==> ValueStored(g) == Err(InsertValue(g).error)
    ensures InsertValue(g).Ok? ==> ValueStored(g) == Ok(Pop(InsertValue(g).value).(i := |g.line|))
  {
  }

  /** The newline after a value stores it under its key. */
  lemma ValueTail(g: Data)
    requires ValueEndsAt(g)
    ensures RunLine(g) == ValueStored(g)
  {
    ValueStoredIs(g);
    ValueCloseStep(g);
  }

  /** After the first character of an unquoted value: the rest of it, then the newline. */
  predicate PlainValueAhead(f: Data, m: nat)
  {
    ValueCharsAhead(f, m) && f.raw.kind == Unquoted && NewlineAt(ValueAfter(f, m)) && InObject(f)
  }

  /** After the opening '"' of a value: its text, its closing '"', then the newline. */
  predicate QuotedValueAhead(f: Data, m: nat)
  {
    ValueCharsAhead(f, m) && f.raw.kind == Quoted2 && QuoteNewlineAt(ValueAfter(f, m)) && InObject(f)
  }

  /** Where an unquoted value leads to. */
  lemma ValuePlainEnds(f: Data, m: nat)
    requires PlainValueAhead(f, m)
    ensures ValueEndsAt(ValueAfter(f, m))
  {
    var g := ValueAfter(f, m);
    assert g.line == f.line && g.i == f.i + m && g.cells == f.cells && g.objs == f.objs && g.escape == f.escape;
    assert g.hierarchy == f.hierarchy && g.keys == f.keys && g.raw.kind == f.raw.kind;
  }

  /** Where a quoted value leads to: its closing '"', then the newline. */
  lemma ValueQuotedEnds(f: Data, m: nat)
    requires QuotedValueAhead(f, m)
    ensures InValue(ValueAfter(f, m)) && ValueAfter(f, m).raw.kind == Quoted2
    ensures Char(ValueAfter(f, m)) == '"' && NotDoubled(ValueAfter(f, m), '"')
    ensures ValueEndsAt(ValueUnquoted(ValueAfter(f, m)))
  {
    var c := ValueAfter(f, m);
    assert c.line == f.line && c.i == f.i + m && c.cells == f.cells && c.objs == f.objs && c.escape == f.escape;
    assert c.hierarchy == f.hierarchy && c.keys == f.keys && c.raw.kind == f.raw.kind;
    var g := ValueUnquoted(c);
    assert g.line == f.line && g.i == f.i + m + 1 && g.cells == f.cells && g.objs == f.objs && g.escape == f.escape;
  }

  /** The rest of an unquoted value and the newline. */
  lemma ValueBody(f: Data, m: nat)
    requires PlainValueAhead(f, m)
    ensures RunLine(f) == ValueStored(ValueAfter(f, m))
  {
    var g := ValueAfter(f, m);
    ValuePlainEnds(f, m);
    ValueRun(f, m, g);
    ValueTail(g);
  }

  /** The text of a quoted value, its closing '"' and the newline. */
  lemma ValueQuotedBody(f: Data, m: nat)
    requires QuotedValueAhead(f, m)
    ensures RunLine(f) == ValueStored(ValueUnquoted(ValueAfter(f, m)))
  {
    var c := ValueAfter(f, m);
    ValueQuotedEnds(f, m);
    ValueRun(f, m, c);
    ValueUnquoteStep(c);
    ValueTail(ValueUnquoted(c));
  }

  /** A value, then the newline that ends the line, after the equal sign of a key of an object. */
  predicate ValueAt(d: Data, n: nat, quoted: bool)
  {
    Idle(d) && Top(d) == EqualSign && Word(d.line, d.i, n, quoted) && NewlineAt(d.(i := d.i + n)) && InObject(d)
  }

  /** The state on the newline after a value: its text read, its frame on top of the frames under the equal sign. */
  function ValueRead(d: Data, n: nat, quoted: bool): Data
    requires Word(d.line, d.i, n, quoted) && |d.hierarchy| > 0
  {
    Register(Pop(d), ValueSyntax).(raw := WordText(d.line, d.i, n, quoted), i := d.i + n)
  }

  /** After the first character of an unquoted value, the rest of it and the newline lie ahead. */
  lemma ValuePlainAhead(d: Data, n: nat)
    requires ValueAt(d, n, false)
    ensures PlainValueAhead(ValueOpened(d), n - 1)
  {
    var f := ValueOpened(d);
    assert f.line == d.line && f.i == d.i + 1 && f.cells == d.cells && f.objs == d.objs && f.escape == d.escape;
    assert Sound(f) && Top(f) == ValueSyntax && f.keys == d.keys;
    assert Ordinaries(f.line, f.i, n - 1);
    var g := ValueAfter(f, n - 1);
    assert g.line == d.line && g.i == d.i + n;
  }

  /** After the opening '"' of a value, its text, its closing '"' and the newline lie ahead. */
  lemma ValueQuotedAhead(d: Data, n: nat)
    requires ValueAt(d, n, true)
    ensures QuotedValueAhead(ValueQuoted(d), n - 2)
  {
    var f := ValueQuoted(d);
    assert f.line == d.line && f.i == d.i + 1 && f.cells == d.cells && f.objs == d.objs && f.escape == d.escape;
    assert Sound(f) && Top(f) == ValueSyntax && f.keys == d.keys;
    assert Ordinaries(f.line, f.i, n - 2);
    var g := ValueAfter(f, n - 2);
    assert g.line == d.line && g.i == d.i + n - 1;
  }

  /** The states of an unquoted value end with the text of the word as the value read. */
  lemma ValuePlainRead(d: Data, n: nat)
    requires |d.hierarchy| > 0 && Word(d.line, d.i, n, false)
    ensures ValueAfter(ValueOpened(d), n - 1) == ValueRead(d, n, false)
  {
    assert [d.line[d.i]] + d.line[d.i + 1..d.i + n] == d.line[d.i..d.i + n];
  }

  /** The states of a quoted value end with the text between its quotes as the value read. */
  lemma ValueQuotedRead(d: Data, n: nat)
    requires |d.hierarchy| > 0 && Word(d.line, d.i, n, true)
    ensures ValueUnquoted(ValueAfter(ValueQuoted(d), n - 2)) == ValueRead(d, n, true)
  {
    assert "" + d.line[d.i + 1..d.i + n - 1] == d.line[d.i + 1..d.i + n - 1];
  }

  /** What the steps of an unquoted value need, all of it RunLine-free. */
  lemma ValuePlainReady(d: Data, n: nat)
    requires ValueAt(d, n, false)
    ensures Plain(Char(d)) && PlainValueAhead(ValueOpened(d), n - 1)
    ensures ValueAfter(ValueOpened(d), n - 1) == ValueRead(d, n, false)
  {
    WordStarts(d, n, false);
    ValuePlainAhead(d, n);
    ValuePlainRead(d, n);
  }

  /** What the steps of a quoted value need, all of it RunLine-free. */
  lemma ValueQuotedReady(d: Data, n: nat)
    requires ValueAt(d, n, true)
    ensures Char(d) == '"' && NotDoubled(d, '"') && QuotedValueAhead(ValueQuoted(d), n - 2)
    ensures ValueUnquoted(ValueAfter(ValueQuoted(d), n - 2)) == ValueRead(d, n, true)
  {
    WordStarts(d, n, true);
    ValueQuotedAhead(d, n);
    ValueQuotedRead(d, n);
  }

  /** An unquoted value and the newline. */
  lemma ValuePlainWord(d: Data, n: nat)
    requires ValueAt(d, n, false)
    ensures RunLine(d) == ValueStored(ValueRead(d, n, false))
  {
    ValuePlainReady(d, n);
    ValueBody(ValueOpened(d), n - 1);
    ValueOpenStep(d);
  }

  /** A quoted value and the newline. */
  lemma ValueQuotedWord(d: Data, n: nat)
    requires ValueAt(d, n, true)
    ensures RunLine(d) == ValueStored(ValueRead(d, n, true))
  {
    ValueQuotedReady(d, n);
    ValueQuotedBody(ValueQuoted(d), n - 2);
    ValueQuoteStep(d);
  }

  /** A value, plain or quoted, and the newline: it is typed and stored under its key. */
  lemma ValueWord(d: Data, n: nat, quoted: bool)
    requires ValueAt(d, n, quoted)
    ensures RunLine(d) == ValueStored(ValueRead(d, n, quoted))
  {
    if quoted {
      ValueQuotedWord(d, n);
    } else {
      ValuePlainWord(d, n);
    }
  }

  // ---- lines --------------------------------------------------------------------

  /**
   * The shape of a line holding one entry: lead blanks, a key of keyLen
   * characters, '=', gap blanks, a value of valueLen characters and the
   * newline.  An unquoted key takes the blanks before the equal sign.
   */
  datatype Layout = Layout(lead: nat, keyLen: nat, keyQuoted: bool, gap: nat, valueLen: nat, valueQuoted: bool)

  /** The line of d, from the cursor, has the entry shape l; the cursor is in an object. */
  predicate EntryLine(d: Data, l: Layout)
  {
    var j := d.i + l.lead + l.keyLen;
    var v := j + 1 + l.gap;
    Idle(d) && Top(d) == ObjectSyntax && InObject(d) && v + l.valueLen + 1 == |d.line|
    && Blanks(d.line, d.i, l.lead) && Word(d.line, d.i + l.lead, l.keyLen, l.keyQuoted) && d.line[j] == '='
    && Blanks(d.line, j + 1, l.gap) && Word(d.line, v, l.valueLen, l.valueQuoted) && d.line[v + l.valueLen] == '\n'
  }

  /** The key of the entry as read. */
  function KeyText(d: Data, l: Layout): Text
    requires EntryLine(d, l)
  {
    WordText(d.line, d.i + l.lead, l.keyLen, l.keyQuoted)
  }

  /** The value of the entry as read. */
  function ValueText(d: Data, l: Layout): Text
    requires EntryLine(d, l)
  {
    WordText(d.line, d.i + l.lead + l.keyLen + 1 + l.gap, l.valueLen, l.valueQuoted)
  }

  /** The state after the equal sign of the entry. */
  function EqualState(d: Data, l: Layout): Data
    requires EntryLine(d, l)
  {
    Entered(Skip(d, l.lead), KeyText(d, l), d.i + l.lead + l.keyLen)
  }

  /** The state at the value of the entry. */
  function ValueState(d: Data, l: Layout): Data
    requires EntryLine(d, l)
  {
    Skip(EqualState(d, l), l.gap)
  }

  /** The lead blanks and the key of an entry line lie ahead. */
  lemma EntryLead(d: Data, l: Layout)
    requires EntryLine(d, l)
    ensures BlanksAhead(d, l.lead) && KeyAt(Skip(d, l.lead), l.keyLen, l.keyQuoted)
    ensures EqualState(d, l) == Entered(Skip(d, l.lead), WordText(d.line, Skip(d, l.lead).i, l.keyLen, l.keyQuoted), Skip(d, l.lead).i + l.keyLen)
  {
    var a := Skip(d, l.lead);
    var j := d.i + l.lead + l.keyLen;
    assert a.line == d.line && a.i == d.i + l.lead;
    assert d.line[j + 1] != '=' by {
      if l.gap == 0 {
        assert d.line[j + 1] == d.line[j + 1 + l.gap];
      } else {
        assert IsBlank(d.line[j + 1]);
      }
    }
  }

  /** After the equal sign, the gap blanks and the value lie ahead. */
  lemma EntryGap(d: Data, l: Layout)
    requires EntryLine(d, l)
    ensures BlanksAhead(EqualState(d, l), l.gap) && ValueAt(ValueState(d, l), l.valueLen, l.valueQuoted)
  {
    var e := EqualState(d, l);
    assert e.line == d.line && e.i == d.i + l.lead + l.keyLen + 1 && e.cells == d.cells && e.objs == d.objs;
    assert e.escape == d.escape && e.raw == d.raw && Top(e) == EqualSign && |e.keys| > 0;
    var v := ValueState(d, l);
    assert v.line == d.line && v.i == e.i + l.gap;
  }

  /** Storing the value read in g is storing it in d, when g differs from d only in what is read. */
  lemma StoredFrom(g: Data, d: Data, key: Text, value: Text)
    requires Sound(g) && |g.objs| > 0 && |g.keys| > 0 && |g.hierarchy| > 0 && Sound(d) && |d.objs| > 0
    requires Pop(g).(keys := DropLast(g.keys), raw := EmptyText) == d.(i := g.i) && g.raw == value && Last(g.keys) == key
    ensures ValueStored(g) == Stored(d, Strip(key.s, key.kind), value)
  {
  }

  /** The state at the value of an entry is d with the equal sign registered over the key. */
  lemma ValueStateIs(d: Data, l: Layout)
    requires EntryLine(d, l)
    ensures ValueState(d, l) == d.(hierarchy := d.hierarchy + [Frame(EqualSign, d.lineNumber, d.i + l.lead + l.keyLen)],
                                   keys := d.keys + [KeyText(d, l)], i := d.i + l.lead + l.keyLen + 1 + l.gap)
  {
  }

  /** Reading a value over a key registered on d leaves d's frames, keys and heap. */
  lemma ReadOver(d: Data, v: Data, c: nat, key: Text, n: nat, quoted: bool)
    requires Sound(d) && |d.objs| > 0 && d.raw == EmptyText && Word(v.line, v.i, n, quoted)
    requires v == d.(hierarchy := d.hierarchy + [Frame(EqualSign, d.lineNumber, c)], keys := d.keys + [key], i := v.i)
    ensures var g := ValueRead(v, n, quoted);
      && Sound(g) && |g.objs| > 0 && |g.keys| > 0 && |g.hierarchy| > 0
      && g.raw == WordText(v.line, v.i, n, quoted) && Last(g.keys) == key
      && Pop(g).(keys := DropLast(g.keys), raw := EmptyText) == d.(i := g.i)
  {
    var g := ValueRead(v, n, quoted);
    assert Pop(g).hierarchy == d.hierarchy && DropLast(g.keys) == d.keys;
  }

  /** The value read over a key registered on d is stored under the stripped key in d's container. */
  lemma StoredOver(d: Data, v: Data, c: nat, key: Text, n: nat, quoted: bool)
    requires Sound(d) && |d.objs| > 0 && d.raw == EmptyText && Word(v.line, v.i, n, quoted)
    requires v == d.(hierarchy := d.hierarchy + [Frame(EqualSign, d.lineNumber, c)], keys := d.keys + [key], i := v.i)
    ensures ValueStored(ValueRead(v, n, quoted)) == Stored(d, Strip(key.s, key.kind), WordText(v.line, v.i, n, quoted))
  {
    ReadOver(d, v, c, key, n, quoted);
    StoredFrom(ValueRead(v, n, quoted), d, key, WordText(v.line, v.i, n, quoted));
  }

  /** What the value of the entry leaves: the typed value stored under the stripped key. */
  lemma EntryStored(d: Data, l: Layout)
    requires EntryLine(d, l)
    ensures ValueStored(ValueRead(ValueState(d, l), l.valueLen, l.valueQuoted)) == Stored(d, Strip(KeyText(d, l).s, KeyText(d, l).kind), ValueText(d, l))
  {
    ValueStateIs(d, l);
    var v := ValueState(d, l);
    assert WordText(v.line, v.i, l.valueLen, l.valueQuoted) == ValueText(d, l);
    StoredOver(d, v, d.i + l.lead + l.keyLen, KeyText(d, l), l.valueLen, l.valueQuoted);
  }

  /** The gap blanks and the value of an entry. */
  lemma AfterEqual(e: Data, gap: nat, n: nat, quoted: bool)
    requires BlanksAhead(e, gap) && ValueAt(Skip(e, gap), n, quoted)
    ensures RunLine(e) == ValueStored(ValueRead(Skip(e, gap), n, quoted))
  {
    BlankRun(e, gap, Skip(e, gap));
    ValueWord(Skip(e, gap), n, quoted);
  }

  /** The states of an entry line: a after the lead blanks, e after the equal sign, v at the value. */
  predicate LineReady(d: Data, l: Layout, a: Data, e: Data, v: Data)
  {
    BlanksAhead(d, l.lead) && a == Skip(d, l.lead)
    && KeyAt(a, l.keyLen, l.keyQuoted) && e == Entered(a, WordText(a.line, a.i, l.keyLen, l.keyQuoted), a.i + l.keyLen)
    && BlanksAhead(e, l.gap) && v == Skip(e, l.gap) && ValueAt(v, l.valueLen, l.valueQuoted)
  }

  /** An entry line has its states. */
  lemma EntryReady(d: Data, l: Layout)
    requires EntryLine(d, l)
    ensures LineReady(d, l, Skip(d, l.lead), EqualState(d, l), ValueState(d, l))
  {
    EntryLead(d, l);
    EntryGap(d, l);
  }

  /** The key, the equal sign, the gap blanks and the value of an entry. */
  lemma KeyThenValue(d: Data, l: Layout, a: Data, e: Data, v: Data)
    requires LineReady(d, l, a, e, v)
    ensures RunLine(a) == ValueStored(ValueRead(v, l.valueLen, l.valueQuoted))
  {
    KeyWord(a, l.keyLen, l.keyQuoted, e);
    AfterEqual(e, l.gap, l.valueLen, l.valueQuoted);
  }

  /** The lead blanks, then the rest of an entry line. */
  lemma LineRun(d: Data, l: Layout, a: Data, e: Data, v: Data)
    requires LineReady(d, l, a, e, v)
    ensures RunLine(d) == ValueStored(ValueRead(v, l.valueLen, l.valueQuoted))
  {
    BlankRun(d, l.lead, a);
    KeyThenValue(d, l, a, e, v);
  }

  /** A line of the entry shape gives the state after its value. */
  lemma EntryLineReads(d: Data, l: Layout)
    requires EntryLine(d, l)
    ensures RunLine(d) == ValueStored(ValueRead(ValueState(d, l), l.valueLen, l.valueQuoted))
  {
    EntryReady(d, l);
    LineRun(d, l, Skip(d, l.lead), EqualState(d, l), ValueState(d, l));
  }

  /**
   * A line `key = value`: the value, typed by get_type, is stored under the
   * stripped key in the object on top of luco_objs, the line is done and
   * nothing else changes; a value get_type refuses ends the parse with its error.
   */
  lemma EntryLineStores(d: Data, l: Layout)
    requires EntryLine(d, l)
    ensures RunLine(d) == Stored(d, Strip(KeyText(d, l).s, KeyText(d, l).kind), ValueText(d, l))
  {
    EntryLineReads(d, l);
    EntryStored(d, l);
  }

  /** A line `key = value` whose key strips to key and whose value get_type turns into v: v is set under key. */
  lemma EntryLineSets(d: Data, l: Layout, key: string, v: LucoValue.Value)
    requires EntryLine(d, l) && Strip(KeyText(d, l).s, KeyText(d, l).kind) == key
    requires GetType(Strip(ValueText(d, l).s, ValueText(d, l).kind)) == Ok(v)
    ensures RunLine(d) == Ok(d.(i := |d.line|, cells := LucoTree.Insert(d.cells, Last(d.objs), key, LucoTree.Scalar(v)).cells))
  {
    EntryLineStores(d, l);
  }
}
