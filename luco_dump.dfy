/*
 * node::dump_to_json, node::dump_to_luco, node::dump_to_string and
 * node::stringify (include/api.hpp:1951-1961, 2175-2343): the text a
 * document is written out as.
 *
 * The writers hand their text to an output function piece by piece; the
 * model gives the whole text the pieces make up.  The writers recurse into
 * every node a container holds, so they finish only on a document without a
 * cycle: the functions take a rank that decreases from every container to the
 * nodes it holds, which exists exactly for such documents, and the text does
 * not depend on which rank is taken (RankIrrelevant).
 */
module LucoDump {
  import opened LucoValue
  import opened LucoTree
  import opened LucoNumbers

  /** indent_conf: the character an indentation is made of and the width of one level. */
  datatype IndentConf = IndentConf(ch: char, width: nat)

  /** {' ', 4}, the default of every writer. */
  const DefaultIndent := IndentConf(' ', 4)

  /** std::string(n, ch) */
  function Repeat(ch: char, n: nat): (s: string)
    ensures |s| == n && forall k :: 0 <= k < n ==> s[k] == ch
  {
    if n == 0 then [] else Repeat(ch, n - 1) + [ch]
  }

  /** Every container has a higher rank than the nodes it holds: the heap has no cycle. */
  predicate Ranked(cells: Cells, rank: seq<nat>)
  {
    && WellFormed(cells) && |rank| == |cells|
    && forall p :: 0 <= p < |cells| ==> RankedCell(cells[p], rank, rank[p])
  }

  predicate RankedCell(c: Cell, rank: seq<nat>, r: nat)
  {
    forall k :: 0 <= k < |Children(c)| ==> Children(c)[k] < |rank| && rank[Children(c)[k]] < r
  }

  /** The node an entry holds is ranked below its object. */
  lemma EntryRank(cells: Cells, rank: seq<nat>, n: Ref, k: nat)
    requires Ranked(cells, rank) && n < |cells| && cells[n].ObjectCell? && k < |cells[n].entries|
    ensures cells[n].entries[k].item < |cells| && rank[cells[n].entries[k].item] < rank[n]
  {
    assert RankedCell(cells[n], rank, rank[n]);
    assert Children(cells[n])[k] == cells[n].entries[k].item;
  }

  lemma ElementRank(cells: Cells, rank: seq<nat>, n: Ref, k: nat)
    requires Ranked(cells, rank) && n < |cells| && cells[n].ArrayCell? && k < |cells[n].elements|
    ensures cells[n].elements[k] < |cells| && rank[cells[n].elements[k]] < rank[n]
  {
    assert RankedCell(cells[n], rank, rank[n]);
    assert Children(cells[n])[k] == cells[n].elements[k];
  }

  /** A value as both writers print it: stringify, in double quotes when the tag is string. */
  function ValueText(v: Value): string
  {
    if v.tag == String then "\"" + Stringify(v) + "\"" else Stringify(v)
  }

  // ---- JSON -------------------------------------------------------------

  /**
   * dump_to_json(out, conf, indent): an object is "{", a line per entry
   * `"key": text`, and "}"; an array is "[", a line per element, and "]"; a
   * line ends with "," except the last one.
   */
  function Json(cells: Cells, rank: seq<nat>, n: Ref, conf: IndentConf, indent: nat): string
    requires Ranked(cells, rank) && n < |cells|
    decreases rank[n], 1, 0
  {
    match cells[n]
    case ValueCell(v) => ValueText(v)
    case ObjectCell(es) => "{\n" + JsonMembers(cells, rank, n, conf, indent, |es|) + Repeat(conf.ch, indent) + "}"
    case ArrayCell(xs) => "[\n" + JsonElements(cells, rank, n, conf, indent, |xs|) + Repeat(conf.ch, indent) + "]"
  }

  /** The entry line without its ending: indentation, the quoted key, ": ", the node's text. */
  function JsonMember(cells: Cells, rank: seq<nat>, n: Ref, conf: IndentConf, indent: nat, k: nat): string
    requires Ranked(cells, rank) && n < |cells| && cells[n].ObjectCell? && k < |cells[n].entries|
    decreases rank[n], 0, 0
  {
    var e := cells[n].entries[k];
    EntryRank(cells, rank, n, k);
    Repeat(conf.ch, indent + conf.width) + "\"" + e.key + "\": " + Json(cells, rank, e.item, conf, indent + conf.width)
  }

  /** The lines of the first count entries, each ended by "," unless it is the last entry, and a newline. */
  function JsonMembers(cells: Cells, rank: seq<nat>, n: Ref, conf: IndentConf, indent: nat, count: nat): string
    requires Ranked(cells, rank) && n < |cells| && cells[n].ObjectCell? && count <= |cells[n].entries|
    decreases rank[n], 0, count + 1
  {
    if count == 0 then ""
    else
      JsonMembers(cells, rank, n, conf, indent, count - 1) + JsonMember(cells, rank, n, conf, indent, count - 1)
      + (if count != |cells[n].entries| then "," else "") + "\n"
  }

  function JsonElement(cells: Cells, rank: seq<nat>, n: Ref, conf: IndentConf, indent: nat, k: nat): string
    requires Ranked(cells, rank) && n < |cells| && cells[n].ArrayCell? && k < |cells[n].elements|
    decreases rank[n], 0, 0
  {
    ElementRank(cells, rank, n, k);
    Repeat(conf.ch, indent + conf.width) + Json(cells, rank, cells[n].elements[k], conf, indent + conf.width)
  }

  function JsonElements(cells: Cells, rank: seq<nat>, n: Ref, conf: IndentConf, indent: nat, count: nat): string
    requires Ranked(cells, rank) && n < |cells| && cells[n].ArrayCell? && count <= |cells[n].elements|
    decreases rank[n], 0, count + 1
  {
    if count == 0 then ""
    else
      JsonElements(cells, rank, n, conf, indent, count - 1) + JsonElement(cells, rank, n, conf, indent, count - 1)
      + (if count != |cells[n].elements| then "," else "") + "\n"
  }

  // ---- luco -------------------------------------------------------------

  /**
   * dump_to_luco(out, conf, indent): an object at indent 0 (the document
   * itself) is its entry lines alone; any other object, and every array, is
   * "{", its lines, and "}".  An entry line is `key = text` for a value and
   * `key text` for a container.
   */
  function Luco(cells: Cells, rank: seq<nat>, n: Ref, conf: IndentConf, indent: nat): string
    requires Ranked(cells, rank) && n < |cells|
    decreases rank[n], 1, 0
  {
    match cells[n]
    case ValueCell(v) => ValueText(v)
    case ObjectCell(es) =>
      (if indent != 0 then "{\n" else "")
      + LucoMembers(cells, rank, n, conf, indent, |es|)
      + (if indent != 0 then Repeat(conf.ch, indent) + "}" else "")
    case ArrayCell(xs) => "{\n" + LucoElements(cells, rank, n, conf, indent, |xs|) + Repeat(conf.ch, indent) + "}"
  }

  /** An entry line: indentation (none at indent 0), the key, " = " before a value or " " before a container, the text. */
  function LucoMember(cells: Cells, rank: seq<nat>, n: Ref, conf: IndentConf, indent: nat, k: nat): string
    requires Ranked(cells, rank) && n < |cells| && cells[n].ObjectCell? && k < |cells[n].entries|
    decreases rank[n], 0, 0
  {
    var e := cells[n].entries[k];
    EntryRank(cells, rank, n, k);
    var width := if indent != 0 then indent + conf.width else 0;
    Repeat(conf.ch, width) + e.key + (if cells[e.item].ValueCell? then " = " else " ")
    + Luco(cells, rank, e.item, conf, indent + conf.width) + "\n"
  }

  function LucoMembers(cells: Cells, rank: seq<nat>, n: Ref, conf: IndentConf, indent: nat, count: nat): string
    requires Ranked(cells, rank) && n < |cells| && cells[n].ObjectCell? && count <= |cells[n].entries|
    decreases rank[n], 0, count + 1
  {
    if count == 0 then ""
    else LucoMembers(cells, rank, n, conf, indent, count - 1) + LucoMember(cells, rank, n, conf, indent, count - 1)
  }

  function LucoElement(cells: Cells, rank: seq<nat>, n: Ref, conf: IndentConf, indent: nat, k: nat): string
    requires Ranked(cells, rank) && n < |cells| && cells[n].ArrayCell? && k < |cells[n].elements|
    decreases rank[n], 0, 0
  {
    ElementRank(cells, rank, n, k);
    Repeat(conf.ch, indent + conf.width) + Luco(cells, rank, cells[n].elements[k], conf, indent + conf.width) + "\n"
  }

  function LucoElements(cells: Cells, rank: seq<nat>, n: Ref, conf: IndentConf, indent: nat, count: nat): string
    requires Ranked(cells, rank) && n < |cells| && cells[n].ArrayCell? && count <= |cells[n].elements|
    decreases rank[n], 0, count + 1
  {
    if count == 0 then ""
    else LucoElements(cells, rank, n, conf, indent, count - 1) + LucoElement(cells, rank, n, conf, indent, count - 1)
  }

  /** dump_to_string(conf): the luco text of the node at indent 0. */
  function DumpToString(cells: Cells, rank: seq<nat>, n: Ref, conf: IndentConf): string
    requires Ranked(cells, rank) && n < |cells|
  {
    Luco(cells, rank, n, conf, 0)
  }

  /** node::stringify: the value's stringify, or the luco text of a container. */
  function NodeStringify(cells: Cells, rank: seq<nat>, n: Ref): string
    requires Ranked(cells, rank) && n < |cells|
  {
    if cells[n].ValueCell? then Stringify(cells[n].value) else DumpToString(cells, rank, n, DefaultIndent)
  }

  // ---- properties -------------------------------------------------------

  /** The texts of the entries, in the order the object keeps them. */
  function MemberLines(cells: Cells, rank: seq<nat>, n: Ref, conf: IndentConf, indent: nat, count: nat): (ls: seq<string>)
    requires Ranked(cells, rank) && n < |cells| && cells[n].ObjectCell? && count <= |cells[n].entries|
    ensures |ls| == count
    ensures forall k :: 0 <= k < count ==> ls[k] == JsonMember(cells, rank, n, conf, indent, k)
  {
    if count == 0 then [] else MemberLines(cells, rank, n, conf, indent, count - 1) + [JsonMember(cells, rank, n, conf, indent, count - 1)]
  }

  /** The texts joined, sep between each two. */
  function Join(xs: seq<string>, sep: string): string
  {
    if |xs| == 0 then ""
    else if |xs| == 1 then xs[0]
    else Join(xs[..|xs| - 1], sep) + sep + xs[|xs| - 1]
  }

  /** The lines of the first count entries are the entries joined by ",\n", ended by "," unless the last entry is among them. */
  lemma {:induction false} JsonMembersPrefix(cells: Cells, rank: seq<nat>, n: Ref, conf: IndentConf, indent: nat, count: nat)
    requires Ranked(cells, rank) && n < |cells| && cells[n].ObjectCell? && 0 < count <= |cells[n].entries|
    ensures JsonMembers(cells, rank, n, conf, indent, count) ==
            Join(MemberLines(cells, rank, n, conf, indent, count), ",\n")
            + (if count == |cells[n].entries| then "\n" else ",\n")
  {
    var ls := MemberLines(cells, rank, n, conf, indent, count);
    if count > 1 {
      JsonMembersPrefix(cells, rank, n, conf, indent, count - 1);
      assert ls[..count - 1] == MemberLines(cells, rank, n, conf, indent, count - 1);
    }
  }

  /**
   * An object with n > 0 entries is written as "{", the n entry texts with
   * ",\n" between each two, a newline and "}": n - 1 commas end lines, the
   * last entry line has none.
   */
  lemma JsonObjectShape(cells: Cells, rank: seq<nat>, n: Ref, conf: IndentConf, indent: nat)
    requires Ranked(cells, rank) && n < |cells| && cells[n].ObjectCell?
    ensures cells[n].entries == [] ==> Json(cells, rank, n, conf, indent) == "{\n" + Repeat(conf.ch, indent) + "}"
    ensures cells[n].entries != [] ==>
              Json(cells, rank, n, conf, indent) ==
              "{\n" + Join(MemberLines(cells, rank, n, conf, indent, |cells[n].entries|), ",\n") + "\n" + Repeat(conf.ch, indent) + "}"
  {
    if cells[n].entries != [] {
      JsonMembersPrefix(cells, rank, n, conf, indent, |cells[n].entries|);
    }
  }

  /** Join puts one separator between each two texts: n texts, n - 1 separators. */
  lemma {:induction false} JoinLength(xs: seq<string>, sep: string)
    requires |xs| > 0
    ensures |Join(xs, sep)| == TotalLength(xs) + (|xs| - 1) * |sep|
  {
    if |xs| > 1 {
      JoinLength(xs[..|xs| - 1], sep);
      TotalLengthSnoc(xs[..|xs| - 1], xs[|xs| - 1]);
      assert xs[..|xs| - 1] + [xs[|xs| - 1]] == xs;
    }
  }

  function TotalLength(xs: seq<string>): nat
  {
    if xs == [] then 0 else TotalLength(xs[..|xs| - 1]) + |xs[|xs| - 1]|
  }

  lemma TotalLengthSnoc(xs: seq<string>, x: string)
    ensures TotalLength(xs + [x]) == TotalLength(xs) + |x|
  {
    assert (xs + [x])[..|xs|] == xs;
  }

  /** A value's text starts with '"' exactly when its tag says string, whenever string tag and string payload go together. */
  lemma QuotesOnlyStrings(v: Value)
    requires v.tag == String <==> IsString(v)
    ensures |ValueText(v)| > 0 && ValueText(v)[0] == '"' <==> v.tag == String
    ensures v.tag == String ==> ValueText(v) == "\"" + v.payload.s + "\""
  {
    if v.tag != String {
      var t := ValueText(v);
      match v.payload
      case Dbl(d) => {
        var u := DropZeros(d);
        if |u| > 0 {
          assert t[0] == d[0];
          assert d[0] == '-' || IsDigit(d[0]) by {
            var w := if |d| > 0 && d[0] == '-' then d[1..] else d;
            assert IsDigit(w[..|w| - 7][0]);
          }
        }
      }
      case Int(i) => {
        if i >= 0 { assert IsDigit(NatToString(i)[0]); }
      }
      case _ => {}
    }
  }

  /** A value node is written the same way by both writers, at every indentation. */
  lemma ValueTextEverywhere(cells: Cells, rank: seq<nat>, n: Ref, conf: IndentConf, indent: nat)
    requires Ranked(cells, rank) && n < |cells| && cells[n].ValueCell?
    ensures Json(cells, rank, n, conf, indent) == ValueText(cells[n].value)
    ensures Luco(cells, rank, n, conf, indent) == ValueText(cells[n].value)
    ensures NodeStringify(cells, rank, n) == Stringify(cells[n].value)
  {
  }

  /** An array, and an object below the top level, is written as a block "{\n" ... "}". */
  lemma LucoBracedBlock(cells: Cells, rank: seq<nat>, n: Ref, conf: IndentConf, indent: nat)
    requires Ranked(cells, rank) && n < |cells| && (cells[n].ArrayCell? || (cells[n].ObjectCell? && indent != 0))
    ensures var t := Luco(cells, rank, n, conf, indent);
            |t| >= 3 && t[..2] == "{\n" && t[|t| - 1] == '}'
  {
  }

  /**
   * At indent 0 an object is written without braces, one line per entry,
   * each line starting with its key unindented.
   */
  lemma LucoTopLevel(cells: Cells, rank: seq<nat>, n: Ref, conf: IndentConf)
    requires Ranked(cells, rank) && n < |cells| && cells[n].ObjectCell?
    ensures DumpToString(cells, rank, n, conf) == LucoMembers(cells, rank, n, conf, 0, |cells[n].entries|)
    ensures forall k :: 0 <= k < |cells[n].entries| ==>
              var line := LucoMember(cells, rank, n, conf, 0, k);
              |cells[n].entries[k].key| <= |line| && line[..|cells[n].entries[k].key|] == cells[n].entries[k].key
  {
    forall k | 0 <= k < |cells[n].entries|
      ensures var line := LucoMember(cells, rank, n, conf, 0, k);
              |cells[n].entries[k].key| <= |line| && line[..|cells[n].entries[k].key|] == cells[n].entries[k].key
    {
      var key := cells[n].entries[k].key;
      var line := LucoMember(cells, rank, n, conf, 0, k);
      assert line == key + (line[|key|..]);
    }
  }

  /**
   * An entry line: `key = text` for a value, `key {...}` for a container
   * (a block whenever it is indented below the top level).
   */
  lemma LucoEntryShape(cells: Cells, rank: seq<nat>, n: Ref, conf: IndentConf, indent: nat, k: nat)
    requires Ranked(cells, rank) && n < |cells| && cells[n].ObjectCell? && k < |cells[n].entries|
    ensures var e := cells[n].entries[k];
            var pad := Repeat(conf.ch, if indent != 0 then indent + conf.width else 0);
            e.item < |cells| &&
            LucoMember(cells, rank, n, conf, indent, k) ==
              if cells[e.item].ValueCell? then pad + e.key + " = " + ValueText(cells[e.item].value) + "\n"
              else pad + e.key + " " + Luco(cells, rank, e.item, conf, indent + conf.width) + "\n"
  {
    EntryRank(cells, rank, n, k);
  }

  /** The text does not depend on the rank chosen. */
  lemma {:induction false} JsonRankIrrelevant(cells: Cells, r1: seq<nat>, r2: seq<nat>, n: Ref, conf: IndentConf, indent: nat)
    requires Ranked(cells, r1) && Ranked(cells, r2) && n < |cells|
    ensures Json(cells, r1, n, conf, indent) == Json(cells, r2, n, conf, indent)
    decreases r1[n], 1, 0
  {
    match cells[n]
    case ValueCell(_) =>
    case ObjectCell(es) => JsonMembersRankIrrelevant(cells, r1, r2, n, conf, indent, |es|);
    case ArrayCell(xs) => JsonElementsRankIrrelevant(cells, r1, r2, n, conf, indent, |xs|);
  }

  lemma {:induction false} JsonMembersRankIrrelevant(cells: Cells, r1: seq<nat>, r2: seq<nat>, n: Ref, conf: IndentConf, indent: nat, count: nat)
    requires Ranked(cells, r1) && Ranked(cells, r2) && n < |cells| && cells[n].ObjectCell? && count <= |cells[n].entries|
    ensures JsonMembers(cells, r1, n, conf, indent, count) == JsonMembers(cells, r2, n, conf, indent, count)
    decreases r1[n], 0, count
  {
    if count > 0 {
      JsonMembersRankIrrelevant(cells, r1, r2, n, conf, indent, count - 1);
      EntryRank(cells, r1, n, count - 1);
      JsonRankIrrelevant(cells, r1, r2, cells[n].entries[count - 1].item, conf, indent + conf.width);
    }
  }

  lemma {:induction false} JsonElementsRankIrrelevant(cells: Cells, r1: seq<nat>, r2: seq<nat>, n: Ref, conf: IndentConf, indent: nat, count: nat)
    requires Ranked(cells, r1) && Ranked(cells, r2) && n < |cells| && cells[n].ArrayCell? && count <= |cells[n].elements|
    ensures JsonElements(cells, r1, n, conf, indent, count) == JsonElements(cells, r2, n, conf, indent, count)
    decreases r1[n], 0, count
  {
    if count > 0 {
      JsonElementsRankIrrelevant(cells, r1, r2, n, conf, indent, count - 1);
      ElementRank(cells, r1, n, count - 1);
      JsonRankIrrelevant(cells, r1, r2, cells[n].elements[count - 1], conf, indent + conf.width);
    }
  }

  lemma {:induction false} LucoRankIrrelevant(cells: Cells, r1: seq<nat>, r2: seq<nat>, n: Ref, conf: IndentConf, indent: nat)
    requires Ranked(cells, r1) && Ranked(cells, r2) && n < |cells|
    ensures Luco(cells, r1, n, conf, indent) == Luco(cells, r2, n, conf, indent)
    decreases r1[n], 1, 0
  {
    match cells[n]
    case ValueCell(_) =>
    case ObjectCell(es) => LucoMembersRankIrrelevant(cells, r1, r2, n, conf, indent, |es|);
    case ArrayCell(xs) => LucoElementsRankIrrelevant(cells, r1, r2, n, conf, indent, |xs|);
  }

  lemma {:induction false} LucoMembersRankIrrelevant(cells: Cells, r1: seq<nat>, r2: seq<nat>, n: Ref, conf: IndentConf, indent: nat, count: nat)
    requires Ranked(cells, r1) && Ranked(cells, r2) && n < |cells| && cells[n].ObjectCell? && count <= |cells[n].entries|
    ensures LucoMembers(cells, r1, n, conf, indent, count) == LucoMembers(cells, r2, n, conf, indent, count)
    decreases r1[n], 0, count
  {
    if count > 0 {
      LucoMembersRankIrrelevant(cells, r1, r2, n, conf, indent, count - 1);
      EntryRank(cells, r1, n, count - 1);
      LucoRankIrrelevant(cells, r1, r2, cells[n].entries[count - 1].item, conf, indent + conf.width);
    }
  }

  lemma {:induction false} LucoElementsRankIrrelevant(cells: Cells, r1: seq<nat>, r2: seq<nat>, n: Ref, conf: IndentConf, indent: nat, count: nat)
    requires Ranked(cells, r1) && Ranked(cells, r2) && n < |cells| && cells[n].ArrayCell? && count <= |cells[n].elements|
    ensures LucoElements(cells, r1, n, conf, indent, count) == LucoElements(cells, r2, n, conf, indent, count)
    decreases r1[n], 0, count
  {
    if count > 0 {
      LucoElementsRankIrrelevant(cells, r1, r2, n, conf, indent, count - 1);
      ElementRank(cells, r1, n, count - 1);
      LucoRankIrrelevant(cells, r1, r2, cells[n].elements[count - 1], conf, indent + conf.width);
    }
  }
}
