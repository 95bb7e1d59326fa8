/*
 * The node operations of include/api.hpp performed in place: a Document holds
 * the heap every luco::node of a program points into, and its methods change
 * the shared containers the way node::insert, node::push_back,
 * node::add_node_to_array, node::operator= and node::operator+ do.  Each
 * method is proved against the function of LucoTree that says what the
 * operation means; the writers are proved against LucoDump.
 */
module LucoDocument {
  import opened LucoError
  import opened LucoValue
  import opened LucoTree
  import opened LucoDump
  import Obj = LucoObject
  import LucoNumbers

  class Document {
    /** The cells the nodes point to; a node is the index of its cell. */
    var cells: Cells

    ghost predicate Valid()
      reads this
    {
      WellFormed(cells)
    }

    constructor ()
      ensures Valid() && cells == []
    {
      cells := [];
    }

    /** node(node_type): a new empty value, array or object. */
    method NewNode(t: NodeType) returns (n: Ref)
      requires Valid()
      modifies this
      ensures Valid() && cells == old(cells) + [NewCell(t)] && n == |old(cells)|
    {
      AppendWellFormed(cells, NewCell(t));
      n := |cells|;
      cells := cells + [NewCell(t)];
    }

    /** node(x): a new cell holding a copy of a value, or the cell a node already points to. */
    method MakeNode(x: Content) returns (m: Ref)
      requires Valid() && ContentIn(x, cells)
      modifies this
      ensures Valid() && (cells, m) == Bind(old(cells), x)
    {
      BindWellFormed(cells, x);
      match x
      case Scalar(v) =>
        m := |cells|;
        cells := cells + [ValueCell(v)];
      case Share(p) =>
        m := p;
    }

    /** node::insert(key, x) */
    method Insert(n: Ref, key: string, x: Content) returns (r: Result<Ref>)
      requires Valid() && n < |cells| && ContentIn(x, cells)
      modifies this
      ensures Valid() && Edit(cells, r) == LucoTree.Insert(old(cells), n, key, x)
    {
      if !cells[n].ObjectCell? {
        return Err(WrongTypeError);
      }
      var m := MakeNode(x);
      var c := ObjectCell(Obj.Insert(cells[n].entries, key, m));
      assert CellIn(cells[n], |cells|);
      ObjectInsertIn(cells[n].entries, key, m, |cells|);
      ReplaceWellFormed(cells, n, c);
      cells := cells[n := c];
      r := Ok(m);
    }

    /** node::push_back(x) */
    method PushBack(n: Ref, x: Content) returns (r: Result<Ref>)
      requires Valid() && n < |cells| && ContentIn(x, cells)
      modifies this
      ensures Valid() && Edit(cells, r) == LucoTree.PushBack(old(cells), n, x)
    {
      if !cells[n].ArrayCell? {
        return Err(WrongTypeError);
      }
      var m := MakeNode(x);
      var c := ArrayCell(cells[n].elements + [m]);
      assert CellIn(c, |cells|) by {
        assert CellIn(cells[n], |cells|);
        forall k | 0 <= k < |Children(c)|
          ensures Children(c)[k] < |cells|
        {
          if k < |cells[n].elements| {
            assert Children(c)[k] == Children(cells[n])[k];
          }
        }
      }
      ReplaceWellFormed(cells, n, c);
      cells := cells[n := c];
      r := Ok(m);
    }

    /** node::add_node_to_array(index, node), node::add_value_to_array(index, value) */
    method AddToArray(n: Ref, index: nat, x: Content) returns (r: Result<Ref>)
      requires Valid() && n < |cells| && ContentIn(x, cells)
      modifies this
      ensures Valid() && Edit(cells, r) == LucoTree.AddToArray(old(cells), n, index, x)
    {
      if !cells[n].ArrayCell? || index >= |cells[n].elements| {
        return Err(WrongTypeError);
      }
      var m := MakeNode(x);
      var c := ArrayCell(cells[n].elements[index := m]);
      assert CellIn(c, |cells|) by {
        assert CellIn(cells[n], |cells|);
        forall k | 0 <= k < |Children(c)|
          ensures Children(c)[k] < |cells|
        {
          if k != index {
            assert Children(c)[k] == Children(cells[n])[k];
          }
        }
      }
      ReplaceWellFormed(cells, n, c);
      cells := cells[n := c];
      r := Ok(m);
    }

    /** node::at(key) = x, node::at(index) = x */
    method Assign(place: Place, x: Content) returns (r: Result<Ref>)
      requires Valid() && place.owner < |cells| && ContentIn(x, cells)
      modifies this
      ensures Valid() && Edit(cells, r) == LucoTree.Assign(old(cells), place, x)
    {
      match place
      case Member(o, key) =>
        var at := AtKey(cells[o], key);
        if at.Err? {
          return at;
        }
        r := Insert(o, key, x);
      case Element(a, index) =>
        var at := AtIndex(cells[a], index);
        if at.Err? {
          return at;
        }
        r := AddToArray(a, index, x);
    }

    /**
     * node::operator+: a new node; for two objects every entry of the left
     * one is inserted and then every entry of the right one, for two arrays
     * every element of the left one is pushed back and then every element of
     * the right one.
     */
    method Plus(a: Ref, b: Ref, add: (Number, Number) -> LucoNumbers.DoubleText) returns (r: Result<Ref>)
      requires Valid() && a < |cells| && b < |cells|
      modifies this
      ensures Valid() && Edit(cells, r) == LucoTree.Plus(old(cells), a, b, add)
    {
      if Kind(cells[a]) != Kind(cells[b]) {
        return Err(WrongTypeError);
      }
      if cells[a].ObjectCell? {
        r := PlusObjects(a, b);
      } else if cells[a].ArrayCell? {
        r := PlusArrays(a, b);
      } else {
        var v :- PlusValues(cells[a].value, cells[b].value, add);
        AppendWellFormed(cells, ValueCell(v));
        r := Ok(|cells|);
        cells := cells + [ValueCell(v)];
      }
    }

    method PlusObjects(a: Ref, b: Ref) returns (r: Result<Ref>)
      requires Valid() && a < |cells| && b < |cells| && cells[a].ObjectCell? && cells[b].ObjectCell?
      modifies this
      ensures Valid() && r == Ok(|old(cells)|) && cells == old(cells) + [ObjectUnion(old(cells), a, b)]
    {
      ghost var base := cells;
      var left, right := cells[a].entries, cells[b].entries;
      assert CellIn(cells[a], |cells|) && CellIn(cells[b], |cells|);
      assert forall k :: 0 <= k < |left| ==> Children(cells[a])[k] == left[k].item;
      assert forall k :: 0 <= k < |right| ==> Children(cells[b])[k] == right[k].item;
      var m := NewNode(ObjectNode);
      InsertEntries(m, left, [], base);
      InsertEntries(m, right, left, base);
      r := Ok(m);
      assert cells == cells[..|base|] + [cells[m]];
    }

    method PlusArrays(a: Ref, b: Ref) returns (r: Result<Ref>)
      requires Valid() && a < |cells| && b < |cells| && cells[a].ArrayCell? && cells[b].ArrayCell?
      modifies this
      ensures Valid() && r == Ok(|old(cells)|) && cells == old(cells) + [ArrayConcat(old(cells), a, b)]
    {
      ghost var base := cells;
      var left, right := cells[a].elements, cells[b].elements;
      assert CellIn(cells[a], |cells|) && CellIn(cells[b], |cells|);
      assert forall k :: 0 <= k < |left| ==> Children(cells[a])[k] == left[k];
      assert forall k :: 0 <= k < |right| ==> Children(cells[b])[k] == right[k];
      var m := NewNode(ArrayNode);
      PushElements(m, left, [], base);
      PushElements(m, right, left, base);
      r := Ok(m);
      assert cells == cells[..|base|] + [cells[m]];
    }

    /**
     * The insertion loop of operator+ on objects: inserts the entries es,
     * in order, into the new object m, which holds those of prior so far.
     */
    method InsertEntries(m: Ref, es: seq<Obj.Entry<Ref>>, prior: seq<Obj.Entry<Ref>>, ghost base: Cells)
      requires Valid() && m == |base| && |cells| == |base| + 1 && cells[..|base|] == base
      requires Obj.Sorted(prior) && cells[m] == ObjectCell(Obj.InsertAll([], prior))
      requires forall k :: 0 <= k < |es| ==> es[k].item < |base|
      modifies this
      ensures Valid() && |cells| == |base| + 1 && cells[..|base|] == base
      ensures cells[m] == ObjectCell(Obj.InsertAll(Obj.InsertAll([], prior), es))
    {
      var k := 0;
      while k < |es|
        invariant 0 <= k <= |es|
        invariant Valid() && |cells| == |base| + 1 && cells[..|base|] == base
        invariant cells[m].ObjectCell? && Obj.Sorted(cells[m].entries)
        invariant Obj.InsertAll(cells[m].entries, es[k..]) == Obj.InsertAll(Obj.InsertAll([], prior), es)
      {
        assert es[k..][1..] == es[k + 1..];
        var _ := Insert(m, es[k].key, Share(es[k].item));
        k := k + 1;
      }
    }

    /** The push_back loop of operator+ on arrays: appends xs, in order, to the new array m. */
    method PushElements(m: Ref, xs: seq<Ref>, prior: seq<Ref>, ghost base: Cells)
      requires Valid() && m == |base| && |cells| == |base| + 1 && cells[..|base|] == base
      requires cells[m] == ArrayCell(prior)
      requires forall k :: 0 <= k < |xs| ==> xs[k] < |base|
      modifies this
      ensures Valid() && |cells| == |base| + 1 && cells[..|base|] == base
      ensures cells[m] == ArrayCell(prior + xs)
    {
      var k := 0;
      while k < |xs|
        invariant 0 <= k <= |xs|
        invariant Valid() && |cells| == |base| + 1 && cells[..|base|] == base
        invariant cells[m] == ArrayCell(prior + xs[..k])
      {
        assert xs[..k + 1] == xs[..k] + [xs[k]];
        var _ := PushBack(m, Share(xs[k]));
        k := k + 1;
      }
      assert xs[..k] == xs;
    }

    // ---- writers --------------------------------------------------------

    /** node::dump_to_json(out, conf, indent), the pieces collected into one string. */
    method DumpToJson(n: Ref, conf: IndentConf, indent: nat, ghost rank: seq<nat>) returns (out: string)
      requires Ranked(cells, rank) && n < |cells|
      ensures out == Json(cells, rank, n, conf, indent)
      decreases rank[n], 1
    {
      if cells[n].ValueCell? {
        out := DumpValue(cells[n].value);
      } else if cells[n].ObjectCell? {
        var body := JsonObjectBody(n, conf, indent, rank);
        out := "{\n" + body + Repeat(conf.ch, indent) + "}";
      } else {
        var body := JsonArrayBody(n, conf, indent, rank);
        out := "[\n" + body + Repeat(conf.ch, indent) + "]";
      }
    }

    /** The entry lines dump_to_json writes for an object. */
    method JsonObjectBody(n: Ref, conf: IndentConf, indent: nat, ghost rank: seq<nat>) returns (out: string)
      requires Ranked(cells, rank) && n < |cells| && cells[n].ObjectCell?
      ensures out == JsonMembers(cells, rank, n, conf, indent, |cells[n].entries|)
      decreases rank[n], 0
    {
      var es := cells[n].entries;
      out := "";
      var count := 0;
      while count < |es|
        invariant 0 <= count <= |es|
        invariant out == JsonMembers(cells, rank, n, conf, indent, count)
      {
        EntryRank(cells, rank, n, count);
        var child := DumpToJson(es[count].item, conf, indent + conf.width, rank);
        var line := Repeat(conf.ch, indent + conf.width) + "\"" + es[count].key + "\": " + child;
        assert line == JsonMember(cells, rank, n, conf, indent, count);
        count := count + 1;
        out := out + line + (if count != |es| then "," else "") + "\n";
      }
    }

    /** The element lines dump_to_json writes for an array. */
    method JsonArrayBody(n: Ref, conf: IndentConf, indent: nat, ghost rank: seq<nat>) returns (out: string)
      requires Ranked(cells, rank) && n < |cells| && cells[n].ArrayCell?
      ensures out == JsonElements(cells, rank, n, conf, indent, |cells[n].elements|)
      decreases rank[n], 0
    {
      var xs := cells[n].elements;
      out := "";
      var count := 0;
      while count < |xs|
        invariant 0 <= count <= |xs|
        invariant out == JsonElements(cells, rank, n, conf, indent, count)
      {
        ElementRank(cells, rank, n, count);
        var child := DumpToJson(xs[count], conf, indent + conf.width, rank);
        var line := Repeat(conf.ch, indent + conf.width) + child;
        assert line == JsonElement(cells, rank, n, conf, indent, count);
        count := count + 1;
        out := out + line + (if count != |xs| then "," else "") + "\n";
      }
    }

    /** node::dump_to_luco(out, conf, indent), the pieces collected into one string. */
    method DumpToLuco(n: Ref, conf: IndentConf, indent: nat, ghost rank: seq<nat>) returns (out: string)
      requires Ranked(cells, rank) && n < |cells|
      ensures out == LucoDump.Luco(cells, rank, n, conf, indent)
      decreases rank[n], 1
    {
      if cells[n].ValueCell? {
        out := DumpValue(cells[n].value);
      } else if cells[n].ObjectCell? {
        var body := LucoObjectBody(n, conf, indent, rank);
        if indent != 0 {
          out := "{\n" + body + Repeat(conf.ch, indent) + "}";
        } else {
          out := body;
        }
      } else {
        var body := LucoArrayBody(n, conf, indent, rank);
        out := "{\n" + body + Repeat(conf.ch, indent) + "}";
      }
    }

    /** The entry lines dump_to_luco writes for an object. */
    method LucoObjectBody(n: Ref, conf: IndentConf, indent: nat, ghost rank: seq<nat>) returns (out: string)
      requires Ranked(cells, rank) && n < |cells| && cells[n].ObjectCell?
      ensures out == LucoMembers(cells, rank, n, conf, indent, |cells[n].entries|)
      decreases rank[n], 0
    {
      var es := cells[n].entries;
      var width := if indent != 0 then indent + conf.width else 0;
      out := "";
      var count := 0;
      while count < |es|
        invariant 0 <= count <= |es|
        invariant out == LucoMembers(cells, rank, n, conf, indent, count)
      {
        EntryRank(cells, rank, n, count);
        var item := es[count].item;
        var head := Repeat(conf.ch, width) + es[count].key + (if cells[item].ArrayCell? || cells[item].ObjectCell? then " " else " = ");
        var text := DumpToLuco(item, conf, indent + conf.width, rank);
        assert head + text + "\n" == LucoMember(cells, rank, n, conf, indent, count);
        out := out + (head + text + "\n");
        count := count + 1;
      }
    }

    /** The element lines dump_to_luco writes for an array. */
    method LucoArrayBody(n: Ref, conf: IndentConf, indent: nat, ghost rank: seq<nat>) returns (out: string)
      requires Ranked(cells, rank) && n < |cells| && cells[n].ArrayCell?
      ensures out == LucoElements(cells, rank, n, conf, indent, |cells[n].elements|)
      decreases rank[n], 0
    {
      var xs := cells[n].elements;
      out := "";
      var count := 0;
      while count < |xs|
        invariant 0 <= count <= |xs|
        invariant out == LucoElements(cells, rank, n, conf, indent, count)
      {
        ElementRank(cells, rank, n, count);
        var text := DumpToLuco(xs[count], conf, indent + conf.width, rank);
        var line := Repeat(conf.ch, indent + conf.width) + text + "\n";
        assert line == LucoElement(cells, rank, n, conf, indent, count);
        out := out + line;
        count := count + 1;
      }
    }

    /** node::dump_to_string(conf) */
    method DumpToString(n: Ref, conf: IndentConf, ghost rank: seq<nat>) returns (out: string)
      requires Ranked(cells, rank) && n < |cells|
      ensures out == LucoDump.DumpToString(cells, rank, n, conf)
    {
      out := DumpToLuco(n, conf, 0, rank);
    }

    /** node::stringify */
    method Stringify(n: Ref, ghost rank: seq<nat>) returns (out: string)
      requires Ranked(cells, rank) && n < |cells|
      ensures out == NodeStringify(cells, rank, n)
    {
      if cells[n].ValueCell? {
        out := StringifyValue(cells[n].value);
      } else {
        out := DumpToString(n, DefaultIndent, rank);
      }
    }
  }

  /** The dump_val lambda of both writers on a value: stringify, quoted when the tag is string. */
  method DumpValue(v: Value) returns (out: string)
    ensures out == ValueText(v)
  {
    var s := StringifyValue(v);
    if v.tag == String {
      out := "\"" + s + "\"";
    } else {
      out := s;
    }
  }
}
