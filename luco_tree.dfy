/*
 * luco::node, luco::array and luco::object (include/api.hpp:663-1334,
 * 1339-2173): the document tree.
 *
 * A luco::node holds a std::shared_ptr to a value, an array or an object, and
 * copying a node copies the pointer: two nodes can share one container, and a
 * change made through one is seen through the other.  The model makes the
 * sharing explicit.  The shared objects live in a heap of cells; a node is the
 * index (Ref) of its cell.  An array cell lists the nodes it holds, an object
 * cell holds its entries sorted by key (LucoObject).  The heap only grows:
 * a cell no node reaches any more is simply never looked at again.
 *
 * The operations are functions from a heap to a new heap and a result; the
 * class in LucoDocument performs them in place.
 */
module LucoTree {
  import opened LucoError
  import opened LucoValue
  import Obj = LucoObject

  /** A node: the index of the cell its shared pointer points to. */
  type Ref = nat

  datatype Cell =
    | ValueCell(value: Value)
    | ArrayCell(elements: seq<Ref>)
    | ObjectCell(entries: seq<Obj.Entry<Ref>>)

  /** luco::node_type */
  datatype NodeType = ValueNode | ArrayNode | ObjectNode

  /**
   * What a node is built from (node(x), set(x), operator=(x), insert, push_back):
   * a luco::value, copied into a new cell, or a luco::node, whose pointer is shared.
   */
  datatype Content = Scalar(value: Value) | Share(node: Ref)

  type Cells = seq<Cell>

  /** The nodes a cell holds, in iteration order. */
  function Children(c: Cell): (s: seq<Ref>)
    ensures c.ArrayCell? ==> s == c.elements
    ensures c.ObjectCell? ==> |s| == |c.entries| && forall k :: 0 <= k < |s| ==> s[k] == c.entries[k].item
    ensures c.ValueCell? ==> s == []
  {
    match c
    case ValueCell(_) => []
    case ArrayCell(xs) => xs
    case ObjectCell(es) => seq(|es|, k requires 0 <= k < |es| => es[k].item)
  }

  /** Every node the cell holds is one of the first n cells; object entries are sorted. */
  predicate CellIn(c: Cell, n: nat)
  {
    (forall k :: 0 <= k < |Children(c)| ==> Children(c)[k] < n)
    && (c.ObjectCell? ==> Obj.Sorted(c.entries))
  }

  /** A heap in which every node held points to a cell of the heap. */
  predicate WellFormed(cells: Cells)
  {
    forall p :: 0 <= p < |cells| ==> CellIn(cells[p], |cells|)
  }

  predicate ContentIn(x: Content, cells: Cells)
  {
    x.Share? ==> x.node < |cells|
  }

  function Kind(c: Cell): NodeType
  {
    match c
    case ValueCell(_) => ValueNode
    case ArrayCell(_) => ArrayNode
    case ObjectCell(_) => ObjectNode
  }

  /** node(node_type): a new empty value, array or object; node() makes an object. */
  function NewCell(t: NodeType): (c: Cell)
    ensures Kind(c) == t && CellIn(c, 0)
    ensures c.ValueCell? ==> c.value == Nothing()
    ensures c.ArrayCell? ==> c.elements == []
    ensures c.ObjectCell? ==> c.entries == []
  {
    match t
    case ValueNode => ValueCell(Nothing())
    case ArrayNode => ArrayCell([])
    case ObjectNode => ObjectCell([])
  }

  /** node::type_name */
  function NodeTypeName(c: Cell): (name: string)
    ensures name == "node value" <==> c.ValueCell?
    ensures name == "node array" <==> c.ArrayCell?
    ensures name == "node object" <==> c.ObjectCell?
  {
    if c.ValueCell? then "node value"
    else if c.ArrayCell? then "node array"
    else "node object"
  }

  // ---- the value a node holds -------------------------------------------

  /** node::is_string and friends: false on a node that holds no value. */
  predicate NodeIsString(c: Cell) { c.ValueCell? && IsString(c.value) }
  predicate NodeIsInteger(c: Cell) { c.ValueCell? && IsInteger(c.value) }
  predicate NodeIsDouble(c: Cell) { c.ValueCell? && IsDouble(c.value) }
  predicate NodeIsNumber(c: Cell) { c.ValueCell? && IsNumber(c.value) }
  predicate NodeIsBoolean(c: Cell) { c.ValueCell? && IsBoolean(c.value) }
  predicate NodeIsNull(c: Cell) { c.ValueCell? && IsNull(c.value) }

  /** node::valuetype: the value's tag, none for a container. */
  function NodeValueType(c: Cell): (t: ValueType)
    ensures !c.ValueCell? ==> t == None
    ensures c.ValueCell? ==> t == c.value.tag
  {
    if c.ValueCell? then c.value.tag else None
  }

  /** node::value_type_name: "none" for a container. */
  function NodeValueTypeName(c: Cell): (name: string)
    ensures !c.ValueCell? ==> name == "none"
    ensures c.ValueCell? ==> name == TypeName(c.value)
  {
    if c.ValueCell? then TypeName(c.value) else "none"
  }

  /** node::try_as_value / try_as_array / try_as_object: wrong_type for another kind. */
  function TryAsValue(c: Cell): (r: Result<Value>)
    ensures r.Ok? <==> c.ValueCell?
    ensures r.Ok? ==> r.value == c.value
    ensures r.Err? ==> r.error == WrongTypeError
  {
    if c.ValueCell? then Ok(c.value) else Err(WrongTypeError)
  }

  function TryAsArray(c: Cell): (r: Result<seq<Ref>>)
    ensures r.Ok? <==> c.ArrayCell?
    ensures r.Ok? ==> r.value == c.elements
    ensures r.Err? ==> r.error == WrongTypeError
  {
    if c.ArrayCell? then Ok(c.elements) else Err(WrongTypeError)
  }

  function TryAsObject(c: Cell): (r: Result<seq<Obj.Entry<Ref>>>)
    ensures r.Ok? <==> c.ObjectCell?
    ensures r.Ok? ==> r.value == c.entries
    ensures r.Err? ==> r.error == WrongTypeError
  {
    if c.ObjectCell? then Ok(c.entries) else Err(WrongTypeError)
  }

  /**
   * node::access_value: the value's own try_as_* on a value node, the
   * wrong_type of try_as_value on a container.
   */
  function NodeTryAsString(c: Cell): (r: Result<string>)
    ensures r.Ok? <==> NodeIsString(c)
    ensures r.Ok? ==> r.value == c.value.payload.s
    ensures r.Err? ==> r.error == WrongTypeError
  {
    if c.ValueCell? then TryAsString(c.value) else Err(WrongTypeError)
  }

  function NodeTryAsInteger(c: Cell): (r: Result<LucoNumbers.Int64>)
    ensures r.Ok? <==> NodeIsInteger(c)
    ensures r.Ok? ==> r.value == c.value.payload.i
    ensures r.Err? ==> r.error == WrongTypeError
  {
    if c.ValueCell? then TryAsInteger(c.value) else Err(WrongTypeError)
  }

  function NodeTryAsDouble(c: Cell): (r: Result<LucoNumbers.DoubleText>)
    ensures r.Ok? <==> NodeIsDouble(c)
    ensures r.Ok? ==> r.value == c.value.payload.d
    ensures r.Err? ==> r.error == WrongTypeError
  {
    if c.ValueCell? then TryAsDouble(c.value) else Err(WrongTypeError)
  }

  function NodeTryAsNumber(c: Cell): (r: Result<Number>)
    ensures r.Ok? <==> NodeIsNumber(c)
    ensures r.Ok? ==> r == TryAsNumber(c.value)
    ensures r.Err? ==> r.error == WrongTypeError
  {
    if c.ValueCell? then TryAsNumber(c.value) else Err(WrongTypeError)
  }

  function NodeTryAsBoolean(c: Cell): (r: Result<bool>)
    ensures r.Ok? <==> NodeIsBoolean(c)
    ensures r.Ok? ==> r.value == c.value.payload.b
    ensures r.Err? ==> r.error == WrongTypeError
  {
    if c.ValueCell? then TryAsBoolean(c.value) else Err(WrongTypeError)
  }

  function NodeTryAsNull(c: Cell): (r: Result<()>)
    ensures r.Ok? <==> NodeIsNull(c)
    ensures r.Err? ==> r.error == WrongTypeError
  {
    if c.ValueCell? then TryAsNull(c.value) else Err(WrongTypeError)
  }

  // ---- lookups ----------------------------------------------------------

  /** node::contains: an object holding the key. */
  predicate Contains(c: Cell, key: string)
  {
    c.ObjectCell? && key in Obj.KeySet(c.entries)
  }

  /**
   * node::at(key) and node::try_at(key) (the one throws what the other
   * returns): wrong_type on a non-object, key_not_found for a missing key.
   */
  function AtKey(c: Cell, key: string): (r: Result<Ref>)
    ensures r.Ok? <==> Contains(c, key)
    ensures r.Ok? ==> r.value == Obj.AsMap(c.entries)[key]
    ensures !c.ObjectCell? ==> r == Err(WrongTypeError)
    ensures c.ObjectCell? && !Contains(c, key) ==> r == Err(KeyNotFoundError)
  {
    if !c.ObjectCell? then Err(WrongTypeError)
    else if key in Obj.AsMap(c.entries) then Ok(Obj.AsMap(c.entries)[key])
    else Err(KeyNotFoundError)
  }

  /** node::at(index): wrong_type on a non-array, key_not_found for index >= size. */
  function AtIndex(c: Cell, index: nat): (r: Result<Ref>)
    ensures r.Ok? <==> c.ArrayCell? && index < |c.elements|
    ensures r.Ok? ==> r.value == c.elements[index]
    ensures !c.ArrayCell? ==> r == Err(WrongTypeError)
    ensures c.ArrayCell? && index >= |c.elements| ==> r == Err(KeyNotFoundError)
  {
    if !c.ArrayCell? then Err(WrongTypeError)
    else if index < |c.elements| then Ok(c.elements[index])
    else Err(KeyNotFoundError)
  }

  /**
   * node::try_at(index): key_not_found on a non-array; an index past the end
   * makes std::vector::at throw inside the noexcept function, which ends the
   * program.
   */
  function TryAtIndex(c: Cell, index: nat): (r: Result<Ref>)
    ensures r.Ok? <==> c.ArrayCell? && index < |c.elements|
    ensures r.Ok? ==> r.value == c.elements[index]
    ensures !c.ArrayCell? ==> r == Err(KeyNotFoundError)
    ensures c.ArrayCell? && index >= |c.elements| ==> r == Err(StdException)
  {
    if !c.ArrayCell? then Err(KeyNotFoundError)
    else if index < |c.elements| then Ok(c.elements[index])
    else Err(StdException)
  }

  /** contains(key) holds exactly when try_at(key) finds a node. */
  lemma ContainsIffFound(c: Cell, key: string)
    ensures Contains(c, key) <==> AtKey(c, key).Ok?
    ensures !Contains(c, key) ==> AtKey(c, key).error.kind in {WrongType, KeyNotFound}
  {
  }

  // ---- changes ----------------------------------------------------------

  /** The heap only grew, and no node in it changed its kind. */
  predicate KeepsKinds(cells: Cells, cells': Cells)
  {
    |cells| <= |cells'| && forall p :: 0 <= p < |cells| ==> Kind(cells'[p]) == Kind(cells[p])
  }

  /** A new heap and the outcome of an operation. */
  datatype Edit = Edit(cells: Cells, result: Result<Ref>)

  /** node(x): a new cell for a value, the shared cell for a node. */
  function Bind(cells: Cells, x: Content): (b: (Cells, Ref))
    requires ContentIn(x, cells)
    ensures b.1 < |b.0| && cells <= b.0
    ensures x.Share? ==> b == (cells, x.node)
    ensures x.Scalar? ==> b.0 == cells + [ValueCell(x.value)] && b.1 == |cells|
  {
    match x
    case Share(m) => (cells, m)
    case Scalar(v) => (cells + [ValueCell(v)], |cells|)
  }

  lemma BindWellFormed(cells: Cells, x: Content)
    requires WellFormed(cells) && ContentIn(x, cells)
    ensures WellFormed(Bind(cells, x).0)
  {
    var cells' := Bind(cells, x).0;
    forall p | 0 <= p < |cells'|
      ensures CellIn(cells'[p], |cells'|)
    {
      if p < |cells| {
        assert cells'[p] == cells[p];
        assert CellIn(cells[p], |cells|);
      }
    }
  }

  /** Replacing one cell by one whose nodes are in the heap keeps the heap well formed. */
  lemma ReplaceWellFormed(cells: Cells, n: Ref, c: Cell)
    requires WellFormed(cells) && n < |cells| && CellIn(c, |cells|)
    ensures WellFormed(cells[n := c])
  {
    var cells' := cells[n := c];
    forall p | 0 <= p < |cells'|
      ensures CellIn(cells'[p], |cells'|)
    {
      if p != n {
        assert CellIn(cells[p], |cells|);
      }
    }
  }

  /**
   * node::insert(key, x): on an object, the key now maps to node(x) (a
   * present key is overwritten) and every other key and every other cell is
   * as it was; on any other node, wrong_type and nothing changes.
   */
  function Insert(cells: Cells, n: Ref, key: string, x: Content): (e: Edit)
    requires WellFormed(cells) && n < |cells| && ContentIn(x, cells)
    ensures WellFormed(e.cells) && KeepsKinds(cells, e.cells)
    ensures !cells[n].ObjectCell? ==> e == Edit(cells, Err(WrongTypeError))
    ensures cells[n].ObjectCell? ==>
      && e.result == Ok(Bind(cells, x).1)
      && e.cells[n] == ObjectCell(Obj.Insert(cells[n].entries, key, e.result.value))
      && Obj.AsMap(e.cells[n].entries) == Obj.AsMap(cells[n].entries)[key := e.result.value]
      && e.cells == Bind(cells, x).0[n := e.cells[n]]
  {
    if !cells[n].ObjectCell? then Edit(cells, Err(WrongTypeError))
    else
      var (cells', m) := Bind(cells, x);
      BindWellFormed(cells, x);
      var c := ObjectCell(Obj.Insert(cells[n].entries, key, m));
      assert CellIn(cells'[n], |cells'|);
      ObjectInsertIn(cells'[n].entries, key, m, |cells'|);
      ReplaceWellFormed(cells', n, c);
      Edit(cells'[n := c], Ok(m))
  }

  lemma ObjectInsertIn(es: seq<Obj.Entry<Ref>>, key: string, m: Ref, bound: nat)
    requires CellIn(ObjectCell(es), bound) && m < bound
    ensures CellIn(ObjectCell(Obj.Insert(es, key, m)), bound)
  {
    var es' := Obj.Insert(es, key, m);
    var ch := Children(ObjectCell(es));
    forall k | 0 <= k < |es'|
      ensures es'[k].item < bound
    {
      Obj.AsMapAt(es', k);
      var key' := es'[k].key;
      if key' != key {
        assert key' in Obj.KeySet(es);
        var j :| 0 <= j < |es| && es[j].key == key';
        Obj.AsMapAt(es, j);
        assert ch[j] == es[j].item;
      }
    }
  }

  /**
   * node::push_back(x): on an array, node(x) is appended and the earlier
   * elements stay; on any other node, wrong_type and nothing changes.
   */
  function PushBack(cells: Cells, n: Ref, x: Content): (e: Edit)
    requires WellFormed(cells) && n < |cells| && ContentIn(x, cells)
    ensures WellFormed(e.cells) && KeepsKinds(cells, e.cells)
    ensures !cells[n].ArrayCell? ==> e == Edit(cells, Err(WrongTypeError))
    ensures cells[n].ArrayCell? ==>
      && e.result == Ok(Bind(cells, x).1)
      && e.cells[n] == ArrayCell(cells[n].elements + [e.result.value])
      && e.cells == Bind(cells, x).0[n := e.cells[n]]
  {
    if !cells[n].ArrayCell? then Edit(cells, Err(WrongTypeError))
    else
      var (cells', m) := Bind(cells, x);
      BindWellFormed(cells, x);
      var c := ArrayCell(cells[n].elements + [m]);
      assert CellIn(c, |cells'|) by {
        assert CellIn(cells'[n], |cells'|);
        forall k | 0 <= k < |Children(c)|
          ensures Children(c)[k] < |cells'|
        {
          if k < |cells[n].elements| {
            assert Children(c)[k] == Children(cells'[n])[k];
          }
        }
      }
      ReplaceWellFormed(cells', n, c);
      Edit(cells'[n := c], Ok(m))
  }

  /**
   * node::add_node_to_array(index, node) and add_value_to_array(index, value):
   * on an array with index < size, that one slot now holds node(x); on a
   * non-array or an index past the end, wrong_type and nothing changes.
   */
  function AddToArray(cells: Cells, n: Ref, index: nat, x: Content): (e: Edit)
    requires WellFormed(cells) && n < |cells| && ContentIn(x, cells)
    ensures WellFormed(e.cells) && KeepsKinds(cells, e.cells)
    ensures !(cells[n].ArrayCell? && index < |cells[n].elements|) ==> e == Edit(cells, Err(WrongTypeError))
    ensures cells[n].ArrayCell? && index < |cells[n].elements| ==>
      && e.result == Ok(Bind(cells, x).1)
      && e.cells[n] == ArrayCell(cells[n].elements[index := e.result.value])
      && e.cells == Bind(cells, x).0[n := e.cells[n]]
  {
    if !cells[n].ArrayCell? || index >= |cells[n].elements| then Edit(cells, Err(WrongTypeError))
    else
      var (cells', m) := Bind(cells, x);
      BindWellFormed(cells, x);
      var c := ArrayCell(cells[n].elements[index := m]);
      assert CellIn(c, |cells'|) by {
        assert CellIn(cells'[n], |cells'|);
        forall k | 0 <= k < |Children(c)|
          ensures Children(c)[k] < |cells'|
        {
          if k != index {
            assert Children(c)[k] == Children(cells'[n])[k];
          }
        }
      }
      ReplaceWellFormed(cells', n, c);
      Edit(cells'[n := c], Ok(m))
  }

  /** A node stored inside a container: what node::at returns a reference to. */
  datatype Place = Member(owner: Ref, key: string) | Element(owner: Ref, index: nat)

  /**
   * node::at(...) = x, node::at(...).set(x): the stored node is re-pointed at
   * node(x); other nodes that shared its old cell keep that cell. at()
   * reports the missing key, the index past the end or the wrong kind.
   */
  function Assign(cells: Cells, place: Place, x: Content): (e: Edit)
    requires WellFormed(cells) && place.owner < |cells| && ContentIn(x, cells)
    ensures WellFormed(e.cells) && |cells| <= |e.cells|
    ensures place.Member? ==>
      (if AtKey(cells[place.owner], place.key).Err?
       then e == Edit(cells, AtKey(cells[place.owner], place.key))
       else e == Insert(cells, place.owner, place.key, x))
    ensures place.Element? ==>
      (if AtIndex(cells[place.owner], place.index).Err?
       then e == Edit(cells, AtIndex(cells[place.owner], place.index))
       else e == AddToArray(cells, place.owner, place.index, x))
  {
    match place
    case Member(o, key) =>
      var at := AtKey(cells[o], key);
      if at.Err? then Edit(cells, at) else Insert(cells, o, key, x)
    case Element(a, index) =>
      var at := AtIndex(cells[a], index);
      if at.Err? then Edit(cells, at) else AddToArray(cells, a, index, x)
  }

  /** Assigning to a present key overwrites its node: the same key set, the new node under it. */
  lemma AssignMemberKeepsKeys(cells: Cells, o: Ref, key: string, x: Content)
    requires WellFormed(cells) && o < |cells| && ContentIn(x, cells)
    requires Contains(cells[o], key)
    ensures var e := Assign(cells, Member(o, key), x);
      && e.result.Ok?
      && Obj.KeySet(e.cells[o].entries) == Obj.KeySet(cells[o].entries)
      && AtKey(e.cells[o], key) == e.result
  {
    var e := Assign(cells, Member(o, key), x);
    assert Obj.AsMap(e.cells[o].entries).Keys == Obj.AsMap(cells[o].entries).Keys;
  }

  /**
   * A node inserted by sharing is reached through the object: a change made
   * to it afterwards (here a push_back) is seen at the key.
   */
  lemma SharedNodeSeesChanges(cells: Cells, o: Ref, key: string, a: Ref, x: Content)
    requires WellFormed(cells) && o < |cells| && a < |cells| && o != a
    requires cells[o].ObjectCell? && cells[a].ArrayCell? && ContentIn(x, cells)
    ensures var e1 := Insert(cells, o, key, Share(a));
            var e2 := PushBack(e1.cells, a, x);
      && AtKey(e2.cells[o], key) == Ok(a)
      && e2.cells[a].elements == cells[a].elements + [e2.result.value]
  {
  }

  // ---- operator+ --------------------------------------------------------

  /**
   * node::operator+: nodes of different kinds, or values that are neither
   * strings nor numbers, give wrong_type; two objects give a new object with
   * the keys of both, the right operand winning a shared key; two arrays give
   * a new array with the left elements then the right ones; two strings give
   * their concatenation; two numbers give a double.  The sum of two numbers is
   * computed by add: floating-point addition is not modelled.
   */
  function Plus(cells: Cells, a: Ref, b: Ref, add: (Number, Number) -> LucoNumbers.DoubleText): (e: Edit)
    requires WellFormed(cells) && a < |cells| && b < |cells|
    ensures WellFormed(e.cells)
    ensures e.result.Err? ==> e.cells == cells && e.result.error == WrongTypeError
    ensures e.result.Ok? ==> e.result.value == |cells| && |e.cells| == |cells| + 1 && e.cells[..|cells|] == cells
    ensures Kind(cells[a]) != Kind(cells[b]) ==> e.result.Err?
    ensures cells[a].ObjectCell? && cells[b].ObjectCell? ==>
      && e.result.Ok? && e.cells[|cells|].ObjectCell?
      && Obj.AsMap(e.cells[|cells|].entries) == Obj.AsMap(cells[a].entries) + Obj.AsMap(cells[b].entries)
    ensures cells[a].ArrayCell? && cells[b].ArrayCell? ==>
      e.result.Ok? && e.cells[|cells|] == ArrayCell(cells[a].elements + cells[b].elements)
    ensures cells[a].ValueCell? && cells[b].ValueCell? ==>
      (e.result.Ok? <==> PlusValues(cells[a].value, cells[b].value, add).Ok?)
    ensures cells[a].ValueCell? && cells[b].ValueCell? && e.result.Ok? ==>
      e.cells[|cells|] == ValueCell(PlusValues(cells[a].value, cells[b].value, add).value)
  {
    if Kind(cells[a]) != Kind(cells[b]) then Edit(cells, Err(WrongTypeError))
    else if cells[a].ValueCell? then
      match PlusValues(cells[a].value, cells[b].value, add)
      case Err(err) => Edit(cells, Err(err))
      case Ok(v) =>
        AppendWellFormed(cells, ValueCell(v));
        Edit(cells + [ValueCell(v)], Ok(|cells|))
    else
      var c := if cells[a].ObjectCell? then ObjectUnion(cells, a, b) else ArrayConcat(cells, a, b);
      AppendWellFormed(cells, c);
      Edit(cells + [c], Ok(|cells|))
  }

  /** The object operator+ builds: every entry of a inserted, then every entry of b. */
  function ObjectUnion(cells: Cells, a: Ref, b: Ref): (c: Cell)
    requires WellFormed(cells) && a < |cells| && b < |cells|
    requires cells[a].ObjectCell? && cells[b].ObjectCell?
    ensures CellIn(c, |cells|) && c.ObjectCell?
    ensures Obj.AsMap(c.entries) == Obj.AsMap(cells[a].entries) + Obj.AsMap(cells[b].entries)
  {
    var left, right := cells[a].entries, cells[b].entries;
    assert CellIn(cells[a], |cells|) && CellIn(cells[b], |cells|);
    var first := Obj.InsertAll([], left);
    var es := Obj.InsertAll(first, right);
    Obj.InsertAllUnion([], left);
    assert Obj.AsMap(first) == Obj.AsMap(left) by {
      assert Obj.AsMap<Ref>([]) == map[];
    }
    Obj.InsertAllUnion(first, right);
    InsertAllIn([], left, |cells|);
    InsertAllIn(first, right, |cells|);
    ObjectCell(es)
  }

  /** The array operator+ builds: every element of a pushed back, then every element of b. */
  function ArrayConcat(cells: Cells, a: Ref, b: Ref): (c: Cell)
    requires WellFormed(cells) && a < |cells| && b < |cells|
    requires cells[a].ArrayCell? && cells[b].ArrayCell?
    ensures CellIn(c, |cells|)
    ensures c == ArrayCell(cells[a].elements + cells[b].elements)
  {
    var ca, cb := cells[a], cells[b];
    assert CellIn(ca, |cells|) && CellIn(cb, |cells|);
    var c := ArrayCell(ca.elements + cb.elements);
    assert CellIn(c, |cells|) by {
      forall k | 0 <= k < |Children(c)|
        ensures Children(c)[k] < |cells|
      {
        if k >= |ca.elements| {
          assert Children(c)[k] == Children(cb)[k - |ca.elements|];
        } else {
          assert Children(c)[k] == Children(ca)[k];
        }
      }
    }
    c
  }

  /**
   * The value branch of operator+: chosen by the left tag (string, or double_t
   * and integer), then as_string or as_number of both operands, which throw
   * wrong_type for an operand of the wrong kind.
   */
  function PlusValues(va: Value, vb: Value, add: (Number, Number) -> LucoNumbers.DoubleText): (r: Result<Value>)
    ensures r.Err? ==> r.error == WrongTypeError
    ensures r.Ok? ==> va.tag in {String, DoubleT, Integer}
    ensures va.tag == String ==>
      (r.Ok? <==> IsString(va) && IsString(vb))
      && (r.Ok? ==> r.value == FromString(va.payload.s + vb.payload.s))
    ensures va.tag in {DoubleT, Integer} ==>
      (r.Ok? <==> IsNumber(va) && IsNumber(vb))
      && (r.Ok? ==> r.value == FromDouble(add(TryAsNumber(va).value, TryAsNumber(vb).value)))
  {
    if va.tag == String then
      var s1 :- TryAsString(va);
      var s2 :- TryAsString(vb);
      Ok(FromString(s1 + s2))
    else if va.tag == DoubleT || va.tag == Integer then
      var x :- TryAsNumber(va);
      var y :- TryAsNumber(vb);
      Ok(FromDouble(add(x, y)))
    else Err(WrongTypeError)
  }

  lemma AppendWellFormed(cells: Cells, c: Cell)
    requires WellFormed(cells) && CellIn(c, |cells|)
    ensures WellFormed(cells + [c])
  {
    var cells' := cells + [c];
    forall p | 0 <= p < |cells'|
      ensures CellIn(cells'[p], |cells'|)
    {
      if p < |cells| {
        assert cells'[p] == cells[p];
        assert CellIn(cells[p], |cells|);
      }
    }
  }

  lemma {:induction false} InsertAllIn(acc: seq<Obj.Entry<Ref>>, es: seq<Obj.Entry<Ref>>, bound: nat)
    requires CellIn(ObjectCell(acc), bound) && CellIn(ObjectCell(es), bound)
    ensures CellIn(ObjectCell(Obj.InsertAll(acc, es)), bound)
    decreases |es|
  {
    if es != [] {
      assert Children(ObjectCell(es))[0] == es[0].item;
      ObjectInsertIn(acc, es[0].key, es[0].item, bound);
      Obj.SortedTail(es);
      assert CellIn(ObjectCell(es[1..]), bound) by {
        forall k | 0 <= k < |es[1..]|
          ensures es[1..][k].item < bound
        {
          assert Children(ObjectCell(es))[k + 1] == es[k + 1].item;
        }
      }
      InsertAllIn(Obj.Insert(acc, es[0].key, es[0].item), es[1..], bound);
    }
  }
}
