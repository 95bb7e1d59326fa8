/*
 * luco::object (include/api.hpp:1131-1240): a std::map from key to node.
 *
 * A std::map keeps its entries ordered by key and holds each key once; the
 * model keeps the entries as a list sorted strictly by key, which is also the
 * order in which the map is iterated.  The map the list denotes is AsMap.
 */
module LucoObject {

  /**
   * std::string's operator<: lexicographic, a proper prefix first, characters
   * compared by code (std::char_traits<char> compares as unsigned char).
   */
  predicate Less(a: string, b: string)
    decreases |a|
  {
    if |a| == 0 then |b| > 0
    else if |b| == 0 then false
    else a[0] < b[0] || (a[0] == b[0] && Less(a[1..], b[1..]))
  }

  lemma {:induction false} LessIrreflexive(a: string)
    ensures !Less(a, a)
    decreases |a|
  {
    if |a| > 0 {
      LessIrreflexive(a[1..]);
    }
  }

  lemma {:induction false} LessTransitive(a: string, b: string, c: string)
    requires Less(a, b) && Less(b, c)
    ensures Less(a, c)
    decreases |a|
  {
    if |a| > 0 && |b| > 0 && |c| > 0 && a[0] == b[0] && b[0] == c[0] {
      LessTransitive(a[1..], b[1..], c[1..]);
    }
  }

  lemma {:induction false} LessTotal(a: string, b: string)
    ensures a == b || Less(a, b) || Less(b, a)
    decreases |a|
  {
    if |a| > 0 && |b| > 0 && a[0] == b[0] {
      LessTotal(a[1..], b[1..]);
      if a[1..] == b[1..] {
        assert a == [a[0]] + a[1..] && b == [b[0]] + b[1..];
      }
    }
  }

  lemma LessAsymmetric(a: string, b: string)
    requires Less(a, b)
    ensures !Less(b, a)
  {
    if Less(b, a) {
      LessTransitive(a, b, a);
      LessIrreflexive(a);
    }
  }

  datatype Entry<T> = Entry(key: string, item: T)

  /** Keys strictly increasing: ordered, each key once. */
  predicate Sorted<T>(es: seq<Entry<T>>)
  {
    forall i, j :: 0 <= i < j < |es| ==> Less(es[i].key, es[j].key)
  }

  function KeySet<T>(es: seq<Entry<T>>): set<string>
  {
    set k | 0 <= k < |es| :: es[k].key
  }

  lemma KeySetCons<T>(es: seq<Entry<T>>)
    requires es != []
    ensures KeySet(es) == {es[0].key} + KeySet(es[1..])
  {
    forall key | key in KeySet(es)
      ensures key in {es[0].key} + KeySet(es[1..])
    {
      var k :| 0 <= k < |es| && es[k].key == key;
      if k > 0 {
        assert es[1..][k - 1].key == key;
      }
    }
    forall key | key in KeySet(es[1..])
      ensures key in KeySet(es)
    {
      var k :| 0 <= k < |es[1..]| && es[1..][k].key == key;
      assert es[k + 1].key == key;
    }
  }

  /** The map a list of entries denotes (an earlier entry wins a repeated key). */
  function AsMap<T>(es: seq<Entry<T>>): (m: map<string, T>)
    ensures m.Keys == KeySet(es)
  {
    if es == [] then map[]
    else
      KeySetCons(es);
      AsMap(es[1..])[es[0].key := es[0].item]
  }

  /** Where a sorted list keeps a key: the index of its entry. */
  lemma {:induction false} AsMapAt<T>(es: seq<Entry<T>>, k: nat)
    requires Sorted(es) && k < |es|
    ensures AsMap(es)[es[k].key] == es[k].item
  {
    if k > 0 {
      AsMapAt(es[1..], k - 1);
      assert es[1..][k - 1] == es[k];
      LessIrreflexive(es[k].key);
      assert es[0].key != es[k].key;
    }
  }

  /** Every key of a sorted list that follows the first one is greater than it. */
  lemma TailKeysGreater<T>(es: seq<Entry<T>>)
    requires Sorted(es) && es != []
    ensures forall key :: key in KeySet(es[1..]) ==> Less(es[0].key, key)
  {
    forall key | key in KeySet(es[1..])
      ensures Less(es[0].key, key)
    {
      var k :| 0 <= k < |es[1..]| && es[1..][k].key == key;
      assert es[k + 1].key == key;
    }
  }

  /**
   * object::insert (operator[] then assignment): the entry for key now holds
   * x, every other key keeps its entry, the list stays sorted.
   */
  function Insert<T>(es: seq<Entry<T>>, key: string, x: T): (r: seq<Entry<T>>)
    requires Sorted(es)
    ensures Sorted(r)
    ensures AsMap(r) == AsMap(es)[key := x]
    ensures |r| == if key in KeySet(es) then |es| else |es| + 1
  {
    if es == [] then [Entry(key, x)]
    else if es[0].key == key then
      InsertReplaces(es, key, x);
      [Entry(key, x)] + es[1..]
    else if Less(key, es[0].key) then
      InsertLeads(es, key, x);
      [Entry(key, x)] + es
    else
      SortedTail(es);
      var rest := Insert(es[1..], key, x);
      InsertFollows(es, key, x, rest);
      [es[0]] + rest
  }

  lemma InsertReplaces<T>(es: seq<Entry<T>>, key: string, x: T)
    requires Sorted(es) && es != [] && es[0].key == key
    ensures Sorted([Entry(key, x)] + es[1..])
    ensures AsMap([Entry(key, x)] + es[1..]) == AsMap(es)[key := x]
  {
    SortedTail(es);
    TailKeysGreater(es);
    SortedCons(Entry(key, x), es[1..]);
    assert ([Entry(key, x)] + es[1..])[1..] == es[1..];
  }

  lemma InsertLeads<T>(es: seq<Entry<T>>, key: string, x: T)
    requires Sorted(es) && es != [] && Less(key, es[0].key)
    ensures Sorted([Entry(key, x)] + es)
    ensures AsMap([Entry(key, x)] + es) == AsMap(es)[key := x]
    ensures key !in KeySet(es)
  {
    var r := [Entry(key, x)] + es;
    forall i, j | 0 <= i < j < |r|
      ensures Less(r[i].key, r[j].key)
    {
      if i == 0 && j > 1 {
        LessTransitive(key, es[0].key, es[j - 1].key);
      }
    }
    assert r[1..] == es;
    TailKeysGreater(es);
    KeySetCons(es);
    LessIrreflexive(key);
    if key in KeySet(es[1..]) {
      LessAsymmetric(es[0].key, key);
    }
  }

  lemma InsertFollows<T>(es: seq<Entry<T>>, key: string, x: T, rest: seq<Entry<T>>)
    requires Sorted(es) && es != [] && es[0].key != key && !Less(key, es[0].key)
    requires Sorted(rest) && AsMap(rest) == AsMap(es[1..])[key := x]
    requires |rest| == if key in KeySet(es[1..]) then |es| - 1 else |es|
    ensures Sorted([es[0]] + rest)
    ensures AsMap([es[0]] + rest) == AsMap(es)[key := x]
    ensures |[es[0]] + rest| == if key in KeySet(es) then |es| else |es| + 1
  {
    FollowsSorted(es, key, rest);
    var r := [es[0]] + rest;
    assert r[1..] == rest;
    UpdateCommutes(AsMap(es[1..]), es[0].key, es[0].item, key, x);
    KeySetCons(es);
  }

  lemma FollowsSorted<T>(es: seq<Entry<T>>, key: string, rest: seq<Entry<T>>)
    requires Sorted(es) && es != [] && es[0].key != key && !Less(key, es[0].key)
    requires Sorted(rest) && KeySet(rest) == KeySet(es[1..]) + {key}
    ensures Sorted([es[0]] + rest)
  {
    LessTotal(key, es[0].key);
    TailKeysGreater(es);
    SortedCons(es[0], rest);
  }

  lemma UpdateCommutes<K, V>(m: map<K, V>, k: K, v: V, key: K, x: V)
    requires k != key
    ensures m[key := x][k := v] == m[k := v][key := x]
  {
  }

  /** A key below every key of a sorted list can lead it. */
  lemma SortedCons<T>(e: Entry<T>, rest: seq<Entry<T>>)
    requires Sorted(rest)
    requires forall key :: key in KeySet(rest) ==> Less(e.key, key)
    ensures Sorted([e] + rest)
  {
    var r := [e] + rest;
    forall i, j | 0 <= i < j < |r|
      ensures Less(r[i].key, r[j].key)
    {
      if i == 0 {
        assert r[j] == rest[j - 1];
        assert r[j].key in KeySet(rest);
      } else {
        assert r[i] == rest[i - 1] && r[j] == rest[j - 1];
      }
    }
  }

  /** object::erase(key): the entry for key is gone, every other key keeps its entry. */
  function Erase<T>(es: seq<Entry<T>>, key: string): (r: seq<Entry<T>>)
    requires Sorted(es)
    ensures Sorted(r)
    ensures AsMap(r) == AsMap(es) - {key}
    ensures |r| == if key in KeySet(es) then |es| - 1 else |es|
  {
    if es == [] then []
    else if es[0].key == key then
      EraseFirst(es);
      es[1..]
    else
      SortedTail(es);
      var rest := Erase(es[1..], key);
      EraseFollows(es, key, rest);
      [es[0]] + rest
  }

  lemma EraseFirst<T>(es: seq<Entry<T>>)
    requires Sorted(es) && es != []
    ensures Sorted(es[1..])
    ensures AsMap(es[1..]) == AsMap(es) - {es[0].key}
    ensures |es[1..]| == |es| - 1 && es[0].key in KeySet(es)
  {
    SortedTail(es);
    FirstNotInTail(es);
    RemoveUpdated(AsMap(es[1..]), es[0].key, es[0].item);
  }

  lemma RemoveUpdated<K, V>(m: map<K, V>, k: K, v: V)
    requires k !in m
    ensures m[k := v] - {k} == m
  {
  }

  lemma RemoveCommutes<K, V>(m: map<K, V>, k: K, v: V, key: K)
    requires k != key
    ensures (m - {key})[k := v] == m[k := v] - {key}
  {
  }

  lemma UnionUpdate<K, V>(a: map<K, V>, b: map<K, V>, k: K, v: V)
    requires k !in b
    ensures a[k := v] + b == a + b[k := v]
  {
  }

  lemma FirstNotInTail<T>(es: seq<Entry<T>>)
    requires Sorted(es) && es != []
    ensures es[0].key !in KeySet(es[1..])
  {
    TailKeysGreater(es);
    LessIrreflexive(es[0].key);
  }

  lemma EraseFollows<T>(es: seq<Entry<T>>, key: string, rest: seq<Entry<T>>)
    requires Sorted(es) && es != [] && es[0].key != key
    requires Sorted(rest) && AsMap(rest) == AsMap(es[1..]) - {key}
    requires |rest| == if key in KeySet(es[1..]) then |es| - 2 else |es| - 1
    ensures Sorted([es[0]] + rest)
    ensures AsMap([es[0]] + rest) == AsMap(es) - {key}
    ensures |[es[0]] + rest| == if key in KeySet(es) then |es| - 1 else |es|
  {
    TailKeysGreater(es);
    assert KeySet(rest) <= KeySet(es[1..]);
    SortedCons(es[0], rest);
    assert ([es[0]] + rest)[1..] == rest;
    RemoveCommutes(AsMap(es[1..]), es[0].key, es[0].item, key);
    KeySetCons(es);
  }

  /**
   * Inserting the entries of es one after another, in list order, into acc:
   * the loop `for (const auto& [key, node] : other) insert(key, node)`.
   */
  function InsertAll<T>(acc: seq<Entry<T>>, es: seq<Entry<T>>): (r: seq<Entry<T>>)
    requires Sorted(acc)
    ensures Sorted(r)
    decreases |es|
  {
    if es == [] then acc else InsertAll(Insert(acc, es[0].key, es[0].item), es[1..])
  }

  /** Inserting a sorted list into another is map union with the inserted entries winning. */
  lemma {:induction false} InsertAllUnion<T>(acc: seq<Entry<T>>, es: seq<Entry<T>>)
    requires Sorted(acc) && Sorted(es)
    ensures AsMap(InsertAll(acc, es)) == AsMap(acc) + AsMap(es)
    decreases |es|
  {
    if es != [] {
      var acc' := Insert(acc, es[0].key, es[0].item);
      SortedTail(es);
      InsertAllUnion(acc', es[1..]);
      FirstNotInTail(es);
      UnionUpdate(AsMap(acc), AsMap(es[1..]), es[0].key, es[0].item);
    }
  }

  /** Two sorted lists that denote the same map are the same list. */
  lemma {:induction false} SortedUnique<T>(a: seq<Entry<T>>, b: seq<Entry<T>>)
    requires Sorted(a) && Sorted(b) && AsMap(a) == AsMap(b)
    ensures a == b
    decreases |a|
  {
    KeyOfNonEmpty(a);
    KeyOfNonEmpty(b);
    if a != [] && b != [] {
      FirstEntriesAgree(a, b);
      EraseFirst(a);
      EraseFirst(b);
      SortedUnique(a[1..], b[1..]);
      assert a == [a[0]] + a[1..] && b == [b[0]] + b[1..];
    }
  }

  /** Two sorted lists that denote the same map start with the same entry. */
  lemma FirstEntriesAgree<T>(a: seq<Entry<T>>, b: seq<Entry<T>>)
    requires Sorted(a) && Sorted(b) && AsMap(a) == AsMap(b) && a != [] && b != []
    ensures a[0] == b[0]
  {
    KeyOfNonEmpty(a);
    KeyOfNonEmpty(b);
    if a[0].key != b[0].key {
      KeySetCons(a);
      KeySetCons(b);
      TailKeysGreater(a);
      TailKeysGreater(b);
      LessAsymmetric(a[0].key, b[0].key);
    }
    AsMapAt(a, 0);
    AsMapAt(b, 0);
  }

  lemma KeyOfNonEmpty<T>(es: seq<Entry<T>>)
    ensures es != [] ==> es[0].key in KeySet(es)
  {
  }

  lemma SortedTail<T>(es: seq<Entry<T>>)
    requires Sorted(es) && es != []
    ensures Sorted(es[1..])
  {
    forall i, j | 0 <= i < j < |es[1..]|
      ensures Less(es[1..][i].key, es[1..][j].key)
    {
      assert es[1..][i] == es[i + 1] && es[1..][j] == es[j + 1];
    }
  }
}
