/** The schema-ordered mapping every UI node is built from (`LovelaceBase`,
    an `OrderedDict` subclass): inserting a new key reorders the keys
    against the node's `key_order` template. */
module OrderedNode {
  import opened Json
  import opened Seqs

  /** The marker in a `key_order` template separating front keys from back keys. */
  const Delim: Key := "..."

  /** Index of the marker, or the template's length when it has none. */
  function Mid(t: seq<Key>): (m: nat)
    ensures m <= |t|
    ensures Delim in t ==> m < |t| && t[m] == Delim
    ensures Delim !in t ==> m == |t|
  {
    if Delim in t then IndexOf(t, Delim) else |t|
  }

  /** Template keys moved to the front: those before the marker (all of them without one). */
  function Front(t: seq<Key>): seq<Key>
  {
    t[..Mid(t)]
  }

  /** Template keys moved to the back: those after the marker. */
  function Back(t: seq<Key>): seq<Key>
  {
    if Mid(t) < |t| then t[Mid(t) + 1..] else []
  }

  /** Keys that the template places at the front or at the back. */
  function Placed(t: seq<Key>): set<Key>
  {
    Elems(Front(t)) + Elems(Back(t))
  }

  /** The key order after `sortkeys` with template `t`: the present front keys in
      template order, then every key the template does not place, in its previous
      order, then the present back keys in template order. */
  function SortedKeys(t: seq<Key>, ks: seq<Key>): (r: seq<Key>)
    ensures forall x {:trigger x in r} :: x in r <==> x in ks
  {
    Keep(Front(t), Elems(ks)) + Drop(ks, Placed(t)) + Keep(Back(t), Elems(ks))
  }

  /** The key order after `sortkeys`, given the node's optional `key_order`. */
  function Arranged(ko: Option<seq<Key>>, ks: seq<Key>): (r: seq<Key>)
    ensures forall x {:trigger x in r} :: x in r <==> x in ks
  {
    match ko
    case None => ks
    case Some(t) => SortedKeys(t, ks)
  }

  /** A template without duplicates places no key both at the front and at the back. */
  lemma FrontBackDisjoint(t: seq<Key>)
    requires NoDup(t)
    ensures forall i, j :: 0 <= i < |Front(t)| && 0 <= j < |Back(t)| ==> Front(t)[i] != Back(t)[j]
    ensures NoDup(Front(t)) && NoDup(Back(t))
  {
    var m := Mid(t);
    forall i, j | 0 <= i < |Front(t)| && 0 <= j < |Back(t)| ensures Front(t)[i] != Back(t)[j] {
      assert Front(t)[i] == t[i] && Back(t)[j] == t[m + 1 + j];
    }
    forall i, j | 0 <= i < j < |Front(t)| ensures Front(t)[i] != Front(t)[j] {
      assert Front(t)[i] == t[i] && Front(t)[j] == t[j];
    }
    forall i, j | 0 <= i < j < |Back(t)| ensures Back(t)[i] != Back(t)[j] {
      assert Back(t)[i] == t[m + 1 + i] && Back(t)[j] == t[m + 1 + j];
    }
  }

  /** Sorting yields no duplicates when neither the template nor the keys have any. */
  lemma SortedNoDup(t: seq<Key>, ks: seq<Key>)
    requires NoDup(t) && NoDup(ks)
    ensures NoDup(SortedKeys(t, ks))
  {
    FrontBackDisjoint(t);
    var a := Keep(Front(t), Elems(ks));
    var b := Drop(ks, Placed(t));
    var c := Keep(Back(t), Elems(ks));
    KeepNoDup(Front(t), Elems(ks));
    DropNoDup(ks, Placed(t));
    KeepNoDup(Back(t), Elems(ks));
    NoDupConcat(a, b);
    NoDupConcat(a + b, c);
  }

  /** Sorting a sorted prefix again before appending changes nothing: inserting
      keys one by one and re-sorting after each insertion gives the same order as
      sorting once at the end. */
  lemma SortedAppend(t: seq<Key>, a: seq<Key>, b: seq<Key>)
    ensures SortedKeys(t, SortedKeys(t, a) + b) == SortedKeys(t, a + b)
  {
    SortedAppendElems(t, a, b);
    SortedAppendDrop(t, a, b);
  }

  /** Sorting a prefix keeps the set of keys. */
  lemma SortedAppendElems(t: seq<Key>, a: seq<Key>, b: seq<Key>)
    ensures Elems(SortedKeys(t, a) + b) == Elems(a + b)
  {
    var s := SortedKeys(t, a);
    forall x ensures x in s + b <==> x in a + b {
      assert x in s + b <==> x in s || x in b;
      assert x in a + b <==> x in a || x in b;
    }
  }

  /** Sorting a prefix keeps the relative order of the keys the template does not place. */
  lemma SortedAppendDrop(t: seq<Key>, a: seq<Key>, b: seq<Key>)
    ensures Drop(SortedKeys(t, a) + b, Placed(t)) == Drop(a + b, Placed(t))
  {
    var p := Placed(t);
    var ka := Elems(a);
    var f := Keep(Front(t), ka);
    var d := Drop(a, p);
    var k := Keep(Back(t), ka);
    var s := SortedKeys(t, a);
    assert s == f + d + k;
    DropAppend(s, b, p);
    DropAppend(f + d, k, p);
    DropAppend(f, d, p);
    DropCovering(f, p);
    DropCovering(k, p);
    DropDisjoint(d, p);
    DropAppend(a, b, p);
  }

  /** `sortkeys` is idempotent. */
  lemma SortedIdempotent(t: seq<Key>, ks: seq<Key>)
    ensures SortedKeys(t, SortedKeys(t, ks)) == SortedKeys(t, ks)
  {
    SortedAppend(t, ks, []);
    assert SortedKeys(t, ks) + [] == SortedKeys(t, ks);
    assert ks + [] == ks;
  }

  /** Deleting keys from a sorted order leaves it sorted. */
  lemma {:induction false} SortedDrop(t: seq<Key>, ks: seq<Key>, n: set<Key>)
    ensures Drop(SortedKeys(t, ks), n) == SortedKeys(t, Drop(ks, n))
  {
    var p := Placed(t);
    var k := Elems(ks);
    DropAppend(Keep(Front(t), k) + Drop(ks, p), Keep(Back(t), k), n);
    DropAppend(Keep(Front(t), k), Drop(ks, p), n);
    DropKeep(Front(t), k, n);
    DropKeep(Back(t), k, n);
    DropDrop(ks, p, n);
    DropDrop(ks, n, p);
    assert Elems(Drop(ks, n)) == k - n;
    assert p + n == n + p;
  }

  /** In a duplicate-free sequence an element occurs neither before nor after its place. */
  lemma Isolated(s: seq<Key>, j: nat)
    requires NoDup(s) && j < |s|
    ensures s[j] !in s[..j] && s[j] !in s[j + 1..]
  {
    forall a | 0 <= a < j ensures s[..j][a] != s[j] { assert s[..j][a] == s[a]; }
    var after := s[j + 1..];
    forall a | 0 <= a < |after| ensures after[a] != s[j] { assert after[a] == s[j + 1 + a]; }
  }

  /** No keys, nothing to order. */
  lemma SortedEmpty(t: seq<Key>)
    ensures SortedKeys(t, []) == []
  {
    var none: seq<Key> := [];
    assert Elems(none) == {};
    KeepDisjoint(Front(t), {});
    KeepDisjoint(Back(t), {});
    assert Drop(none, Placed(t)) == [];
  }

  /** A single key is already in order. */
  lemma SortedSingleton(t: seq<Key>, k: Key)
    requires NoDup(t)
    ensures SortedKeys(t, [k]) == [k]
  {
    FrontBackDisjoint(t);
    assert Elems([k]) == {k};
    if k in Front(t) {
      OnlyOccurrence(Front(t), k);
      DropCovering([k], Placed(t));
      KeepDisjoint(Back(t), {k});
    } else if k in Back(t) {
      OnlyOccurrence(Back(t), k);
      DropCovering([k], Placed(t));
      KeepDisjoint(Front(t), {k});
    } else {
      KeepDisjoint(Front(t), {k});
      KeepDisjoint(Back(t), {k});
      DropDisjoint([k], Placed(t));
    }
  }

  lemma {:induction false} OnlyOccurrence(s: seq<Key>, k: Key)
    requires NoDup(s) && k in s
    ensures Keep(s, {k}) == [k]
  {
    if s[0] == k {
      assert forall x :: x in s[1..] ==> x != k by {
        forall j | 0 <= j < |s[1..]| ensures s[1..][j] != k { assert s[1..][j] == s[j + 1]; }
      }
      KeepDisjoint(s[1..], {k});
    } else {
      assert k in s[1..];
      assert NoDup(s[1..]) by {
        forall i, j | 0 <= i < j < |s[1..]| ensures s[1..][i] != s[1..][j] {
          assert s[1..][i] == s[i + 1] && s[1..][j] == s[j + 1];
        }
      }
      OnlyOccurrence(s[1..], k);
    }
  }

  /** Names of keyword arguments, in call order. */
  function Names(kwargs: seq<(Key, Value)>): (r: seq<Key>)
    ensures |r| == |kwargs| && forall i :: 0 <= i < |kwargs| ==> r[i] == kwargs[i].0
  {
    seq(|kwargs|, i requires 0 <= i < |kwargs| => kwargs[i].0)
  }

  /** `dict.update(kwargs)` on the values: later arguments win. */
  function Updated(m: map<Key, Value>, kwargs: seq<(Key, Value)>): (r: map<Key, Value>)
    ensures r.Keys == m.Keys + Elems(Names(kwargs))
  {
    if kwargs == [] then m
    else
      var (k, v) := kwargs[|kwargs| - 1];
      assert Names(kwargs) == Names(kwargs[..|kwargs| - 1]) + [k];
      Updated(m, kwargs[..|kwargs| - 1])[k := v]
  }

  /** Key order after inserting the argument names one by one without sorting:
      a name already present keeps its place, a new one goes last. */
  function KeysAfter(ks: seq<Key>, kwargs: seq<(Key, Value)>): (r: seq<Key>)
    ensures forall x {:trigger x in r} :: x in r <==> x in ks || x in Names(kwargs)
  {
    if kwargs == [] then ks
    else
      var p := KeysAfter(ks, kwargs[..|kwargs| - 1]);
      var k := kwargs[|kwargs| - 1].0;
      assert Names(kwargs) == Names(kwargs[..|kwargs| - 1]) + [k];
      if k in p then p else p + [k]
  }

  /** Keys whose value is None. */
  function NullKeys(m: map<Key, Value>): set<Key>
  {
    set k | k in m && m[k] == Null
  }

  /** The node's values once the None-valued keys are deleted. */
  function WithoutNulls(m: map<Key, Value>): (r: map<Key, Value>)
    ensures forall k :: k in r <==> k in m && m[k] != Null
    ensures forall k :: k in r ==> r[k] == m[k]
  {
    m - NullKeys(m)
  }

  /** The node a `LovelaceBase` subclass constructor builds: a `type` entry preset
      when `tag` is given, then the keyword arguments inserted in order under
      template `t`, then every None-valued key deleted. */
  function Construct(tag: Option<string>, t: seq<Key>, kwargs: seq<(Key, Value)>): Value
  {
    var k0 := if tag.Some? then ["type"] else [];
    var v0 := if tag.Some? then map["type" := Str(tag.value)] else map[];
    var vals := Updated(v0, kwargs);
    Dict(SortedKeys(t, Drop(KeysAfter(k0, kwargs), NullKeys(vals))), WithoutNulls(vals))
  }

  /** The node after `add_item(key, item)`: None is ignored; otherwise an absent key
      is first inserted with an empty list, then a list item extends the list and
      any other item is appended. */
  function AddedItem(ko: Option<seq<Key>>, node: Value, key: Key, item: Value): Value
    requires node.Dict?
    requires key in node.entries ==> node.entries[key].List?
  {
    if item == Null then node
    else
      var previous := if key in node.entries then node.entries[key].items else [];
      var added := if item.List? then item.items else [item];
      var ks := if key in node.entries then node.keys else Arranged(ko, node.keys + [key]);
      Dict(ks, node.entries[key := List(previous + added)])
  }

  /** Constructed nodes: no key maps to None, keys are exactly the entries, no key
      twice, and keys stand in the template's three bands. */
  lemma ConstructProperties(tag: Option<string>, t: seq<Key>, kwargs: seq<(Key, Value)>)
    requires NoDup(t)
    ensures var r := Construct(tag, t, kwargs);
      && r.Dict?
      && (forall k :: k in r.entries ==> r.entries[k] != Null)
      && (forall k :: k in r.keys <==> k in r.entries)
      && NoDup(r.keys)
      && (tag.Some? && "type" !in Names(kwargs) ==> Get(r.entries, "type") == Str(tag.value))
  {
    var k0 := if tag.Some? then ["type"] else [];
    var v0 := if tag.Some? then map["type" := Str(tag.value)] else map[];
    var vals := Updated(v0, kwargs);
    var n := NullKeys(vals);
    var ka := KeysAfter(k0, kwargs);
    var r := Construct(tag, t, kwargs);
    assert r.keys == SortedKeys(t, Drop(ka, n));
    assert r.entries == WithoutNulls(vals);
    forall k ensures k in r.keys <==> k in r.entries {
      assert k in r.keys <==> k in Drop(ka, n);
      assert k in Drop(ka, n) <==> k in ka && k !in n;
      assert k in ka <==> k in k0 || k in Names(kwargs);
      assert k in vals <==> k in v0 || k in Elems(Names(kwargs));
    }
    KeysAfterNoDup(k0, kwargs);
    DropNoDup(ka, n);
    SortedNoDup(t, Drop(ka, n));
    if tag.Some? && "type" !in Names(kwargs) {
      UpdatedUntouched(v0, kwargs, "type");
    }
  }

  /** With distinct argument names, each argument's value is the field the
      constructed node holds under its name (a None argument leaves no field). */
  lemma ConstructField(tag: Option<string>, t: seq<Key>, kwargs: seq<(Key, Value)>, i: nat)
    requires NoDup(Names(kwargs)) && i < |kwargs|
    ensures Field(Construct(tag, t, kwargs), kwargs[i].0) == kwargs[i].1
  {
    var v0 := if tag.Some? then map["type" := Str(tag.value)] else map[];
    UpdatedLookup(v0, kwargs, i);
  }

  /** The value the last argument named `k` passes, or `d` when no argument names it. */
  function Lookup(kwargs: seq<(Key, Value)>, k: Key, d: Value): Value
  {
    if kwargs == [] then d
    else if kwargs[|kwargs| - 1].0 == k then kwargs[|kwargs| - 1].1
    else Lookup(kwargs[..|kwargs| - 1], k, d)
  }

  /** The argument at `i` decides its key when no later argument names the key again. */
  lemma {:induction false} LookupAt(kwargs: seq<(Key, Value)>, i: nat, d: Value)
    requires i < |kwargs|
    requires forall j :: i < j < |kwargs| ==> kwargs[j].0 != kwargs[i].0
    ensures Lookup(kwargs, kwargs[i].0, d) == kwargs[i].1
  {
    var n := |kwargs| - 1;
    if i < n {
      var p := kwargs[..n];
      assert p[i] == kwargs[i];
      forall j | i < j < |p| ensures p[j].0 != p[i].0 { assert p[j] == kwargs[j]; }
      LookupAt(p, i, d);
    }
  }

  /** `update` leaves under each key the value of the last argument naming it. */
  lemma {:induction false} UpdatedGet(m: map<Key, Value>, kwargs: seq<(Key, Value)>, k: Key)
    ensures Get(Updated(m, kwargs), k) == Lookup(kwargs, k, Get(m, k))
  {
    if kwargs != [] {
      UpdatedGet(m, kwargs[..|kwargs| - 1], k);
    }
  }

  /** The field a constructed node holds under `k` is the last argument naming it,
      else the preset `type`, else nothing (Null); a None argument leaves no field. */
  lemma ConstructGet(tag: Option<string>, t: seq<Key>, kwargs: seq<(Key, Value)>, k: Key)
    ensures Field(Construct(tag, t, kwargs), k)
      == Lookup(kwargs, k, if tag.Some? && k == "type" then Str(tag.value) else Null)
  {
    var v0 := if tag.Some? then map["type" := Str(tag.value)] else map[];
    UpdatedGet(v0, kwargs, k);
  }

  /** A constructed node has no field that was neither preset nor passed. */
  lemma ConstructAbsent(tag: Option<string>, t: seq<Key>, kwargs: seq<(Key, Value)>, k: Key)
    requires k !in Names(kwargs) && (tag.None? || k != "type")
    ensures k !in Construct(tag, t, kwargs).entries
  {
    assert k !in Elems(Names(kwargs));
  }

  lemma {:induction false} KeysAfterNoDup(ks: seq<Key>, kwargs: seq<(Key, Value)>)
    requires NoDup(ks)
    ensures NoDup(KeysAfter(ks, kwargs))
  {
    if kwargs != [] {
      KeysAfterNoDup(ks, kwargs[..|kwargs| - 1]);
      var p := KeysAfter(ks, kwargs[..|kwargs| - 1]);
      var k := kwargs[|kwargs| - 1].0;
      if k !in p { NoDupConcat(p, [k]); }
    }
  }

  /** A value not named by any argument is left as it was. */
  lemma {:induction false} UpdatedUntouched(m: map<Key, Value>, kwargs: seq<(Key, Value)>, k: Key)
    requires k !in Names(kwargs) && k in m
    ensures Updated(m, kwargs)[k] == m[k]
  {
    if kwargs != [] {
      assert Names(kwargs) == Names(kwargs[..|kwargs| - 1]) + [kwargs[|kwargs| - 1].0];
      UpdatedUntouched(m, kwargs[..|kwargs| - 1], k);
    }
  }

  /** With distinct argument names, each argument's value ends up under its name. */
  lemma {:induction false} UpdatedLookup(m: map<Key, Value>, kwargs: seq<(Key, Value)>, i: nat)
    requires NoDup(Names(kwargs)) && i < |kwargs|
    ensures Updated(m, kwargs)[kwargs[i].0] == kwargs[i].1
  {
    var n := |kwargs| - 1;
    if i < n {
      assert Names(kwargs[..n]) == Names(kwargs)[..n];
      assert NoDup(Names(kwargs[..n])) by {
        forall a, b | 0 <= a < b < n ensures Names(kwargs[..n])[a] != Names(kwargs[..n])[b] {
          assert Names(kwargs)[a] != Names(kwargs)[b];
        }
      }
      assert Names(kwargs)[i] != Names(kwargs)[n];
      UpdatedLookup(m, kwargs[..n], i);
    }
  }

  /** `add_item`: None is ignored; the list under `key` is created when absent, then
      extended by a list item or appended to otherwise; earlier items keep their
      order and places; any other key keeps its value. */
  lemma AddedItemProperties(ko: Option<seq<Key>>, node: Value, key: Key, item: Value)
    requires node.Dict? && forall k :: k in node.keys <==> k in node.entries
    requires key in node.entries ==> node.entries[key].List?
    ensures var r := AddedItem(ko, node, key, item);
      && (item == Null ==> r == node)
      && (item != Null ==>
            && r.Dict? && Get(r.entries, key).List?
            && Get(r.entries, key).items
               == (if key in node.entries then node.entries[key].items else [])
                  + (if item.List? then item.items else [item])
            && (forall k :: k != key ==> Get(r.entries, k) == Get(node.entries, k))
            && (key in node.entries ==> r.keys == node.keys)
            && (forall k :: k in r.keys <==> k in node.keys || k == key))
  {
  }

  /** `add_item` of a list under a key the node lacks stores that list, as is. */
  lemma AddedNewList(ko: Option<seq<Key>>, node: Value, key: Key, items: seq<Value>)
    requires node.Dict? && key !in node.entries
    ensures var r := AddedItem(ko, node, key, List(items));
      && r.Dict? && r.entries == node.entries[key := List(items)]
      && (forall k :: k in r.keys <==> k in node.keys || k == key)
  {
    assert [] + items == items;
  }

  /** A `LovelaceBase` object: an insertion-ordered mapping plus the optional
      `key_order` attribute that subclasses set. */
  class LovelaceBase {
    var keys: seq<Key>
    var values: map<Key, Value>
    var keyOrder: Option<seq<Key>>

    /** The ordered-dict invariant: every key once, and exactly the keys with values. */
    ghost predicate Valid()
      reads this
    {
      NoDup(keys) && (forall k :: k in keys <==> k in values)
    }

    /** The template, when set, names no key twice (true of every template in the source). */
    ghost predicate Schema()
      reads this
    {
      keyOrder.Some? ==> NoDup(keyOrder.value)
    }

    /** The node as a value, in iteration order. */
    function Snapshot(): Value
      reads this
    {
      Dict(keys, values)
    }

    /** A subclass constructor: `self['type'] = tag` (before any template exists, so
        without sorting), then `self.key_order = t`, then `LovelaceBase.__init__(**kwargs)`. */
    constructor (tag: Option<string>, t: seq<Key>, kwargs: seq<(Key, Value)>)
      ensures Valid() && keyOrder == Some(t)
      ensures values == WithoutNulls(Updated(if tag.Some? then map["type" := Str(tag.value)] else map[], kwargs))
      ensures NoDup(t) ==> Snapshot() == Construct(tag, t, kwargs)
    {
      keys := [];
      values := map[];
      keyOrder := None;
      new;
      if tag.Some? {
        SetItem("type", Str(tag.value));
      }
      keyOrder := Some(t);
      if NoDup(t) {
        if tag.Some? { SortedSingleton(t, "type"); } else { SortedEmpty(t); }
      }
      ghost var k0 := keys;
      ghost var v0 := values;
      assert k0 == (if tag.Some? then ["type"] else []);
      assert v0 == (if tag.Some? then map["type" := Str(tag.value)] else map[]);
      Init(kwargs);
      if NoDup(t) {
        InitConstructs(tag, t, kwargs, k0, v0, keys, values);
      }
    }

    /** What `__init__` leaves, starting from the preset `type`, is the constructed node. */
    static lemma InitConstructs(tag: Option<string>, t: seq<Key>, kwargs: seq<(Key, Value)>,
                                k0: seq<Key>, v0: map<Key, Value>, ks: seq<Key>, vs: map<Key, Value>)
      requires k0 == (if tag.Some? then ["type"] else [])
      requires v0 == (if tag.Some? then map["type" := Str(tag.value)] else map[])
      requires vs == WithoutNulls(Updated(v0, kwargs))
      requires ks == Arranged(Some(t), Drop(KeysAfter(k0, kwargs), NullKeys(Updated(v0, kwargs))))
      ensures Dict(ks, vs) == Construct(tag, t, kwargs)
    {
    }

    /** `LovelaceBase.__init__`: `self.update(kwargs)`, then deleting every key
        whose value is None. */
    method Init(kwargs: seq<(Key, Value)>)
      requires Valid()
      modifies this`keys, this`values
      ensures Valid()
      ensures values == WithoutNulls(Updated(old(values), kwargs))
      ensures Schema() && Arranged(keyOrder, old(keys)) == old(keys) ==>
        keys == Arranged(keyOrder, Drop(KeysAfter(old(keys), kwargs), NullKeys(Updated(old(values), kwargs))))
    {
      ghost var k0, v0 := keys, values;
      Update(kwargs);
      ghost var inserted := keys;
      DeleteNulls();
      if Schema() && Arranged(keyOrder, k0) == k0 && keyOrder.Some? {
        SortedDrop(keyOrder.value, KeysAfter(k0, kwargs), NullKeys(Updated(v0, kwargs)));
      }
    }

    /** `self.update(kwargs)`: each argument goes through `__setitem__`, in order. */
    method Update(kwargs: seq<(Key, Value)>)
      requires Valid()
      modifies this`keys, this`values
      ensures Valid()
      ensures values == Updated(old(values), kwargs)
      ensures Schema() && Arranged(keyOrder, old(keys)) == old(keys) ==>
        keys == Arranged(keyOrder, KeysAfter(old(keys), kwargs))
    {
      ghost var k0, v0 := keys, values;
      ghost var sorted := Schema() && Arranged(keyOrder, k0) == k0;
      for i := 0 to |kwargs|
        invariant Valid()
        invariant values == Updated(v0, kwargs[..i])
        invariant sorted ==> keys == Arranged(keyOrder, KeysAfter(k0, kwargs[..i]))
      {
        var (k, v) := kwargs[i];
        assert kwargs[..i + 1][..i] == kwargs[..i];
        ghost var before := keys;
        SetItem(k, v);
        if sorted && keyOrder.Some? && k !in before {
          SortedAppend(keyOrder.value, KeysAfter(k0, kwargs[..i]), [k]);
        }
      }
      assert kwargs[..|kwargs|] == kwargs;
    }

    /** The deletion loop of `__init__`: over a snapshot of the items, delete each
        key whose value is None. */
    method DeleteNulls()
      requires Valid()
      modifies this`keys, this`values
      ensures Valid()
      ensures keys == Drop(old(keys), NullKeys(old(values)))
      ensures values == WithoutNulls(old(values))
    {
      var items := keys;
      var snapshot := values;
      ghost var nulls := NullKeys(snapshot);
      for j := 0 to |items|
        invariant Valid()
        invariant keys == Drop(items[..j], nulls) + items[j..]
        invariant values == snapshot - (nulls * Elems(items[..j]))
      {
        var key := items[j];
        DeleteAdvance(items, j, snapshot, keys, values);
        if snapshot[key] == Null {
          DelItem(key);
        }
      }
      DeleteDone(items, snapshot);
    }

    /** One iteration of the deletion loop keeps its invariant, whether it deletes or not. */
    static lemma DeleteAdvance(items: seq<Key>, j: nat, snapshot: map<Key, Value>, keys: seq<Key>, values: map<Key, Value>)
      requires NoDup(items) && j < |items| && items[j] in snapshot
      requires keys == Drop(items[..j], NullKeys(snapshot)) + items[j..]
      requires values == snapshot - (NullKeys(snapshot) * Elems(items[..j]))
      ensures items[j] in keys && items[j] in values
      ensures var nulls := NullKeys(snapshot);
        if snapshot[items[j]] == Null then
          Drop(keys, {items[j]}) == Drop(items[..j + 1], nulls) + items[j + 1..] &&
          values - {items[j]} == snapshot - (nulls * Elems(items[..j + 1]))
        else
          keys == Drop(items[..j + 1], nulls) + items[j + 1..] &&
          values == snapshot - (nulls * Elems(items[..j + 1]))
    {
      var key := items[j];
      var nulls := NullKeys(snapshot);
      Isolated(items, j);
      assert items[..j + 1] == items[..j] + [key];
      assert items[j..] == [key] + items[j + 1..];
      assert Elems(items[..j + 1]) == Elems(items[..j]) + {key};
      if snapshot[key] == Null {
        DeleteStepNull(items[..j], key, items[j + 1..], nulls);
      } else {
        DeleteStepKept(items[..j], key, items[j + 1..], nulls);
      }
    }

    /** After the last iteration every None-valued key has been deleted. */
    static lemma DeleteDone(items: seq<Key>, snapshot: map<Key, Value>)
      requires forall k :: k in items <==> k in snapshot
      ensures items[..|items|] == items
      ensures snapshot - (NullKeys(snapshot) * Elems(items[..|items|])) == WithoutNulls(snapshot)
    {
      assert items[..|items|] == items;
      assert Elems(items) == snapshot.Keys;
    }

    /** A deletion step that deletes the key moves the boundary past it. */
    static lemma DeleteStepNull(done: seq<Key>, key: Key, rest: seq<Key>, nulls: set<Key>)
      requires key !in done && key !in rest && key in nulls
      ensures Drop(done + [key], nulls) + rest == Drop(Drop(done, nulls) + ([key] + rest), {key})
    {
      DropLast(done, key, nulls);
      DropDisjoint(Drop(done, nulls), {key});
      DropHead(key, rest);
      DropAppend(Drop(done, nulls), [key] + rest, {key});
    }

    static lemma DropLast(done: seq<Key>, key: Key, nulls: set<Key>)
      requires key in nulls
      ensures Drop(done + [key], nulls) == Drop(done, nulls)
    {
      DropAppend(done, [key], nulls);
      assert Drop([key], nulls) == [];
    }

    static lemma DropHead(key: Key, rest: seq<Key>)
      requires key !in rest
      ensures Drop([key] + rest, {key}) == rest
    {
      DropAppend([key], rest, {key});
      assert Drop([key], {key}) == [];
      DropDisjoint(rest, {key});
    }

    /** A deletion step that keeps the key moves the boundary past it. */
    static lemma DeleteStepKept(done: seq<Key>, key: Key, rest: seq<Key>, nulls: set<Key>)
      requires key !in nulls
      ensures Drop(done + [key], nulls) + rest == Drop(done, nulls) + ([key] + rest)
    {
      DropAppend(done, [key], nulls);
      assert Drop([key], nulls) == [key];
    }

    /** `__setitem__`: a new key is appended and the keys re-sorted; an existing key
        only gets its new value. */
    method SetItem(key: Key, value: Value)
      requires Valid()
      modifies this`keys, this`values
      ensures Valid() && values == old(values)[key := value]
      ensures key in old(values) ==> keys == old(keys)
      ensures key !in old(values) && Schema() ==> keys == Arranged(keyOrder, old(keys) + [key])
      ensures forall k :: k in keys <==> k in old(keys) || k == key
    {
      var sort := key !in values;
      values := values[key := value];
      if sort {
        NoDupConcat(keys, [key]);
        keys := keys + [key];
        SortKeys();
      }
    }

    /** `del self[key]`. */
    method DelItem(key: Key)
      requires Valid() && key in values
      modifies this`keys, this`values
      ensures Valid()
      ensures keys == Drop(old(keys), {key}) && values == old(values) - {key}
    {
      DropNoDup(keys, {key});
      keys := Drop(keys, {key});
      values := values - {key};
    }

    /** `OrderedDict.move_to_end(key, last)`. */
    method MoveToEnd(key: Key, last: bool)
      requires Valid() && key in values
      modifies this`keys
      ensures Valid()
      ensures keys == if last then Drop(old(keys), {key}) + [key] else [key] + Drop(old(keys), {key})
      ensures forall k :: k in keys <==> k in old(keys)
    {
      var rest := Drop(keys, {key});
      DropNoDup(keys, {key});
      if last {
        NoDupConcat(rest, [key]);
        keys := rest + [key];
      } else {
        NoDupConcat([key], rest);
        keys := [key] + rest;
      }
    }

    /** `sortkeys()`: without a template nothing happens; otherwise a copy of the
        template has its front part reversed and each present template key is moved
        to the front (before the marker) or to the back (after it). The keys are
        only permuted, values and template are untouched, and with a duplicate-free
        template the result is the three-band order. */
    method SortKeys()
      requires Valid()
      modifies this`keys
      ensures Valid()
      ensures forall k :: k in keys <==> k in old(keys)
      ensures Schema() ==> keys == Arranged(keyOrder, old(keys))
    {
      if keyOrder.None? {
        return;
      }
      var t := keyOrder.value;
      var mid := Mid(t);
      var order := Reversed(t[..mid]) + t[mid..];
      assert |order| == |t|;
      ghost var ks := keys;
      ghost var nd := NoDup(t);
      if nd {
        SortStart(t, ks);
      }
      for i := 0 to |order|
        invariant Valid()
        invariant forall k :: k in keys <==> k in ks
        invariant nd ==> keys == Stage(t, ks, i)
      {
        SortStep(t, mid, order, ks, i, nd);
      }
      if nd {
        SortDone(t, ks);
        assert keys == SortedKeys(t, ks);
        assert keys == Arranged(keyOrder, ks);
      }
    }

    /** One iteration of the `sortkeys` loop: the key at position `i` of the
        rearranged template, unless it is the marker or absent, goes to the front
        (before the marker) or to the end (after it). */
    method SortStep(ghost t: seq<Key>, mid: nat, order: seq<Key>, ghost ks: seq<Key>, i: nat, ghost nd: bool)
      requires Valid() && mid == Mid(t) && order == Reversed(t[..mid]) + t[mid..] && i < |order|
      requires forall k :: k in keys <==> k in ks
      requires nd ==> NoDup(t) && keys == Stage(t, ks, i)
      modifies this`keys
      ensures Valid() && forall k :: k in keys <==> k in ks
      ensures nd ==> keys == Stage(t, ks, i + 1)
    {
      var key := order[i];
      if nd {
        SortAdvance(t, order, ks, i, keys);
      }
      assert key in values <==> key in ks;
      if i != mid && key in values {
        MoveToEnd(key, i > mid);
      }
    }

    /** The keys after the first `i` iterations of the `sortkeys` loop: first the
        front keys are taken from the marker backwards, each moved to the start;
        then, past the marker, the back keys in order, each moved to the end. */
    static ghost function Stage(t: seq<Key>, ks: seq<Key>, i: nat): seq<Key>
      requires i <= |t|
    {
      var mid := Mid(t);
      if i <= mid then
        Keep(t[mid - i..mid], Elems(ks)) + Drop(ks, Elems(t[mid - i..mid]))
      else
        Keep(Front(t), Elems(ks)) + Drop(ks, Elems(Front(t)) + Elems(t[mid + 1..i])) + Keep(t[mid + 1..i], Elems(ks))
    }

    /** Before the loop, nothing has moved. */
    static lemma SortStart(t: seq<Key>, ks: seq<Key>)
      ensures Stage(t, ks, 0) == ks
    {
      var mid := Mid(t);
      assert t[mid - 0..mid] == [];
      assert Elems(t[mid - 0..mid]) == {};
      DropDisjoint(ks, {});
    }

    /** After the loop, the keys are in the three-band order. */
    static lemma SortDone(t: seq<Key>, ks: seq<Key>)
      ensures Stage(t, ks, |t|) == SortedKeys(t, ks)
    {
      var mid := Mid(t);
      if mid == |t| {
        assert Back(t) == [] && t[mid - |t|..mid] == Front(t);
        assert Elems(Front(t)) + Elems(Back(t)) == Elems(Front(t));
        assert Elems(Back(t)) == {};
        KeepDisjoint(Back(t), Elems(ks));
      } else {
        assert t[mid + 1..|t|] == Back(t);
      }
    }

    /** One iteration of the `sortkeys` loop moves the sequence to the next stage. */
    static lemma SortAdvance(t: seq<Key>, order: seq<Key>, ks: seq<Key>, i: nat, keys: seq<Key>)
      requires NoDup(t) && order == Reversed(t[..Mid(t)]) + t[Mid(t)..] && i < |order|
      requires keys == Stage(t, ks, i)
      ensures var key := order[i];
        var moved := if i > Mid(t) then Drop(keys, {key}) + [key] else [key] + Drop(keys, {key});
        if i != Mid(t) && key in ks then moved == Stage(t, ks, i + 1) else keys == Stage(t, ks, i + 1)
    {
      var mid := Mid(t);
      OrderAt(t, order, i);
      if i < mid {
        FrontTurn(t, ks, i, keys);
      } else if i == mid {
        MarkerStep(t, ks, i);
      } else {
        BackTurn(t, ks, i, keys);
      }
    }

    /** The rearranged template: the front keys backwards, then the marker and the rest. */
    static lemma OrderAt(t: seq<Key>, order: seq<Key>, i: nat)
      requires order == Reversed(t[..Mid(t)]) + t[Mid(t)..] && i < |order|
      ensures i < Mid(t) ==> order[i] == t[Mid(t) - 1 - i]
      ensures i > Mid(t) ==> order[i] == t[i]
    {
      var mid := Mid(t);
      if i < mid {
        assert order[i] == Reversed(t[..mid])[i] == t[mid - 1 - i];
      } else if i > mid {
        assert order[i] == t[mid..][i - mid] == t[i];
      }
    }

    /** A step before the marker: the front key `t[mid - 1 - i]` moves to the start if present. */
    static lemma FrontTurn(t: seq<Key>, ks: seq<Key>, i: nat, keys: seq<Key>)
      requires NoDup(t) && i < Mid(t)
      requires keys == Stage(t, ks, i)
      ensures var key := t[Mid(t) - 1 - i];
        (key in ks ==> [key] + Drop(keys, {key}) == Stage(t, ks, i + 1)) &&
        (key !in ks ==> keys == Stage(t, ks, i + 1))
    {
      var mid := Mid(t);
      FrontStep(t, mid, i, ks, keys, t[mid - 1 - i] in ks);
    }

    /** The marker itself is skipped. */
    static lemma MarkerStep(t: seq<Key>, ks: seq<Key>, i: nat)
      requires i == Mid(t) < |t|
      ensures Stage(t, ks, i) == Stage(t, ks, i + 1)
    {
      var mid := Mid(t);
      assert t[mid + 1..i + 1] == [];
      assert Elems(Front(t)) + Elems(t[mid + 1..i + 1]) == Elems(Front(t));
      assert t[mid - mid..mid] == Front(t);
      KeepDisjoint(t[mid + 1..i + 1], Elems(ks));
    }

    /** A step past the marker: the back key `t[i]` moves to the end if present. */
    static lemma BackTurn(t: seq<Key>, ks: seq<Key>, i: nat, keys: seq<Key>)
      requires NoDup(t) && Mid(t) < i < |t|
      requires keys == Stage(t, ks, i)
      ensures var key := t[i];
        (key in ks ==> Drop(keys, {key}) + [key] == Stage(t, ks, i + 1)) &&
        (key !in ks ==> keys == Stage(t, ks, i + 1))
    {
      var mid := Mid(t);
      var key := t[i];
      BackApart(t, mid, i);
      assert t[mid + 1..i + 1] == t[mid + 1..i] + [key];
      BackStep(Front(t), t[mid + 1..i], key, ks, keys, key in ks);
    }

    /** One front step of `sortkeys`: moving the next front key (if present) to the front. */
    static lemma FrontStep(t: seq<Key>, mid: nat, i: nat, ks: seq<Key>, keys: seq<Key>, present: bool)
      requires NoDup(t) && mid == Mid(t) && i < mid
      requires keys == Keep(t[mid - i..mid], Elems(ks)) + Drop(ks, Elems(t[mid - i..mid]))
      requires present <==> t[mid - 1 - i] in ks
      ensures var key := t[mid - 1 - i];
        var next := Keep(t[mid - (i + 1)..mid], Elems(ks)) + Drop(ks, Elems(t[mid - (i + 1)..mid]));
        (present ==> [key] + Drop(keys, {key}) == next) && (!present ==> keys == next)
    {
      var key := t[mid - 1 - i];
      FrontApart(t, mid, i);
      if present {
        FrontMove(t[mid - i..mid], key, ks, keys);
      } else {
        FrontSkip(t[mid - i..mid], key, ks, keys);
      }
    }

    /** The next front key is new: it precedes the front keys already taken. */
    static lemma FrontApart(t: seq<Key>, mid: nat, i: nat)
      requires NoDup(t) && mid == Mid(t) && i < mid
      ensures t[mid - (i + 1)..mid] == [t[mid - 1 - i]] + t[mid - i..mid]
      ensures t[mid - 1 - i] !in t[mid - i..mid]
    {
      var key := t[mid - 1 - i];
      var s := t[mid - i..mid];
      assert t[mid - (i + 1)..mid] == [key] + s;
      forall j | 0 <= j < |s| ensures s[j] != key {
        assert s[j] == t[mid - i + j];
        NoDupAt(t, mid - 1 - i, mid - i + j);
      }
    }

    /** A present front key moves to the start, ahead of the front keys already taken. */
    static lemma FrontMove(s: seq<Key>, key: Key, ks: seq<Key>, keys: seq<Key>)
      requires key !in s && key in ks
      requires keys == Keep(s, Elems(ks)) + Drop(ks, Elems(s))
      ensures [key] + Drop(keys, {key}) == Keep([key] + s, Elems(ks)) + Drop(ks, Elems([key] + s))
    {
      var e := Elems(ks);
      var kept := Keep(s, e);
      var rest := Drop(ks, Elems(s));
      assert key in e;
      KeepDropCons(key, s, e);
      assert Elems([key] + s) == Elems(s) + {key};
      DropAppend(kept, rest, {key});
      DropDisjoint(kept, {key});
      DropDrop(ks, Elems(s), {key});
      AppendAssoc([key], kept, Drop(ks, Elems(s) + {key}));
    }

    /** An absent front key changes nothing. */
    static lemma FrontSkip(s: seq<Key>, key: Key, ks: seq<Key>, keys: seq<Key>)
      requires key !in ks
      requires keys == Keep(s, Elems(ks)) + Drop(ks, Elems(s))
      ensures keys == Keep([key] + s, Elems(ks)) + Drop(ks, Elems([key] + s))
    {
      var e := Elems(ks);
      assert key !in e;
      KeepDropCons(key, s, e);
      assert [] + Keep(s, e) == Keep(s, e);
      assert Elems([key] + s) == Elems(s) + {key};
      DropDrop(ks, Elems(s), {key});
      DropDisjoint(Drop(ks, Elems(s)), {key});
    }

    /** One back step of `sortkeys`: moving the next back key (if present) to the end. */
    static lemma BackStep(f: seq<Key>, b: seq<Key>, key: Key, ks: seq<Key>, keys: seq<Key>, present: bool)
      requires key !in f && key !in b
      requires keys == Keep(f, Elems(ks)) + Drop(ks, Elems(f) + Elems(b)) + Keep(b, Elems(ks))
      requires present <==> key in ks
      ensures var next := Keep(f, Elems(ks)) + Drop(ks, Elems(f) + Elems(b + [key])) + Keep(b + [key], Elems(ks));
        (present ==> Drop(keys, {key}) + [key] == next) && (!present ==> keys == next)
    {
      assert Elems(f) + Elems(b + [key]) == Elems(f) + Elems(b) + {key};
      KeepAppend(b, [key], Elems(ks));
      if present {
        assert Keep([key], Elems(ks)) == [key];
        MoveLast(Keep(f, Elems(ks)), ks, Elems(f) + Elems(b), Keep(b, Elems(ks)), key);
      } else {
        assert Keep([key], Elems(ks)) == [];
        DropRelevant(ks, Elems(f) + Elems(b), Elems(f) + Elems(b) + {key});
      }
    }

    /** The next back key occurs neither in the front nor among the back keys done. */
    static lemma BackApart(t: seq<Key>, mid: nat, i: nat)
      requires NoDup(t) && mid == Mid(t) && mid < i < |t|
      ensures t[i] !in Front(t) && t[i] !in t[mid + 1..i]
    {
      forall j | 0 <= j < mid ensures Front(t)[j] != t[i] { assert Front(t)[j] == t[j]; }
      var done := t[mid + 1..i];
      forall j | 0 <= j < |done| ensures done[j] != t[i] { assert done[j] == t[mid + 1 + j]; }
    }

    /** Moving a key that only the middle band holds to the end of the last band. */
    static lemma MoveLast(kf: seq<Key>, ks: seq<Key>, p: set<Key>, kb: seq<Key>, key: Key)
      requires key !in kf && key !in kb
      ensures Drop(kf + Drop(ks, p) + kb, {key}) + [key]
        == kf + Drop(ks, p + {key}) + (kb + [key])
    {
      var kd := Drop(ks, p);
      DropAppend(kf + kd, kb, {key});
      DropAppend(kf, kd, {key});
      DropDisjoint(kf, {key});
      DropDisjoint(kb, {key});
      DropDrop(ks, p, {key});
    }

    /** `add_item(key, item)`. */
    method AddItem(key: Key, item: Value)
      requires Valid()
      requires key in values ==> values[key].List?
      modifies this`keys, this`values
      ensures Valid()
      ensures Schema() ==> Snapshot() == AddedItem(keyOrder, old(Snapshot()), key, item)
      ensures forall k :: k in keys <==> k in old(keys) || (item != Null && k == key)
    {
      if item != Null {
        ghost var present := key in values;
        if key !in values {
          SetItem(key, List([]));
        }
        assert key in values && values[key].List?;
        ghost var previous := values[key].items;
        assert previous == if present then old(values)[key].items else [];
        var added := if item.List? then item.items else [item];
        values := values[key := List(values[key].items + added)];
        assert values == old(values)[key := List(previous + added)];
      }
    }
  }
}
