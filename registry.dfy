/** The two indexes built from the states dump: `get_entities` (records by id)
    and `build_states` (records by domain, then object id). */
module Registry {
  import opened Json
  import opened Seqs
  import opened Naming

  /** The ids of the records, in dump order. */
  function Ids(dump: seq<State>): (r: seq<string>)
    ensures |r| == |dump|
    ensures forall i :: 0 <= i < |dump| ==> r[i] == dump[i].entityId
  {
    seq(|dump|, i requires 0 <= i < |dump| => dump[i].entityId)
  }

  /** Every id has a dot, so `eid` can split it. */
  predicate Dotted(dump: seq<State>)
  {
    forall i :: 0 <= i < |dump| ==> '.' in dump[i].entityId
  }

  /** The mapping `get_entities` leaves: `entities[e['entity_id']] = e` for each
      record in turn. */
  function Entities(dump: seq<State>): (r: map<string, State>)
    ensures forall id :: id in r <==> id in Ids(dump)
    ensures forall id :: id in r ==> r[id].entityId == id
  {
    if dump == [] then map[]
    else
      var n := |dump| - 1;
      assert Ids(dump) == Ids(dump[..n]) + [dump[n].entityId];
      Entities(dump[..n])[dump[n].entityId := dump[n]]
  }

  /** `get_entities(states)`. */
  method GetEntities(dump: seq<State>) returns (entities: map<string, State>)
    ensures entities == Entities(dump)
  {
    entities := map[];
    for i := 0 to |dump|
      invariant entities == Entities(dump[..i])
    {
      assert dump[..i + 1][..i] == dump[..i];
      entities := entities[dump[i].entityId := dump[i]];
    }
    assert dump[..|dump|] == dump;
  }

  /** A record is the one indexed under its id when no later record has that id:
      later duplicates overwrite earlier ones. */
  lemma {:induction false} EntitiesLatest(dump: seq<State>, i: nat)
    requires i < |dump|
    requires forall j :: i < j < |dump| ==> dump[j].entityId != dump[i].entityId
    ensures dump[i].entityId in Entities(dump)
    ensures Entities(dump)[dump[i].entityId] == dump[i]
  {
    var n := |dump| - 1;
    if i < n {
      var prefix := dump[..n];
      assert prefix[i] == dump[i];
      forall j | i < j < |prefix| ensures prefix[j].entityId != prefix[i].entityId {
        assert prefix[j] == dump[j];
      }
      EntitiesLatest(prefix, i);
    }
  }

  /** An ordered dictionary keyed by object id (`states[domain]`): `order` is the
      insertion order, `rows` the records. */
  datatype Table = Table(order: seq<string>, rows: map<string, State>)

  /** `table[key] = e`: a new key goes last, an existing key keeps its place. */
  function Insert(t: Table, key: string, e: State): (r: Table)
    ensures r.rows == t.rows[key := e]
    ensures key in t.rows ==> r.order == t.order
    ensures key !in t.rows ==> r.order == t.order + [key]
  {
    Table(if key in t.rows then t.order else t.order + [key], t.rows[key := e])
  }

  /** The table `states.get(domain, {})` yields. */
  function TableOf(states: map<string, Table>, domain: string): Table
  {
    if domain in states then states[domain] else Table([], map[])
  }

  /** The mapping `build_states` leaves: each record, in turn, stored under its
      domain and object id, a domain's table being created on first use. */
  function States(dump: seq<State>): map<string, Table>
    requires Dotted(dump)
  {
    if dump == [] then map[]
    else
      var n := |dump| - 1;
      var s := States(dump[..n]);
      var (d, o) := Eid(dump[n].entityId);
      s[d := Insert(TableOf(s, d), o, dump[n])]
  }

  /** `build_states(states_dump)`. */
  method BuildStates(dump: seq<State>) returns (states: map<string, Table>)
    requires Dotted(dump)
    ensures states == States(dump)
  {
    states := map[];
    for i := 0 to |dump|
      invariant Dotted(dump[..i])
      invariant states == States(dump[..i])
    {
      StatesStep(dump, i);
      var (domain, objectId) := Eid(dump[i].entityId);
      if domain !in states {
        states := states[domain := Table([], map[])];
      }
      states := states[domain := Insert(states[domain], objectId, dump[i])];
    }
    assert dump[..|dump|] == dump;
  }

  /** One more record: its domain's table, created empty when missing, gains the
      record under its object id. */
  lemma StatesStep(dump: seq<State>, i: nat)
    requires Dotted(dump) && i < |dump|
    ensures Dotted(dump[..i]) && Dotted(dump[..i + 1])
    ensures var s := States(dump[..i]);
      var (d, o) := Eid(dump[i].entityId);
      var s' := if d in s then s else s[d := Table([], map[])];
      States(dump[..i + 1]) == s'[d := Insert(s'[d], o, dump[i])]
  {
    assert dump[..i + 1][..i] == dump[..i];
  }

  /** Every table lists each of its keys exactly once, in `order`. */
  ghost predicate WellKept(t: Table)
  {
    NoDup(t.order) && forall o :: o in t.order <==> o in t.rows
  }

  lemma {:induction false} StatesWellKept(dump: seq<State>)
    requires Dotted(dump)
    ensures forall d :: d in States(dump) ==> WellKept(States(dump)[d])
  {
    if dump != [] {
      var n := |dump| - 1;
      StatesWellKept(dump[..n]);
      var s := States(dump[..n]);
      var (d, o) := Eid(dump[n].entityId);
      var t := TableOf(s, d);
      if o !in t.rows { NoDupConcat(t.order, [o]); }
    }
  }

  /** Both indexes hold the same records: object id `o` of domain `d` is indexed by
      `build_states` exactly when the id `d.o` is indexed by `get_entities`, and with
      the same record. */
  lemma {:induction false} StatesAgree(dump: seq<State>, d: string, o: string)
    requires Dotted(dump) && '.' !in d
    ensures (d in States(dump) && o in States(dump)[d].rows) <==> d + "." + o in Entities(dump)
    ensures d in States(dump) && o in States(dump)[d].rows ==>
      States(dump)[d].rows[o] == Entities(dump)[d + "." + o]
  {
    if dump != [] {
      var n := |dump| - 1;
      StatesAgree(dump[..n], d, o);
      var e := dump[n];
      var (d', o') := Eid(e.entityId);
      if d + "." + o == e.entityId {
        EidJoin(d, o);
      }
    }
  }

  /** Object ids of the records of domain `d`, in dump order (duplicates kept). */
  function ObjectIds(dump: seq<State>, d: string): seq<string>
    requires Dotted(dump)
  {
    if dump == [] then []
    else
      var n := |dump| - 1;
      var (d', o) := Eid(dump[n].entityId);
      ObjectIds(dump[..n], d) + (if d' == d then [o] else [])
  }

  /** First occurrences only, in order. */
  function Distinct(s: seq<string>): (r: seq<string>)
    ensures forall x {:trigger x in r} :: x in r <==> x in s
  {
    if s == [] then []
    else
      var n := |s| - 1;
      var p := Distinct(s[..n]);
      assert forall x :: x in s <==> x in s[..n] || x == s[n];
      if s[n] in p then p else p + [s[n]]
  }

  /** A domain's table keeps its object ids in order of first appearance in the dump;
      a domain without records has no table. */
  lemma {:induction false} StatesOrder(dump: seq<State>, d: string)
    requires Dotted(dump)
    ensures d in States(dump) <==> ObjectIds(dump, d) != []
    ensures d in States(dump) ==> States(dump)[d].order == Distinct(ObjectIds(dump, d))
    ensures d in States(dump) ==> forall o :: o in States(dump)[d].rows <==> o in ObjectIds(dump, d)
  {
    if dump != [] {
      var n := |dump| - 1;
      StatesOrder(dump[..n], d);
      var ids := ObjectIds(dump[..n], d);
      var (d', o) := Eid(dump[n].entityId);
      if d' == d {
        assert ObjectIds(dump, d) == ids + [o];
        assert (ids + [o])[..|ids|] == ids;
        assert forall x :: x in ids + [o] <==> x in ids || x == o;
      } else {
        assert ObjectIds(dump, d) == ids;
      }
    }
  }
}
