/** Document assembly: `Lovelace(states, title)`, which titles the document and adds
    one view per view-flagged group, `default_view` first, and the document's
    `add_view` and `add_resource`. */
module Document {
  import opened Json
  import opened Seqs
  import opened OrderedNode
  import opened Naming
  import opened Registry
  import opened Cards

  /** `Lovelace.key_order`. */
  const DocOrder: seq<Key> := ["title", "resources", "excluded_entities", "...", "views"]

  /** The object id `Lovelace.__init__` pops and adds first. */
  const DefaultView: string := "default_view"

  lemma DocOrderDistinct()
    ensures NoDup(DocOrder)
  {
  }

  /** The bands of the document template: `title`, `resources` and
      `excluded_entities` at the front, `views` at the back. */
  lemma DocBands()
    ensures Front(DocOrder) == ["title", "resources", "excluded_entities"]
    ensures Back(DocOrder) == ["views"]
  {
    assert DocOrder[3] == Delim;
    assert IndexOf(DocOrder, Delim) == 3;
  }

  /** `title or "Home"`: an absent or empty title becomes "Home". */
  function HomeTitle(title: Option<string>): (r: string)
    ensures r != ""
    ensures title.Some? && title.value != "" ==> r == title.value
    ensures title.None? || title.value == "" ==> r == "Home"
  {
    if title.Some? && title.value != "" then title.value else "Home"
  }

  /** The domain tables as `build_states` leaves them, over the registry `reg` that
      `get_entities` leaves: each row is the registry's record for `domain.object_id`,
      and each table lists each of its keys once. */
  ghost predicate Indexed(reg: map<string, State>, states: map<string, Table>)
  {
    forall d :: d in states ==>
      && WellKept(states[d]) && '.' !in d
      && forall o :: o in states[d].rows ==> d + "." + o in reg && states[d].rows[o] == reg[d + "." + o]
  }

  /** Every view-flagged group is among the records `rank` covers: the records the
      conversion reaches are those of the view-flagged groups and, transitively,
      their registered members (`ValidRank`). */
  ghost predicate Covers(rank: map<string, nat>, states: map<string, Table>)
  {
    var groups := TableOf(states, "group");
    forall o :: o in groups.rows && Truthy(Get(groups.rows[o].attributes, "view")) ==> groups.rows[o].entityId in rank
  }

  /** Every domain `build_states` indexes is the part of an id before its first dot. */
  lemma {:induction false} StatesDomains(dump: seq<State>)
    requires Dotted(dump)
    ensures forall d :: d in States(dump) ==> '.' !in d
  {
    if dump != [] {
      StatesDomains(dump[..|dump| - 1]);
    }
  }

  /** The two indexes of one states dump fit together as `Lovelace` expects. */
  lemma StatesIndexed(dump: seq<State>)
    requires Dotted(dump)
    ensures Indexed(Entities(dump), States(dump))
  {
    StatesDomains(dump);
    StatesWellKept(dump);
    forall d, o | d in States(dump) && o in States(dump)[d].rows
      ensures d + "." + o in Entities(dump) && States(dump)[d].rows[o] == Entities(dump)[d + "." + o]
    {
      StatesAgree(dump, d, o);
    }
  }

  /** The rows of the `group` table are the registry's group records. */
  lemma GroupRows(reg: map<string, State>, states: map<string, Table>)
    requires WellFormed(reg) && Indexed(reg, states)
    ensures var groups := TableOf(states, "group");
      && WellKept(groups)
      && forall o :: o in groups.rows ==> Registered(reg, groups.rows[o]) && IsGroup(groups.rows[o])
  {
    var groups := TableOf(states, "group");
    forall o | o in groups.rows ensures Registered(reg, groups.rows[o]) && IsGroup(groups.rows[o]) {
      EidJoin("group", o);
    }
  }

  /** `{k: v for k, v in groups.items() if v['attributes'].get('view', False)}`, by
      key: the object ids of the view-flagged groups, in table order. */
  function Flagged(order: seq<string>, rows: map<string, State>): (r: seq<string>)
    ensures forall o {:trigger o in r} :: o in r <==> o in order && o in rows && Truthy(Get(rows[o].attributes, "view"))
  {
    if order == [] then []
    else
      var n := |order| - 1;
      var o := order[n];
      assert forall x :: x in order <==> x in order[..n] || x == o;
      Flagged(order[..n], rows) + (if o in rows && Truthy(Get(rows[o].attributes, "view")) then [o] else [])
  }

  /** Filtering keeps the table's order: flagged ids of `a + b` are those of `a`,
      then those of `b`. */
  lemma {:induction false} FlaggedAppend(a: seq<string>, b: seq<string>, rows: map<string, State>)
    ensures Flagged(a + b, rows) == Flagged(a, rows) + Flagged(b, rows)
  {
    if b == [] {
      assert a + b == a;
    } else {
      var n := |b| - 1;
      FlaggedAppend(a, b[..n], rows);
      assert (a + b)[..|a + b| - 1] == a + b[..n];
      var o := b[n];
      var last := if o in rows && Truthy(Get(rows[o].attributes, "view")) then [o] else [];
      AppendAssoc(Flagged(a, rows), Flagged(b[..n], rows), last);
    }
  }

  /** Flagged ids are distinct when the table's keys are. */
  lemma {:induction false} FlaggedNoDup(order: seq<string>, rows: map<string, State>)
    requires NoDup(order)
    ensures NoDup(Flagged(order, rows))
  {
    if order != [] {
      var n := |order| - 1;
      assert NoDup(order[..n]);
      FlaggedNoDup(order[..n], rows);
      var o := order[n];
      NoDupConcat(Flagged(order[..n], rows), if o in rows && Truthy(Get(rows[o].attributes, "view")) then [o] else []);
    }
  }

  /** The order in which `Lovelace.__init__` adds views: `default_view`, when
      flagged, first, then the other flagged ids in table order. */
  function ViewOrder(flagged: seq<string>): seq<string>
  {
    if DefaultView in flagged then [DefaultView] + Drop(flagged, {DefaultView}) else flagged
  }

  /** The view order is a rearrangement of the flagged ids that puts `default_view`
      first and keeps every other id in its place relative to the rest. */
  lemma ViewOrderProperties(flagged: seq<string>)
    ensures forall o :: o in ViewOrder(flagged) <==> o in flagged
    ensures NoDup(flagged) ==> NoDup(ViewOrder(flagged))
    ensures DefaultView in flagged ==> ViewOrder(flagged)[0] == DefaultView
    ensures Drop(ViewOrder(flagged), {DefaultView}) == Drop(flagged, {DefaultView})
  {
    var p := {DefaultView};
    if DefaultView in flagged {
      var rest := Drop(flagged, p);
      DropAppend([DefaultView], rest, p);
      assert Drop([DefaultView], p) == [];
      DropDrop(flagged, p, p);
      assert p + p == p;
      if NoDup(flagged) {
        DropNoDup(flagged, p);
        NoDupConcat([DefaultView], rest);
      }
    }
  }

  /** The value `add_view` receives for group record `c`: `View.from_config(c)`, or
      None when that yields no view. */
  function ViewFor(reg: map<string, State>, ghost rank: map<string, nat>, c: State): Value
    requires WellFormed(reg) && ValidRank(reg, rank) && Known(reg, rank, c)
  {
    match FromConfig(reg, rank, View, c)
    case One(v) => v
    case _ => Null
  }

  /** `View.from_config` reaches `from_group_config` for a group record: its view
      is the titled view of its cards when its `view` attribute is true. */
  lemma GroupViewFor(reg: map<string, State>, rank: map<string, nat>, c: State)
    requires WellFormed(reg) && ValidRank(reg, rank) && Known(reg, rank, c) && IsGroup(c)
    ensures ViewFor(reg, rank, c) == GroupView(reg, rank, c)
    ensures Truthy(Get(c.attributes, "view")) ==> GroupView(reg, rank, c) == ViewNode(reg, rank, c).value
  {
    assert BuilderOf(View, Domain(c)) == Some(FromGroupView);
  }

  /** A group's view is a node, or None. */
  lemma GroupViewNode(reg: map<string, State>, rank: map<string, nat>, c: State)
    requires WellFormed(reg) && ValidRank(reg, rank) && Known(reg, rank, c) && IsGroup(c)
    ensures !ViewFor(reg, rank, c).List?
  {
    GroupViewFor(reg, rank, c);
  }

  /** The views of the group rows named by `ids`, in order. */
  ghost function GroupViews(reg: map<string, State>, rank: map<string, nat>, rows: map<string, State>,
                            ids: seq<string>): seq<Value>
    requires WellFormed(reg) && ValidRank(reg, rank)
    requires forall o :: o in rows ==> Registered(reg, rows[o]) && IsGroup(rows[o])
    requires forall o :: o in ids ==> o in rows && rows[o].entityId in rank
  {
    if ids == [] then []
    else
      var n := |ids| - 1;
      GroupViews(reg, rank, rows, ids[..n]) + [GroupView(reg, rank, rows[ids[n]])]
  }

  lemma {:induction false} GroupViewsLength(reg: map<string, State>, rank: map<string, nat>,
                                            rows: map<string, State>, ids: seq<string>)
    requires WellFormed(reg) && ValidRank(reg, rank)
    requires forall o :: o in rows ==> Registered(reg, rows[o]) && IsGroup(rows[o])
    requires forall o :: o in ids ==> o in rows && rows[o].entityId in rank
    ensures |GroupViews(reg, rank, rows, ids)| == |ids|
  {
    if ids != [] {
      GroupViewsLength(reg, rank, rows, ids[..|ids| - 1]);
    }
  }

  /** One view per id, the `k`-th for the `k`-th id. */
  lemma {:induction false} GroupViewsAt(reg: map<string, State>, rank: map<string, nat>,
                                        rows: map<string, State>, ids: seq<string>)
    requires WellFormed(reg) && ValidRank(reg, rank)
    requires forall o :: o in rows ==> Registered(reg, rows[o]) && IsGroup(rows[o])
    requires forall o :: o in ids ==> o in rows && rows[o].entityId in rank
    ensures |GroupViews(reg, rank, rows, ids)| == |ids|
    ensures forall k :: 0 <= k < |ids| ==> GroupViews(reg, rank, rows, ids)[k] == GroupView(reg, rank, rows[ids[k]])
  {
    if ids != [] {
      var n := |ids| - 1;
      var init := ids[..n];
      TakeIn(ids, n);
      GroupViewsAt(reg, rank, rows, init);
      GroupViewsLast(reg, rank, rows, ids);
      var front := GroupViews(reg, rank, rows, init);
      var last := GroupView(reg, rank, rows[ids[n]]);
      assert GroupViews(reg, rank, rows, ids) == front + [last];
      forall k | 0 <= k < |ids|
        ensures GroupViews(reg, rank, rows, ids)[k] == GroupView(reg, rank, rows[ids[k]])
      {
        if k < n {
          TakeAt(ids, n, k);
          SnocAt(front, last, k);
        } else {
          SnocLast(front, last);
        }
      }
    }
  }

  /** What repeated `add_item('views', v)` keeps of the values `vs`: all but the Nones. */
  function Present(vs: seq<Value>): seq<Value>
  {
    if vs == [] then []
    else Present(vs[..|vs| - 1]) + (if vs[|vs| - 1] == Null then [] else [vs[|vs| - 1]])
  }

  /** Without Nones, nothing is dropped. */
  lemma {:induction false} PresentAll(vs: seq<Value>)
    requires forall i :: 0 <= i < |vs| ==> vs[i] != Null
    ensures Present(vs) == vs
  {
    if vs != [] {
      var n := |vs| - 1;
      forall i | 0 <= i < n ensures vs[..n][i] != Null {
        TakeAt(vs, n, i);
      }
      PresentAll(vs[..n]);
      assert vs[..n] + [vs[n]] == vs;
    }
  }

  /** The document with title `title` and views `views`: its title, then its views
      when there are any. */
  function Doc(title: Option<string>, views: seq<Value>): Value
  {
    var t := Str(HomeTitle(title));
    if views == [] then Dict(["title"], map["title" := t])
    else Dict(["title", "views"], map["title" := t, "views" := List(views)])
  }

  /** The document `Lovelace(states, title)` builds. */
  ghost function Lovelace(reg: map<string, State>, rank: map<string, nat>, states: map<string, Table>,
                          title: Option<string>): Value
    requires WellFormed(reg) && ValidRank(reg, rank) && Indexed(reg, states) && Covers(rank, states)
  {
    GroupRows(reg, states);
    var groups := TableOf(states, "group");
    var ids := ViewOrder(Flagged(groups.order, groups.rows));
    ViewOrderProperties(Flagged(groups.order, groups.rows));
    Doc(title, Present(GroupViews(reg, rank, groups.rows, ids)))
  }

  /** Keys sort into `title`, `views` with the document template. */
  lemma DocKeys()
    ensures SortedKeys(DocOrder, ["title"]) == ["title"]
    ensures SortedKeys(DocOrder, ["title", "views"]) == ["title", "views"]
  {
    DocOrderDistinct();
    SortedSingleton(DocOrder, "title");
    DocBands();
    var ks: seq<Key> := ["title", "views"];
    var front: seq<Key> := ["title", "resources", "excluded_entities"];
    assert Elems(ks) == {"title", "views"};
    assert Placed(DocOrder) == {"title", "resources", "excluded_entities", "views"};
    assert Keep(front, Elems(ks)) == ["title"] by {
      assert Keep(front[2..], Elems(ks)) == [];
      assert Keep(front[1..], Elems(ks)) == [];
    }
    assert Keep(["views"], Elems(ks)) == ["views"];
    DropCovering(ks, Placed(DocOrder));
  }

  /** Adding a view (a non-list) to the document appends it to `views`, creating
      `views`, after `title`, on the first one. */
  lemma DocumentStep(title: Option<string>, views: seq<Value>, v: Value)
    requires v != Null && !v.List?
    ensures AddedItem(Some(DocOrder), Doc(title, views), "views", v) == Doc(title, views + [v])
  {
    if views == [] {
      FirstView(title, v);
    } else {
      NextView(title, views, v);
    }
  }

  lemma FirstView(title: Option<string>, v: Value)
    requires v != Null && !v.List?
    ensures AddedItem(Some(DocOrder), Doc(title, []), "views", v) == Doc(title, [v])
  {
    var node := Doc(title, []);
    FirstItem(Some(DocOrder), node, "views", v);
    assert node.keys + ["views"] == ["title", "views"];
    DocKeys();
  }

  /** `add_item` of a single item under a key the node lacks. */
  lemma FirstItem(ko: Option<seq<Key>>, node: Value, key: Key, item: Value)
    requires node.Dict? && key !in node.entries && item != Null && !item.List?
    ensures AddedItem(ko, node, key, item) == Dict(Arranged(ko, node.keys + [key]), node.entries[key := List([item])])
  {
    assert [] + [item] == [item];
  }

  lemma NextView(title: Option<string>, views: seq<Value>, v: Value)
    requires v != Null && !v.List? && views != []
    ensures AddedItem(Some(DocOrder), Doc(title, views), "views", v) == Doc(title, views + [v])
  {
    var t := Str(HomeTitle(title));
    var node := Doc(title, views);
    assert "views" in node.entries;
    assert node.entries["views"].items == views;
  }

  /** `add_view(view)`: `add_item('views', view)`. */
  method AddView(doc: LovelaceBase, view: Value)
    requires doc.Valid() && doc.keyOrder == Some(DocOrder)
    requires "views" in doc.values ==> doc.values["views"].List?
    modifies doc
    ensures doc.Valid() && doc.keyOrder == Some(DocOrder)
    ensures doc.Snapshot() == AddedItem(Some(DocOrder), old(doc.Snapshot()), "views", view)
  {
    DocOrderDistinct();
    doc.AddItem("views", view);
  }

  /** `add_resource(url)`, string branch: `add_item('resources', Resource(url=url))`. */
  method AddResource(doc: LovelaceBase, url: string)
    requires doc.Valid() && doc.keyOrder == Some(DocOrder)
    requires "resources" in doc.values ==> doc.values["resources"].List?
    modifies doc
    ensures doc.Valid() && doc.keyOrder == Some(DocOrder)
    ensures doc.Snapshot() == AddedItem(Some(DocOrder), old(doc.Snapshot()), "resources", New(Resource, [("url", Str(url))]))
  {
    var resource := NewNode(Resource, [("url", Str(url))]);
    DocOrderDistinct();
    doc.AddItem("resources", resource.Snapshot());
  }

  /** `Lovelace(states, title)`: the document is titled, then the view of
      `default_view` (when flagged) and those of the other flagged groups, in table
      order, are added. */
  method NewLovelace(reg: map<string, State>, ghost rank: map<string, nat>, states: map<string, Table>,
                     title: Option<string>)
    returns (doc: LovelaceBase)
    requires WellFormed(reg) && ValidRank(reg, rank) && Indexed(reg, states) && Covers(rank, states)
    ensures fresh(doc) && doc.Valid() && doc.keyOrder == Some(DocOrder)
    ensures doc.Snapshot() == Lovelace(reg, rank, states, title)
  {
    doc := TitledDocument(title);
    var groups := TableOf(states, "group");
    GroupRows(reg, states);
    var views := Flagged(groups.order, groups.rows);
    AddFlaggedViews(doc, reg, rank, groups.rows, title, views);
  }

  /** `ViewOrder` as the loop of `Lovelace.__init__` walks it: `default_view`, when
      present, and then the rest. */
  lemma ViewOrderSplit(flagged: seq<string>)
    ensures ViewOrder(flagged) == (if DefaultView in flagged then [DefaultView] else []) + Drop(flagged, {DefaultView})
  {
    if DefaultView !in flagged {
      DropDisjoint(flagged, {DefaultView});
      assert [] + flagged == flagged;
    }
  }

  /** The view-adding part of `Lovelace.__init__`, over the flagged ids `views`. */
  method AddFlaggedViews(doc: LovelaceBase, reg: map<string, State>, ghost rank: map<string, nat>,
                         rows: map<string, State>, ghost title: Option<string>, views: seq<string>)
    requires WellFormed(reg) && ValidRank(reg, rank)
    requires forall o :: o in rows ==> Registered(reg, rows[o]) && IsGroup(rows[o])
    requires forall o :: o in views ==> o in rows && rows[o].entityId in rank
    requires doc.Valid() && doc.keyOrder == Some(DocOrder) && doc.Snapshot() == Doc(title, [])
    modifies doc
    ensures doc.Valid() && doc.keyOrder == Some(DocOrder)
    ensures forall o :: o in ViewOrder(views) ==> o in rows && rows[o].entityId in rank
    ensures doc.Snapshot() == Doc(title, Present(GroupViews(reg, rank, rows, ViewOrder(views))))
  {
    SplitViews(reg, rank, rows, views);
    AddDefaultView(doc, reg, rank, rows, title, views);
    var rest := Drop(views, {DefaultView});
    AddRemainingViews(doc, reg, rank, rows, title, Present(GroupViews(reg, rank, rows, Leading(views))), rest);
  }

  /** `[default_view]` when it is flagged, else nothing. */
  function Leading(views: seq<string>): (r: seq<string>)
    ensures forall o :: o in r ==> o in views && o == DefaultView
  {
    if DefaultView in views then [DefaultView] else []
  }

  /** `if 'default_view' in views: self.add_view(View.from_config(views.pop('default_view')))`. */
  method AddDefaultView(doc: LovelaceBase, reg: map<string, State>, ghost rank: map<string, nat>,
                        rows: map<string, State>, ghost title: Option<string>, views: seq<string>)
    requires WellFormed(reg) && ValidRank(reg, rank)
    requires forall o :: o in rows ==> Registered(reg, rows[o]) && IsGroup(rows[o])
    requires forall o :: o in views ==> o in rows && rows[o].entityId in rank
    requires Shaped(doc, title, [])
    modifies doc
    ensures Shaped(doc, title, Present(GroupViews(reg, rank, rows, Leading(views))))
  {
    if DefaultView in views {
      var view := ViewFor(reg, rank, rows[DefaultView]);
      GroupViewNode(reg, rank, rows[DefaultView]);
      AddDocView(doc, title, [], view);
      LeadingViews(reg, rank, rows, views);
    } else {
      NoLeadingViews(reg, rank, rows, views);
    }
  }

  lemma LeadingViews(reg: map<string, State>, rank: map<string, nat>, rows: map<string, State>,
                     views: seq<string>)
    requires WellFormed(reg) && ValidRank(reg, rank)
    requires forall o :: o in rows ==> Registered(reg, rows[o]) && IsGroup(rows[o])
    requires DefaultView in views && DefaultView in rows && rows[DefaultView].entityId in rank
    ensures var v := ViewFor(reg, rank, rows[DefaultView]);
      [] + (if v == Null then [] else [v]) == Present(GroupViews(reg, rank, rows, Leading(views)))
  {
    var first := [DefaultView];
    NextViews(reg, rank, rows, [], first, 0);
    assert first[..0] == [] && first[..1] == first;
  }

  lemma NoLeadingViews(reg: map<string, State>, rank: map<string, nat>, rows: map<string, State>,
                       views: seq<string>)
    requires WellFormed(reg) && ValidRank(reg, rank)
    requires forall o :: o in rows ==> Registered(reg, rows[o]) && IsGroup(rows[o])
    requires DefaultView !in views
    ensures Present(GroupViews(reg, rank, rows, Leading(views))) == []
  {
  }

  /** The views `Lovelace.__init__` adds in its two steps, the default view's and
      then the others', are those of the view order. */
  lemma SplitViews(reg: map<string, State>, rank: map<string, nat>, rows: map<string, State>,
                   views: seq<string>)
    requires WellFormed(reg) && ValidRank(reg, rank)
    requires forall o :: o in rows ==> Registered(reg, rows[o]) && IsGroup(rows[o])
    requires forall o :: o in views ==> o in rows && rows[o].entityId in rank
    ensures forall o :: o in ViewOrder(views) ==> o in rows && rows[o].entityId in rank
    ensures var first := Leading(views);
      var rest := Drop(views, {DefaultView});
      && (forall o :: o in first ==> o in rows && rows[o].entityId in rank) && (forall o :: o in rest ==> o in rows && rows[o].entityId in rank)
      && Present(GroupViews(reg, rank, rows, first)) + Present(GroupViews(reg, rank, rows, rest))
         == Present(GroupViews(reg, rank, rows, ViewOrder(views)))
  {
    ViewOrderProperties(views);
    ViewOrderSplit(views);
    ViewsAppend(reg, rank, rows, Leading(views), Drop(views, {DefaultView}));
  }

  /** `doc` is a document node holding the given title and views. */
  ghost predicate Shaped(doc: LovelaceBase, title: Option<string>, views: seq<Value>)
    reads doc
  {
    doc.Valid() && doc.keyOrder == Some(DocOrder) && doc.Snapshot() == Doc(title, views)
  }

  /** `LovelaceBase.__init__` under the document template with no arguments: the
      empty node. */
  method EmptyDocument() returns (doc: LovelaceBase)
    ensures fresh(doc) && doc.Valid() && doc.keyOrder == Some(DocOrder)
    ensures doc.keys == [] && doc.values == map[]
  {
    DocOrderDistinct();
    doc := new LovelaceBase(None, DocOrder, []);
    EmptyNode(DocOrder);
  }

  /** The first steps of `Lovelace.__init__`: the empty node with the document
      template, then `self['title'] = title or "Home"`. */
  method TitledDocument(title: Option<string>) returns (doc: LovelaceBase)
    ensures fresh(doc) && doc.Valid() && doc.keyOrder == Some(DocOrder)
    ensures doc.Snapshot() == Doc(title, [])
  {
    doc := EmptyDocument();
    DocOrderDistinct();
    TitledNode([], map[], title);
    doc.SetItem("title", Str(HomeTitle(title)));
  }

  /** A template with no keyword arguments and no tag builds the empty node. */
  lemma EmptyNode(t: seq<Key>)
    ensures Construct(None, t, []) == Dict([], map[])
  {
    SortedEmpty(t);
    var none: seq<Key> := [];
    assert KeysAfter(none, []) == none;
    assert Updated(map[], []) == map[];
    assert Drop(none, NullKeys(map[])) == none;
    assert WithoutNulls(map[]) == map[];
  }

  /** Setting the title in the empty node under the document template. */
  lemma TitledNode(k0: seq<Key>, v0: map<Key, Value>, title: Option<string>)
    requires Dict(k0, v0) == Dict([], map[])
    ensures "title" !in v0
    ensures Dict(Arranged(Some(DocOrder), k0 + ["title"]), v0["title" := Str(HomeTitle(title))]) == Doc(title, [])
  {
    assert k0 + ["title"] == ["title"];
    DocKeys();
  }

  /** `add_view(view)` on a document of the shape `Lovelace` builds. */
  method AddDocView(doc: LovelaceBase, ghost title: Option<string>, ghost views: seq<Value>, view: Value)
    requires doc.Valid() && doc.keyOrder == Some(DocOrder) && doc.Snapshot() == Doc(title, views)
    requires !view.List?
    modifies doc
    ensures doc.Valid() && doc.keyOrder == Some(DocOrder)
    ensures doc.Snapshot() == Doc(title, views + if view == Null then [] else [view])
  {
    AddView(doc, view);
    if view != Null {
      DocumentStep(title, views, view);
    } else {
      assert views + [] == views;
    }
  }

  /** Every flagged group yields its view, titled after the group: none is dropped. */
  lemma FlaggedViews(reg: map<string, State>, rank: map<string, nat>, rows: map<string, State>, ids: seq<string>)
    requires WellFormed(reg) && ValidRank(reg, rank)
    requires forall o :: o in rows ==> Registered(reg, rows[o]) && IsGroup(rows[o])
    requires forall o :: o in ids ==> o in rows && rows[o].entityId in rank && Truthy(Get(rows[o].attributes, "view"))
    ensures |GroupViews(reg, rank, rows, ids)| == |ids|
    ensures var vs := GroupViews(reg, rank, rows, ids);
      forall i :: 0 <= i < |ids| ==>
        && vs[i] == ViewNode(reg, rank, rows[ids[i]]).value && vs[i].Dict?
        && Field(vs[i], "title") == FriendlyName(rows[ids[i]])
  {
    var vs := GroupViews(reg, rank, rows, ids);
    GroupViewsAt(reg, rank, rows, ids);
    forall i | 0 <= i < |ids|
      ensures vs[i] == ViewNode(reg, rank, rows[ids[i]]).value && vs[i].Dict?
      ensures Field(vs[i], "title") == FriendlyName(rows[ids[i]])
    {
      var c := rows[ids[i]];
      GroupViewFor(reg, rank, c);
      ViewWithFields(c, ViewCards(reg, rank, c));
    }
  }

  /** The document's views are those of the flagged groups in view order, one each:
      `add_item` never meets a None. */
  lemma LovelaceViews(reg: map<string, State>, rank: map<string, nat>, states: map<string, Table>,
                      title: Option<string>)
    requires WellFormed(reg) && ValidRank(reg, rank) && Indexed(reg, states) && Covers(rank, states)
    ensures var groups := TableOf(states, "group");
      var ids := ViewOrder(Flagged(groups.order, groups.rows));
      && (forall o :: o in groups.rows ==> Registered(reg, groups.rows[o]) && IsGroup(groups.rows[o]))
      && (forall o :: o in ids ==> o in groups.rows && groups.rows[o].entityId in rank)
      && Lovelace(reg, rank, states, title) == Doc(title, GroupViews(reg, rank, groups.rows, ids))
  {
    GroupRows(reg, states);
    var groups := TableOf(states, "group");
    var flagged := Flagged(groups.order, groups.rows);
    var ids := ViewOrder(flagged);
    ViewOrderProperties(flagged);
    forall o | o in ids ensures o in groups.rows && Truthy(Get(groups.rows[o].attributes, "view")) {
      assert o in flagged;
    }
    FlaggedViews(reg, rank, groups.rows, ids);
    PresentAll(GroupViews(reg, rank, groups.rows, ids));
  }

  /** The loop of `Lovelace.__init__` over the flagged ids `rest`: each adds the view
      of its group row, after the views `pre` already in the document. */
  method AddRemainingViews(doc: LovelaceBase, reg: map<string, State>, ghost rank: map<string, nat>,
                           rows: map<string, State>, ghost title: Option<string>, ghost pre: seq<Value>,
                           rest: seq<string>)
    requires WellFormed(reg) && ValidRank(reg, rank)
    requires forall o :: o in rows ==> Registered(reg, rows[o]) && IsGroup(rows[o])
    requires forall o :: o in rest ==> o in rows && rows[o].entityId in rank
    requires Shaped(doc, title, pre)
    modifies doc
    ensures Shaped(doc, title, pre + Present(GroupViews(reg, rank, rows, rest)))
  {
    assert pre + Present(GroupViews(reg, rank, rows, rest[..0])) == pre;
    for i := 0 to |rest|
      invariant Shaped(doc, title, pre + Present(GroupViews(reg, rank, rows, rest[..i])))
    {
      AddGroupView(doc, reg, rank, rows, title, pre, rest, i);
    }
    assert rest[..|rest|] == rest;
  }

  /** The loop body of `Lovelace.__init__`: `self.add_view(View.from_config(view))`
      for the `i`-th id of `rest`. */
  method AddGroupView(doc: LovelaceBase, reg: map<string, State>, ghost rank: map<string, nat>,
                      rows: map<string, State>, ghost title: Option<string>, ghost pre: seq<Value>,
                      rest: seq<string>, i: nat)
    requires WellFormed(reg) && ValidRank(reg, rank)
    requires forall o :: o in rows ==> Registered(reg, rows[o]) && IsGroup(rows[o])
    requires forall o :: o in rest ==> o in rows && rows[o].entityId in rank
    requires i < |rest|
    requires Shaped(doc, title, pre + Present(GroupViews(reg, rank, rows, rest[..i])))
    modifies doc
    ensures Shaped(doc, title, pre + Present(GroupViews(reg, rank, rows, rest[..i + 1])))
  {
    var view := ViewFor(reg, rank, rows[rest[i]]);
    GroupViewNode(reg, rank, rows[rest[i]]);
    AddDocView(doc, title, pre + Present(GroupViews(reg, rank, rows, rest[..i])), view);
    NextViews(reg, rank, rows, pre, rest, i);
  }

  /** One more id adds its row's view, unless that is None. */
  lemma NextViews(reg: map<string, State>, rank: map<string, nat>, rows: map<string, State>,
                  pre: seq<Value>, rest: seq<string>, i: nat)
    requires WellFormed(reg) && ValidRank(reg, rank)
    requires forall o :: o in rows ==> Registered(reg, rows[o]) && IsGroup(rows[o])
    requires forall o :: o in rest ==> o in rows && rows[o].entityId in rank
    requires i < |rest|
    ensures var view := ViewFor(reg, rank, rows[rest[i]]);
      pre + Present(GroupViews(reg, rank, rows, rest[..i])) + (if view == Null then [] else [view])
      == pre + Present(GroupViews(reg, rank, rows, rest[..i + 1]))
  {
    var view := ViewFor(reg, rank, rows[rest[i]]);
    GroupViewFor(reg, rank, rows[rest[i]]);
    GroupViewsSnoc(reg, rank, rows, rest, i);
    PresentSnoc(pre, GroupViews(reg, rank, rows, rest[..i]), view);
  }

  /** The views of the first `i + 1` ids: those of the first `i`, then the next one's. */
  lemma GroupViewsSnoc(reg: map<string, State>, rank: map<string, nat>, rows: map<string, State>,
                       ids: seq<string>, i: nat)
    requires WellFormed(reg) && ValidRank(reg, rank)
    requires forall o :: o in rows ==> Registered(reg, rows[o]) && IsGroup(rows[o])
    requires forall o :: o in ids ==> o in rows && rows[o].entityId in rank
    requires i < |ids|
    ensures GroupViews(reg, rank, rows, ids[..i + 1])
      == GroupViews(reg, rank, rows, ids[..i]) + [GroupView(reg, rank, rows[ids[i]])]
  {
    assert ids[..i + 1][..i] == ids[..i];
  }

  /** The kept views of two lists of ids, one after the other, are those of the
      joined list. */
  lemma ViewsAppend(reg: map<string, State>, rank: map<string, nat>,
                    rows: map<string, State>, a: seq<string>, b: seq<string>)
    requires WellFormed(reg) && ValidRank(reg, rank)
    requires forall o :: o in rows ==> Registered(reg, rows[o]) && IsGroup(rows[o])
    requires forall o :: o in a ==> o in rows && rows[o].entityId in rank
    requires forall o :: o in b ==> o in rows && rows[o].entityId in rank
    ensures Present(GroupViews(reg, rank, rows, a)) + Present(GroupViews(reg, rank, rows, b))
      == Present(GroupViews(reg, rank, rows, a + b))
  {
    GroupViewsAppend(reg, rank, rows, a, b);
    PresentAppend(GroupViews(reg, rank, rows, a), GroupViews(reg, rank, rows, b));
  }

  lemma {:induction false} GroupViewsAppend(reg: map<string, State>, rank: map<string, nat>,
                                            rows: map<string, State>, a: seq<string>, b: seq<string>)
    requires WellFormed(reg) && ValidRank(reg, rank)
    requires forall o :: o in rows ==> Registered(reg, rows[o]) && IsGroup(rows[o])
    requires forall o :: o in a ==> o in rows && rows[o].entityId in rank
    requires forall o :: o in b ==> o in rows && rows[o].entityId in rank
    ensures GroupViews(reg, rank, rows, a + b) == GroupViews(reg, rank, rows, a) + GroupViews(reg, rank, rows, b)
  {
    if b == [] {
      assert a + b == a;
    } else {
      var n := |b| - 1;
      GroupViewsAppend(reg, rank, rows, a, b[..n]);
      AppendLast(a, b);
      var v := GroupView(reg, rank, rows[b[n]]);
      GroupViewsLast(reg, rank, rows, a + b);
      GroupViewsLast(reg, rank, rows, b);
      AppendAssoc(GroupViews(reg, rank, rows, a), GroupViews(reg, rank, rows, b[..n]), [v]);
    }
  }

  lemma GroupViewsLast(reg: map<string, State>, rank: map<string, nat>, rows: map<string, State>,
                       ids: seq<string>)
    requires WellFormed(reg) && ValidRank(reg, rank)
    requires forall o :: o in rows ==> Registered(reg, rows[o]) && IsGroup(rows[o])
    requires forall o :: o in ids ==> o in rows && rows[o].entityId in rank
    requires ids != []
    ensures GroupViews(reg, rank, rows, ids)
      == GroupViews(reg, rank, rows, ids[..|ids| - 1]) + [GroupView(reg, rank, rows[ids[|ids| - 1]])]
  {
  }

  /** Dropping the Nones of two lists, one after the other. */
  lemma {:induction false} PresentAppend(a: seq<Value>, b: seq<Value>)
    ensures Present(a + b) == Present(a) + Present(b)
  {
    if b == [] {
      assert a + b == a;
    } else {
      var n := |b| - 1;
      PresentAppend(a, b[..n]);
      assert (a + b)[..|a| + n] == a + b[..n];
      assert (a + b)[|a| + n] == b[n];
    }
  }

  /** Adding `v` after the views present in `vs` (behind `pre`) gives those of `vs + [v]`. */
  lemma PresentSnoc(pre: seq<Value>, vs: seq<Value>, v: Value)
    ensures pre + Present(vs) + (if v == Null then [] else [v]) == pre + Present(vs + [v])
  {
    assert (vs + [v])[..|vs|] == vs;
  }
}
