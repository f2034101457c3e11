/** The loops of `EntitiesCard.from_group_config` and `View.from_group_config`,
    proved against the group resolver of `Cards`, and what that resolver promises:
    missing members are skipped, cardless members are collected in encounter order,
    and every other member's cards follow in encounter order. */
module Groups {
  import opened Json
  import opened Seqs
  import opened OrderedNode
  import opened Naming
  import opened Cards

  /** The members of a group, visited in order, with the cards and the cardless ids
      collected so far (the loop both `from_group_config` methods share). */
  method CollectMembers(reg: map<string, State>, ghost rank: map<string, nat>, g: State)
    returns (cards: seq<Value>, nocards: seq<string>)
    requires WellFormed(reg) && ValidRank(reg, rank) && Known(reg, rank, g) && IsGroup(g)
    ensures cards == Extra(MemberResolutions(reg, rank, g))
    ensures nocards == Cardless(MemberResolutions(reg, rank, g))
  {
    ghost var rs := MemberResolutions(reg, rank, g);
    cards, nocards := [], [];
    for i := 0 to |Members(g.attributes)|
      invariant cards == Extra(rs[..i])
      invariant nocards == Cardless(rs[..i])
    {
      VisitStep(rs, i);
      cards, nocards := Visit(reg, rank, g, i, cards, nocards);
    }
    assert rs[..|rs|] == rs;
  }

  /** One pass of the loop: member `i` is looked up and, when found, converted. */
  method Visit(reg: map<string, State>, ghost rank: map<string, nat>, g: State, i: nat,
               cards: seq<Value>, nocards: seq<string>)
    returns (cards': seq<Value>, nocards': seq<string>)
    requires WellFormed(reg) && ValidRank(reg, rank) && Known(reg, rank, g) && IsGroup(g)
    requires i < |Members(g.attributes)|
    ensures var r := MemberResolutions(reg, rank, g)[i];
      cards' == cards + Contributed(r) && nocards' == nocards + CardlessId(r)
  {
    MemberResolved(reg, rank, g, i);
    ghost var r := MemberResolutions(reg, rank, g)[i];
    var entityId := Members(g.attributes)[i];
    cards', nocards' := cards, nocards;
    if entityId.Str? && entityId.s in reg {
      var card := CardFromConfig(reg, rank, Some(reg[entityId.s]));
      assert r == Resolved(entityId.s, card);
      cards', nocards' := Absorb(cards, nocards, entityId.s, card);
    } else {
      assert r == Missing;
    }
  }

  /** The branch on what `Card.from_config` returned for found member `id`: a list
      extends `cards`, a card is appended to it, and None records `id` as cardless. */
  method Absorb(cards: seq<Value>, nocards: seq<string>, id: string, card: Conversion)
    returns (cards': seq<Value>, nocards': seq<string>)
    ensures cards' == cards + Contributed(Resolved(id, card))
    ensures nocards' == nocards + CardlessId(Resolved(id, card))
  {
    cards', nocards' := cards, nocards;
    match card
    case Many(cs) => cards' := cards + cs;
    case One(c) => cards' := cards + [c];
    case Nothing => nocards' := nocards + [id];
  }

  /** Handling one more resolution extends the cards by what it contributes and the
      cardless ids by its id when it yields no card. */
  lemma VisitStep(rs: seq<Resolution>, i: nat)
    requires i < |rs|
    ensures Extra(rs[..i + 1]) == Extra(rs[..i]) + Contributed(rs[i])
    ensures Cardless(rs[..i + 1]) == Cardless(rs[..i]) + CardlessId(rs[i])
  {
    assert rs[..i + 1][..i] == rs[..i];
  }

  /** `EntitiesCard.from_group_config(group)`. */
  method EntitiesCardFromGroupConfig(reg: map<string, State>, ghost rank: map<string, nat>, g: State)
    returns (r: seq<Value>)
    requires WellFormed(reg) && ValidRank(reg, rank) && Known(reg, rank, g) && IsGroup(g)
    ensures r == GroupCards(reg, rank, g)
  {
    var cards, nocards := CollectMembers(reg, rank, g);
    if |nocards| > 0 {
      var primary := NewNode(EntitiesCard, PrimaryArgs(g, nocards));
      r := [primary.Snapshot()] + cards;
    } else {
      r := cards;
    }
  }

  /** The `cards` list `View.from_group_config` builds before adding it to the view. */
  method ViewCardsOf(reg: map<string, State>, ghost rank: map<string, nat>, g: State)
    returns (cards: seq<Value>)
    requires WellFormed(reg) && ValidRank(reg, rank) && Known(reg, rank, g) && IsGroup(g)
    ensures cards == ViewCards(reg, rank, g)
  {
    var nocards;
    cards, nocards := CollectMembers(reg, rank, g);
    if |nocards| > 0 {
      var card := NewNode(EntitiesCard, UntitledArgs(nocards));
      cards := [card.Snapshot()] + cards;
    }
  }

  /** `View.from_group_config(group)`. */
  method ViewFromGroupConfig(reg: map<string, State>, ghost rank: map<string, nat>, g: State)
    returns (r: Option<Value>)
    requires WellFormed(reg) && ValidRank(reg, rank) && Known(reg, rank, g) && IsGroup(g)
    ensures r == ViewNode(reg, rank, g)
  {
    if !Truthy(Get(g.attributes, "view")) {
      return None;
    }
    var view := NewNode(View, ViewArgs(g));
    var cards := ViewCardsOf(reg, rank, g);
    ViewHeadOpen(g);
    AddCard(view, ViewHead(g), List(cards));
    r := Some(view.Snapshot());
  }

  /** `view.add_card(card)` on a view node `head` that has no `cards` yet. */
  method AddCard(view: LovelaceBase, ghost head: Value, card: Value)
    requires view.Valid() && view.keyOrder == Some(KeyOrder(View)) && view.Snapshot() == head
    requires head.Dict? && "cards" !in head.entries
    modifies view
    ensures view.Valid() && view.Snapshot() == AddedItem(Some(KeyOrder(View)), head, "cards", card)
  {
    KeyOrderDistinct(View);
    view.AddItem("cards", card);
  }

  /** The view's template names no key twice, and its head has no `cards` yet. */
  lemma ViewHeadOpen(g: State)
    requires '.' in g.entityId
    ensures NoDup(KeyOrder(View)) && "cards" !in ViewHead(g).entries
  {
    KeyOrderDistinct(View);
  }

  /** Encounter order: the cards of `a + b` are those of `a` followed by those of `b`. */
  lemma {:induction false} ExtraAppend(a: seq<Resolution>, b: seq<Resolution>)
    ensures Extra(a + b) == Extra(a) + Extra(b)
  {
    if b != [] {
      var n := |b| - 1;
      ExtraAppend(a, b[..n]);
      assert (a + b)[..|a + b| - 1] == a + b[..n];
      AppendAssoc(Extra(a), Extra(b[..n]), Contributed(b[n]));
    } else {
      assert a + b == a;
    }
  }

  /** Encounter order: the cardless ids of `a + b` are those of `a` followed by those
      of `b`. */
  lemma {:induction false} CardlessAppend(a: seq<Resolution>, b: seq<Resolution>)
    ensures Cardless(a + b) == Cardless(a) + Cardless(b)
  {
    if b != [] {
      var n := |b| - 1;
      CardlessAppend(a, b[..n]);
      assert (a + b)[..|a + b| - 1] == a + b[..n];
      AppendAssoc(Cardless(a), Cardless(b[..n]), CardlessId(b[n]));
    } else {
      assert a + b == a;
    }
  }

  /** A member the registry lacks is skipped: the cards and the cardless ids are those
      of the members before it followed by those of the members after it. */
  lemma Skipped(rs: seq<Resolution>, k: nat)
    requires k < |rs| && rs[k] == Missing
    ensures Extra(rs) == Extra(rs[..k]) + Extra(rs[k + 1..])
    ensures Cardless(rs) == Cardless(rs[..k]) + Cardless(rs[k + 1..])
  {
    var front, back := rs[..k], rs[k + 1..];
    SplitAt(rs, k);
    ExtraAppend(front + [Missing], back);
    CardlessAppend(front + [Missing], back);
    SkipOne(front);
  }

  /** A `Missing` member at the end adds nothing. */
  lemma SkipOne(front: seq<Resolution>)
    ensures Extra(front + [Missing]) == Extra(front)
    ensures Cardless(front + [Missing]) == Cardless(front)
  {
    var mid := front + [Missing];
    assert mid[..|mid| - 1] == front;
  }

  /** The cardless ids are exactly the ids resolved to no card. */
  lemma {:induction false} CardlessIds(rs: seq<Resolution>, id: string)
    ensures id in Cardless(rs) <==> Resolved(id, Nothing) in rs
  {
    if rs != [] {
      var n := |rs| - 1;
      CardlessIds(rs[..n], id);
      assert rs == rs[..n] + [rs[n]];
    }
  }

  /** Of a group's members, those found in the registry whose record `Card.from_config`
      turns into no card are exactly the cardless ids; a missing member resolves to
      `Missing`. */
  lemma CardlessMembers(reg: map<string, State>, rank: map<string, nat>, g: State, id: string)
    requires WellFormed(reg) && ValidRank(reg, rank) && Known(reg, rank, g) && IsGroup(g)
    ensures id in Cardless(MemberResolutions(reg, rank, g))
      <==> && Str(id) in Members(g.attributes) && id in reg
           && (MemberRank(reg, rank, g, Str(id)); CardFromConfig(reg, rank, Some(reg[id])) == Nothing)
  {
    var ms := Members(g.attributes);
    var rs := MemberResolutions(reg, rank, g);
    CardlessIds(rs, id);
    if Resolved(id, Nothing) in rs {
      var i :| 0 <= i < |rs| && rs[i] == Resolved(id, Nothing);
      assert ms[i] == Str(id);
    }
    if Str(id) in ms && id in reg {
      MemberRank(reg, rank, g, Str(id));
      if CardFromConfig(reg, rank, Some(reg[id])) == Nothing {
        var i :| 0 <= i < |ms| && ms[i] == Str(id);
        assert rs[i] == Resolved(id, Nothing);
      }
    }
  }

  /** Each member resolves in turn: a member the registry lacks to `Missing`, a found
      one to what `Card.from_config` makes of its record. */
  lemma MemberResolved(reg: map<string, State>, rank: map<string, nat>, g: State, i: nat)
    requires WellFormed(reg) && ValidRank(reg, rank) && Known(reg, rank, g) && IsGroup(g)
    requires i < |Members(g.attributes)|
    ensures var m := Members(g.attributes)[i]; var rs := MemberResolutions(reg, rank, g);
      && |rs| == |Members(g.attributes)|
      && (!(m.Str? && m.s in reg) ==> rs[i] == Missing)
      && (m.Str? && m.s in reg ==> rs[i] == Resolved(m.s, CardFromConfig(reg, rank, Some(reg[m.s]))))
  {
  }

  /** `EntitiesCard.from_group_config`: with cardless members, the primary card,
      titled after the group, with the header toggle unless `control` is `hidden`
      and listing the cardless ids, comes first and the other cards follow; without
      them, only the other cards (possibly none). */
  lemma GroupCardsShape(reg: map<string, State>, rank: map<string, nat>, g: State)
    requires WellFormed(reg) && ValidRank(reg, rank) && Known(reg, rank, g) && IsGroup(g)
    ensures var rs := MemberResolutions(reg, rank, g);
      var cardless := Cardless(rs);
      var extra := Extra(rs);
      var r := GroupCards(reg, rank, g);
      && (cardless == [] ==> r == extra)
      && (cardless != [] ==>
            && |r| == |extra| + 1 && r[1..] == extra
            && Field(r[0], "type") == Str("entities")
            && Field(r[0], "title") == FriendlyName(g)
            && Field(r[0], "show_header_toggle") == Bool(Get(g.attributes, "control") != Str("hidden"))
            && Field(r[0], "entities") == List(Strs(cardless)))
  {
    var rs := MemberResolutions(reg, rank, g);
    var cardless := Cardless(rs);
    if cardless != [] {
      var r := GroupCards(reg, rank, g);
      assert r == [PrimaryCard(g, cardless)] + Extra(rs);
    }
  }

  /** A view's `cards`: with cardless members, an untitled entities card listing
      them comes first and the other cards follow; without them, only the other
      cards. The view always has `cards`, even an empty list. */
  lemma ViewNodeShape(reg: map<string, State>, rank: map<string, nat>, g: State)
    requires WellFormed(reg) && ValidRank(reg, rank) && Known(reg, rank, g) && IsGroup(g)
    requires Truthy(Get(g.attributes, "view"))
    ensures var rs := MemberResolutions(reg, rank, g);
      var cardless := Cardless(rs);
      var extra := Extra(rs);
      var v := ViewNode(reg, rank, g).value;
      && Field(v, "title") == FriendlyName(g) && Field(v, "icon") == Get(g.attributes, "icon")
      && Field(v, "cards").List?
      && var cards := Field(v, "cards").items;
      && (cardless == [] ==> cards == extra)
      && (cardless != [] ==>
            && |cards| == |extra| + 1 && cards[1..] == extra
            && Field(cards[0], "title") == Null
            && Field(cards[0], "type") == Str("entities")
            && Field(cards[0], "entities") == List(Strs(cardless)))
  {
    var rs := MemberResolutions(reg, rank, g);
    var cards := ViewCards(reg, rank, g);
    assert ViewNode(reg, rank, g).value == ViewWith(g, cards);
    CardsShape(g, rs, cards);
  }

  lemma CardsShape(g: State, rs: seq<Resolution>, cards: seq<Value>)
    requires '.' in g.entityId
    requires cards == if Cardless(rs) != [] then [UntitledCard(Cardless(rs))] + Extra(rs) else Extra(rs)
    ensures var cardless := Cardless(rs);
      var extra := Extra(rs);
      var v := ViewWith(g, cards);
      && Field(v, "title") == FriendlyName(g) && Field(v, "icon") == Get(g.attributes, "icon")
      && Field(v, "cards").List?
      && var cards := Field(v, "cards").items;
      && (cardless == [] ==> cards == extra)
      && (cardless != [] ==>
            && |cards| == |extra| + 1 && cards[1..] == extra
            && Field(cards[0], "title") == Null
            && Field(cards[0], "type") == Str("entities")
            && Field(cards[0], "entities") == List(Strs(cardless)))
  {
    ViewWithFields(g, cards);
  }
}
