/** The node classes of `Lovelace` with their templates, the `CARD_DOMAINS`
    dispatch, the `from_<domain>_config` builders, and the group resolver that
    `EntitiesCard.from_group_config` and `View.from_group_config` share. */
module Cards {
  import opened Json
  import opened Seqs
  import opened OrderedNode
  import opened Naming

  /** The `LovelaceBase` subclasses that are built from keyword arguments. */
  datatype NodeClass =
    | View | Entity | Resource
    | EntitiesCard | EntityFilterCard | GlanceCard | HistoryGraphCard
    | HorizontalStackCard | IframeCard | MapCard | MarkdownCard | MediaControlCard
    | PictureCard | PictureElementsCard | PictureEntityCard | PictureGlanceCard
    | PlantStatusCard | VerticalStackCard | WeatherForecastCard

  /** The `type` a card class presets in its constructor; views, entities and
      resources have none. */
  function TypeTag(cls: NodeClass): Option<string>
  {
    match cls
    case View => None
    case Entity => None
    case Resource => None
    case EntitiesCard => Some("entities")
    case EntityFilterCard => Some("entity-filter")
    case GlanceCard => Some("glance")
    case HistoryGraphCard => Some("history-graph")
    case HorizontalStackCard => Some("horizontal-stack")
    case IframeCard => Some("iframe")
    case MapCard => Some("map")
    case MarkdownCard => Some("markdown")
    case MediaControlCard => Some("media-control")
    case PictureCard => Some("picture")
    case PictureElementsCard => Some("picture-elements")
    case PictureEntityCard => Some("picture-entity")
    case PictureGlanceCard => Some("picture-glance")
    case PlantStatusCard => Some("plant-status")
    case VerticalStackCard => Some("vertical-stack")
    case WeatherForecastCard => Some("weather-forecast")
  }

  /** The `key_order` template a class sets. */
  function KeyOrder(cls: NodeClass): seq<Key>
  {
    match cls
    case View => ["title", "id", "icon", "panel", "theme", "...", "cards"]
    case Entity => ["entity", "name"]
    case Resource => ["url", "type"]
    case EntitiesCard => ["type", "title", "show_header_toggle", "...", "entities"]
    case EntityFilterCard => ["type", "entities", "state_filter", "card", "show_empty"]
    case GlanceCard => ["type", "title", "...", "entities"]
    case HistoryGraphCard => ["type", "title", "hours_to_show", "refresh_interval", "...", "entities"]
    case HorizontalStackCard => ["type", "...", "cards"]
    case IframeCard => ["type", "title", "url", "aspect_ratio"]
    case MapCard => ["type", "title", "aspect_ratio", "...", "entities"]
    case MarkdownCard => ["type", "title", "...", "content"]
    case MediaControlCard => ["type", "entity"]
    case PictureCard => ["type", "image", "navigation_path", "service", "service_data"]
    case PictureElementsCard => ["type", "title", "image", "elements"]
    case PictureEntityCard =>
      ["type", "title", "entity", "camera_image", "image", "state_image", "show_info", "tap_action"]
    case PictureGlanceCard => ["type", "title", "...", "entities"]
    case PlantStatusCard => ["type", "entity"]
    case VerticalStackCard => ["type", "...", "cards"]
    case WeatherForecastCard => ["type", "entity"]
  }

  /** No template names a key twice. */
  lemma KeyOrderDistinct(cls: NodeClass)
    ensures NoDup(KeyOrder(cls))
  {
  }

  /** The keyword arguments a class passes on to `LovelaceBase.__init__`:
      `Resource` adds `type='js'` unless the caller gave a `type`. */
  function Arguments(cls: NodeClass, kwargs: seq<(Key, Value)>): (r: seq<(Key, Value)>)
    ensures cls != Resource || "type" in Names(kwargs) ==> r == kwargs
    ensures cls == Resource && "type" !in Names(kwargs) ==> r == kwargs + [("type", Str("js"))]
  {
    if cls == Resource && "type" !in Names(kwargs) then kwargs + [("type", Str("js"))] else kwargs
  }

  /** `cls(**kwargs)`: the node the class's constructor builds. */
  function New(cls: NodeClass, kwargs: seq<(Key, Value)>): (r: Value)
    ensures r.Dict? && NoDup(r.keys) && (forall k :: k in r.keys <==> k in r.entries)
    ensures forall k :: k in r.entries ==> r.entries[k] != Null
    ensures forall k :: k in r.entries ==> k in Names(kwargs) || k == "type"
    ensures TypeTag(cls).Some? && "type" !in Names(kwargs) ==> Field(r, "type") == Str(TypeTag(cls).value)
  {
    var args := Arguments(cls, kwargs);
    KeyOrderDistinct(cls);
    ConstructProperties(TypeTag(cls), KeyOrder(cls), args);
    var r := Construct(TypeTag(cls), KeyOrder(cls), args);
    forall k | k in r.entries
      ensures k in Names(kwargs) || k == "type"
    {
      if k !in Names(kwargs) && k != "type" {
        if args != kwargs { NamesAppend(kwargs, ("type", Str("js"))); }
        ConstructAbsent(TypeTag(cls), KeyOrder(cls), args, k);
      }
    }
    r
  }

  /** `cls(**kwargs)` as an object: the class presets its `type`, sets its template,
      (`Resource` adds `type='js'` unless given one) and runs `LovelaceBase.__init__`. */
  method NewNode(cls: NodeClass, kwargs: seq<(Key, Value)>) returns (node: LovelaceBase)
    ensures fresh(node) && node.Valid() && node.Schema() && node.keyOrder == Some(KeyOrder(cls))
    ensures node.Snapshot() == New(cls, kwargs)
  {
    var args := kwargs;
    if cls == Resource && "type" !in Names(kwargs) {
      args := kwargs + [("type", Str("js"))];
    }
    KeyOrderDistinct(cls);
    node := new LovelaceBase(TypeTag(cls), KeyOrder(cls), args);
  }

  /** The value of each keyword argument with a distinct name is the field it sets. */
  lemma NewField(cls: NodeClass, kwargs: seq<(Key, Value)>, i: nat)
    requires NoDup(Names(kwargs)) && i < |kwargs|
    ensures Field(New(cls, kwargs), kwargs[i].0) == kwargs[i].1
  {
    var args := Arguments(cls, kwargs);
    if args != kwargs {
      NamesAppend(kwargs, ("type", Str("js")));
      NoDupConcat(Names(kwargs), ["type"]);
      assert args[i] == kwargs[i];
    }
    ConstructField(TypeTag(cls), KeyOrder(cls), args, i);
  }

  /** The field a new node holds under `k`: the last argument naming it, else the
      class's preset `type`, else nothing (Null). */
  lemma NewGet(cls: NodeClass, kwargs: seq<(Key, Value)>, k: Key)
    ensures Field(New(cls, kwargs), k)
      == Lookup(Arguments(cls, kwargs), k, if TypeTag(cls).Some? && k == "type" then Str(TypeTag(cls).value) else Null)
  {
    ConstructGet(TypeTag(cls), KeyOrder(cls), Arguments(cls, kwargs), k);
  }

  /** Every keyword argument, when their names are distinct, sets its field. */
  lemma NewFields(cls: NodeClass, kwargs: seq<(Key, Value)>)
    requires NoDup(Names(kwargs))
    ensures forall i :: 0 <= i < |kwargs| ==> Field(New(cls, kwargs), kwargs[i].0) == kwargs[i].1
  {
    forall i | 0 <= i < |kwargs| ensures Field(New(cls, kwargs), kwargs[i].0) == kwargs[i].1 {
      NewField(cls, kwargs, i);
    }
  }

  lemma NamesAppend(kwargs: seq<(Key, Value)>, p: (Key, Value))
    ensures Names(kwargs + [p]) == Names(kwargs) + [p.0]
  {
  }

  /** A class without a preset `type` (other than `Resource`) builds a node holding
      only the fields it was given. */
  lemma NewUntyped(cls: NodeClass, kwargs: seq<(Key, Value)>)
    requires TypeTag(cls).None? && cls != Resource
    ensures forall k :: k in New(cls, kwargs).entries ==> k in Names(kwargs)
  {
    forall k | k in New(cls, kwargs).entries ensures k in Names(kwargs) {
      if k !in Names(kwargs) {
        ConstructAbsent(TypeTag(cls), KeyOrder(cls), kwargs, k);
      }
    }
  }

  /** `Resource(url=url)`: the URL and the default `type` `js`. */
  lemma ResourceFields(url: string)
    ensures Field(New(Resource, [("url", Str(url))]), "url") == Str(url)
    ensures Field(New(Resource, [("url", Str(url))]), "type") == Str("js")
  {
    var kwargs := [("url", Str(url))];
    var args := Arguments(Resource, kwargs);
    assert Names(kwargs) == ["url"];
    assert Names(args) == ["url", "type"];
    ConstructField(None, KeyOrder(Resource), args, 0);
    ConstructField(None, KeyOrder(Resource), args, 1);
  }

  /** The template `CustomCard` installs: the caller's `key_order`, else the one
      `CUSTOM_CARDS` lists for the card type, else `['type', '...']` when neither
      gives a non-empty template. */
  function CustomTemplate(cardType: string, keyOrder: Option<seq<Key>>): (t: seq<Key>)
    ensures keyOrder.Some? && keyOrder.value != [] ==> t == keyOrder.value
    ensures keyOrder.None? && cardType == MonsterCard ==> t == MonsterKeyOrder
    ensures keyOrder == Some([]) || (keyOrder.None? && cardType != MonsterCard) ==> t == ["type", "..."]
  {
    var ko := if keyOrder.None? && cardType == MonsterCard then Some(MonsterKeyOrder) else keyOrder;
    if ko.None? || ko.value == [] then ["type", "..."] else ko.value
  }

  /** A template the caller gives without repeats keeps the custom card's template
      free of repeats. */
  lemma CustomTemplateNoDup(cardType: string, keyOrder: Option<seq<Key>>)
    requires keyOrder.Some? ==> NoDup(keyOrder.value)
    ensures NoDup(CustomTemplate(cardType, keyOrder))
  {
    var t := CustomTemplate(cardType, keyOrder);
    if keyOrder.None? && cardType == MonsterCard {
      assert t == ["type", "card", "filter", "when", "..."];
    } else if !(keyOrder.Some? && keyOrder.value != []) {
      assert t == ["type", "..."];
    }
  }

  /** The resource URL `CustomCard` remembers: the caller's, else the one
      `CUSTOM_CARDS` lists for the card type, else none. */
  function CustomResource(cardType: string, resource: Option<string>): (r: Option<string>)
    ensures resource.Some? ==> r == resource
    ensures resource.None? && cardType == MonsterCard ==> r == Some(MonsterResource)
    ensures resource.None? && cardType != MonsterCard ==> r == None
  {
    if resource.None? && cardType == MonsterCard then Some(MonsterResource) else resource
  }

  /** `CustomCard(card_type, resource, key_order, **kwargs)`: presets
      `type: custom:<card_type>`, installs `CustomTemplate`, remembers
      `CustomResource` and runs `LovelaceBase.__init__(**kwargs)`. */
  method CustomCard(cardType: string, resource: Option<string>, keyOrder: Option<seq<Key>>,
                    kwargs: seq<(Key, Value)>)
    returns (card: LovelaceBase, res: Option<string>)
    ensures fresh(card) && card.Valid() && card.keyOrder == Some(CustomTemplate(cardType, keyOrder))
    ensures card.values == WithoutNulls(Updated(map["type" := Str("custom:" + cardType)], kwargs))
    ensures NoDup(CustomTemplate(cardType, keyOrder)) ==>
      card.Snapshot() == Construct(Some("custom:" + cardType), CustomTemplate(cardType, keyOrder), kwargs)
    ensures res == CustomResource(cardType, resource)
  {
    res := if resource.None? && cardType == MonsterCard then Some(MonsterResource) else resource;
    var ko := if keyOrder.None? && cardType == MonsterCard then Some(MonsterKeyOrder) else keyOrder;
    var t := if ko.None? || ko.value == [] then ["type", "..."] else ko.value;
    card := new LovelaceBase(Some("custom:" + cardType), t, kwargs);
  }

  /** The fields of a custom card: `type` is the last `type` argument, else
      `custom:<card_type>`; every other key holds its last argument, and is absent
      when that is None or no argument names it; each key stands once. */
  lemma CustomCardFields(cardType: string, keyOrder: Option<seq<Key>>, kwargs: seq<(Key, Value)>)
    requires NoDup(CustomTemplate(cardType, keyOrder))
    ensures var r := Construct(Some("custom:" + cardType), CustomTemplate(cardType, keyOrder), kwargs);
      && r.Dict? && NoDup(r.keys) && (forall k :: k in r.keys <==> k in r.entries)
      && (forall k :: k in r.entries ==> r.entries[k] != Null)
      && Field(r, "type") == Lookup(kwargs, "type", Str("custom:" + cardType))
      && (forall k :: k != "type" ==> Field(r, k) == Lookup(kwargs, k, Null))
  {
    var tag := Some("custom:" + cardType);
    var t := CustomTemplate(cardType, keyOrder);
    ConstructProperties(tag, t, kwargs);
    ConstructGet(tag, t, kwargs, "type");
    forall k | k != "type"
      ensures Field(Construct(tag, t, kwargs), k) == Lookup(kwargs, k, Null)
    {
      ConstructGet(tag, t, kwargs, k);
    }
  }

  /** The one entry of `CUSTOM_CARDS`. */
  const MonsterCard: string := "monster-card"
  const MonsterResource: string :=
    "https://cdn.rawgit.com/ciotlosm/custom-lovelace/c9465a72a2f484fce135dce86c35412f099d493f/monster-card/monster-card.js"
  const MonsterKeyOrder: seq<Key> := ["type", "card", "filter", "when", "..."]

  /** The preset `type` survives construction whatever the template. */
  lemma ConstructTypeTag(tag: string, t: seq<Key>, kwargs: seq<(Key, Value)>)
    requires "type" !in Names(kwargs)
    ensures Field(Construct(Some(tag), t, kwargs), "type") == Str(tag)
  {
    UpdatedUntouched(map["type" := Str(tag)], kwargs, "type");
  }

  /** `Lovelace.CARD_DOMAINS`: the card class for each convertible domain. */
  const CardDomains: map<string, NodeClass> := map[
    "camera" := PictureEntityCard,
    "group" := EntitiesCard,
    "history_graph" := HistoryGraphCard,
    "media_player" := MediaControlCard,
    "plant" := PlantStatusCard,
    "weather" := WeatherForecastCard
  ]

  /** The `from_<domain>_config` class methods that exist. */
  datatype Builder = FromCamera | FromHistoryGraph | FromEntity | FromGroupCards | FromGroupView

  /** `getattr(cls, "from_" + domain + "_config", None)`. */
  function BuilderOf(cls: NodeClass, domain: string): (r: Option<Builder>)
    ensures r == Some(FromCamera) ==> cls == PictureEntityCard && domain == "camera"
    ensures r == Some(FromHistoryGraph) ==> cls == HistoryGraphCard && domain == "history_graph"
    ensures r == Some(FromGroupCards) ==> cls == EntitiesCard && domain == "group"
    ensures r == Some(FromGroupView) ==> cls == View && domain == "group"
    ensures r == Some(FromEntity) ==>
      (cls == MediaControlCard && domain == "media_player") ||
      (cls == PlantStatusCard && domain == "plant") ||
      (cls == WeatherForecastCard && domain == "weather")
  {
    if cls == PictureEntityCard && domain == "camera" then Some(FromCamera)
    else if cls == HistoryGraphCard && domain == "history_graph" then Some(FromHistoryGraph)
    else if cls == EntitiesCard && domain == "group" then Some(FromGroupCards)
    else if cls == View && domain == "group" then Some(FromGroupView)
    else if (cls == MediaControlCard && domain == "media_player")
         || (cls == PlantStatusCard && domain == "plant")
         || (cls == WeatherForecastCard && domain == "weather") then Some(FromEntity)
    else None
  }

  /** Every class `CARD_DOMAINS` names for a domain has the builder for that domain,
      so dispatch through the table never reaches the missing-builder error. */
  lemma DomainsBuildable(domain: string)
    requires domain in CardDomains
    ensures BuilderOf(CardDomains[domain], domain).Some?
  {
  }

  /** The domain of an entity record. */
  function Domain(c: State): string
    requires '.' in c.entityId
  {
    Eid(c.entityId).0
  }

  /** The record is a group's (and has a domain at all). */
  predicate IsGroup(c: State)
  {
    '.' in c.entityId && Domain(c) == "group"
  }

  /** A keyword argument that no later argument overrides sets its field. */
  lemma NewAt(cls: NodeClass, kwargs: seq<(Key, Value)>, i: nat)
    requires cls != Resource && i < |kwargs|
    requires forall j :: i < j < |kwargs| ==> kwargs[j].0 != kwargs[i].0
    ensures Field(New(cls, kwargs), kwargs[i].0) == kwargs[i].1
  {
    var k := kwargs[i].0;
    NewGet(cls, kwargs, k);
    LookupAt(kwargs, i, if TypeTag(cls).Some? && k == "type" then Str(TypeTag(cls).value) else Null);
  }

  /** The keyword arguments of `from_camera_config`. */
  function CameraArgs(c: State): seq<(Key, Value)>
    requires '.' in c.entityId
  {
    [("title", FriendlyName(c)), ("entity", Str(c.entityId)), ("camera_image", Str(c.entityId)),
     ("show_info", Bool(true)), ("tap_action", Str("dialog"))]
  }

  lemma CameraArg(c: State, i: nat)
    requires '.' in c.entityId && i < |CameraArgs(c)|
    ensures Field(New(PictureEntityCard, CameraArgs(c)), CameraArgs(c)[i].0) == CameraArgs(c)[i].1
  {
    NewAt(PictureEntityCard, CameraArgs(c), i);
  }

  lemma CameraShape(c: State)
    requires '.' in c.entityId
    ensures var r := New(PictureEntityCard, CameraArgs(c));
      && Field(r, "type") == Str("picture-entity")
      && forall k :: k in r.entries ==> k in ["type", "title", "entity", "camera_image", "show_info", "tap_action"]
  {
    CameraNames(c);
  }

  lemma CameraNames(c: State)
    requires '.' in c.entityId
    ensures Names(CameraArgs(c)) == ["title", "entity", "camera_image", "show_info", "tap_action"]
    ensures "type" !in Names(CameraArgs(c))
  {
    var a := CameraArgs(c);
    assert |Names(a)| == 5;
    assert Names(a)[0] == "title" && Names(a)[1] == "entity" && Names(a)[2] == "camera_image";
    assert Names(a)[3] == "show_info" && Names(a)[4] == "tap_action";
  }

  /** `from_camera_config(cls, config)`, the class being `PictureEntityCard`: a
      picture-entity card titled with the friendly name, showing the camera's image
      and info and opening a dialog when tapped, and nothing else. */
  function CameraCard(c: State): (r: Value)
    requires '.' in c.entityId
    ensures Field(r, "type") == Str("picture-entity")
    ensures Field(r, "title") == FriendlyName(c)
    ensures Field(r, "entity") == Str(c.entityId) && Field(r, "camera_image") == Str(c.entityId)
    ensures Field(r, "show_info") == Bool(true) && Field(r, "tap_action") == Str("dialog")
    ensures r.Dict? && forall k :: k in r.entries ==>
      k in ["type", "title", "entity", "camera_image", "show_info", "tap_action"]
  {
    CameraArg(c, 0);
    CameraArg(c, 1);
    CameraArg(c, 2);
    CameraArg(c, 3);
    CameraArg(c, 4);
    CameraShape(c);
    New(PictureEntityCard, CameraArgs(c))
  }

  /** The keyword arguments of `from_history_graph_config`. */
  function HistoryArgs(c: State): seq<(Key, Value)>
    requires '.' in c.entityId && "entity_id" in c.attributes
  {
    [("title", FriendlyName(c)), ("hours_to_show", Get(c.attributes, "hours_to_show")),
     ("refresh_interval", Get(c.attributes, "refresh")), ("entities", c.attributes["entity_id"])]
  }

  lemma HistoryArg(c: State, i: nat)
    requires '.' in c.entityId && "entity_id" in c.attributes && i < |HistoryArgs(c)|
    ensures Field(New(HistoryGraphCard, HistoryArgs(c)), HistoryArgs(c)[i].0) == HistoryArgs(c)[i].1
  {
    NewAt(HistoryGraphCard, HistoryArgs(c), i);
  }

  lemma HistoryShape(c: State)
    requires '.' in c.entityId && "entity_id" in c.attributes
    ensures var r := New(HistoryGraphCard, HistoryArgs(c));
      && Field(r, "type") == Str("history-graph")
      && forall k :: k in r.entries ==> k in ["type", "title", "hours_to_show", "refresh_interval", "entities"]
  {
    HistoryNames(c);
  }

  lemma HistoryNames(c: State)
    requires '.' in c.entityId && "entity_id" in c.attributes
    ensures Names(HistoryArgs(c)) == ["title", "hours_to_show", "refresh_interval", "entities"]
    ensures "type" !in Names(HistoryArgs(c))
  {
  }

  /** `from_history_graph_config(cls, config)`, the class being `HistoryGraph`: the
      friendly name as title, the `hours_to_show` and `refresh` attributes (absent
      when the record lacks them) and the record's `entity_id` attribute as the
      entities. Python raises when the record has no `entity_id` attribute. */
  function HistoryGraph(c: State): (r: Value)
    requires '.' in c.entityId && "entity_id" in c.attributes
    ensures Field(r, "type") == Str("history-graph")
    ensures Field(r, "title") == FriendlyName(c)
    ensures Field(r, "hours_to_show") == Get(c.attributes, "hours_to_show")
    ensures Field(r, "refresh_interval") == Get(c.attributes, "refresh")
    ensures Field(r, "entities") == c.attributes["entity_id"]
    ensures r.Dict? && forall k :: k in r.entries ==>
      k in ["type", "title", "hours_to_show", "refresh_interval", "entities"]
  {
    HistoryArg(c, 0);
    HistoryArg(c, 1);
    HistoryArg(c, 2);
    HistoryArg(c, 3);
    HistoryShape(c);
    New(HistoryGraphCard, HistoryArgs(c))
  }

  /** The keyword arguments of the entity builders. */
  function EntityArgs(c: State): seq<(Key, Value)>
  {
    [("entity", Str(c.entityId))]
  }

  lemma EntityShape(cls: NodeClass, c: State)
    requires cls != Resource
    ensures var r := New(cls, EntityArgs(c));
      && Field(r, "entity") == Str(c.entityId)
      && (TypeTag(cls).Some? ==> Field(r, "type") == Str(TypeTag(cls).value))
      && forall k :: k in r.entries ==> k == "entity" || k == "type"
  {
    NewAt(cls, EntityArgs(c), 0);
    SingleName("entity", Str(c.entityId));
  }

  lemma SingleName(k: Key, v: Value)
    ensures Names([(k, v)]) == [k]
  {
  }

  /** `from_media_player_config`, `from_plant_config`, `from_weather_config`:
      `cls(entity=config['entity_id'])`, a card of the class's type naming the
      entity, and nothing else. */
  function EntityCard(cls: NodeClass, c: State): (r: Value)
    requires cls != Resource
    ensures Field(r, "entity") == Str(c.entityId)
    ensures TypeTag(cls).Some? ==> Field(r, "type") == Str(TypeTag(cls).value)
    ensures r.Dict? && forall k :: k in r.entries ==> k == "entity" || k == "type"
  {
    EntityShape(cls, c);
    New(cls, EntityArgs(c))
  }

  /** The ids as string values. */
  function Strs(ids: seq<string>): (r: seq<Value>)
    ensures |r| == |ids| && forall i :: 0 <= i < |ids| ==> r[i] == Str(ids[i])
  {
    seq(|ids|, i requires 0 <= i < |ids| => Str(ids[i]))
  }

  /** The group's member list `attributes.get('entity_id', [])` can be iterated and
      its elements looked up: a list of hashable values, a string (its characters)
      or a mapping (its keys); anything else makes Python raise. */
  predicate Iterable(attrs: map<string, Value>)
  {
    "entity_id" !in attrs ||
    match attrs["entity_id"]
    case List(xs) => forall i :: 0 <= i < |xs| ==> !xs[i].List? && !xs[i].Dict?
    case Str(_) => true
    case Dict(_, _) => true
    case _ => false
  }

  /** What `for entity_id in attributes.get('entity_id', [])` visits. */
  function Members(attrs: map<string, Value>): seq<Value>
    requires Iterable(attrs)
  {
    if "entity_id" !in attrs then []
    else
      match attrs["entity_id"]
      case List(xs) => xs
      case Str(s) => seq(|s|, i requires 0 <= i < |s| => Str([s[i]]))
      case Dict(keys, _) => Strs(keys)
  }

  /** The registry (`entities`) as `get_entities` and `build_states` leave it: each
      record stored under its own id, and every id splittable at a dot (the split in
      `build_states` raises for any record without one). */
  ghost predicate WellFormed(reg: map<string, State>)
  {
    forall id :: id in reg ==> reg[id].entityId == id && '.' in id
  }

  /** The record is the registry's entry for its id. */
  predicate Registered(reg: map<string, State>, c: State)
  {
    c.entityId in reg && reg[c.entityId] == c
  }

  /** The record is registered and among the records `rank` covers, those the
      conversion reaches, so it is one the source converts without raising. */
  ghost predicate Known(reg: map<string, State>, rank: map<string, nat>, c: State)
  {
    Registered(reg, c) && c.entityId in rank && Sound(reg, rank, c.entityId)
  }

  /** A group's rank is one more than its assigned number, any other record's is 0. */
  function Rank(rank: map<string, nat>, c: State): nat
  {
    if IsGroup(c) && c.entityId in rank then rank[c.entityId] + 1 else 0
  }

  /** The record under `id` is one the source converts without raising: a history
      graph has an `entity_id` attribute, a group an iterable member list whose
      registered members are covered and rank below it. */
  ghost predicate Sound(reg: map<string, State>, rank: map<string, nat>, id: string)
  {
    && id in reg && '.' in id
    && (Eid(id).0 == "history_graph" ==> "entity_id" in reg[id].attributes)
    && (Eid(id).0 == "group" ==> Iterable(reg[id].attributes) && Outranks(reg, rank, reg[id]))
  }

  /** Every record `rank` covers is sound. The covered records are closed under
      group membership and their nesting is acyclic; records outside `rank`, which
      no conversion reaches, are left unconstrained. */
  ghost predicate ValidRank(reg: map<string, State>, rank: map<string, nat>)
  {
    forall id {:trigger Sound(reg, rank, id)} :: id in rank ==> Sound(reg, rank, id)
  }

  /** Each registered member of `g` is covered and ranks below `g`. */
  ghost predicate Outranks(reg: map<string, State>, rank: map<string, nat>, g: State)
    requires Iterable(g.attributes)
  {
    var ms := Members(g.attributes);
    forall i :: 0 <= i < |ms| && ms[i].Str? && ms[i].s in reg ==>
      ms[i].s in rank && Rank(rank, reg[ms[i].s]) < Rank(rank, g)
  }

  /** A registered member of a covered group is covered and ranks below the group. */
  lemma MemberRank(reg: map<string, State>, rank: map<string, nat>, g: State, m: Value)
    requires WellFormed(reg) && ValidRank(reg, rank) && Known(reg, rank, g) && IsGroup(g)
    requires m in Members(g.attributes) && m.Str? && m.s in reg
    ensures Known(reg, rank, reg[m.s])
    ensures Rank(rank, reg[m.s]) < Rank(rank, g)
  {
    assert Outranks(reg, rank, reg[g.entityId]);
    var ms := Members(g.attributes);
    var i :| 0 <= i < |ms| && ms[i] == m;
    assert Sound(reg, rank, m.s);
  }

  /** The outcome of a conversion: no node (`None`), one node, or the list of
      cards that `EntitiesCard.from_group_config` returns. */
  datatype Conversion = Nothing | One(node: Value) | Many(nodes: seq<Value>)

  /** The handling of one group member: not found in the registry, or converted. */
  datatype Resolution = Missing | Resolved(id: string, conversion: Conversion)

  /** `Lovelace.Card.from_config(config)`: None for no config; otherwise the class
      `CARD_DOMAINS` gives for the record's domain converts it, and any other domain
      yields None. */
  function CardFromConfig(reg: map<string, State>, ghost rank: map<string, nat>, config: Option<State>): (r: Conversion)
    requires WellFormed(reg) && ValidRank(reg, rank)
    requires config.Some? ==> Known(reg, rank, config.value)
    ensures config.None? ==> r == Nothing
    ensures config.Some? && Domain(config.value) !in CardDomains ==> r == Nothing
    ensures config.Some? ==> (r.Many? <==> Domain(config.value) == "group")
    ensures config.Some? && Domain(config.value) in CardDomains && Domain(config.value) != "group" ==> r.One?
    decreases if config.Some? then Rank(rank, config.value) else 0, 4, 0
  {
    match config
    case None => Nothing
    case Some(c) =>
      var d := Domain(c);
      if d in CardDomains then FromConfig(reg, rank, CardDomains[d], c) else Nothing
  }

  /** `LovelaceBase.from_config(cls, config)`: the class's `from_<domain>_config`,
      or None when the class has none. (The record always has an `entity_id`.) */
  function FromConfig(reg: map<string, State>, ghost rank: map<string, nat>, cls: NodeClass, c: State): (r: Conversion)
    requires WellFormed(reg) && ValidRank(reg, rank) && Known(reg, rank, c)
    ensures BuilderOf(cls, Domain(c)).None? ==> r == Nothing
    ensures r.Many? <==> BuilderOf(cls, Domain(c)) == Some(FromGroupCards)
    ensures BuilderOf(cls, Domain(c)) in {Some(FromCamera), Some(FromHistoryGraph), Some(FromEntity)} ==> r.One?
    decreases Rank(rank, c), 3, 0
  {
    match BuilderOf(cls, Domain(c))
    case None => Nothing
    case Some(b) => Build(reg, rank, b, cls, c)
  }

  /** `fx(config)` for the builder `fx` that `from_config` found. */
  function Build(reg: map<string, State>, ghost rank: map<string, nat>, b: Builder, cls: NodeClass, c: State): (r: Conversion)
    requires WellFormed(reg) && ValidRank(reg, rank) && Known(reg, rank, c)
    requires BuilderOf(cls, Domain(c)) == Some(b)
    ensures r.Many? <==> b == FromGroupCards
    ensures b in {FromCamera, FromHistoryGraph, FromEntity} ==> r.One?
    ensures b == FromGroupCards ==> r == Many(GroupCards(reg, rank, c))
    ensures b == FromGroupView ==> (r.One? <==> Truthy(Get(c.attributes, "view")))
    ensures b == FromGroupView && r.One? ==> r.node == GroupView(reg, rank, c)
    decreases Rank(rank, c), 2, 2
  {
    match b
    case FromCamera => One(CameraCard(c))
    case FromHistoryGraph => One(HistoryGraph(c))
    case FromEntity => One(EntityCard(cls, c))
    case FromGroupCards => Many(GroupCards(reg, rank, c))
    case FromGroupView =>
      var v := GroupView(reg, rank, c);
      if v == Null then Nothing else One(v)
  }

  /** `View.from_group_config(group)` with None for no view. */
  function GroupView(reg: map<string, State>, ghost rank: map<string, nat>, g: State): (r: Value)
    requires WellFormed(reg) && ValidRank(reg, rank) && Known(reg, rank, g) && IsGroup(g)
    ensures r == Null <==> !Truthy(Get(g.attributes, "view"))
    ensures r != Null ==> r.Dict?
    decreases Rank(rank, g), 2, 1
  {
    match ViewNode(reg, rank, g)
    case None => Null
    case Some(v) =>
      ViewWithKeys(g, ViewCards(reg, rank, g));
      v
  }

  /** How the loop of either `from_group_config` handles one member: an id the
      registry lacks is skipped, a found one is converted by `Card.from_config`. */
  function Resolve(reg: map<string, State>, ghost rank: map<string, nat>, g: State, m: Value): (r: Resolution)
    requires WellFormed(reg) && ValidRank(reg, rank) && Known(reg, rank, g) && IsGroup(g)
    requires m in Members(g.attributes)
    ensures r.Resolved? <==> m.Str? && m.s in reg
    ensures r.Resolved? ==> r.id == m.s
    decreases Rank(rank, g), 0, 0
  {
    if m.Str? && m.s in reg then
      MemberRank(reg, rank, g, m);
      Resolved(m.s, CardFromConfig(reg, rank, Some(reg[m.s])))
    else Missing
  }

  /** What a member adds to `cards`: the list a sub-group returns, or the one card. */
  function Contributed(r: Resolution): seq<Value>
  {
    match r
    case Resolved(_, Many(cs)) => cs
    case Resolved(_, One(c)) => [c]
    case _ => []
  }

  /** How the loop of either `from_group_config` handles the first `n` members of
      group `g`, one resolution per member, in order. */
  function Resolutions(reg: map<string, State>, ghost rank: map<string, nat>, g: State, n: nat): (r: seq<Resolution>)
    requires WellFormed(reg) && ValidRank(reg, rank) && Known(reg, rank, g) && IsGroup(g)
    requires n <= |Members(g.attributes)|
    ensures |r| == n
    ensures forall i :: 0 <= i < n ==> r[i] == Resolve(reg, rank, g, Members(g.attributes)[i])
    decreases Rank(rank, g), 1, n
  {
    if n == 0 then []
    else
      var front := Resolutions(reg, rank, g, n - 1);
      var last := Resolve(reg, rank, g, Members(g.attributes)[n - 1]);
      assert forall i :: 0 <= i < n - 1 ==> (front + [last])[i] == front[i];
      front + [last]
  }

  /** `cards` once the loop has handled `rs`: what each found member contributes,
      in encounter order. */
  function Extra(rs: seq<Resolution>): seq<Value>
  {
    if rs == [] then []
    else Extra(rs[..|rs| - 1]) + Contributed(rs[|rs| - 1])
  }

  /** The id a resolution adds to `nocards`: a found member that yields no card. */
  function CardlessId(r: Resolution): seq<string>
  {
    if r.Resolved? && r.conversion == Nothing then [r.id] else []
  }

  /** `nocards` once the loop has handled `rs`. */
  function Cardless(rs: seq<Resolution>): seq<string>
  {
    if rs == [] then []
    else Cardless(rs[..|rs| - 1]) + CardlessId(rs[|rs| - 1])
  }

  /** The resolutions of all members of group `g`. */
  function MemberResolutions(reg: map<string, State>, ghost rank: map<string, nat>, g: State): (r: seq<Resolution>)
    requires WellFormed(reg) && ValidRank(reg, rank) && Known(reg, rank, g) && IsGroup(g)
    decreases Rank(rank, g), 1, |Members(g.attributes)| + 1
  {
    Resolutions(reg, rank, g, |Members(g.attributes)|)
  }

  /** The keyword arguments of the primary card of `EntitiesCard.from_group_config`. */
  function PrimaryArgs(g: State, cardless: seq<string>): seq<(Key, Value)>
    requires '.' in g.entityId
  {
    [("title", FriendlyName(g)),
     ("show_header_toggle", Bool(Get(g.attributes, "control") != Str("hidden"))),
     ("entities", List(Strs(cardless)))]
  }

  lemma PrimaryArg(g: State, cardless: seq<string>, i: nat)
    requires '.' in g.entityId && i < |PrimaryArgs(g, cardless)|
    ensures Field(New(EntitiesCard, PrimaryArgs(g, cardless)), PrimaryArgs(g, cardless)[i].0)
      == PrimaryArgs(g, cardless)[i].1
  {
    NewAt(EntitiesCard, PrimaryArgs(g, cardless), i);
  }

  lemma PrimaryNames(g: State, cardless: seq<string>)
    requires '.' in g.entityId
    ensures Names(PrimaryArgs(g, cardless)) == ["title", "show_header_toggle", "entities"]
    ensures "type" !in Names(PrimaryArgs(g, cardless))
  {
  }

  lemma PrimaryShape(g: State, cardless: seq<string>)
    requires '.' in g.entityId
    ensures var r := New(EntitiesCard, PrimaryArgs(g, cardless));
      && Field(r, "type") == Str("entities")
      && forall k :: k in r.entries ==> k in ["type", "title", "show_header_toggle", "entities"]
  {
    PrimaryNames(g, cardless);
  }

  /** The primary card of `EntitiesCard.from_group_config`: an entities card titled
      with the group's friendly name, with a header toggle unless the group's
      `control` attribute is `hidden`, listing the given entity ids, and nothing else. */
  function PrimaryCard(g: State, cardless: seq<string>): (r: Value)
    requires '.' in g.entityId
    ensures Field(r, "type") == Str("entities")
    ensures Field(r, "title") == FriendlyName(g)
    ensures Field(r, "show_header_toggle") == Bool(Get(g.attributes, "control") != Str("hidden"))
    ensures Field(r, "entities") == List(Strs(cardless))
    ensures r.Dict? && forall k :: k in r.entries ==> k in ["type", "title", "show_header_toggle", "entities"]
  {
    PrimaryArg(g, cardless, 0);
    PrimaryArg(g, cardless, 1);
    PrimaryArg(g, cardless, 2);
    PrimaryShape(g, cardless);
    New(EntitiesCard, PrimaryArgs(g, cardless))
  }

  /** The keyword arguments of the untitled card of `View.from_group_config`. */
  function UntitledArgs(cardless: seq<string>): seq<(Key, Value)>
  {
    [("entities", List(Strs(cardless)))]
  }

  lemma UntitledShape(cardless: seq<string>)
    ensures var r := New(EntitiesCard, UntitledArgs(cardless));
      && Field(r, "type") == Str("entities")
      && Field(r, "entities") == List(Strs(cardless))
      && forall k :: k in r.entries ==> k == "entities" || k == "type"
  {
    NewAt(EntitiesCard, UntitledArgs(cardless), 0);
    SingleName("entities", List(Strs(cardless)));
  }

  /** The untitled entities card a view puts in front of its cards: it lists the
      given entity ids and has no title. */
  function UntitledCard(cardless: seq<string>): (r: Value)
    ensures Field(r, "type") == Str("entities")
    ensures Field(r, "entities") == List(Strs(cardless))
    ensures r.Dict? && forall k :: k in r.entries ==> k == "entities" || k == "type"
  {
    UntitledShape(cardless);
    New(EntitiesCard, UntitledArgs(cardless))
  }

  /** `EntitiesCard.from_group_config(group)`. */
  function GroupCards(reg: map<string, State>, ghost rank: map<string, nat>, g: State): seq<Value>
    requires WellFormed(reg) && ValidRank(reg, rank) && Known(reg, rank, g) && IsGroup(g)
    decreases Rank(rank, g), 2, 0
  {
    var rs := MemberResolutions(reg, rank, g);
    var cardless := Cardless(rs);
    var cards := Extra(rs);
    if cardless != [] then [PrimaryCard(g, cardless)] + cards else cards
  }

  /** The keyword arguments of `View(title=..., icon=...)`. */
  function ViewArgs(g: State): seq<(Key, Value)>
    requires '.' in g.entityId
  {
    [("title", FriendlyName(g)), ("icon", Get(g.attributes, "icon"))]
  }

  lemma ViewArg(g: State, i: nat)
    requires '.' in g.entityId && i < |ViewArgs(g)|
    ensures Field(New(View, ViewArgs(g)), ViewArgs(g)[i].0) == ViewArgs(g)[i].1
  {
    NewAt(View, ViewArgs(g), i);
  }

  lemma ViewNames(g: State)
    requires '.' in g.entityId
    ensures Names(ViewArgs(g)) == ["title", "icon"]
  {
    var a := ViewArgs(g);
    assert |Names(a)| == 2 && Names(a)[0] == "title" && Names(a)[1] == "icon";
  }

  /** The view node before its cards are added: `View(title=..., icon=...)`, with
      the group's friendly name and its `icon` attribute (absent when the group has
      none), and no other field. */
  function ViewHead(g: State): (r: Value)
    requires '.' in g.entityId
    ensures Field(r, "title") == FriendlyName(g) && Field(r, "icon") == Get(g.attributes, "icon")
    ensures r.Dict? && NoDup(r.keys) && (forall k :: k in r.keys <==> k in r.entries)
    ensures forall k :: k in r.entries ==> k == "title" || k == "icon"
  {
    ViewArg(g, 0);
    ViewArg(g, 1);
    ViewNames(g);
    NewUntyped(View, ViewArgs(g));
    New(View, ViewArgs(g))
  }

  /** `View.from_group_config(group)`: None unless the `view` attribute is true;
      otherwise the titled view whose `cards` are an untitled entities card of the
      cardless members (when there are any) followed by the other members' cards. */
  function ViewNode(reg: map<string, State>, ghost rank: map<string, nat>, g: State): (r: Option<Value>)
    requires WellFormed(reg) && ValidRank(reg, rank) && Known(reg, rank, g) && IsGroup(g)
    ensures r.Some? <==> Truthy(Get(g.attributes, "view"))
    decreases Rank(rank, g), 2, 0
  {
    if !Truthy(Get(g.attributes, "view")) then None
    else
      Some(ViewWith(g, ViewCards(reg, rank, g)))
  }

  /** The `cards` of a view: an untitled entities card of the cardless members, when
      there are any, followed by the other members' cards. */
  function ViewCards(reg: map<string, State>, ghost rank: map<string, nat>, g: State): seq<Value>
    requires WellFormed(reg) && ValidRank(reg, rank) && Known(reg, rank, g) && IsGroup(g)
    decreases Rank(rank, g), 1, |Members(g.attributes)| + 2
  {
    var rs := MemberResolutions(reg, rank, g);
    var cardless := Cardless(rs);
    var extra := Extra(rs);
    if cardless != [] then [UntitledCard(cardless)] + extra else extra
  }

  /** The view once `view.add_card(cards)` has run on its head. */
  function ViewWith(g: State, cards: seq<Value>): Value
    requires '.' in g.entityId
  {
    AddedItem(Some(KeyOrder(View)), ViewHead(g), "cards", List(cards))
  }

  /** A view holds the group's title and icon and exactly the given `cards` list,
      present even when empty. */
  lemma ViewWithFields(g: State, cards: seq<Value>)
    requires '.' in g.entityId
    ensures var r := ViewWith(g, cards);
      && Field(r, "title") == FriendlyName(g) && Field(r, "icon") == Get(g.attributes, "icon")
      && Field(r, "cards") == List(cards)
  {
    var head := ViewHead(g);
    assert "cards" !in head.entries;
    AddedNewList(Some(KeyOrder(View)), head, "cards", cards);
    assert ViewWith(g, cards).entries == head.entries["cards" := List(cards)];
  }

  /** A view has no field beyond `title`, `icon` and `cards`, and its keys are its fields. */
  lemma ViewWithKeys(g: State, cards: seq<Value>)
    requires '.' in g.entityId
    ensures var r := ViewWith(g, cards);
      && r.Dict? && (forall k :: k in r.keys <==> k in r.entries)
      && forall k :: k in r.entries ==> k == "title" || k == "icon" || k == "cards"
  {
    var head := ViewHead(g);
    assert "cards" !in head.entries;
    AddedNewList(Some(KeyOrder(View)), head, "cards", cards);
    assert ViewWith(g, cards).entries == head.entries["cards" := List(cards)];
  }

}
