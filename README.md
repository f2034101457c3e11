# Lovelace migration engine in Dafny

This project models the conversion engine of `lovelace_migrate.py`, the tool that
turns a Home Assistant states dump (a list of entity records) into a Lovelace UI
document before it is written out as YAML. It covers four parts of the engine:

- **The schema-ordered node** (`LovelaceBase`). An insertion-ordered dictionary.
  Each new key makes `sortkeys` reorder the keys against the class's `key_order`
  template. It is modelled as the class `OrderedNode.LovelaceBase`. Its fields are
  the key sequence, the value map and the optional template. Its methods mutate
  them in place: `__setitem__`, `__delitem__`, `move_to_end`, `sortkeys`,
  `update`, `__init__`'s None-deleting loop and `add_item`.
- **The registry and naming** (`get_entities`, `build_states`, `eid`,
  `friendly_name`). These are modules `Registry` and `Naming`. The two
  dictionary-filling loops are methods proved against recursive specification
  functions.
- **Dispatch and card builders** (`Card.from_config`, `LovelaceBase.from_config`,
  `CARD_DOMAINS`, the `from_<domain>_config` class methods and the class
  constructors). This is module `Cards`. The classes are a closed enumeration
  `NodeClass` with their preset `type` and template. A builder is a pure function
  from an entity record to a node value.
- **The group resolver and the document** (`EntitiesCard.from_group_config`,
  `View.from_group_config`, `Lovelace.__init__`, `add_view`, `add_resource`).
  These are modules `Cards`, `Groups` and `Document`. The member loops are methods
  proved against the functions `Resolutions`, `Extra` and `Cardless`. The document
  is a `LovelaceBase` object built step by step, proved equal to the function
  `Document.Lovelace`.

JSON-like values are the datatype `Json.Value`. A dictionary value keeps its keys
in order (`Dict(keys, entries)`), so the value of a node is its
`LovelaceBase.Snapshot()`.

The module-level `entities` table that the group resolvers read is the explicit
parameter `reg`. `build_states` splits every id at its first dot, so the
precondition `WellFormed` asks only that each record sits under its own id and
that every id has a dot (an id without one makes the `split('.', 1)` unpacking
raise).

Everything else the model asks of the registry is confined to the records the
conversion actually reaches. Those records are the keys of a ghost `rank` map.
- `Covers` puts every view-flagged group in `rank`. These are the groups
  `Lovelace.__init__` converts.
- `ValidRank` asks, of each record in `rank` only, what the source needs to
  convert it without raising or running forever:
  - a `history_graph` record has an `entity_id` attribute (otherwise `KeyError`);
  - a group's member list can be iterated;
  - every registered member of a group is itself in `rank`, with a strictly
    smaller rank.
- `Known` is the resulting precondition of every builder: the record is
  registered and covered.

The order among ranks is a modelling assumption. Group nesting is unguarded in
the source, so a cycle among the reached groups would recurse forever. Records
outside `rank` are unconstrained: an unreferenced malformed record, or a cycle
among groups that no view reaches, does not exclude a states dump.

In these details the model follows the code, which differs from what a reader
might expect:
- `friendly_name` returns the `friendly_name` attribute whenever the key exists,
  even when it is empty.
- `build_states` keeps, per domain, a dictionary keyed by object id. A later
  record with the same id replaces the earlier one and keeps its place.
- An id is split at its first dot only. Further dots stay in the object id.
- A view-flagged group that is a member of another group is not rejected.
  `EntitiesCard.from_group_config` never looks at the `view` flag, so such a
  group yields an entities card like any other group.
- No fallback view is synthesised when no group is view-flagged. The document
  then has only its `title`.

## Model

| member | source | states |
|---|---|---|
| OrderedNode.Mid | lovelace_migrate.py:142-146 | The marker position is the index of `'...'` when the template has one, else the template's length. |
| OrderedNode.LovelaceBase.SortKeys | lovelace_migrate.py:124-158 | Without a template nothing changes. Otherwise the key set is unchanged and only `keys` is written, so the values and the template stay as they were. For a template without repeated keys, the new order is `SortedKeys`: present front keys in template order, then the unplaced keys in their previous order, then present back keys in template order. |
| OrderedNode.LovelaceBase.SortStep | lovelace_migrate.py:152-158 | One pass of the loop skips the marker and absent keys, and otherwise calls `move_to_end(key, last=i > mid)`. The keys move from loop stage `i` to stage `i + 1`, and the key set is unchanged. |
| OrderedNode.LovelaceBase.SortAdvance | lovelace_migrate.py:148-158 | Walking the front keys reversed and then the rest, moving key `order[i]` (when present and not the marker) to the front or back takes stage `i` to stage `i + 1`. |
| OrderedNode.LovelaceBase.SortStart | lovelace_migrate.py:152 | Before the first pass the stage is the original key order. |
| OrderedNode.LovelaceBase.SortDone | lovelace_migrate.py:152-158 | After the last pass the stage is the three-band order `SortedKeys`. |
| OrderedNode.LovelaceBase.FrontTurn | lovelace_migrate.py:149-158 | A pass before the marker moves front key `t[mid-1-i]` to the start when present, and leaves the keys unchanged when absent. |
| OrderedNode.LovelaceBase.BackTurn | lovelace_migrate.py:152-158 | A pass after the marker moves back key `t[i]` to the end when present, and leaves the keys unchanged when absent. |
| OrderedNode.LovelaceBase.MarkerStep | lovelace_migrate.py:154 | The pass at the marker itself changes nothing. |
| OrderedNode.LovelaceBase.MoveToEnd | lovelace_migrate.py:158 | `move_to_end(key, last)` puts `key` at the end (`last`) or the start, keeps every other key in order, and leaves the key set unchanged. |
| OrderedNode.SortedIdempotent | lovelace_migrate.py:139-158 | Sorting twice gives the same order as sorting once. |
| OrderedNode.SortedAppend | lovelace_migrate.py:74-78 | Re-sorting after appending keys gives the same order as appending them to the unsorted keys and then sorting. So re-sorting after every insertion equals sorting once at the end. |
| OrderedNode.SortedDrop | lovelace_migrate.py:70-72 | Deleting keys from a sorted order leaves the sorted order of the remaining keys. |
| OrderedNode.SortedNoDup | lovelace_migrate.py:124-158 | Sorting distinct keys against a template without repeats yields each key once. |
| OrderedNode.FrontBackDisjoint | lovelace_migrate.py:142-147 | With no repeated template keys, no key is both a front key and a back key, and neither band repeats a key. |
| OrderedNode.LovelaceBase.SetItem | lovelace_migrate.py:74-78 | `self[key] = value` stores the value. An existing key keeps the key order unchanged. A new key is appended and the keys re-sorted by the template. |
| OrderedNode.LovelaceBase.DelItem | lovelace_migrate.py:72 | `del self[key]` removes the key from the order and its value from the map. |
| OrderedNode.LovelaceBase.Update | lovelace_migrate.py:69 | `update(kwargs)` sets each argument through `__setitem__`, in order, so later arguments win. The keys are the template order of the inserted names when they started sorted. |
| OrderedNode.LovelaceBase.DeleteNulls | lovelace_migrate.py:70-72 | The deletion loop over a snapshot of the items removes exactly the None-valued keys and keeps the others in order. |
| OrderedNode.LovelaceBase.DeleteAdvance | lovelace_migrate.py:70-72 | Deleting or keeping the snapshot's `j`-th key moves the loop from its `j`-th to its `j+1`-th state. |
| OrderedNode.LovelaceBase.Init | lovelace_migrate.py:67-72 | `__init__(**kwargs)` leaves the updated values without any None. From a sorted start the keys are sorted and contain no None-valued key. |
| OrderedNode.LovelaceBase.constructor | lovelace_migrate.py:248-253 | A subclass constructor presets `type` (unsorted, no template yet), sets `key_order` and runs `__init__`. The resulting node is `Construct(tag, t, kwargs)`. |
| OrderedNode.LovelaceBase.InitConstructs | lovelace_migrate.py:67-72 | What `__init__` leaves after the preset `type` is exactly the constructed node. |
| OrderedNode.ConstructProperties | lovelace_migrate.py:67-72 | A constructed node maps no key to None, its key order lists exactly its keys once each, and its preset `type` survives unless an argument names `type`. |
| OrderedNode.ConstructField | lovelace_migrate.py:69 | With distinct argument names, every argument's value is the node's field under that name. |
| OrderedNode.ConstructGet | lovelace_migrate.py:67-72 | The node's field under `k` is the last argument named `k`, else the preset `type`, else absent. |
| OrderedNode.ConstructAbsent | lovelace_migrate.py:67-72 | A key no argument names, other than a preset `type`, is absent from the node: absent optional fields are omitted. |
| OrderedNode.UpdatedLookup | lovelace_migrate.py:69 | With distinct names, `update` stores each argument's value under its name. |
| OrderedNode.UpdatedUntouched | lovelace_migrate.py:69 | `update` leaves a value that no argument names untouched. |
| OrderedNode.UpdatedGet | lovelace_migrate.py:69 | After `update`, the value under `k` is that of the last argument named `k`, else the earlier value. |
| OrderedNode.KeysAfterNoDup | lovelace_migrate.py:74-78 | Inserting names one by one, where a name already present keeps its place, never repeats a key. |
| OrderedNode.LovelaceBase.AddItem | lovelace_migrate.py:114-122 | `add_item(key, item)` is the value-level `AddedItem` on the snapshot: None is ignored, an absent key gets an empty list first, and a list extends it while anything else is appended. |
| OrderedNode.AddedItemProperties | lovelace_migrate.py:114-122 | Under `AddedItem`, None changes nothing. Otherwise the field is the earlier items followed by the item, or by the list's items. Other fields and an existing key's position are unchanged, and only `key` can be new. |
| OrderedNode.AddedNewList | lovelace_migrate.py:117-120 | Adding a list under a missing key stores that list as is and adds only that key. |
| Naming.Eid | lovelace_migrate.py:652 | The domain and object id rejoin with a dot to the id, and the domain has no dot: the split is at the first dot. |
| Naming.EidJoin | lovelace_migrate.py:652 | Splitting `domain + "." + object_id` of a dot-free domain gives back the two parts. |
| Naming.EidFirstDot | lovelace_migrate.py:652 | `sensor.outside.temp` splits into `sensor` and `outside.temp`. |
| Naming.TitleCaseAt | lovelace_migrate.py:671 | `str.title` upper-cases a letter that follows a non-letter or starts the string, lower-cases a letter that follows a letter, and leaves non-letters unchanged. |
| Naming.TitleCaseIdempotent | lovelace_migrate.py:671 | Title-casing twice equals title-casing once. |
| Naming.Underscores | lovelace_migrate.py:671 | `replace('_', ' ')` turns every underscore into a space and keeps every other character. |
| Naming.FriendlyName | lovelace_migrate.py:656-671 | The name is the `friendly_name` attribute whenever it exists, with no emptiness check. Otherwise it is a string as long as the object id. |
| Naming.FriendlyNameDerived | lovelace_migrate.py:656-671 | The derived name has a space at each underscore of the object id. A letter starting a word of the id is upper-cased, and a letter after a letter is lower-cased. |
| Naming.AcUnitName | lovelace_migrate.py:669-671 | A record `fan.ac_unit` without a `friendly_name` is named `Ac Unit`. |
| Registry.Entities | lovelace_migrate.py:634-639 | The index holds exactly the dump's ids, each mapped to a record with that id. |
| Registry.GetEntities | lovelace_migrate.py:634-639 | The loop leaves `Entities(dump)`. |
| Registry.EntitiesLatest | lovelace_migrate.py:637-638 | A record is the one indexed under its id when no later record has that id: later duplicates overwrite earlier ones. |
| Registry.Insert | lovelace_migrate.py:630 | `table[key] = e` stores the record. A new key goes last and an existing key keeps its place. |
| Registry.BuildStates | lovelace_migrate.py:623-631 | The loop leaves `States(dump)`. |
| Registry.StatesStep | lovelace_migrate.py:626-630 | One more record goes into its domain's table, which is created empty when missing. |
| Registry.StatesWellKept | lovelace_migrate.py:623-631 | Every domain table lists each of its object ids exactly once, in its key order. |
| Registry.StatesAgree | lovelace_migrate.py:623-639 | Domain `d` and object id `o` are indexed by `build_states` exactly when `d.o` is indexed by `get_entities`, and with the same record. |
| Registry.StatesOrder | lovelace_migrate.py:623-631 | A domain has a table exactly when it has records. The table lists its object ids in order of first appearance and holds exactly those ids. |
| Cards.KeyOrderDistinct | lovelace_migrate.py:164-508 | No class template repeats a key. |
| Cards.Arguments | lovelace_migrate.py:239-243 | `Resource` adds `type='js'` unless a `type` is given. Every other class passes its arguments on unchanged. |
| Cards.New | lovelace_migrate.py:248-253 | A node built by a class constructor maps no key to None and lists each key once. It holds only named fields and `type`, and keeps the class's preset `type` unless an argument names `type`. |
| Cards.NewNode | lovelace_migrate.py:248-253 | The constructed object is valid, carries the class's template and has snapshot `New(cls, kwargs)`. |
| Cards.NewField | lovelace_migrate.py:67-69 | With distinct names, each keyword argument sets its field. |
| Cards.NewFields | lovelace_migrate.py:67-69 | With distinct names, every keyword argument sets its field. |
| Cards.NewGet | lovelace_migrate.py:67-72 | A node's field is the last argument of that name, else the preset `type`, else absent. |
| Cards.NewUntyped | lovelace_migrate.py:167-171 | A class without a preset `type`, other than `Resource`, holds only the fields it was given. |
| Cards.ResourceFields | lovelace_migrate.py:236-243 | `Resource(url=u)` has `url` = `u` and `type` = `js`. |
| Cards.CustomTemplate | lovelace_migrate.py:498-506 | The template is the caller's `key_order` when it is a non-empty list. When none is given, `monster-card` takes `['type', 'card', 'filter', 'when', '...']` from `CUSTOM_CARDS`. An empty list, or no template for any other card type, falls back to `['type', '...']`. |
| Cards.CustomTemplateNoDup | lovelace_migrate.py:496-538 | The chosen template repeats no key whenever the caller's template repeats none. |
| Cards.CustomResource | lovelace_migrate.py:498-507 | A given resource is kept. `monster-card`, the only entry of `CUSTOM_CARDS`, supplies its resource URL when none is given. Any other card type without a given resource has none. |
| Cards.CustomCard | lovelace_migrate.py:493-508 | The card is a fresh node under the chosen template (`CustomTemplate`). Its values are `type: custom:<card_type>` updated by the keyword arguments, with the None-valued keys removed. For a repeat-free template its value is `Construct` of that tag, template and arguments. The resource returned beside it is `CustomResource`. |
| Cards.CustomCardFields | lovelace_migrate.py:505-508 | Under a repeat-free template the card is a dictionary with repeat-free keys and no None value. Its `type` is the last `type` argument, else `custom:<card_type>`. Every other field is the last value given for it, or absent. |
| Cards.ConstructTypeTag | lovelace_migrate.py:250 | A preset `type` is the card's `type` when no argument overrides it. |
| Cards.BuilderOf | lovelace_migrate.py:107-108 | `getattr(cls, 'from_<domain>_config')` exists only for the class/domain pairs the source defines. |
| Cards.DomainsBuildable | lovelace_migrate.py:524-531 | Every class `CARD_DOMAINS` names has the builder for its domain. |
| Cards.CameraCard | lovelace_migrate.py:434-441 | The camera card is `picture-entity` titled with the name. It has `entity` = `camera_image` = the id, `show_info` true, `tap_action` `dialog`, and no other field. |
| Cards.HistoryGraph | lovelace_migrate.py:333-339 | The history graph is `history-graph` titled with the name. `hours_to_show` comes from the attribute of that name and `refresh_interval` from `refresh`, absent when those attributes are. `entities` is the `entity_id` attribute verbatim, and there is no other field. |
| Cards.EntityCard | lovelace_migrate.py:395-398 | `from_media_player_config`, and likewise `from_plant_config` (:461-464) and `from_weather_config` (:488-491), yield `entity` = the id and the class's `type` only. |
| Cards.MemberRank | lovelace_migrate.py:187-194 | Each registered member of a covered group is itself covered, and ranks strictly below the group. |
| Cards.CardFromConfig | lovelace_migrate.py:211-225 | No config, or a domain outside `CARD_DOMAINS`, gives no card. A group gives a list of cards. Every other listed domain gives one card. |
| Cards.FromConfig | lovelace_migrate.py:100-112 | A class without `from_<domain>_config` gives None. Otherwise the builder runs, and only the entities card's group builder gives a list. |
| Cards.Build | lovelace_migrate.py:107-112 | Each builder gives its node. The entities card's group builder gives `GroupCards`, and the view builder gives a view exactly when the group's `view` flag is true. |
| Cards.GroupView | lovelace_migrate.py:177-181 | `View.from_group_config` returns None exactly when the `view` flag is not true, and otherwise a node. |
| Cards.Resolve | lovelace_migrate.py:187-194 | A member is resolved exactly when it is a registered id, and otherwise skipped. |
| Cards.Resolutions | lovelace_migrate.py:265-272 | The loop's `i`-th step handles the `i`-th member. |
| Cards.PrimaryCard | lovelace_migrate.py:280-283 | The primary card is an `entities` card titled with the group's name. `show_header_toggle` is (`control` != `hidden`), `entities` is the cardless ids in order, and there is no other field. |
| Cards.UntitledCard | lovelace_migrate.py:202-203 | The view's extra card is an `entities` card listing the cardless ids, with no title. |
| Cards.ViewHead | lovelace_migrate.py:183-184 | `View(title=..., icon=...)` has the group's name and its `icon` attribute (absent when the group has none), and no other field. |
| Cards.ViewNode | lovelace_migrate.py:177-206 | There is a view exactly when the `view` flag is true. |
| Cards.ViewWithFields | lovelace_migrate.py:183-205 | The view keeps title and icon and has `cards` holding exactly the card list, even when it is empty. |
| Cards.ViewWithKeys | lovelace_migrate.py:183-205 | The view has no fields but `title`, `icon` and `cards`. |
| Groups.CollectMembers | lovelace_migrate.py:263-278 | The member loop leaves `cards` = what each found member contributes, in order, and `nocards` = the found members with no card, in order. |
| Groups.Visit | lovelace_migrate.py:265-278 | One pass skips a member missing from the registry and otherwise adds the member's contribution, or records its id as cardless. |
| Groups.Absorb | lovelace_migrate.py:272-278 | A list result extends `cards`, a card is appended, and None records the id as cardless. |
| Groups.VisitStep | lovelace_migrate.py:272-278 | One more resolution extends the cards by its contribution and the cardless ids by its id. |
| Groups.EntitiesCardFromGroupConfig | lovelace_migrate.py:259-286 | `EntitiesCard.from_group_config` returns `GroupCards`. |
| Groups.GroupCardsShape | lovelace_migrate.py:259-286 | Without cardless members the result is exactly the other cards, possibly none. Otherwise it is the primary card, with the fields of `PrimaryCard` over the cardless ids, followed by exactly the other cards in order. |
| Groups.CardlessMembers | lovelace_migrate.py:265-278 | An id is listed as cardless exactly when it is a member, is registered, and `Card.from_config` gives None for it. |
| Groups.CardlessIds | lovelace_migrate.py:277-278 | An id is cardless exactly when some resolution found it without a card. |
| Groups.Skipped | lovelace_migrate.py:267-270 | A member missing from the registry contributes to neither list: it appears in no output. |
| Groups.SkipOne | lovelace_migrate.py:267-270 | A missing member leaves both lists unchanged. |
| Groups.ExtraAppend | lovelace_migrate.py:272-276 | The cards of two runs of members concatenate. |
| Groups.CardlessAppend | lovelace_migrate.py:277-278 | The cardless ids of two runs of members concatenate. |
| Groups.MemberResolved | lovelace_migrate.py:187-194 | The `i`-th resolution is `Missing` for an unregistered member, and otherwise the member's `Card.from_config` result. |
| Groups.ViewCardsOf | lovelace_migrate.py:185-203 | The view's loop and prefixing leave `ViewCards`. |
| Groups.ViewFromGroupConfig | lovelace_migrate.py:177-206 | The method returns `ViewNode`: None for an unflagged group, else the view with its cards added. |
| Groups.AddCard | lovelace_migrate.py:173-175 | `add_card(cards)` is `add_item('cards', cards)` on the view. |
| Groups.ViewHeadOpen | lovelace_migrate.py:183-184 | A fresh view has no `cards` yet. |
| Groups.ViewNodeShape | lovelace_migrate.py:177-206 | A flagged group's view has its name and icon. Its `cards` is the other cards when no member is cardless, and otherwise the untitled entities card of the cardless ids followed by exactly the other cards. |
| Groups.CardsShape | lovelace_migrate.py:202-205 | The same shape, for any resolutions and the card list built from them. |
| Document.HomeTitle | lovelace_migrate.py:546 | `title or "Home"`: a given non-empty title is kept, and an absent or empty one becomes `Home`. |
| Document.DocBands | lovelace_migrate.py:542-543 | The document template puts `title`, `resources`, `excluded_entities` first and `views` last. |
| Document.DocKeys | lovelace_migrate.py:542-546 | `title` and then `views` is the document's sorted key order. |
| Document.StatesIndexed | lovelace_migrate.py:623-639 | The two indexes of one dump agree: each table row is the registry's record for `domain.object_id`, and each table lists its keys once. |
| Document.StatesDomains | lovelace_migrate.py:627 | No domain contains a dot. |
| Document.GroupRows | lovelace_migrate.py:548 | `states.get('group', {})` holds registered group records, each once. |
| Document.Flagged | lovelace_migrate.py:549-550 | Exactly the view-flagged groups are kept from the group table. |
| Document.FlaggedAppend | lovelace_migrate.py:549-550 | The filter keeps table order. |
| Document.FlaggedNoDup | lovelace_migrate.py:549-550 | The flagged ids are distinct. |
| Document.ViewOrderProperties | lovelace_migrate.py:552-557 | The view order lists exactly the flagged ids, each once, with `default_view` first when flagged, and every other id in table order. |
| Document.ViewOrderSplit | lovelace_migrate.py:552-557 | The view order is `default_view`, when flagged, followed by the rest. |
| Document.GroupViewFor | lovelace_migrate.py:553-554 | `View.from_config` on a group record reaches `View.from_group_config`. |
| Document.GroupViewNode | lovelace_migrate.py:553-557 | `add_view` never receives a list. |
| Document.GroupViewsAt | lovelace_migrate.py:556-557 | There is one view value per id, and the value at each place belongs to the id at that place. |
| Document.DocumentStep | lovelace_migrate.py:567-569 | Adding a view to a document appends it to `views`. |
| Document.FirstView | lovelace_migrate.py:567-569 | The first view creates `views` after `title`. |
| Document.NextView | lovelace_migrate.py:567-569 | A later view is appended to the existing `views`. |
| Document.AddView | lovelace_migrate.py:567-569 | `add_view(view)` is `add_item('views', view)`. |
| Document.AddDocView | lovelace_migrate.py:567-569 | A view is appended to the document's views, and None is ignored. |
| Document.AddResource | lovelace_migrate.py:559-562 | `add_resource(url)` adds `Resource(url=url)` under `resources`. |
| Document.EmptyDocument | lovelace_migrate.py:540-544 | A fresh document object under the document template, with no keys and no values. |
| Document.TitledDocument | lovelace_migrate.py:540-546 | A fresh document after `title` is set holds only `title` = `title or "Home"`. |
| Document.TitledNode | lovelace_migrate.py:546 | Setting `title` on the empty node gives the titled document. |
| Document.EmptyNode | lovelace_migrate.py:544 | `__init__()` without arguments leaves an empty node. |
| Document.NewLovelace | lovelace_migrate.py:540-557 | `Lovelace(states, title)` leaves the document `Lovelace`: its title, then the views of the flagged groups in view order. |
| Document.AddFlaggedViews | lovelace_migrate.py:552-557 | Popping and adding `default_view`, then adding the rest in order, leaves views in view order. |
| Document.AddDefaultView | lovelace_migrate.py:552-554 | The `default_view` group's view, when flagged, is the document's first view. |
| Document.AddRemainingViews | lovelace_migrate.py:556-557 | The loop adds the remaining views in table order. |
| Document.AddGroupView | lovelace_migrate.py:557 | One pass adds the next group's view. |
| Document.SplitViews | lovelace_migrate.py:552-557 | The default view followed by the rest are the views of the whole view order. |
| Document.FlaggedViews | lovelace_migrate.py:549-557 | A flagged group always yields its view, titled with its name. |
| Document.LovelaceViews | lovelace_migrate.py:548-557 | The document has exactly one view per flagged group, in view order: none is dropped. |
| Document.PresentAll | lovelace_migrate.py:116 | With no None among the views, `add_item` drops nothing. |

## Left out

- `HomeAssistantAPI` (HTTP requests, the password prompt, retry on 401, the response cache): network and terminal I/O.
- `main` and the argument parser: file and stdin input, logging setup, printing. The states dump is a parameter.
- `ordered_dump`: YAML emission through PyYAML, a foreign library. The document is the ordered value it would print.
- `dd`, `invalid_config` and the other log calls: a failure is modelled only as the missing node.
- `str.title` is modelled on ASCII letters only. Every other character counts as a non-letter and is left unchanged.
- The dict branch of `add_resource` passes a dict positionally to a keyword-only constructor and would raise. Only the string branch is modelled. Nothing in the source calls `add_resource`.
- The commented-out `AUTO_DOMAINS` table is not live code.
- The `'entity_id' not in config` branch of `LovelaceBase.from_config`: every record in the model carries its id, and every caller passes a registry record.
- The `eid` calls without arguments, and `friendly_name` given a bare object id or entity id: the core only passes records.
- `sortkeys`'s `key_order` and `delim` parameters: every call uses the defaults, the instance's template and `'...'`.
- `add_entity`, `add_state_filter`, `add_element` and the stack cards' `add_card`: each is `add_item` under a fixed key (`OrderedNode.LovelaceBase.AddItem`), and the core never calls them.
- `CustomCard`'s `self.resource` attribute is returned beside the node as the second component (`Cards.CustomResource`).
- Cards.CustomCard: for a caller template that repeats a key, only the template chosen, the key set and the values are stated, not the resulting key order.
- Nested nodes are stored in their parent as snapshot values, so aliasing between a node object and its copy inside a parent is not modelled. It cannot be observed, because nothing changes a node after it is added.
- Numbers are unbounded integers. A JSON number with a fraction (a float) cannot be represented. The source meets floats in the values it copies verbatim, such as a history graph's `hours_to_show` and `refresh`, and in a float `view` flag, whose truthiness decides whether a group is converted (lovelace_migrate.py:180, 550).
- A record without an `attributes` map cannot be represented: every `State` carries one. The source raises `KeyError` on such a record when it reads its attributes: for any group row, when `Lovelace.__init__` filters the view-flagged groups (lovelace_migrate.py:550), and in the builders (lovelace_migrate.py:180, 262, 339).
- Cyclic group membership among the reached groups: the source recurses without bound. The model requires acyclic nesting among the records in `rank` (`ValidRank`). Groups outside `rank` may form cycles.
- Inputs on which the source raises are ruled out as follows. `WellFormed` rules out an id without a dot, anywhere in the dump. `ValidRank` rules out, only among the reached records, a history graph without `entity_id` and a member list that is not iterable.
- OrderedNode.LovelaceBase.SortKeys: the three-band order is proved for templates without repeated keys. Every template in the source satisfies this (`Cards.KeyOrderDistinct`). For other templates the contract states only that the key set is unchanged.
- OrderedNode.LovelaceBase.constructor: equality with `Construct` is stated for templates without repeated keys, for the same reason.
- OrderedNode.LovelaceBase.AddItem: the exact resulting node is stated for templates without repeated keys. Otherwise only the key set is stated.
- OrderedNode.LovelaceBase.AddItem: it requires an existing value under `key` to be a list. On any other value the source's `extend`/`append` would raise.
- OrderedNode.LovelaceBase.SetItem: the order after inserting a new key is stated for templates without repeated keys.
- OrderedNode.LovelaceBase.Update: the resulting key order is stated for templates without repeated keys, starting from a key order already sorted by the template (as every node's order is between calls).
- OrderedNode.LovelaceBase.Init: the same proviso as `Update`.
