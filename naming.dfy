/** Entity records and the names derived from them: `eid` and `friendly_name`. */
module Naming {
  import opened Json
  import opened Seqs

  /** One entity-state record of the states dump: its `entity_id` and its
      `attributes` mapping (the remaining fields of a record are never read). */
  datatype State = State(entityId: string, attributes: map<string, Value>)

  /** `eid`: `entity_id.split('.', 1)`, the domain before the first dot and the
      object id after it. Python raises when the id has no dot. */
  function Eid(id: string): (r: (string, string))
    requires '.' in id
    ensures id == r.0 + "." + r.1
    ensures '.' !in r.0
  {
    var i := IndexOf(id, '.');
    assert id == id[..i] + "." + id[i + 1..];
    (id[..i], id[i + 1..])
  }

  /** Splitting is the inverse of joining a dot-free domain to any object id. */
  lemma EidJoin(domain: string, objectId: string)
    requires '.' !in domain
    ensures '.' in domain + "." + objectId
    ensures Eid(domain + "." + objectId) == (domain, objectId)
  {
    var id := domain + "." + objectId;
    assert id[|domain|] == '.';
    forall j | 0 <= j < |domain| ensures id[j] != '.' { assert id[j] == domain[j]; }
    assert IndexOf(id, '.') == |domain|;
    assert id[..|domain|] == domain;
    assert id[|domain| + 1..] == objectId;
  }

  /** Only the first dot splits: the object id may itself hold dots. */
  lemma EidFirstDot()
    ensures '.' in "sensor.outside.temp"
    ensures Eid("sensor.outside.temp") == ("sensor", "outside.temp")
  {
    EidJoin("sensor", "outside.temp");
    assert "sensor" + "." + "outside.temp" == "sensor.outside.temp";
  }

  predicate IsUpper(c: char) { 'A' <= c <= 'Z' }
  predicate IsLower(c: char) { 'a' <= c <= 'z' }

  /** A cased character; only ASCII letters are modelled. */
  predicate IsLetter(c: char) { IsUpper(c) || IsLower(c) }

  function ToUpper(c: char): (r: char)
    ensures IsLower(c) ==> IsUpper(r) && r as int == c as int - 32
    ensures !IsLower(c) ==> r == c
  {
    if IsLower(c) then (c as int - 32) as char else c
  }

  function ToLower(c: char): (r: char)
    ensures IsUpper(c) ==> IsLower(r) && r as int == c as int + 32
    ensures !IsUpper(c) ==> r == c
  {
    if IsUpper(c) then (c as int + 32) as char else c
  }

  /** Python `str.title` as a scan: a character following a cased character is
      lower-cased, any other is upper-cased; `previous` says whether the character
      before `s` was cased. */
  function TitleScan(s: string, previous: bool): (r: string)
    ensures |r| == |s|
  {
    if s == [] then []
    else [if previous then ToLower(s[0]) else ToUpper(s[0])] + TitleScan(s[1..], IsLetter(s[0]))
  }

  /** `str.title` over ASCII. */
  function TitleCase(s: string): (r: string)
    ensures |r| == |s|
  {
    TitleScan(s, false)
  }

  /** Pointwise reading of the scan: a letter at the start or after a non-letter is
      upper-cased, a letter after a letter lower-cased, and a non-letter kept. */
  lemma {:induction false} TitleScanAt(s: string, previous: bool, i: nat)
    requires i < |s|
    ensures TitleScan(s, previous)[i]
      == if (if i == 0 then previous else IsLetter(s[i - 1])) then ToLower(s[i]) else ToUpper(s[i])
  {
    if i > 0 {
      TitleScanAt(s[1..], IsLetter(s[0]), i - 1);
      if i > 1 { assert s[1..][i - 2] == s[i - 1]; }
    }
  }

  /** `title()` capitalises each word and lower-cases the rest of it. */
  lemma TitleCaseAt(s: string, i: nat)
    requires i < |s|
    ensures i == 0 || !IsLetter(s[i - 1]) ==> TitleCase(s)[i] == ToUpper(s[i])
    ensures i > 0 && IsLetter(s[i - 1]) ==> TitleCase(s)[i] == ToLower(s[i])
    ensures !IsLetter(s[i]) ==> TitleCase(s)[i] == s[i]
  {
    TitleScanAt(s, false, i);
  }

  /** Title-casing a title-cased string changes nothing. */
  lemma TitleCaseIdempotent(s: string)
    ensures TitleCase(TitleCase(s)) == TitleCase(s)
  {
    var t := TitleCase(s);
    forall i | 0 <= i < |s| ensures TitleCase(t)[i] == t[i] {
      TitleCaseAt(s, i);
      TitleCaseAt(t, i);
      assert IsLetter(t[i]) <==> IsLetter(s[i]);
      if i > 0 {
        TitleCaseAt(s, i - 1);
        assert IsLetter(t[i - 1]) <==> IsLetter(s[i - 1]);
      }
    }
  }

  /** `s.replace('_', ' ')`. */
  function Underscores(s: string): (r: string)
    ensures |r| == |s|
    ensures forall i :: 0 <= i < |s| ==> r[i] == if s[i] == '_' then ' ' else s[i]
  {
    if s == [] then [] else [if s[0] == '_' then ' ' else s[0]] + Underscores(s[1..])
  }

  /** The name derived from an object id: underscores become spaces, then `title()`. */
  function DerivedName(objectId: string): (r: string)
    ensures |r| == |objectId|
  {
    TitleCase(Underscores(objectId))
  }

  /** `friendly_name(config)`: the record's `friendly_name` attribute, whatever it
      holds (even None or the empty string), else the name derived from the object id.
      Python raises when neither is available. */
  function FriendlyName(c: State): (r: Value)
    requires "friendly_name" in c.attributes || '.' in c.entityId
    ensures "friendly_name" in c.attributes ==> r == c.attributes["friendly_name"]
    ensures "friendly_name" !in c.attributes ==> r.Str? && |r.s| == |Eid(c.entityId).1|
  {
    if "friendly_name" in c.attributes then c.attributes["friendly_name"]
    else Str(DerivedName(Eid(c.entityId).1))
  }

  /** Without the attribute, the name is the title-cased object id with spaces for
      underscores, and its letters are capitalised per word. */
  lemma FriendlyNameDerived(c: State, i: nat)
    requires "friendly_name" !in c.attributes && '.' in c.entityId
    requires i < |Eid(c.entityId).1|
    ensures var o := Eid(c.entityId).1; var n := FriendlyName(c).s;
      && (o[i] == '_' ==> n[i] == ' ')
      && (o[i] != '_' && (i == 0 || o[i - 1] == '_' || !IsLetter(o[i - 1])) ==> n[i] == ToUpper(o[i]))
      && (o[i] != '_' && i > 0 && IsLetter(o[i - 1]) ==> n[i] == ToLower(o[i]))
  {
    var o := Eid(c.entityId).1;
    TitleCaseAt(Underscores(o), i);
  }

  /** `fan.ac_unit` is named "Ac Unit": each word capitalised, the rest lower-cased. */
  lemma AcUnitName()
    ensures FriendlyName(State("fan.ac_unit", map[])) == Str("Ac Unit")
  {
    EidJoin("fan", "ac_unit");
    assert "fan" + "." + "ac_unit" == "fan.ac_unit";
    AcUnitSpaced();
    AcUnitTitled();
  }

  lemma AcUnitSpaced()
    ensures Underscores("ac_unit") == "ac unit"
  {
    var u := Underscores("ac_unit");
    assert u[0] == 'a' && u[1] == 'c' && u[2] == ' ' && u[3] == 'u' && u[4] == 'n' && u[5] == 'i' && u[6] == 't';
  }

  lemma AcUnitTitled()
    ensures TitleCase("ac unit") == "Ac Unit"
  {
    var u := "ac unit";
    var t := TitleCase(u);
    TitleCaseAt(u, 0);
    TitleCaseAt(u, 1);
    TitleCaseAt(u, 2);
    TitleCaseAt(u, 3);
    TitleCaseAt(u, 4);
    TitleCaseAt(u, 5);
    TitleCaseAt(u, 6);
    assert t[0] == 'A' && t[1] == 'c' && t[2] == ' ' && t[3] == 'U' && t[4] == 'n' && t[5] == 'i' && t[6] == 't';
  }
}
