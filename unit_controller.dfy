/** The unit controller's document transforms (unit/unit.controller.ts):
    splitting a unit document into its reserved fields and its cards, building
    the stored unit, resolving and saving its relations, and formatting a
    stored unit and its relations for a reader. */
module Units {
  import opened Json
  import opened Common
  import opened Cards
  import opened RelationUtil

  /** Keys of a unit document that never become cards. */
  const ReservedKeys: seq<string> := ["title", "gender", "images", "relations"]

  /** A unit as the unit service finds it by title. */
  datatype UnitRecord = UnitRecord(id: string, title: Option<Json>)

  /** The unit buildUnit produces; relations are not part of it. */
  datatype Unit = Unit(title: Option<Json>, gender: Option<Json>, images: Option<Json>, cards: seq<Card>)

  /** The store writes saveUnit issues. */
  datatype Write = InsertUnit(unit: Unit) | InsertRelation(relation: Relation)

  // ---------------------------------------------------------------- cards

  /** The detail built from one element of a card body, reading its top-level
      `text`, `keys`, `type` and `status`. */
  function DetailOf(e: Json): (d: Detail)
    requires !e.JNull?
    ensures e.JObj? ==>
              d == BuiltDetail(Get(e.members, "text"), Get(e.members, "keys"), Get(e.members, "type"), Get(e.members, "status"))
    ensures !e.JObj? ==> d == BuiltDetail(None, None, None, None)
  {
    BuiltDetail(Prop(e, "text").value, Prop(e, "keys").value, Prop(e, "type").value, Prop(e, "status").value)
  }

  /** What getDetails gives for a card body: a detail per element, in order;
      `forEach` on a non-array, or a property read on a null element, throws. */
  function CardBodyDetails(body: Json): (r: Result<seq<Detail>>)
    ensures r.Ok? <==> body.JArr? && forall i :: 0 <= i < |body.items| ==> !body.items[i].JNull?
    ensures r.Ok? ==> |r.value| == |body.items| &&
                      forall i :: 0 <= i < |body.items| ==> r.value[i] == DetailOf(body.items[i])
  {
    if body.JArr? && forall i :: 0 <= i < |body.items| ==> !body.items[i].JNull? then
      Ok(seq(|body.items|, i requires 0 <= i < |body.items| => DetailOf(body.items[i])))
    else TypeError
  }

  /** getDetails: one builder is reused for every element; since each build
      resets it, no field of one detail reaches the next. */
  method GetDetails(cardBody: Json) returns (r: Result<seq<Detail>>)
    ensures r == CardBodyDetails(cardBody)
  {
    if !cardBody.JArr? {
      return TypeError;
    }
    var items := cardBody.items;
    var details: seq<Detail> := [];
    var builder := new DetailsBuilder();
    var i := 0;
    while i < |items|
      invariant 0 <= i <= |items|
      invariant builder.detail == EmptyDetail
      invariant forall j :: 0 <= j < i ==> !items[j].JNull?
      invariant |details| == i && forall j :: 0 <= j < i ==> details[j] == DetailOf(items[j])
    {
      var e := items[i];
      if e.JNull? {
        return TypeError;
      }
      var b := builder.SetText(Prop(e, "text").value);
      b := b.SetKeys(Prop(e, "keys").value);
      b := b.SetType(Prop(e, "type").value);
      b := b.SetStatus(Prop(e, "status").value);
      var d := b.Build();
      details := details + [d];
      i := i + 1;
    }
    assert details == CardBodyDetails(cardBody).value;
    return Ok(details);
  }

  predicate Reserved(key: string) {
    key in ReservedKeys
  }

  /** What getCards gives for a unit document: a card per non-reserved key,
      in key order, named by the key. */
  function CardsOf(body: seq<Member>): Result<seq<Card>>
    decreases |body|
  {
    if body == [] then Ok([])
    else
      var last := body[|body| - 1];
      match CardsOf(body[..|body| - 1])
      case TypeError => TypeError
      case Ok(cards) =>
        if Reserved(last.key) then Ok(cards)
        else
          match CardBodyDetails(last.value)
          case TypeError => TypeError
          case Ok(details) => Ok(cards + [Card(last.key, details)])
  }

  /** The non-reserved keys, in order. */
  function CardKeys(body: seq<Member>): seq<string>
    decreases |body|
  {
    if body == [] then []
    else
      var last := body[|body| - 1];
      CardKeys(body[..|body| - 1]) + (if Reserved(last.key) then [] else [last.key])
  }

  /** The cards are named by the non-reserved keys in key order, so a
      reserved key never becomes a card, and each card holds the details of
      its own key's value. */
  lemma {:induction false} CardsOfNames(body: seq<Member>)
    requires CardsOf(body).Ok?
    ensures |CardsOf(body).value| == |CardKeys(body)|
    ensures forall i :: 0 <= i < |CardKeys(body)| ==> CardsOf(body).value[i].name == CardKeys(body)[i]
    ensures forall i :: 0 <= i < |CardKeys(body)| ==> !Reserved(CardKeys(body)[i])
    ensures forall c :: c in CardsOf(body).value ==>
              exists m :: m in body && m.key == c.name && !Reserved(m.key) && CardBodyDetails(m.value) == Ok(c.details)
    decreases |body|
  {
    if body != [] {
      var init := body[..|body| - 1];
      CardsOfNames(init);
      forall m | m in init ensures m in body {
        var k :| 0 <= k < |init| && init[k] == m;
        assert body[k] == m;
      }
    }
  }

  /** A unit document splits without error exactly when every non-reserved
      key holds an array with no null element. */
  lemma {:induction false} CardsOfSucceeds(body: seq<Member>)
    ensures CardsOf(body).Ok? <==>
              forall i :: 0 <= i < |body| && !Reserved(body[i].key) ==> CardBodyDetails(body[i].value).Ok?
    decreases |body|
  {
    if body != [] {
      var init := body[..|body| - 1];
      CardsOfSucceeds(init);
      assert forall i :: 0 <= i < |init| ==> init[i] == body[i];
    }
  }

  /** getCards. */
  method GetCards(unit: seq<Member>) returns (r: Result<seq<Card>>)
    ensures r == CardsOf(unit)
  {
    var cards: seq<Card> := [];
    var i := 0;
    while i < |unit|
      invariant 0 <= i <= |unit|
      invariant CardsOf(unit[..i]) == Ok(cards)
    {
      assert unit[..i + 1][..i] == unit[..i];
      var key := unit[i].key;
      if !(key in ReservedKeys) {
        var details := GetDetails(unit[i].value);
        if details.TypeError? {
          assert unit[..i + 1][..i] == unit[..i];
          CardsOfPrefixFails(unit, i + 1);
          assert unit[..|unit|] == unit;
          return TypeError;
        }
        cards := cards + [Card(key, details.value)];
      }
      i := i + 1;
    }
    assert unit[..|unit|] == unit;
    return Ok(cards);
  }

  /** Once a prefix fails to split, so does the whole document. */
  lemma {:induction false} CardsOfPrefixFails(body: seq<Member>, n: nat)
    requires n <= |body| && CardsOf(body[..n]).TypeError?
    ensures CardsOf(body).TypeError?
    decreases |body| - n
  {
    if n < |body| {
      assert body[..n + 1][..n] == body[..n];
      CardsOfPrefixFails(body, n + 1);
    } else {
      assert body[..n] == body;
    }
  }

  /** buildUnit: title, gender and images copied as given, and the cards. */
  function BuildUnit(body: seq<Member>): (r: Result<Unit>)
    ensures r.Ok? <==> CardsOf(body).Ok?
    ensures r.Ok? ==> r.value == Unit(Get(body, "title"), Get(body, "gender"), Get(body, "images"), CardsOf(body).value)
  {
    match CardsOf(body)
    case TypeError => TypeError
    case Ok(cards) => Ok(Unit(Get(body, "title"), Get(body, "gender"), Get(body, "images"), cards))
  }

  // ---------------------------------------------------------------- unit names

  /** searchUnitByTitle: every stored unit with the title, in store order. */
  function FindByTitle(units: seq<UnitRecord>, title: Option<Json>): (found: seq<UnitRecord>)
    ensures forall u :: u in found <==> u in units && u.title == title
    decreases |units|
  {
    if units == [] then []
    else
      assert forall u :: u in units <==> u == units[0] || u in units[1..];
      (if units[0].title == title then [units[0]] else []) + FindByTitle(units[1..], title)
  }

  /** The first unit found is the first stored unit with the title. */
  lemma {:induction false} FindByTitleFirst(units: seq<UnitRecord>, title: Option<Json>)
    requires FindByTitle(units, title) != []
    ensures exists k :: 0 <= k < |units| && FindByTitle(units, title)[0] == units[k] && units[k].title == title &&
                        forall j :: 0 <= j < k ==> units[j].title != title
    decreases |units|
  {
    if units[0].title != title {
      FindByTitleFirst(units[1..], title);
      var k :| 0 <= k < |units[1..]| && FindByTitle(units[1..], title)[0] == units[1..][k] && units[1..][k].title == title &&
               forall j :: 0 <= j < k ==> units[1..][j].title != title;
      assert units[k + 1] == units[1..][k];
      forall j | 0 <= j < k + 1 ensures units[j].title != title {
        if j > 0 { assert units[j] == units[1..][j - 1]; }
      }
    }
  }

  /** The array searchUnitByTitle resolves to, as JavaScript sees it: one
      document per unit found. */
  function FoundArray(found: seq<UnitRecord>): Json {
    JArr(seq(|found|, i requires 0 <= i < |found| => JObj([Member("_id", JStr(found[i].id)), Member("title", if found[i].title.Some? then found[i].title.value else JNull)])))
  }

  /** The name check of saveUnit as written: `if (unitFound)` tests the array
      itself, and an array, even an empty one, is truthy. */
  function TitleTakenAsWritten(units: seq<UnitRecord>, title: Option<Json>): (taken: bool)
    ensures taken
  {
    Truthy(FoundArray(FindByTitle(units, title)))
  }

  /** The name check as intended: some stored unit already has the title. */
  function TitleTaken(units: seq<UnitRecord>, title: Option<Json>): (taken: bool)
    ensures taken <==> exists u :: u in units && u.title == title
  {
    var found := FindByTitle(units, title);
    assert found != [] ==> found[0] in found;
    found != []
  }

  /** On an empty store the check as written still reports the name as taken,
      where the intended check finds it free. */
  lemma TitleCheckOnEmptyStore(title: Option<Json>)
    ensures TitleTakenAsWritten([], title) && !TitleTaken([], title)
  {
  }

  /** One step of the inner loop of getUnitIdRelations: an id is pushed, or
      the loop stops with an error message. */
  datatype NameStep = Pushed(id: Option<Json>) | Stop(message: string)

  function UnitNotFound(name: Json): string {
    "Unit " + Display(name) + " not found"
  }

  /** The step as written: `if (unit)` is the always-truthy array, and
      `unit._id` of an array is `undefined`, so the id pushed is always
      undefined and a missing unit is never reported. */
  function ResolveNameAsWritten(units: seq<UnitRecord>, name: Json): (step: NameStep)
    ensures step == Pushed(None)
  {
    var unit := FoundArray(FindByTitle(units, Some(name)));
    if Truthy(unit) then Pushed(Prop(unit, "_id").value) else Stop(UnitNotFound(name))
  }

  /** The step as intended: the id of the first unit with that title, or
      "Unit <name> not found" when there is none. */
  function ResolveName(units: seq<UnitRecord>, name: Json): (step: NameStep)
    ensures step.Stop? <==> forall u :: u in units ==> u.title != Some(name)
    ensures step.Stop? ==> step.message == UnitNotFound(name)
    ensures step.Pushed? ==>
              exists k :: 0 <= k < |units| && units[k].title == Some(name) && step.id == Some(JStr(units[k].id)) &&
                          forall j :: 0 <= j < k ==> units[j].title != Some(name)
  {
    var found := FindByTitle(units, Some(name));
    if found != [] then
      FindByTitleFirst(units, Some(name));
      Pushed(Some(JStr(found[0].id)))
    else Stop(UnitNotFound(name))
  }

  /** A unit that is not stored: as written its name resolves to undefined,
      as intended it stops the save with "Unit A not found". */
  lemma MissingUnitAsWritten()
    ensures ResolveNameAsWritten([], JStr("A")) == Pushed(None)
    ensures ResolveName([], JStr("A")) == Stop("Unit A not found")
  {
  }

  // ---------------------------------------------------------------- relations

  /** The ids the names of one relation resolve to, or the first error. */
  datatype Names = AllIds(ids: seq<string>) | Missing(message: string)

  function ResolveNames(units: seq<UnitRecord>, names: seq<Json>): Names
    decreases |names|
  {
    if names == [] then AllIds([])
    else
      match ResolveName(units, names[0])
      case Stop(m) => Missing(m)
      case Pushed(id) => Prepend([id.value.s], ResolveNames(units, names[1..]))
  }

  function Prepend(ids: seq<string>, r: Names): Names {
    match r
    case AllIds(rest) => AllIds(ids + rest)
    case Missing(_) => r
  }

  /** When every name resolves, each name has the id of its first stored
      match, in order. */
  lemma {:induction false} ResolveNamesAllIds(units: seq<UnitRecord>, names: seq<Json>)
    requires ResolveNames(units, names).AllIds?
    ensures var ids := ResolveNames(units, names).ids;
            |ids| == |names| && forall j :: 0 <= j < |names| ==> ResolveName(units, names[j]) == Pushed(Some(JStr(ids[j])))
    decreases |names|
  {
    if names != [] {
      ResolveNamesAllIds(units, names[1..]);
      var ids := ResolveNames(units, names).ids;
      forall j | 0 <= j < |names| ensures ResolveName(units, names[j]) == Pushed(Some(JStr(ids[j]))) {
        if j > 0 { assert names[j] == names[1..][j - 1]; }
      }
    }
  }

  /** An error names the first name with no stored unit; every name before it resolved. */
  lemma {:induction false} ResolveNamesMissing(units: seq<UnitRecord>, names: seq<Json>)
    requires ResolveNames(units, names).Missing?
    ensures exists j :: 0 <= j < |names| &&
              ResolveNames(units, names).message == UnitNotFound(names[j]) &&
              (forall u :: u in units ==> u.title != Some(names[j])) &&
              forall k :: 0 <= k < j ==> ResolveName(units, names[k]).Pushed?
    decreases |names|
  {
    var message := ResolveNames(units, names).message;
    if ResolveName(units, names[0]).Pushed? {
      var rest := names[1..];
      assert ResolveNames(units, rest).Missing? && ResolveNames(units, rest).message == message;
      ResolveNamesMissing(units, rest);
      var j :| 0 <= j < |rest| &&
               message == UnitNotFound(rest[j]) &&
               (forall u :: u in units ==> u.title != Some(rest[j])) &&
               forall k :: 0 <= k < j ==> ResolveName(units, rest[k]).Pushed?;
      assert names[j + 1] == rest[j];
      forall k | 0 <= k < j + 1 ensures ResolveName(units, names[k]).Pushed? {
        if k > 0 { assert names[k] == rest[k - 1]; }
      }
    } else {
      assert message == UnitNotFound(names[0]);
    }
  }


  /** What getUnitIdRelations leaves in `relationsId`, or its error message. */
  datatype Resolution = Resolved(relationsId: seq<Slot<seq<string>>>) | Unresolved(message: string)

  /** getUnitIdRelations from the entry list on, with `relationsId` so far;
      iterating a relation that is not an array or a string throws. */
  function ResolveFrom(units: seq<UnitRecord>, entries: seq<Member>, relationsId: seq<Slot<seq<string>>>): Result<Resolution>
    decreases |entries|
  {
    if entries == [] then Ok(Resolved(relationsId))
    else
      match Iterate(entries[0].value)
      case TypeError => TypeError
      case Ok(names) =>
        match ResolveNames(units, names)
        case Missing(m) => Ok(Unresolved(m))
        case AllIds(ids) => ResolveFrom(units, entries[1..], Assign(relationsId, entries[0].key, ids))
  }

  function ResolveRelations(units: seq<UnitRecord>, relations: Json): Result<Resolution> {
    ResolveFrom(units, Entries(relations), [])
  }

  /** Slot `s` of `relationsId` is what relation `e` resolved to: the same
      name, and the ids of all its listed units. */
  predicate ResolvedAs(units: seq<UnitRecord>, e: Member, s: Slot<seq<string>>) {
    s.key == e.key && Iterate(e.value).Ok? && ResolveNames(units, Iterate(e.value).value) == AllIds(s.value)
  }

  /** One step of a full resolution: the first relation resolves and its
      ids are appended under its (new) name. */
  lemma ResolvedStep(units: seq<UnitRecord>, entries: seq<Member>, acc: seq<Slot<seq<string>>>)
    requires entries != [] && Lookup(acc, entries[0].key).None?
    requires ResolveFrom(units, entries, acc).Ok? && ResolveFrom(units, entries, acc).value.Resolved?
    ensures Iterate(entries[0].value).Ok? && ResolveNames(units, Iterate(entries[0].value).value).AllIds?
    ensures var s := Slot(entries[0].key, ResolveNames(units, Iterate(entries[0].value).value).ids);
            && ResolvedAs(units, entries[0], s)
            && ResolveFrom(units, entries, acc) == ResolveFrom(units, entries[1..], acc + [s])
  {
  }

  /** `rid` extends `acc` by one slot per relation of `entries`, in order,
      each holding what that relation resolved to. */
  predicate ShapedAs(units: seq<UnitRecord>, entries: seq<Member>, acc: seq<Slot<seq<string>>>, rid: seq<Slot<seq<string>>>) {
    && |rid| == |acc| + |entries| && rid[..|acc|] == acc
    && forall i :: 0 <= i < |entries| ==> ResolvedAs(units, entries[i], rid[|acc| + i])
  }

  /** No relation name of `entries` repeats, or is already among `acc`'s. */
  predicate KeysClear(entries: seq<Member>, acc: seq<Slot<seq<string>>>) {
    && DistinctKeys(entries)
    && forall i, k :: 0 <= i < |entries| && 0 <= k < |acc| ==> entries[i].key != acc[k].key
  }

  /** Prepending the first relation's slot to a resolved tail. */
  lemma ResolvedCombine(units: seq<UnitRecord>, entries: seq<Member>, acc: seq<Slot<seq<string>>>, s: Slot<seq<string>>, rid: seq<Slot<seq<string>>>)
    requires entries != [] && ResolvedAs(units, entries[0], s)
    requires ShapedAs(units, entries[1..], acc + [s], rid)
    ensures ShapedAs(units, entries, acc, rid)
  {
    var next := acc + [s];
    var rest := entries[1..];
    assert rid[..|acc|] == rid[..|next|][..|acc|];
    assert rid[|acc|] == rid[..|next|][|acc|] == s;
    forall i | 0 <= i < |entries| ensures ResolvedAs(units, entries[i], rid[|acc| + i]) {
      if i > 0 {
        assert entries[i] == rest[i - 1] && |acc| + i == |next| + (i - 1);
      }
    }
  }

  /** The later relations' names stay clear of every name assigned so far. */
  lemma KeysClearAfter(entries: seq<Member>, acc: seq<Slot<seq<string>>>, s: Slot<seq<string>>)
    requires entries != [] && KeysClear(entries, acc) && s.key == entries[0].key
    ensures Lookup(acc, entries[0].key).None?
    ensures KeysClear(entries[1..], acc + [s])
  {
    var next := acc + [s];
    var rest := entries[1..];
    assert forall i :: 0 <= i < |rest| ==> rest[i] == entries[i + 1];
    forall i, k | 0 <= i < |rest| && 0 <= k < |next| ensures rest[i].key != next[k].key {
      if k < |acc| { assert next[k] == acc[k]; } else { assert entries[0].key != entries[i + 1].key; }
    }
  }

  /** For an object's relations, `relationsId` gets one property per relation
      name, in order, holding the ids of the units listed under it. */
  lemma {:induction false} ResolvedShape(units: seq<UnitRecord>, entries: seq<Member>, acc: seq<Slot<seq<string>>>)
    requires KeysClear(entries, acc)
    requires ResolveFrom(units, entries, acc).Ok? && ResolveFrom(units, entries, acc).value.Resolved?
    ensures ShapedAs(units, entries, acc, ResolveFrom(units, entries, acc).value.relationsId)
    decreases |entries|
  {
    if entries != [] {
      var s := Slot(entries[0].key, ResolveNames(units, Iterate(entries[0].value).value).ids);
      KeysClearAfter(entries, acc, s);
      ResolvedStep(units, entries, acc);
      ResolvedShape(units, entries[1..], acc + [s]);
      ResolvedCombine(units, entries, acc, s, ResolveFrom(units, entries[1..], acc + [s]).value.relationsId);
    }
  }

  /** The names listed under relation `e` iterate and all have a stored unit. */
  predicate ResolvesAll(units: seq<UnitRecord>, e: Member) {
    Iterate(e.value).Ok? && ResolveNames(units, Iterate(e.value).value).AllIds?
  }

  /** An error message comes from the first relation, in key order, that has
      a name with no stored unit: every relation before it resolves completely. */
  lemma {:induction false} UnresolvedNamesMissingUnit(units: seq<UnitRecord>, entries: seq<Member>, acc: seq<Slot<seq<string>>>)
    requires ResolveFrom(units, entries, acc).Ok? && ResolveFrom(units, entries, acc).value.Unresolved?
    ensures exists i :: 0 <= i < |entries| && Iterate(entries[i].value).Ok? &&
              ResolveNames(units, Iterate(entries[i].value).value) == Missing(ResolveFrom(units, entries, acc).value.message) &&
              forall k :: 0 <= k < i ==> ResolvesAll(units, entries[k])
    decreases |entries|
  {
    var message := ResolveFrom(units, entries, acc).value.message;
    var names := Iterate(entries[0].value).value;
    if ResolveNames(units, names).AllIds? {
      var rest := entries[1..];
      var next := Assign(acc, entries[0].key, ResolveNames(units, names).ids);
      assert ResolveFrom(units, rest, next) == ResolveFrom(units, entries, acc);
      UnresolvedNamesMissingUnit(units, rest, next);
      var i :| 0 <= i < |rest| && Iterate(rest[i].value).Ok? &&
               ResolveNames(units, Iterate(rest[i].value).value) == Missing(message) &&
               forall k :: 0 <= k < i ==> ResolvesAll(units, rest[k]);
      assert entries[i + 1] == rest[i];
      assert ResolvesAll(units, entries[0]);
      forall k | 0 <= k < i + 1 ensures ResolvesAll(units, entries[k]) {
        if k > 0 { assert entries[k] == rest[k - 1]; }
      }
    }
  }

  /** Resolving from position j on: a found name adds its id to those before it. */
  lemma ResolveNamesStep(units: seq<UnitRecord>, names: seq<Json>, j: nat, pushed: seq<string>)
    requires j < |names| && ResolveName(units, names[j]).Pushed?
    ensures Prepend(pushed, ResolveNames(units, names[j..])) ==
              Prepend(pushed + [ResolveName(units, names[j]).id.value.s], ResolveNames(units, names[j + 1..]))
  {
    assert names[j..][0] == names[j] && names[j..][1..] == names[j + 1..];
    var rest := ResolveNames(units, names[j + 1..]);
    if rest.AllIds? {
      assert pushed + ([ResolveName(units, names[j]).id.value.s] + rest.ids) == (pushed + [ResolveName(units, names[j]).id.value.s]) + rest.ids;
    }
  }

  /** The inner loop of getUnitIdRelations: each listed unit's id is pushed
      onto `relationsId[relationType]`, which starts empty; the first unit not
      found stops the loop with its message. */
  method PushUnitIds(relationsId: seq<Slot<seq<string>>>, relationType: string, names: seq<Json>, units: seq<UnitRecord>)
    returns (next: seq<Slot<seq<string>>>, error: Option<string>)
    requires Lookup(relationsId, relationType) == Some([])
    ensures ResolveNames(units, names).Missing? ==> error == Some(ResolveNames(units, names).message)
    ensures ResolveNames(units, names).AllIds? ==> error.None? && next == Assign(relationsId, relationType, ResolveNames(units, names).ids)
  {
    next := relationsId;
    var pushed: seq<string> := [];
    AssignSame(relationsId, relationType, pushed);
    var j := 0;
    while j < |names|
      invariant 0 <= j <= |names|
      invariant next == Assign(relationsId, relationType, pushed)
      invariant ResolveNames(units, names) == Prepend(pushed, ResolveNames(units, names[j..]))
    {
      var step := ResolveName(units, names[j]);
      if step.Stop? {
        assert names[j..] != [];
        return next, Some(step.message);
      }
      var id := step.id.value.s;
      AssignTwice(relationsId, relationType, pushed, pushed + [id]);
      next := Assign(next, relationType, Lookup(next, relationType).value + [id]);
      ResolveNamesStep(units, names, j, pushed);
      pushed := pushed + [id];
      j := j + 1;
    }
    assert names[j..] == [];
    assert pushed + [] == pushed;
    error := None;
  }

  /** getUnitIdRelations with the error fixed: for each relation name,
      `relationsId[name]` is reset and each listed unit's id pushed onto it; the
      first unit not found ends the search with its message. */
  method GetUnitIdRelations(relations: Json, units: seq<UnitRecord>) returns (r: Result<Resolution>)
    ensures r == ResolveRelations(units, relations)
  {
    var entries := Entries(relations);
    var relationsId: seq<Slot<seq<string>>> := [];
    var i := 0;
    while i < |entries|
      invariant 0 <= i <= |entries|
      invariant ResolveRelations(units, relations) == ResolveFrom(units, entries[i..], relationsId)
    {
      var relationType := entries[i].key;
      ghost var before := relationsId;
      relationsId := Assign(relationsId, relationType, []);
      var names := Iterate(entries[i].value);
      if names.TypeError? {
        return TypeError;
      }
      var error;
      relationsId, error := PushUnitIds(relationsId, relationType, names.value, units);
      if error.Some? {
        return Ok(Unresolved(error.value));
      }
      AssignTwice(before, relationType, [], ResolveNames(units, names.value).ids);
      assert entries[i..][1..] == entries[i + 1..];
      i := i + 1;
    }
    return Ok(Resolved(relationsId));
  }

  /** The relations saveRelations stores, one per id, typed by the name it
      was listed under. */
  function RelationRecords(relationsId: seq<Slot<seq<string>>>, unitFrom: string): seq<Relation>
    decreases |relationsId|
  {
    if relationsId == [] then []
    else
      var last := relationsId[|relationsId| - 1];
      RelationRecords(relationsId[..|relationsId| - 1], unitFrom) +
        seq(|last.value|, j requires 0 <= j < |last.value| => Relation(unitFrom, last.value[j], GetRelationType(last.key)))
  }

  function IdCount(relationsId: seq<Slot<seq<string>>>): nat
    decreases |relationsId|
  {
    if relationsId == [] then 0 else IdCount(relationsId[..|relationsId| - 1]) + |relationsId[|relationsId| - 1].value|
  }

  /** One relation per resolved id, and exactly those: each goes from the new
      unit to a listed unit, typed by its relation name. */
  lemma {:induction false} RelationRecordsMembers(relationsId: seq<Slot<seq<string>>>, unitFrom: string)
    ensures |RelationRecords(relationsId, unitFrom)| == IdCount(relationsId)
    ensures forall r :: r in RelationRecords(relationsId, unitFrom) <==>
              exists i, j :: 0 <= i < |relationsId| && 0 <= j < |relationsId[i].value| &&
                             r == Relation(unitFrom, relationsId[i].value[j], GetRelationType(relationsId[i].key))
    decreases |relationsId|
  {
    if relationsId != [] {
      var init := relationsId[..|relationsId| - 1];
      var last := relationsId[|relationsId| - 1];
      RelationRecordsMembers(init, unitFrom);
      var tail := seq(|last.value|, j requires 0 <= j < |last.value| => Relation(unitFrom, last.value[j], GetRelationType(last.key)));
      forall r ensures r in RelationRecords(relationsId, unitFrom) <==>
              exists i, j :: 0 <= i < |relationsId| && 0 <= j < |relationsId[i].value| &&
                             r == Relation(unitFrom, relationsId[i].value[j], GetRelationType(relationsId[i].key))
      {
        if r in RelationRecords(relationsId, unitFrom) {
          if r in tail {
            var j :| 0 <= j < |tail| && tail[j] == r;
            assert r == Relation(unitFrom, relationsId[|relationsId| - 1].value[j], GetRelationType(relationsId[|relationsId| - 1].key));
          } else {
            assert r in RelationRecords(init, unitFrom);
            var i, j :| 0 <= i < |init| && 0 <= j < |init[i].value| &&
                        r == Relation(unitFrom, init[i].value[j], GetRelationType(init[i].key));
            assert init[i] == relationsId[i];
          }
        }
        if exists i, j :: 0 <= i < |relationsId| && 0 <= j < |relationsId[i].value| &&
                          r == Relation(unitFrom, relationsId[i].value[j], GetRelationType(relationsId[i].key)) {
          var i, j :| 0 <= i < |relationsId| && 0 <= j < |relationsId[i].value| &&
                      r == Relation(unitFrom, relationsId[i].value[j], GetRelationType(relationsId[i].key));
          if i == |relationsId| - 1 {
            assert r == tail[j];
          } else {
            assert init[i] == relationsId[i];
            assert r in RelationRecords(init, unitFrom);
          }
        }
      }
    }
  }

  /** saveRelations: a relation per id of each relation name, in order. */
  method SaveRelations(relationsId: seq<Slot<seq<string>>>, resultId: string) returns (relations: seq<Relation>)
    ensures relations == RelationRecords(relationsId, resultId)
  {
    relations := [];
    var i := 0;
    while i < |relationsId|
      invariant 0 <= i <= |relationsId|
      invariant relations == RelationRecords(relationsId[..i], resultId)
    {
      var relationType := relationsId[i].key;
      var ids := relationsId[i].value;
      ghost var start := relations;
      var j := 0;
      while j < |ids|
        invariant 0 <= j <= |ids|
        invariant relations == start + seq(j, k requires 0 <= k < j => Relation(resultId, ids[k], GetRelationType(relationType)))
      {
        relations := relations + [Relation(resultId, ids[j], GetRelationType(relationType))];
        j := j + 1;
      }
      assert relationsId[..i + 1][..i] == relationsId[..i];
      i := i + 1;
    }
    assert relationsId[..i] == relationsId;
  }

  // ---------------------------------------------------------------- saveUnit

  function Inserts(relations: seq<Relation>): (ws: seq<Write>)
    ensures |ws| == |relations| && forall i :: 0 <= i < |ws| ==> ws[i] == InsertRelation(relations[i])
  {
    seq(|relations|, i requires 0 <= i < |relations| => InsertRelation(relations[i]))
  }

  /** What saveUnit answers and stores, with the name checks fixed: the schema
      first, then the title, then the relations (only when the document lists
      any), then the unit is stored under `insertedId` and its relations after
      it.  A TypeError escapes the handler. */
  function SaveUnitOutcome(valid: bool, body: seq<Member>, units: seq<UnitRecord>, insertedId: string): (r: (Reply, seq<Write>))
    ensures !valid ==> r == (BadRequest("Invalid request"), [])
    ensures valid && TitleTaken(units, Get(body, "title")) ==> r == (BadRequest("Name already exists"), [])
    ensures r.0.Success? || r.0.BadRequest? || r.0.Unhandled?
    ensures !r.0.Success? ==> r.1 == []
  {
    if !valid then (BadRequest("Invalid request"), [])
    else if TitleTaken(units, Get(body, "title")) then (BadRequest("Name already exists"), [])
    else
      var relations := Get(body, "relations");
      var resolved := if Present(relations) then ResolveRelations(units, relations.value) else Ok(Resolved([]));
      match resolved
      case TypeError => (Unhandled, [])
      case Ok(Unresolved(m)) => (BadRequest(m), [])
      case Ok(Resolved(relationsId)) =>
        match BuildUnit(body)
        case TypeError => (Unhandled, [])
        case Ok(unit) => (Success, [InsertUnit(unit)] + Inserts(RelationRecords(relationsId, insertedId)))
  }

  /** saveUnit as written: once the schema accepts the document the name check
      always fires, so no unit is ever saved. */
  function SaveUnitAsWritten(valid: bool, body: seq<Member>, units: seq<UnitRecord>, insertedId: string): (r: (Reply, seq<Write>))
    ensures !valid ==> r == (BadRequest("Invalid request"), [])
    ensures valid ==> r == (BadRequest("Name already exists"), [])
  {
    if !valid then (BadRequest("Invalid request"), [])
    else if TitleTakenAsWritten(units, Get(body, "title")) then (BadRequest("Name already exists"), [])
    else SaveUnitOutcome(valid, body, units, insertedId)
  }

  /** A first unit with no cards and no relations: as written it is refused,
      as intended it is stored. */
  lemma FirstUnitAsWritten()
    ensures SaveUnitAsWritten(true, [Member("title", JStr("A"))], [], "1") == (BadRequest("Name already exists"), [])
    ensures SaveUnitOutcome(true, [Member("title", JStr("A"))], [], "1") ==
              (Success, [InsertUnit(Unit(Some(JStr("A")), None, None, []))])
  {
    var body := [Member("title", JStr("A"))];
    assert body[..0] == [];
    assert CardsOf(body) == Ok([]);
    assert !TitleTaken([], Get(body, "title"));
    assert Get(body, "relations") == None;
    assert BuildUnit(body) == Ok(Unit(Some(JStr("A")), None, None, []));
    assert RelationRecords([], "1") == [] && Inserts([]) == [];
    var unit := Unit(Some(JStr("A")), None, None, []);
    assert [InsertUnit(unit)] + Inserts(RelationRecords([], "1")) == [InsertUnit(unit)];
  }

  /** A saved unit passed every check, and is stored before its relations,
      each of which goes from the new unit. */
  lemma SaveUnitSuccess(valid: bool, body: seq<Member>, units: seq<UnitRecord>, insertedId: string)
    requires SaveUnitOutcome(valid, body, units, insertedId).0 == Success
    ensures valid && !TitleTaken(units, Get(body, "title")) && BuildUnit(body).Ok?
    ensures var writes := SaveUnitOutcome(valid, body, units, insertedId).1;
            && |writes| >= 1 && writes[0] == InsertUnit(BuildUnit(body).value)
            && (forall i :: 1 <= i < |writes| ==> writes[i].InsertRelation? && writes[i].relation.unitFrom == insertedId)
            && (!Present(Get(body, "relations")) ==> |writes| == 1)
  ensures Present(Get(body, "relations")) ==>
            var res := ResolveRelations(units, Get(body, "relations").value);
            && res.Ok? && res.value.Resolved?
            && SaveUnitOutcome(valid, body, units, insertedId).1[1..] == Inserts(RelationRecords(res.value.relationsId, insertedId))
  {
    var relations := Get(body, "relations");
    var resolved := if Present(relations) then ResolveRelations(units, relations.value) else Ok(Resolved([]));
    var relationsId := resolved.value.relationsId;
    var records := RelationRecords(relationsId, insertedId);
    RelationRecordsMembers(relationsId, insertedId);
    var writes := SaveUnitOutcome(valid, body, units, insertedId).1;
    forall i | 1 <= i < |writes| ensures writes[i].InsertRelation? && writes[i].relation.unitFrom == insertedId {
      assert writes[i] == InsertRelation(records[i - 1]);
      assert records[i - 1] in records;
    }
  }

  /** A relation list naming a unit that is not stored stops saveUnit with
      that list's message before anything is written. */
  lemma SaveUnitUnresolved(valid: bool, body: seq<Member>, units: seq<UnitRecord>, insertedId: string, m: string)
    requires valid && !TitleTaken(units, Get(body, "title")) && Present(Get(body, "relations"))
    requires ResolveRelations(units, Get(body, "relations").value) == Ok(Unresolved(m))
    ensures SaveUnitOutcome(valid, body, units, insertedId) == (BadRequest(m), [])
  {
  }

  /** saveUnit with the name checks fixed. */
  method SaveUnit(valid: bool, body: seq<Member>, units: seq<UnitRecord>, insertedId: string) returns (reply: Reply, writes: seq<Write>)
    ensures (reply, writes) == SaveUnitOutcome(valid, body, units, insertedId)
  {
    var relations := Get(body, "relations");
    if !valid {
      return BadRequest("Invalid request"), [];
    }
    if FindByTitle(units, Get(body, "title")) != [] {
      return BadRequest("Name already exists"), [];
    }
    var relationsId: seq<Slot<seq<string>>> := [];
    if Present(relations) {
      var resolved := GetUnitIdRelations(relations.value, units);
      if resolved.TypeError? {
        return Unhandled, [];
      }
      if resolved.value.Unresolved? {
        return BadRequest(resolved.value.message), [];
      }
      relationsId := resolved.value.relationsId;
    }
    var cards := GetCards(body);
    if cards.TypeError? {
      return Unhandled, [];
    }
    var unit := Unit(Get(body, "title"), Get(body, "gender"), Get(body, "images"), cards.value);
    assert BuildUnit(body) == Ok(unit);
    writes := [InsertUnit(unit)];
    if Present(relations) {
      var saved := SaveRelations(relationsId, insertedId);
      writes := writes + Inserts(saved);
    } else {
      assert RelationRecords([], insertedId) == [] && Inserts([]) == [];
      assert writes == [InsertUnit(unit)] + Inserts(RelationRecords(relationsId, insertedId));
    }
    reply := Success;
  }

  // ---------------------------------------------------------------- responses

  /** A property of the unit response: a copied field or a card's details. */
  datatype OutValue = Plain(value: Json) | DetailList(details: seq<Detail>)

  /** `unit.cards.forEach(card => unitResponse[card.name] = card.details)`. */
  function PutCards(out: seq<Slot<OutValue>>, cards: seq<Card>): seq<Slot<OutValue>>
    decreases |cards|
  {
    if cards == [] then out
    else
      var last := cards[|cards| - 1];
      Assign(PutCards(out, cards[..|cards| - 1]), last.name, DetailList(last.details))
  }

  /** Putting the cards leaves a key no card is named alone. */
  lemma {:induction false} PutCardsOtherKey(out: seq<Slot<OutValue>>, cards: seq<Card>, key: string)
    requires forall c :: c in cards ==> c.name != key
    ensures Lookup(PutCards(out, cards), key) == Lookup(out, key)
    decreases |cards|
  {
    if cards != [] {
      var init := cards[..|cards| - 1];
      assert cards[|cards| - 1] in cards;
      assert forall c :: c in init ==> c in cards;
      PutCardsOtherKey(out, init, key);
    }
  }

  /** Putting the cards gives a card's name the details of the last card of that name. */
  lemma {:induction false} PutCardsCard(out: seq<Slot<OutValue>>, cards: seq<Card>, j: nat)
    requires j < |cards| && forall k :: j < k < |cards| ==> cards[k].name != cards[j].name
    ensures Lookup(PutCards(out, cards), cards[j].name) == Some(DetailList(cards[j].details))
    decreases |cards|
  {
    var init := cards[..|cards| - 1];
    if j < |cards| - 1 {
      assert init[j] == cards[j];
      assert forall k :: j < k < |init| ==> init[k] == cards[k];
      PutCardsCard(out, init, j);
      assert cards[|cards| - 1].name != cards[j].name;
    }
  }

  /** formatUnitResponse over the stored unit's properties in key order; the
      property named `cards` stands for `unit.cards`, whose value is `cards`.
      A truthy property other than `cards` is copied; `cards` and every falsy
      property put all the cards' details. */
  function FormatSpec(fields: seq<Member>, cards: seq<Card>): seq<Slot<OutValue>>
    decreases |fields|
  {
    if fields == [] then []
    else
      var out := FormatSpec(fields[..|fields| - 1], cards);
      var last := fields[|fields| - 1];
      if last.key != "cards" && Truthy(last.value) then Assign(out, last.key, Plain(last.value))
      else PutCards(out, cards)
  }

  /** The unit response copies the stored fields and, once some property puts
      the cards, holds each card's details under its name. */
  predicate PutsCards(fields: seq<Member>) {
    exists i :: 0 <= i < |fields| && (fields[i].key == "cards" || !Truthy(fields[i].value))
  }

  /** Some property puts the cards when an earlier one does or the last one does. */
  lemma PutsCardsLast(fields: seq<Member>)
    requires fields != []
    ensures PutsCards(fields) <==>
              PutsCards(fields[..|fields| - 1]) ||
              fields[|fields| - 1].key == "cards" || !Truthy(fields[|fields| - 1].value)
  {
    var init := fields[..|fields| - 1];
    assert forall i :: 0 <= i < |init| ==> init[i] == fields[i];
  }

  /** A truthy field other than `cards` that no card is named after is
      copied with its value. */
  lemma {:induction false} FormatCopiesField(fields: seq<Member>, cards: seq<Card>, i: nat)
    requires DistinctKeys(fields) && i < |fields|
    requires fields[i].key != "cards" && Truthy(fields[i].value)
    requires forall c :: c in cards ==> c.name != fields[i].key
    ensures Lookup(FormatSpec(fields, cards), fields[i].key) == Some(Plain(fields[i].value))
    decreases |fields|
  {
    var init := fields[..|fields| - 1];
    var last := fields[|fields| - 1];
    if i < |fields| - 1 {
      assert init[i] == fields[i];
      assert forall a, b :: 0 <= a < b < |init| ==> init[a] == fields[a] && init[b] == fields[b];
      FormatCopiesField(init, cards, i);
      assert last.key != fields[i].key;
      if !(last.key != "cards" && Truthy(last.value)) {
        PutCardsOtherKey(FormatSpec(init, cards), cards, fields[i].key);
      }
    }
  }

  /** With distinct card names that are no field's key, a card's details
      appear under its name exactly when some property puts the cards. */
  lemma {:induction false} FormatPutsCard(fields: seq<Member>, cards: seq<Card>, j: nat)
    requires j < |cards| && forall a, b :: 0 <= a < b < |cards| ==> cards[a].name != cards[b].name
    requires forall i :: 0 <= i < |fields| ==> fields[i].key != cards[j].name
    ensures Lookup(FormatSpec(fields, cards), cards[j].name) ==
              if PutsCards(fields) then Some(DetailList(cards[j].details)) else None
    decreases |fields|
  {
    if fields != [] {
      var init := fields[..|fields| - 1];
      var last := fields[|fields| - 1];
      assert forall i :: 0 <= i < |init| ==> init[i] == fields[i];
      FormatPutsCard(init, cards, j);
      PutsCardsLast(fields);
      if !(last.key != "cards" && Truthy(last.value)) {
        PutCardsCard(FormatSpec(init, cards), cards, j);
      }
    }
  }

  /** A key that is neither a copied field nor a card's name does not appear;
      in particular the response has no `cards` key unless a card is named so. */
  lemma {:induction false} FormatOmits(fields: seq<Member>, cards: seq<Card>, key: string)
    requires forall i :: 0 <= i < |fields| && fields[i].key == key ==> key == "cards" || !Truthy(fields[i].value)
    requires forall c :: c in cards ==> c.name != key
    ensures Lookup(FormatSpec(fields, cards), key) == None
    decreases |fields|
  {
    if fields != [] {
      var init := fields[..|fields| - 1];
      var last := fields[|fields| - 1];
      assert forall i :: 0 <= i < |init| ==> init[i] == fields[i];
      FormatOmits(init, cards, key);
      if !(last.key != "cards" && Truthy(last.value)) {
        PutCardsOtherKey(FormatSpec(init, cards), cards, key);
      } else {
        assert last.key != key;
      }
    }
  }

  /** formatUnitResponse. */
  method FormatUnitResponse(fields: seq<Member>, cards: seq<Card>) returns (unitResponse: seq<Slot<OutValue>>)
    ensures unitResponse == FormatSpec(fields, cards)
  {
    unitResponse := [];
    var i := 0;
    while i < |fields|
      invariant 0 <= i <= |fields|
      invariant unitResponse == FormatSpec(fields[..i], cards)
    {
      var key := fields[i].key;
      assert fields[..i + 1][..i] == fields[..i];
      if key != "cards" && Truthy(fields[i].value) {
        unitResponse := Assign(unitResponse, key, Plain(fields[i].value));
      } else {
        ghost var start := unitResponse;
        var j := 0;
        while j < |cards|
          invariant 0 <= j <= |cards|
          invariant unitResponse == PutCards(start, cards[..j])
        {
          assert cards[..j + 1][..j] == cards[..j];
          unitResponse := Assign(unitResponse, cards[j].name, DetailList(cards[j].details));
          j := j + 1;
        }
        assert cards[..j] == cards;
      }
      i := i + 1;
    }
    assert fields[..i] == fields;
  }

  /** `getRelationKeyByType(relation.type)` used as a property name: a type
      outside RELATION_TYPE gives `undefined`, which names the key "undefined". */
  function RelationKey(kind: Option<RelationType>): string {
    if kind.Some? then GetRelationKeyByType(kind.value) else "undefined"
  }

  /** The titles formatRelationsUnitResponse lists under `key`, in order. */
  function TitlesWithKey(relations: seq<Relation>, titles: map<string, Option<Json>>, key: string): seq<Option<Json>>
    requires forall r :: r in relations ==> r.unitTo in titles
    decreases |relations|
  {
    if relations == [] then []
    else
      var last := relations[|relations| - 1];
      TitlesWithKey(relations[..|relations| - 1], titles, key) + (if RelationKey(last.kind) == key then [titles[last.unitTo]] else [])
  }

  /** formatRelationsUnitResponse over the stored relations in order;
      `titles` maps a unit id to that unit's `title` (None when it has none); a
      relation to an id searchNameById does not find reads `title` of null and
      throws. */
  function GroupSpec(relations: seq<Relation>, titles: map<string, Option<Json>>): Result<seq<Slot<seq<Option<Json>>>>>
    decreases |relations|
  {
    if relations == [] then Ok([])
    else
      var last := relations[|relations| - 1];
      match GroupSpec(relations[..|relations| - 1], titles)
      case TypeError => TypeError
      case Ok(out) =>
        if last.unitTo !in titles then TypeError
        else
          var key := RelationKey(last.kind);
          var title := titles[last.unitTo];
          match Lookup(out, key)
          case Some(list) => Ok(Assign(out, key, list + [title]))
          case None => Ok(Assign(out, key, [title]))
  }

  /** The grouping fails exactly when a related unit is missing. */
  lemma {:induction false} GroupSpecSucceeds(relations: seq<Relation>, titles: map<string, Option<Json>>)
    ensures GroupSpec(relations, titles).Ok? <==> forall r :: r in relations ==> r.unitTo in titles
    decreases |relations|
  {
    if relations != [] {
      var init := relations[..|relations| - 1];
      GroupSpecSucceeds(init, titles);
      assert relations == init + [relations[|relations| - 1]];
    }
  }

  /** Each relation name lists the titles of its related units in relation
      order, and a name with no relation is absent. */
  lemma {:induction false} GroupSpecLookup(relations: seq<Relation>, titles: map<string, Option<Json>>, key: string)
    requires forall r :: r in relations ==> r.unitTo in titles
    ensures GroupSpec(relations, titles).Ok?
    ensures Lookup(GroupSpec(relations, titles).value, key) ==
              if TitlesWithKey(relations, titles, key) == [] then None else Some(TitlesWithKey(relations, titles, key))
    decreases |relations|
  {
    GroupSpecSucceeds(relations, titles);
    if relations != [] {
      var init := relations[..|relations| - 1];
      var last := relations[|relations| - 1];
      assert relations == init + [last];
      GroupSpecLookup(init, titles, key);
      var out := GroupSpec(init, titles).value;
      var k := RelationKey(last.kind);
      var title := titles[last.unitTo];
      var list := if Lookup(out, k).Some? then Lookup(out, k).value + [title] else [title];
      assert GroupSpec(relations, titles) == Ok(Assign(out, k, list));
      if k == key {
        assert TitlesWithKey(relations, titles, key) == TitlesWithKey(init, titles, key) + [title];
        if TitlesWithKey(init, titles, key) == [] {
          assert list == [title] == TitlesWithKey(relations, titles, key);
        } else {
          assert list == TitlesWithKey(relations, titles, key);
        }
      } else {
        assert TitlesWithKey(relations, titles, key) == TitlesWithKey(init, titles, key);
      }
    }
  }

  /** formatRelationsUnitResponse. */
  method FormatRelationsUnitResponse(relations: seq<Relation>, titles: map<string, Option<Json>>) returns (r: Result<seq<Slot<seq<Option<Json>>>>>)
    ensures r == GroupSpec(relations, titles)
  {
    var relationsResponse: seq<Slot<seq<Option<Json>>>> := [];
    var i := 0;
    while i < |relations|
      invariant 0 <= i <= |relations|
      invariant GroupSpec(relations[..i], titles) == Ok(relationsResponse)
    {
      assert relations[..i + 1][..i] == relations[..i];
      var relationKey := RelationKey(relations[i].kind);
      if relations[i].unitTo !in titles {
        GroupSpecFails(relations, titles, i + 1);
        return TypeError;
      }
      var title := titles[relations[i].unitTo];
      var current := Lookup(relationsResponse, relationKey);
      if current.Some? {
        relationsResponse := Assign(relationsResponse, relationKey, current.value + [title]);
      } else {
        relationsResponse := Assign(relationsResponse, relationKey, [title]);
      }
      i := i + 1;
    }
    assert relations[..i] == relations;
    return Ok(relationsResponse);
  }

  /** Once a prefix of the relations fails, the whole grouping does. */
  lemma {:induction false} GroupSpecFails(relations: seq<Relation>, titles: map<string, Option<Json>>, n: nat)
    requires n <= |relations| && GroupSpec(relations[..n], titles).TypeError?
    ensures GroupSpec(relations, titles).TypeError?
    decreases |relations| - n
  {
    if n < |relations| {
      assert relations[..n + 1][..n] == relations[..n];
      GroupSpecFails(relations, titles, n + 1);
    } else {
      assert relations[..n] == relations;
    }
  }
}
