/** The itinerary controller's rules (itinerary/itinerary.controller.ts): the
    checks before an itinerary is saved, the resolution of its screen titles
    to screen ids, the YAML upload shape and the outcome order of a delete. */
module Itineraries {
  import opened Json
  import opened Common
  import opened Screens

  /** An itinerary as the itinerary service finds it. */
  datatype ItineraryRecord = ItineraryRecord(id: string, title: Option<Json>)

  /** The stored itinerary: only the title and the resolved screen ids. */
  datatype ItineraryDoc = ItineraryDoc(title: Option<Json>, screens: seq<string>)

  /** The store writes an itinerary handler issues. */
  datatype Write = InsertItinerary(itinerary: ItineraryDoc) | RemoveItinerary(id: string)

  /** searchItineraryByTitle (`findOne`): the first stored itinerary with the title. */
  function FindItineraryByTitle(itineraries: seq<ItineraryRecord>, title: Option<Json>): (found: Option<ItineraryRecord>)
    ensures found.None? <==> forall t :: t in itineraries ==> t.title != title
    ensures found.Some? ==> found.value in itineraries && found.value.title == title
    decreases |itineraries|
  {
    if itineraries == [] then None
    else if itineraries[0].title == title then Some(itineraries[0])
    else
      assert forall t :: t in itineraries ==> t == itineraries[0] || t in itineraries[1..];
      FindItineraryByTitle(itineraries[1..], title)
  }

  /** searchItineraryById. */
  function FindItineraryById(itineraries: seq<ItineraryRecord>, id: string): (found: Option<ItineraryRecord>)
    ensures found.None? <==> forall t :: t in itineraries ==> t.id != id
    decreases |itineraries|
  {
    if itineraries == [] then None
    else if itineraries[0].id == id then Some(itineraries[0])
    else
      assert forall t :: t in itineraries ==> t == itineraries[0] || t in itineraries[1..];
      FindItineraryById(itineraries[1..], id)
  }

  /** The screen ids the listed titles resolve to, or the first title that
      names no stored screen. */
  datatype ScreenIds = AllFound(ids: seq<string>) | Unknown(title: Json)

  function ResolveScreens(screens: seq<ScreenRecord>, titles: seq<Json>): ScreenIds
    decreases |titles|
  {
    if titles == [] then AllFound([])
    else
      match FindScreenByTitle(screens, Some(titles[0]))
      case None => Unknown(titles[0])
      case Some(s) => PrependId(s.id, ResolveScreens(screens, titles[1..]))
  }

  function PrependId(id: string, r: ScreenIds): ScreenIds {
    match r
    case AllFound(ids) => AllFound([id] + ids)
    case Unknown(_) => r
  }

  /** When every title resolves, the i-th id is the id of the first stored
      screen with the i-th title. */
  lemma {:induction false} ResolveScreensAllFound(screens: seq<ScreenRecord>, titles: seq<Json>)
    requires ResolveScreens(screens, titles).AllFound?
    ensures var ids := ResolveScreens(screens, titles).ids;
            |ids| == |titles| &&
            forall i :: 0 <= i < |titles| ==>
              FindScreenByTitle(screens, Some(titles[i])).Some? && ids[i] == FindScreenByTitle(screens, Some(titles[i])).value.id
    decreases |titles|
  {
    if titles != [] {
      ResolveScreensAllFound(screens, titles[1..]);
      var ids := ResolveScreens(screens, titles).ids;
      forall i | 0 <= i < |titles|
        ensures FindScreenByTitle(screens, Some(titles[i])).Some? && ids[i] == FindScreenByTitle(screens, Some(titles[i])).value.id
      {
        if i > 0 { assert titles[i] == titles[1..][i - 1]; }
      }
    }
  }

  /** An unknown title is the first one of the list that names no screen. */
  lemma {:induction false} ResolveScreensUnknown(screens: seq<ScreenRecord>, titles: seq<Json>)
    requires ResolveScreens(screens, titles).Unknown?
    ensures exists i :: 0 <= i < |titles| && titles[i] == ResolveScreens(screens, titles).title &&
              (forall s :: s in screens ==> s.title != Some(titles[i])) &&
              forall j :: 0 <= j < i ==> FindScreenByTitle(screens, Some(titles[j])).Some?
    decreases |titles|
  {
    if FindScreenByTitle(screens, Some(titles[0])).Some? {
      ResolveScreensUnknown(screens, titles[1..]);
      var i :| 0 <= i < |titles[1..]| && titles[1..][i] == ResolveScreens(screens, titles).title &&
               (forall s :: s in screens ==> s.title != Some(titles[1..][i])) &&
               forall j :: 0 <= j < i ==> FindScreenByTitle(screens, Some(titles[1..][j])).Some?;
      assert titles[i + 1] == titles[1..][i];
      forall j | 0 <= j < i + 1 ensures FindScreenByTitle(screens, Some(titles[j])).Some? {
        if j > 0 { assert titles[j] == titles[1..][j - 1]; }
      }
    }
  }

  /** Resolving from position i on: a found title adds its id to those before it. */
  lemma ResolveScreensStep(screens: seq<ScreenRecord>, titles: seq<Json>, i: nat, ids: seq<string>)
    requires i < |titles| && FindScreenByTitle(screens, Some(titles[i])).Some?
    ensures PrependIds(ids, ResolveScreens(screens, titles[i..])) ==
              PrependIds(ids + [FindScreenByTitle(screens, Some(titles[i])).value.id], ResolveScreens(screens, titles[i + 1..]))
  {
    assert titles[i..][0] == titles[i] && titles[i..][1..] == titles[i + 1..];
    var id := FindScreenByTitle(screens, Some(titles[i])).value.id;
    var rest := ResolveScreens(screens, titles[i + 1..]);
    if rest.AllFound? {
      assert ids + ([id] + rest.ids) == (ids + [id]) + rest.ids;
    }
  }

  function PrependIds(ids: seq<string>, r: ScreenIds): ScreenIds {
    match r
    case AllFound(rest) => AllFound(ids + rest)
    case Unknown(_) => r
  }

  /** What saveItinerary answers and stores: the schema first, then the
      title, then each listed screen title in order; a `screens` value that
      cannot be iterated throws, and the exception escapes the handler. */
  function SaveItineraryOutcome(valid: bool, body: seq<Member>, itineraries: seq<ItineraryRecord>, screens: seq<ScreenRecord>): (r: (Reply, seq<Write>))
    ensures !valid ==> r == (BadRequest("Invalid request"), [])
    ensures valid && (exists t :: t in itineraries && t.title == Get(body, "title")) ==> r == (BadRequest("Name already exists"), [])
    ensures valid && (forall t :: t in itineraries ==> t.title != Get(body, "title")) && Get(body, "screens").None? ==> r == (Unhandled, [])
    ensures r.0.Success? || r.0.BadRequest? || r.0.NotFound? || r.0.Unhandled?
    ensures !r.0.Success? ==> r.1 == []
  {
    if !valid then (BadRequest("Invalid request"), [])
    else if FindItineraryByTitle(itineraries, Get(body, "title")).Some? then (BadRequest("Name already exists"), [])
    else
      var listed := if Get(body, "screens").Some? then Iterate(Get(body, "screens").value) else TypeError;
      match listed
      case TypeError => (Unhandled, [])
      case Ok(titles) =>
        match ResolveScreens(screens, titles)
        case Unknown(t) => (NotFound("Screen " + Display(t) + " not found"), [])
        case AllFound(ids) => (Success, [InsertItinerary(ItineraryDoc(Get(body, "title"), ids))])
  }

  /** A saved itinerary passed both checks and stores only its title and, in
      order, the id of each listed screen. */
  lemma SaveItinerarySuccess(valid: bool, body: seq<Member>, itineraries: seq<ItineraryRecord>, screens: seq<ScreenRecord>)
    requires SaveItineraryOutcome(valid, body, itineraries, screens).0 == Success
    ensures valid && forall t :: t in itineraries ==> t.title != Get(body, "title")
    ensures Get(body, "screens").Some? && Iterate(Get(body, "screens").value).Ok?
    ensures var titles := Iterate(Get(body, "screens").value).value;
            var writes := SaveItineraryOutcome(valid, body, itineraries, screens).1;
            && |writes| == 1 && writes[0].InsertItinerary?
            && writes[0].itinerary.title == Get(body, "title")
            && |writes[0].itinerary.screens| == |titles|
            && forall i :: 0 <= i < |titles| ==>
                 FindScreenByTitle(screens, Some(titles[i])).Some? &&
                 writes[0].itinerary.screens[i] == FindScreenByTitle(screens, Some(titles[i])).value.id
  {
    ResolveScreensAllFound(screens, Iterate(Get(body, "screens").value).value);
  }

  /** A 404 names the first listed title with no stored screen, and nothing is stored. */
  lemma SaveItineraryScreenNotFound(valid: bool, body: seq<Member>, itineraries: seq<ItineraryRecord>, screens: seq<ScreenRecord>)
    requires SaveItineraryOutcome(valid, body, itineraries, screens).0.NotFound?
    ensures SaveItineraryOutcome(valid, body, itineraries, screens).1 == []
    ensures Get(body, "screens").Some? && Iterate(Get(body, "screens").value).Ok?
    ensures var titles := Iterate(Get(body, "screens").value).value;
            exists i :: 0 <= i < |titles| &&
              SaveItineraryOutcome(valid, body, itineraries, screens).0.error == "Screen " + Display(titles[i]) + " not found" &&
              (forall s :: s in screens ==> s.title != Some(titles[i])) &&
              forall j :: 0 <= j < i ==> FindScreenByTitle(screens, Some(titles[j])).Some?
  {
    ResolveScreensUnknown(screens, Iterate(Get(body, "screens").value).value);
  }

  /** Past the two checks, a listed title that names no screen gives 404:
      the loop cannot get through the whole list. */
  lemma SaveItineraryUnknownScreen(valid: bool, body: seq<Member>, itineraries: seq<ItineraryRecord>, screens: seq<ScreenRecord>, i: nat)
    requires valid && forall t :: t in itineraries ==> t.title != Get(body, "title")
    requires Get(body, "screens").Some? && Iterate(Get(body, "screens").value).Ok?
    requires i < |Iterate(Get(body, "screens").value).value|
    requires forall s :: s in screens ==> s.title != Some(Iterate(Get(body, "screens").value).value[i])
    ensures SaveItineraryOutcome(valid, body, itineraries, screens).0.NotFound?
    ensures SaveItineraryOutcome(valid, body, itineraries, screens).1 == []
  {
    var titles := Iterate(Get(body, "screens").value).value;
    if ResolveScreens(screens, titles).AllFound? {
      ResolveScreensAllFound(screens, titles);
      assert false;
    }
  }

  /** saveItinerary. */
  method SaveItinerary(valid: bool, body: seq<Member>, itineraries: seq<ItineraryRecord>, screens: seq<ScreenRecord>)
    returns (reply: Reply, writes: seq<Write>)
    ensures (reply, writes) == SaveItineraryOutcome(valid, body, itineraries, screens)
  {
    if !valid {
      return BadRequest("Invalid request"), [];
    }
    var itineraryFound := FindItineraryByTitle(itineraries, Get(body, "title"));
    if itineraryFound.Some? {
      return BadRequest("Name already exists"), [];
    }
    var itineraryDB := ItineraryDoc(Get(body, "title"), []);
    var listed := if Get(body, "screens").Some? then Iterate(Get(body, "screens").value) else TypeError;
    if listed.TypeError? {
      return Unhandled, [];
    }
    var titles := listed.value;
    var i := 0;
    while i < |titles|
      invariant 0 <= i <= |titles|
      invariant itineraryDB.title == Get(body, "title")
      invariant ResolveScreens(screens, titles) == PrependIds(itineraryDB.screens, ResolveScreens(screens, titles[i..]))
    {
      var screenDB := FindScreenByTitle(screens, Some(titles[i]));
      if screenDB.None? {
        assert titles[i..][0] == titles[i];
        return NotFound("Screen " + Display(titles[i]) + " not found"), [];
      }
      ResolveScreensStep(screens, titles, i, itineraryDB.screens);
      itineraryDB := itineraryDB.(screens := itineraryDB.screens + [screenDB.value.id]);
      i := i + 1;
    }
    assert titles[i..] == [];
    assert itineraryDB.screens + [] == itineraryDB.screens;
    reply, writes := Success, [InsertItinerary(itineraryDB)];
  }

  /** The itinerary built from a YAML upload: the decoded document is the
      screen list, the file name without its extension the title. */
  function ItineraryFromYaml(decoded: Json, fileName: string): (body: seq<Member>)
    ensures Get(body, "screens") == Some(decoded)
    ensures Get(body, "title") == Some(JStr(YamlTitle(fileName)))
    ensures forall k :: k != "screens" && k != "title" ==> Get(body, k).None?
  {
    [Member("screens", decoded), Member("title", JStr(YamlTitle(fileName)))]
  }

  /** deleteItinerary: no id is a bad request, an unknown id 404, otherwise
      the itinerary with that id is deleted and 204 answered. */
  function DeleteItinerary(itineraryId: Option<string>, itineraries: seq<ItineraryRecord>): (r: (Reply, seq<Write>))
    ensures itineraryId.None? || itineraryId.value == "" ==> r == (BadRequest("Invalid request"), [])
    ensures itineraryId.Some? && itineraryId.value != "" && (forall t :: t in itineraries ==> t.id != itineraryId.value) ==>
              r == (NotFound("Itinerary not found"), [])
    ensures itineraryId.Some? && itineraryId.value != "" && (exists t :: t in itineraries && t.id == itineraryId.value) ==>
              r == (NoContent, [RemoveItinerary(itineraryId.value)])
  {
    if itineraryId.None? || itineraryId.value == "" then (BadRequest("Invalid request"), [])
    else if FindItineraryById(itineraries, itineraryId.value).None? then (NotFound("Itinerary not found"), [])
    else (NoContent, [RemoveItinerary(itineraryId.value)])
  }
}
