/** The screen controller's rules (screen/screen.controller.ts): the stored
    form of a screen document, the checks before it is saved, and the outcome
    order of a delete. */
module Screens {
  import opened Json
  import opened Common

  /** A screen as the screen service finds it. */
  datatype ScreenRecord = ScreenRecord(id: string, title: Option<Json>)

  /** The stored screen: its title and every other property of the document. */
  datatype Screen = Screen(title: Option<Json>, body: seq<Member>)

  /** The store writes a screen handler issues. */
  datatype Write = InsertScreen(screen: Screen) | RemoveScreen(id: string)

  /** searchScreenByTitle (`findOne`): the first stored screen with the title. */
  function FindScreenByTitle(screens: seq<ScreenRecord>, title: Option<Json>): (found: Option<ScreenRecord>)
    ensures found.None? <==> forall s :: s in screens ==> s.title != title
    ensures found.Some? ==>
              exists k :: 0 <= k < |screens| && screens[k] == found.value && screens[k].title == title &&
                          forall j :: 0 <= j < k ==> screens[j].title != title
    decreases |screens|
  {
    if screens == [] then None
    else if screens[0].title == title then Some(screens[0])
    else
      var rest := FindScreenByTitle(screens[1..], title);
      assert forall j :: 1 <= j < |screens| ==> screens[j] == screens[1..][j - 1];
      assert forall s :: s in screens ==> s == screens[0] || s in screens[1..];
      rest
  }

  /** searchScreenById: the first stored screen with the id. */
  function FindScreenById(screens: seq<ScreenRecord>, id: string): (found: Option<ScreenRecord>)
    ensures found.None? <==> forall s :: s in screens ==> s.id != id
    ensures found.Some? ==> found.value in screens && found.value.id == id
    decreases |screens|
  {
    if screens == [] then None
    else if screens[0].id == id then Some(screens[0])
    else
      assert forall s :: s in screens ==> s == screens[0] || s in screens[1..];
      FindScreenById(screens[1..], id)
  }

  /** `bodyDB` after the first n keys of the document: each key other than
      `title` is assigned the document's value for it.  So it never holds
      `title`, holds another key exactly when the key is among the first n, and,
      the document being an object, holds it with the document's value. */
  function BodyAfter(body: seq<Member>, n: nat): (r: seq<Member>)
    requires n <= |body|
    ensures Get(r, "title") == None
    ensures forall k :: k != "title" ==> (Get(r, k).None? <==> forall i :: 0 <= i < n ==> body[i].key != k)
    ensures DistinctKeys(body) ==>
              forall i :: 0 <= i < n && body[i].key != "title" ==> Get(r, body[i].key) == Some(body[i].value)
  {
    if n == 0 then []
    else
      var rest := BodyAfter(body, n - 1);
      var key := body[n - 1].key;
      if key != "title" then Put(rest, key, body[n - 1].value) else rest
  }

  /** The property list buildScreen stores. */
  function ScreenBody(body: seq<Member>): seq<Member> {
    BodyAfter(body, |body|)
  }

  /** The stored body holds every key of the document except `title`, each
      with the document's value, and nothing else. */
  lemma ScreenBodyContents(body: seq<Member>, key: string)
    requires DistinctKeys(body)
    ensures Get(ScreenBody(body), "title") == None
    ensures key != "title" ==> Get(ScreenBody(body), key) == Get(body, key)
  {
    if key != "title" && HasKey(body, key) {
      var i :| 0 <= i < |body| && body[i].key == key;
      GetMember(body, i);
    }
  }

  /** buildScreen: the title as given, and the other properties copied. */
  method BuildScreen(body: seq<Member>) returns (screen: Screen)
    ensures screen == Screen(Get(body, "title"), ScreenBody(body))
  {
    var bodyDB: seq<Member> := [];
    var i := 0;
    while i < |body|
      invariant 0 <= i <= |body|
      invariant bodyDB == BodyAfter(body, i)
    {
      var key := body[i].key;
      if key != "title" {
        bodyDB := Put(bodyDB, key, body[i].value);
      }
      i := i + 1;
    }
    screen := Screen(Get(body, "title"), bodyDB);
  }

  /** saveScreen: the schema first, then the title, then the screen is stored. */
  method SaveScreen(valid: bool, body: seq<Member>, screens: seq<ScreenRecord>) returns (reply: Reply, writes: seq<Write>)
    ensures !valid ==> reply == BadRequest("Invalid request") && writes == []
    ensures valid && (exists s :: s in screens && s.title == Get(body, "title")) ==>
              reply == BadRequest("Screen name already exists") && writes == []
    ensures valid && (forall s :: s in screens ==> s.title != Get(body, "title")) ==>
              reply == Success && writes == [InsertScreen(Screen(Get(body, "title"), ScreenBody(body)))]
  {
    if !valid {
      return BadRequest("Invalid request"), [];
    }
    var screenFound := FindScreenByTitle(screens, Get(body, "title"));
    if screenFound.Some? {
      return BadRequest("Screen name already exists"), [];
    }
    var screen := BuildScreen(body);
    reply, writes := Success, [InsertScreen(screen)];
  }

  /** A screen uploaded as YAML is stored under the file name without its
      extension, with the other properties of the decoded document. */
  lemma YamlScreen(decoded: seq<Member>, fileName: string, key: string)
    requires DistinctKeys(decoded)
    ensures Get(YamlDocument(decoded, fileName), "title") == Some(JStr(YamlTitle(fileName)))
    ensures key != "title" ==> Get(ScreenBody(YamlDocument(decoded, fileName)), key) == Get(decoded, key)
  {
    var doc := YamlDocument(decoded, fileName);
    PutKeepsKeysDistinct(decoded, "title", JStr(YamlTitle(fileName)));
    ScreenBodyContents(doc, key);
  }

  /** deleteScreen: no id is a bad request, an unknown id 404, otherwise the
      screen is deleted and 204 answered. */
  function DeleteScreen(screenId: Option<string>, screens: seq<ScreenRecord>): (r: (Reply, seq<Write>))
    ensures screenId.None? || screenId.value == "" ==> r == (BadRequest("Invalid request"), [])
    ensures screenId.Some? && screenId.value != "" && (forall s :: s in screens ==> s.id != screenId.value) ==>
              r == (NotFound("Screen not found"), [])
    ensures screenId.Some? && screenId.value != "" && (exists s :: s in screens && s.id == screenId.value) ==>
              r == (NoContent, [RemoveScreen(screenId.value)])
  {
    if screenId.None? || screenId.value == "" then (BadRequest("Invalid request"), [])
    else
      match FindScreenById(screens, screenId.value)
      case None => (NotFound("Screen not found"), [])
      case Some(found) => (NoContent, [RemoveScreen(found.id)])
  }
}
