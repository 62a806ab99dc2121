/** Saving a learner's exercise answer (exercise/exercise.controller.ts):
    the mode dispatch, the open-answer detail record and the fill grading
    with its per-detail tally. */
module Exercise {
  import opened Json
  import opened Common
  import opened Cards

  const FILL: string := "fill"
  const OPEN_ANSWER: string := "openanswer"

  /** `response`: a string or a list of strings. */
  datatype Answer = AnswerText(text: string) | AnswerList(tokens: seq<string>)

  /** Which card detail the answer is for; `index` may be missing. */
  datatype ExerciseCard = ExerciseCard(unit: string, card: string, index: Option<int>)

  /** A request body in the shape the exercise schema admits. */
  datatype ExerciseResponse = ExerciseResponse(mode: string, response: Answer, exerciseCard: ExerciseCard)

  /** The card the unit service is asked for. */
  datatype CardRef = CardRef(unit: string, card: string)

  /** The store writes a handler issues. */
  datatype Write =
    | UpdateCards(unit: string, card: string, detail: Detail)
    | UpdateCardDetails(unit: string, card: string, details: seq<Detail>)

  /** `response.length`. */
  function AnswerLength(a: Answer): nat {
    match a
    case AnswerText(s) => |s|
    case AnswerList(xs) => |xs|
  }

  /** `response[i]`: a one-character string of a text answer, or a list item. */
  function AnswerAt(a: Answer, i: nat): string
    requires i < AnswerLength(a)
  {
    match a
    case AnswerText(s) => [s[i]]
    case AnswerList(xs) => xs[i]
  }

  /** The answer position by position, as the JSON array it has to equal. */
  function AnswerTokens(a: Answer): (r: seq<Json>)
    ensures |r| == AnswerLength(a)
    ensures forall i :: 0 <= i < |r| ==> r[i] == JStr(AnswerAt(a, i))
  {
    seq(AnswerLength(a), i requires 0 <= i < AnswerLength(a) => JStr(AnswerAt(a, i)))
  }

  /** The answer as a JSON value, as stored verbatim for an open answer. */
  function AnswerJson(a: Answer): Json {
    match a
    case AnswerText(s) => JStr(s)
    case AnswerList(xs) => JArr(seq(|xs|, i requires 0 <= i < |xs| => JStr(xs[i])))
  }

  /** `keys.length === response.length && keys.every((k, i) => k === response[i])`.
      Reading `length` of undefined or null throws; a string of the right
      length has no `every` and throws too; other values have no matching
      `length`, so the comparison is simply false. */
  function IsCorrect(keys: Option<Json>, response: Answer): (r: Result<bool>)
    ensures r == Ok(true) <==> keys == Some(JArr(AnswerTokens(response)))
    ensures r.TypeError? <==>
              || keys.None?
              || keys.value.JNull?
              || (keys.value.JStr? && |keys.value.s| == AnswerLength(response))
              || (keys.value.JObj? && Get(keys.value.members, "length") == Some(JNum(AnswerLength(response))))
  {
    var n := AnswerLength(response);
    match keys
    case None => TypeError
    case Some(JNull) => TypeError
    case Some(JArr(items)) =>
      var every := |items| == n && forall i :: 0 <= i < |items| ==> items[i] == JStr(AnswerAt(response, i));
      assert every ==> items == AnswerTokens(response);
      Ok(every)
    case Some(JStr(s)) => if |s| == n then TypeError else Ok(false)
    case Some(JObj(ms)) => if Get(ms, "length") == Some(JNum(n)) then TypeError else Ok(false)
    case Some(_) => Ok(false)
  }

  /** The tally after one graded answer: an existing tally gains one in the
      matching counter, a missing one starts at 1 and 0.  Either way exactly
      one answer more is counted, under the counter the grade names. */
  function Tallied(tally: Option<Tally>, correct: bool): (t: Tally)
    ensures tally.None? ==> t == if correct then Tally(1, 0) else Tally(0, 1)
    ensures var before := if tally.Some? then tally.value else Tally(0, 0);
            && t.correctAnswers + t.wrongAnswers == before.correctAnswers + before.wrongAnswers + 1
            && t.correctAnswers == before.correctAnswers + (if correct then 1 else 0)
            && t.wrongAnswers == before.wrongAnswers + (if correct then 0 else 1)
  {
    match tally
    case None => if correct then Tally(1, 0) else Tally(0, 1)
    case Some(Tally(c, w)) => if correct then Tally(c + 1, w) else Tally(c, w + 1)
  }

  /** The detail recorded for an open answer, waiting to be checked. */
  function OpenAnswerDetail(response: Answer): (d: Detail)
    ensures d.text == Some(AnswerJson(response)) && d.keys == Some(JNull)
    ensures d.detailType == Some(TEXT) && d.status == Some(TO_CHECK) && d.fillTally.None?
  {
    Detail(Some(AnswerJson(response)), Some(JNull), Some(TEXT), Some(TO_CHECK), None)
  }

  /** saveOpenAnswerResponse: an unknown card gives 404; otherwise one detail is added. */
  function SaveOpenAnswerResponse(cards: map<CardRef, seq<Detail>>, req: ExerciseResponse): (r: (Reply, seq<Write>))
    ensures CardRef(req.exerciseCard.unit, req.exerciseCard.card) !in cards ==>
              r == (NotFound("Card not found"), [])
    ensures CardRef(req.exerciseCard.unit, req.exerciseCard.card) in cards ==>
              r == (Success, [UpdateCards(req.exerciseCard.unit, req.exerciseCard.card, OpenAnswerDetail(req.response))])
  {
    var ec := req.exerciseCard;
    if CardRef(ec.unit, ec.card) !in cards then (NotFound("Card not found"), [])
    else (Success, [UpdateCards(ec.unit, ec.card, OpenAnswerDetail(req.response))])
  }

  /** What saveFillResponse does.  It answers 404 exactly for an unknown card
      or an index past the end; `index == length` passes that check.  It
      answers 500 where reading the detail or its keys throws: a missing,
      negative or end index, or keys that cannot be compared. */
  function FillOutcome(cards: map<CardRef, seq<Detail>>, req: ExerciseResponse): (r: (Reply, seq<Write>))
    ensures var ref, index := CardRef(req.exerciseCard.unit, req.exerciseCard.card), req.exerciseCard.index;
            r.0 == NotFound("Card not found") <==> ref !in cards || (index.Some? && |cards[ref]| < index.value)
    ensures var ref, index := CardRef(req.exerciseCard.unit, req.exerciseCard.card), req.exerciseCard.index;
            r.0 == InternalError <==>
              && ref in cards && !(index.Some? && |cards[ref]| < index.value)
              && (|| index.None? || index.value < 0 || index.value == |cards[ref]|
                  || IsCorrect(cards[ref][index.value].keys, req.response).TypeError?)
    ensures r.0 == Success || r.0 == InternalError || r.0 == NotFound("Card not found")
    ensures r.0 != Success ==> r.1 == []
  {
    var ec := req.exerciseCard;
    var ref := CardRef(ec.unit, ec.card);
    if ref !in cards || (ec.index.Some? && |cards[ref]| < ec.index.value) then (NotFound("Card not found"), [])
    else if ec.index.None? || ec.index.value < 0 || ec.index.value == |cards[ref]| then (InternalError, [])
    else
      var ds, i := cards[ref], ec.index.value;
      match IsCorrect(ds[i].keys, req.response)
      case TypeError => (InternalError, [])
      case Ok(correct) =>
        (Success, [UpdateCardDetails(ec.unit, ec.card, ds[i := ds[i].(fillTally := Some(Tallied(ds[i].fillTally, correct)))])])
  }

  /** A successful fill answer rewrites the card's details with only the
      addressed slot changed, and only its tally, which counts one more answer,
      correct exactly when the response equals the keys. */
  lemma FillUpdatesOneSlot(cards: map<CardRef, seq<Detail>>, req: ExerciseResponse)
    requires FillOutcome(cards, req).0 == Success
    ensures var ec := req.exerciseCard;
            var ds := cards[CardRef(ec.unit, ec.card)];
            var i := ec.index.value;
            && CardRef(ec.unit, ec.card) in cards && ec.index.Some? && 0 <= i < |ds|
            && |FillOutcome(cards, req).1| == 1
            && var w := FillOutcome(cards, req).1[0];
               && w.UpdateCardDetails? && w.unit == ec.unit && w.card == ec.card
               && |w.details| == |ds|
               && (forall j :: 0 <= j < |ds| && j != i ==> w.details[j] == ds[j])
               && w.details[i] == ds[i].(fillTally := w.details[i].fillTally)
               && var before := if ds[i].fillTally.Some? then ds[i].fillTally.value else Tally(0, 0);
                  var after := w.details[i].fillTally.value;
                  && w.details[i].fillTally.Some?
                  && after.correctAnswers + after.wrongAnswers == before.correctAnswers + before.wrongAnswers + 1
                  && (after.correctAnswers == before.correctAnswers + 1 <==> ds[i].keys == Some(JArr(AnswerTokens(req.response))))
  {
  }

  /** saveFillResponse: the details are fetched, the addressed one has its
      tally updated in place, and the whole list is written back. */
  method SaveFillResponse(cards: map<CardRef, seq<Detail>>, req: ExerciseResponse) returns (reply: Reply, writes: seq<Write>)
    ensures (reply, writes) == FillOutcome(cards, req)
  {
    var ec := req.exerciseCard;
    var ref := CardRef(ec.unit, ec.card);
    if ref !in cards || (ec.index.Some? && |cards[ref]| < ec.index.value) {
      return NotFound("Card not found"), [];
    }
    var found := cards[ref];
    if ec.index.None? || ec.index.value < 0 || ec.index.value == |found| {
      return InternalError, [];
    }
    var i := ec.index.value;
    var details := new Detail[|found|](j requires 0 <= j < |found| => found[j]);
    var graded := IsCorrect(details[i].keys, req.response);
    if graded.TypeError? {
      return InternalError, [];
    }
    details[i] := details[i].(fillTally := Some(Tallied(details[i].fillTally, graded.value)));
    assert details[..] == found[i := found[i].(fillTally := Some(Tallied(found[i].fillTally, graded.value)))];
    reply, writes := Success, [UpdateCardDetails(ec.unit, ec.card, details[..])];
  }

  /** saveResponse: an invalid body or an unknown mode is refused before any
      lookup; the two modes go to their own handler. */
  method SaveResponse(valid: bool, req: ExerciseResponse, cards: map<CardRef, seq<Detail>>) returns (reply: Reply, writes: seq<Write>)
    ensures !valid || (req.mode != FILL && req.mode != OPEN_ANSWER) ==>
              reply == BadRequest("Invalid request") && writes == []
    ensures valid && req.mode == OPEN_ANSWER ==> (reply, writes) == SaveOpenAnswerResponse(cards, req)
    ensures valid && req.mode == FILL ==> (reply, writes) == FillOutcome(cards, req)
  {
    if !valid || (req.mode != FILL && req.mode != OPEN_ANSWER) {
      return BadRequest("Invalid request"), [];
    }
    if req.mode == OPEN_ANSWER {
      var r := SaveOpenAnswerResponse(cards, req);
      reply, writes := r.0, r.1;
    } else {
      reply, writes := SaveFillResponse(cards, req);
    }
  }
}
