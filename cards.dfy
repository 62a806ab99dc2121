/** Cards and their detail entries (unit/card/card.ts) and the builder that
    applies the detail defaults (unit/card/details.builder.ts). */
module Cards {
  import opened Json

  /** registerFillAnswer: how often a fill exercise on a detail was answered
      right and wrong. */
  datatype Tally = Tally(correctAnswers: int, wrongAnswers: int)

  /** A detail entry.  The fields hold what was given (None is `undefined`);
      `fillTally` is the registerFillAnswer property the fill grading adds. */
  datatype Detail = Detail(
    text: Option<Json>,
    keys: Option<Json>,
    detailType: Option<Json>,
    status: Option<Json>,
    fillTally: Option<Tally>)

  datatype Card = Card(name: string, details: seq<Detail>)

  /** DETAIL_TYPE and STATUS_TYPE values. */
  const TEXT: Json := JStr("text")
  const IMG: Json := JStr("img")
  const CORRECT: Json := JStr("correct")
  const INCORRECT: Json := JStr("incorrect")
  const TO_CHECK: Json := JStr("tocheck")

  /** `new Detail()`: every field undefined. */
  const EmptyDetail: Detail := Detail(None, None, None, None, None)

  /** `value ? value : fallback`. */
  function OrDefault(value: Option<Json>, fallback: Json): (r: Json)
    ensures Present(value) ==> r == value.value
    ensures !Present(value) ==> r == fallback
  {
    if Present(value) then value.value else fallback
  }

  /** The detail a fresh builder produces from `setText(text).setKeys(keys)
      .setType(kind).setStatus(status).build()`. */
  function BuiltDetail(text: Option<Json>, keys: Option<Json>, kind: Option<Json>, status: Option<Json>): (d: Detail)
    ensures d.text == text && d.fillTally == None
    ensures d.keys == (if Present(keys) then keys else None)
    ensures d.detailType == Some(OrDefault(kind, TEXT)) && d.status == Some(OrDefault(status, CORRECT))
  {
    Detail(text, if Present(keys) then keys else None, Some(OrDefault(kind, TEXT)), Some(OrDefault(status, CORRECT)), None)
  }

  /** A built detail always has a truthy type and status. */
  lemma BuiltDetailDefaults(text: Option<Json>, keys: Option<Json>, kind: Option<Json>, status: Option<Json>)
    ensures Present(BuiltDetail(text, keys, kind, status).detailType)
    ensures Present(BuiltDetail(text, keys, kind, status).status)
    ensures !Present(kind) ==> BuiltDetail(text, keys, kind, status).detailType == Some(TEXT)
    ensures !Present(status) ==> BuiltDetail(text, keys, kind, status).status == Some(CORRECT)
  {
  }

  /** DetailsBuilder: every setter changes its own field of the detail under
      construction and hands back the same builder. */
  class DetailsBuilder {
    var detail: Detail

    constructor ()
      ensures detail == EmptyDetail
    {
      detail := EmptyDetail;
    }

    method SetText(text: Option<Json>) returns (self: DetailsBuilder)
      modifies this
      ensures self == this
      ensures detail == old(detail).(text := text)
    {
      detail := detail.(text := text);
      self := this;
    }

    /** Keys are stored only when they are truthy. */
    method SetKeys(keys: Option<Json>) returns (self: DetailsBuilder)
      modifies this
      ensures self == this
      ensures detail == if Present(keys) then old(detail).(keys := keys) else old(detail)
    {
      if Present(keys) {
        detail := detail.(keys := keys);
      }
      self := this;
    }

    method SetType(kind: Option<Json>) returns (self: DetailsBuilder)
      modifies this
      ensures self == this
      ensures detail == old(detail).(detailType := Some(OrDefault(kind, TEXT)))
    {
      detail := detail.(detailType := Some(if Present(kind) then kind.value else TEXT));
      self := this;
    }

    method SetStatus(status: Option<Json>) returns (self: DetailsBuilder)
      modifies this
      ensures self == this
      ensures detail == old(detail).(status := Some(OrDefault(status, CORRECT)))
    {
      detail := detail.(status := Some(if Present(status) then status.value else CORRECT));
      self := this;
    }

    method Reset()
      modifies this
      ensures detail == EmptyDetail
    {
      detail := EmptyDetail;
    }

    /** Hands out the accumulated detail and starts over from an empty one. */
    method Build() returns (d: Detail)
      modifies this
      ensures d == old(detail)
      ensures detail == EmptyDetail
    {
      d := detail;
      Reset();
    }
  }
}
