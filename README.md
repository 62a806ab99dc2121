# Holy Key Universe back end: controllers and utilities

This project models the core of the Holy Key Universe REST back end. That
back end stores learning *units* with their *cards* and card *details*, the
*relations* between units, *screens*, and *itineraries* (ordered lists of
screens). It also grades learners' *exercise* answers.

The model covers:

- the pure helpers:
  - the exercise statement templates (`statements.utils.ts`);
  - the relation-name table (`relation.util.ts`);
- the card detail builder (`details.builder.ts`), a class with a mutable `detail`;
- the request handlers of the unit, screen, itinerary and exercise controllers:
  - the order of their checks;
  - the error texts;
  - the store writes each one issues;
  - the documents each one builds.

## How the model is set up

- **Documents.** Request bodies, decoded YAML files and stored documents are
  `Json` values. An object is an ordered list of members, because several
  handlers walk `Object.keys` in order and the result depends on it. The JS
  rules the handlers rely on are defined once in module `Json`:
  - truthiness;
  - reading a property (`null.x` throws, other primitives give `undefined`);
  - assigning a property (an existing key keeps its place, a new key goes last);
  - iterating with `for ... of`;
  - `Object.keys`;
  - `String(v)`.
- **Handler results.** A handler returns a `Reply` and the list of store
  writes it issues. An exception becomes one of two replies:
  - `InternalError`, when the handler awaits the code inside its `try` (the
    exercise handler);
  - `Unhandled`, when the handler returns `this.saveX(...)` without awaiting
    it, so the rejection escapes the `try` (the unit, screen and itinerary
    handlers).
- **Store contents.** The store is passed in as a sequence of records:
  - `findOne` is the first record that matches;
  - `searchUnitByTitle` (`find(...).toArray()`) is every record that matches.
- **Schema validation.** The jsonschema check is a boolean parameter.
- **Loops become methods.** The handlers whose source loops or mutates step
  by step are `method`s, each proved against a specification function. Those
  are getDetails, getCards, getUnitIdRelations, saveRelations,
  formatUnitResponse, formatRelationsUnitResponse, buildScreen,
  saveItinerary and saveFillResponse. saveUnit, saveScreen and saveResponse,
  which call them, are methods too. The lemmas about those functions state
  what the handler promises.

Where the code and its described behaviour differ, the model follows the code:

- **Unit names.** The unit handlers test the array `searchUnitByTitle`
  returns for truthiness. An array is always truthy, so the test always passes
  (see "## Findings").
- **Card details.** getDetails reads `text`, `keys`, `type` and `status` from
  each element of a card's array. It does not read them from a nested
  `details` property.
- **Fill index.** saveFillResponse refuses only `details.length < index`. So
  `index == length`, a negative index or a missing index reads an undefined
  detail, and that throws, giving 500.
- **Relation types.** A relation name that is not one of the five maps to an
  `undefined` type. formatRelationsUnitResponse groups such a relation under
  the key `"undefined"`.

## Model

| member | source | states |
|---|---|---|
| Json.Truthy | src/api/components/unit/unit.controller.ts:245 | definition of JavaScript truthiness: null, false, 0 and "" are falsy, arrays and objects truthy |
| Json.Present | src/api/components/unit/unit.controller.ts:143 | definition: a property read is truthy when it is defined and its value truthy |
| Json.Prop | src/api/components/unit/unit.controller.ts:201-204 | a property read throws exactly on null, and on an object gives the member's value or undefined |
| Json.Iterate | src/api/components/unit/unit.controller.ts:163 | `for ... of` succeeds exactly on an array or a string, visiting the items or the one-character strings in order |
| Json.Entries | src/api/components/unit/unit.controller.ts:161 | `Object.keys` of an object gives its members in order, of an array its positions with their items |
| Json.Display | src/api/components/itinerary/itinerary.controller.ts:106 | definition of `String(v)` in a message: a string as it is, a number in decimal, an array joined by commas, an object "[object Object]" |
| Common.YamlTitle | src/api/components/unit/unit.controller.ts:66 | the title is the file name without its last five characters; a name shorter than five gives "" |
| Common.YamlTitleOfUpload | src/api/components/screen/screen.controller.ts:45 | uploading `<title>` plus a five-character extension gives back exactly `<title>` |
| Common.YamlDocument | src/api/components/unit/unit.controller.ts:65-66 | the saved document has `title` from the file name; every other key keeps its decoded value |
| RelationUtil.GetRelationType | src/api/components/relation/util/relation.util.ts:4-17 | each of the five names maps to its own type (both directions); any other name gives undefined |
| RelationUtil.GetRelationKeyByType | src/api/components/relation/util/relation.util.ts:19-32 | every type maps to one of the five relation names |
| RelationUtil.TypeKeyRoundTrip | src/api/components/relation/util/relation.util.ts:4-32 | type to name and back gives the same type |
| RelationUtil.KeyTypeRoundTrip | src/api/components/relation/util/relation.util.ts:4-32 | a relation name to type and back gives the same name |
| RelationUtil.RelationNamesInjective | src/api/components/relation/util/relation.util.ts:4-32 | different names give different types; different types give different names |
| Statements.IndexOf | src/api/components/screen/statements.utils.ts:4 | the position found is where the pattern occurs first; None only when it occurs nowhere |
| Statements.ReplaceAfterPrefix | src/api/components/screen/statements.utils.ts:4 | `replace` on a prefix with no 'U', the placeholder and a suffix substitutes exactly that placeholder |
| Statements.TemplateShape | src/api/components/screen/statements.utils.ts:11-19 | each template is its prefix, `UNIT_VALUE` and "?", and the prefix has no 'U' |
| Statements.UnitValue | src/api/components/screen/statements.utils.ts:3 | a non-empty gender is put before the unit name with one space; otherwise the unit name alone |
| Statements.ReplaceFirst | src/api/components/screen/statements.utils.ts:4 | definition of `String.prototype.replace` with a string pattern: the first occurrence found by IndexOf is replaced, and a string without the pattern is unchanged |
| Statements.GetStatement | src/api/components/screen/statements.utils.ts:2-5 | an unknown card gives the fallback text; for each of the seven cards the statement is its prefix, then the unit value, then "?" |
| Statements.GetFillStatement | src/api/components/screen/statements.utils.ts:6-8 | the fill statement is the fixed text "Completa la frase: " |
| Statements.EmptyGenderIsAbsent | src/api/components/screen/statements.utils.ts:3 | an empty gender gives the same statement as no gender |
| Statements.NoPlaceholderAround | src/api/components/screen/statements.utils.ts:11-19 | a prefix with no 'U', a value with no placeholder and a closing "?" together hold no placeholder |
| Statements.NoResidualPlaceholder | src/api/components/screen/statements.utils.ts:2-19 | no statement holds a placeholder unless the unit value brings one |
| Statements.CarExample | src/api/components/screen/statements.utils.ts:3-4 | "car" with gender "el" for card `what` gives "¿Qué es el car?" |
| Statements.CarExampleWithoutGender | src/api/components/screen/statements.utils.ts:3-4 | "car" with no gender for card `what` gives "¿Qué es car?" |
| Cards.OrDefault | src/api/components/unit/card/details.builder.ts:23 | a truthy value is kept; a falsy or missing one gives the default |
| Cards.BuiltDetail | src/api/components/unit/unit.controller.ts:201-204 | the built detail has the text as given, the keys only when truthy, and type and status defaulted to `text` and `correct` |
| Cards.BuiltDetailDefaults | src/api/components/unit/card/details.builder.ts:22-30 | a built detail always has a truthy type and status; a missing type gives `text`, a missing status `correct` |
| Cards.DetailsBuilder.constructor | src/api/components/unit/card/details.builder.ts:6-8 | a new builder holds an empty detail |
| Cards.DetailsBuilder.SetText | src/api/components/unit/card/details.builder.ts:10-13 | stores the text, whatever it is, changes nothing else, and returns the builder itself |
| Cards.DetailsBuilder.SetKeys | src/api/components/unit/card/details.builder.ts:15-20 | stores the keys only when truthy, otherwise changes nothing; returns the builder itself |
| Cards.DetailsBuilder.SetType | src/api/components/unit/card/details.builder.ts:22-25 | stores the type, or `text` when it is falsy; returns the builder itself |
| Cards.DetailsBuilder.SetStatus | src/api/components/unit/card/details.builder.ts:27-30 | stores the status, or `correct` when it is falsy; returns the builder itself |
| Cards.DetailsBuilder.Reset | src/api/components/unit/card/details.builder.ts:32-34 | the builder holds an empty detail again |
| Cards.DetailsBuilder.Build | src/api/components/unit/card/details.builder.ts:36-40 | returns the detail built so far and leaves the builder empty |
| Exercise.IsCorrect | src/api/components/exercise/exercise.controller.ts:66-69 | graded correct exactly when the keys are the list of the response's tokens; throws exactly on missing or null keys, or on a string or length-object of matching length |
| Exercise.Tallied | src/api/components/exercise/exercise.controller.ts:71-79 | a missing tally starts at 1/0 for a correct answer and 0/1 for a wrong one; either way exactly one answer more is counted, under the counter the grade names |
| Exercise.OpenAnswerDetail | src/api/components/exercise/exercise.controller.ts:46-51 | the open-answer detail holds the response as text, null keys, type `text` and status `tocheck` |
| Exercise.SaveOpenAnswerResponse | src/api/components/exercise/exercise.controller.ts:40-56 | an unknown card gives 404 "Card not found" with no write; otherwise exactly one detail is added to that card |
| Exercise.FillUpdatesOneSlot | src/api/components/exercise/exercise.controller.ts:58-84 | a successful fill answer addresses a detail that exists; it rewrites the card's details with only that detail's tally changed, one more answer counted, correct exactly when the response equals the keys |
| Exercise.FillOutcome | src/api/components/exercise/exercise.controller.ts:58-84 | 404 "Card not found" exactly for an unknown card or an index past the length; 500 exactly where the card exists, the index passes that check and reading the detail or its keys throws (missing, negative or end index, keys that cannot be compared); no write unless it succeeds |
| Exercise.SaveFillResponse | src/api/components/exercise/exercise.controller.ts:58-84 | reply and writes are those of the fill outcome: 404 for an unknown card or an index past the length, 500 where reading throws, the graded details otherwise |
| Exercise.SaveResponse | src/api/components/exercise/exercise.controller.ts:22-38 | an invalid body or an unknown mode gives 400 "Invalid request" with no write; `openanswer` and `fill` go to their handlers |
| Units.DetailOf | src/api/components/unit/unit.controller.ts:199-204 | an object element gives the built detail of its `text`, `keys`, `type` and `status`; any other non-null element a detail built from nothing |
| Units.CardBodyDetails | src/api/components/unit/unit.controller.ts:196-207 | a card succeeds exactly when its body is an array with no null element; there is then one detail per element, in order |
| Units.GetDetails | src/api/components/unit/unit.controller.ts:196-207 | the loop with one reused builder gives the card's details or the TypeError |
| Units.CardsOf | src/api/components/unit/unit.controller.ts:181-194 | definition: walks the keys in order, skips the reserved ones and adds a card per other key, throwing as soon as one card body throws |
| Units.CardsOfNames | src/api/components/unit/unit.controller.ts:181-194 | one card per non-reserved key, in key order, named by the key, with that key's details |
| Units.CardsOfSucceeds | src/api/components/unit/unit.controller.ts:181-194 | getCards succeeds exactly when every non-reserved key holds a well-formed card body |
| Units.GetCards | src/api/components/unit/unit.controller.ts:181-194 | the `forEach` over the keys gives the card list or the TypeError |
| Units.CardsOfPrefixFails | src/api/components/unit/unit.controller.ts:184-192 | once an early key throws, getCards throws whatever follows |
| Units.BuildUnit | src/api/components/unit/unit.controller.ts:209-217 | the unit has the body's title, gender and images and its cards; it fails exactly when getCards does |
| Units.FindByTitle | src/api/components/unit/unit.service.ts:24-26 | the records found are exactly the stored units with that title |
| Units.FindByTitleFirst | src/api/components/unit/unit.service.ts:24-26 | the first record found is the first stored unit with that title |
| Units.TitleTakenAsWritten | src/api/components/unit/unit.controller.ts:137-140 | as written, the name check always reports the name taken |
| Units.TitleTaken | src/api/components/unit/unit.controller.ts:137-140 | the corrected check reports the name taken exactly when a stored unit has that title |
| Units.TitleCheckOnEmptyStore | src/api/components/unit/unit.controller.ts:137-140 | on an empty store the as-written check says taken and the corrected one says free |
| Units.ResolveNameAsWritten | src/api/components/unit/unit.controller.ts:164-169 | as written, each name pushes the array's `_id` (undefined) and never stops |
| Units.ResolveName | src/api/components/unit/unit.controller.ts:164-169 | the corrected step stops with "Unit <name> not found" exactly when no unit has the name; otherwise it pushes the first match's id |
| Units.MissingUnitAsWritten | src/api/components/unit/unit.controller.ts:164-169 | a name with no unit: as written it pushes undefined, corrected it stops with "Unit A not found" |
| Units.ResolveNames | src/api/components/unit/unit.controller.ts:163-170 | definition: resolves the names in order with the corrected step, stopping at the first name with no unit |
| Units.ResolveNamesAllIds | src/api/components/unit/unit.controller.ts:163-170 | a fully resolved list holds one id per name, each that name's first match |
| Units.ResolveNamesMissing | src/api/components/unit/unit.controller.ts:163-170 | an unresolved list names the first name with no unit; every earlier name resolved |
| Units.ResolveFrom | src/api/components/unit/unit.controller.ts:161-172 | definition: goes through the relation names in order, throwing where a list cannot be iterated, stopping at the first missing unit, otherwise assigning the resolved ids under the name |
| Units.ResolveRelations | src/api/components/unit/unit.controller.ts:160-173 | definition: getUnitIdRelations from an empty `relationsId` over `Object.keys(relations)` |
| Units.ResolvedShape | src/api/components/unit/unit.controller.ts:160-173 | after a full resolution, relationsId has one key per relation name, in order, each with its resolved ids |
| Units.UnresolvedNamesMissingUnit | src/api/components/unit/unit.controller.ts:160-173 | the error message returned is the missing-unit message of the first relation list, in key order, that has a name with no unit; every earlier list iterates and resolves completely |
| Units.ResolveNamesStep | src/api/components/unit/unit.controller.ts:163-170 | pushing a resolved id and going on equals resolving from that name |
| Units.PushUnitIds | src/api/components/unit/unit.controller.ts:162-170 | the inner loop fills the relation's list with the resolved ids, or returns the missing-unit message |
| Units.GetUnitIdRelations | src/api/components/unit/unit.controller.ts:160-173 | the nested loops give the resolution specified, including a TypeError for a non-iterable list |
| Units.RelationRecords | src/api/components/unit/unit.controller.ts:219-232 | definition: for each relation name in order, one record per id from the new unit to that id, typed by the name |
| Units.RelationRecordsMembers | src/api/components/unit/unit.controller.ts:219-232 | one relation per resolved id; each links the new unit to that id with the type of its relation name, and nothing else is saved |
| Units.SaveRelations | src/api/components/unit/unit.controller.ts:219-232 | the nested loops build exactly the relation records specified |
| Units.Inserts | src/api/components/unit/unit.controller.ts:153-155 | one insert per relation, in order |
| Units.SaveUnitOutcome | src/api/components/unit/unit.controller.ts:129-158 | the corrected saveUnit: an invalid body gives "Invalid request", a taken title "Name already exists"; the reply is 200, 400 or an escaping exception, and nothing is written unless it succeeds |
| Units.SaveUnitAsWritten | src/api/components/unit/unit.controller.ts:129-158 | as written, an invalid body gives "Invalid request" and every valid body "Name already exists" |
| Units.FirstUnitAsWritten | src/api/components/unit/unit.controller.ts:137-140 | the first unit saved into an empty store is refused as written; the corrected handler saves it |
| Units.SaveUnitSuccess | src/api/components/unit/unit.controller.ts:129-158 | a saved unit was valid, its name free and its cards well formed; the unit is written first; when the body lists relations they all resolved, and the writes after the unit are exactly the relation records of the resolved ids, from the new unit |
| Units.SaveUnitUnresolved | src/api/components/unit/unit.controller.ts:143-147 | past the schema and name checks, a relation list naming a unit that is not stored gives 400 with that list's message and writes nothing |
| Units.SaveUnit | src/api/components/unit/unit.controller.ts:129-158 | the corrected handler's reply and writes, in the order schema, name, relations, cards |
| Units.PutCardsOtherKey | src/api/components/unit/unit.controller.ts:248-250 | putting the cards leaves every key that names no card unchanged |
| Units.PutCardsCard | src/api/components/unit/unit.controller.ts:248-250 | after the cards are put, a card's name holds the details of the last card with that name |
| Units.FormatSpec | src/api/components/unit/unit.controller.ts:242-255 | definition: for each stored property in order, a truthy field other than `cards` is copied, and any other property puts every card's details under its name |
| Units.PutsCardsLast | src/api/components/unit/unit.controller.ts:244-252 | some property takes the else branch exactly when an earlier one or the last one does |
| Units.FormatCopiesField | src/api/components/unit/unit.controller.ts:244-247 | a truthy stored field other than `cards` that names no card is copied with its value |
| Units.FormatPutsCard | src/api/components/unit/unit.controller.ts:244-252 | with distinct card names, no field named after a card, a card's details appear under its name exactly when some property takes the else branch |
| Units.FormatOmits | src/api/components/unit/unit.controller.ts:242-255 | a key that is neither a truthy field nor a card name is absent; so is `cards` itself |
| Units.FormatUnitResponse | src/api/components/unit/unit.controller.ts:242-255 | the `forEach` loop builds exactly the specified response |
| Units.GroupSpec | src/api/components/unit/unit.controller.ts:257-269 | definition: for each relation in order, the related unit's title is appended under the relation's name, and a related unit not found throws |
| Units.GroupSpecSucceeds | src/api/components/unit/unit.controller.ts:257-269 | grouping succeeds exactly when every related unit is found |
| Units.GroupSpecLookup | src/api/components/unit/unit.controller.ts:257-269 | each relation name holds the titles of the units related under it, in order; a name with none is absent |
| Units.FormatRelationsUnitResponse | src/api/components/unit/unit.controller.ts:257-269 | the loop builds exactly the specified grouping, or throws on a unit not found |
| Units.GroupSpecFails | src/api/components/unit/unit.controller.ts:259-266 | once an early relation throws, the whole grouping throws |
| Screens.FindScreenByTitle | src/api/components/screen/screen.service.ts:17-19 | the first stored screen with the title; None exactly when there is none |
| Screens.FindScreenById | src/api/components/screen/screen.controller.ts:70-73 | a stored screen with the id; None exactly when there is none |
| Screens.BodyAfter | src/api/components/screen/screen.controller.ts:105-110 | after n keys, the body has no `title`, holds a key exactly when it is among the first n, with the document's value |
| Screens.ScreenBodyContents | src/api/components/screen/screen.controller.ts:104-115 | the stored body holds every key of the document but `title`, with its value |
| Screens.BuildScreen | src/api/components/screen/screen.controller.ts:104-115 | the screen has the document's title and the copied body |
| Screens.SaveScreen | src/api/components/screen/screen.controller.ts:83-96 | invalid gives "Invalid request", a taken title "Screen name already exists", both with no write; otherwise the built screen is stored |
| Screens.YamlScreen | src/api/components/screen/screen.controller.ts:42-47 | a YAML screen is titled from the file name and keeps every other decoded property |
| Screens.DeleteScreen | src/api/components/screen/screen.controller.ts:63-81 | no id gives 400, an unknown id 404, both with no write; otherwise the screen is deleted with 204 |
| Itineraries.FindItineraryByTitle | src/api/components/itinerary/itinerary.service.ts:32-34 | a stored itinerary with the title; None exactly when there is none |
| Itineraries.FindItineraryById | src/api/components/itinerary/itinerary.controller.ts:73-76 | None exactly when no stored itinerary has the id |
| Itineraries.ResolveScreensAllFound | src/api/components/itinerary/itinerary.controller.ts:103-109 | a fully resolved list holds one id per screen title, each that title's first match |
| Itineraries.ResolveScreensUnknown | src/api/components/itinerary/itinerary.controller.ts:103-109 | a failed resolution names the first title with no screen; every earlier title was found |
| Itineraries.ResolveScreensStep | src/api/components/itinerary/itinerary.controller.ts:103-109 | pushing a found id and going on equals resolving from that title |
| Itineraries.SaveItineraryOutcome | src/api/components/itinerary/itinerary.controller.ts:86-114 | an invalid body gives "Invalid request", a taken title "Name already exists", a missing `screens` an escaping exception; the reply is 200, 400, 404 or an escaping exception, and nothing is written unless it succeeds |
| Itineraries.SaveItinerarySuccess | src/api/components/itinerary/itinerary.controller.ts:86-114 | a saved itinerary was valid with a free title; it is stored with the ids of its screens in order |
| Itineraries.SaveItineraryUnknownScreen | src/api/components/itinerary/itinerary.controller.ts:103-107 | past the two checks, a listed title that names no screen gives 404 and writes nothing |
| Itineraries.SaveItineraryScreenNotFound | src/api/components/itinerary/itinerary.controller.ts:103-107 | a 404 writes nothing and names "Screen <title> not found" for the first unknown screen |
| Itineraries.SaveItinerary | src/api/components/itinerary/itinerary.controller.ts:86-114 | the handler's loop gives the specified reply and writes |
| Itineraries.ItineraryFromYaml | src/api/components/itinerary/itinerary.controller.ts:26-29 | a YAML itinerary has the decoded document as its screens, the file name as its title, and nothing else |
| Itineraries.DeleteItinerary | src/api/components/itinerary/itinerary.controller.ts:66-84 | no id gives 400, an unknown id 404, both with no write; otherwise the itinerary is deleted with 204 |

## Left out

- readUnit, deleteUnit and deleteRelations are left out: reading, deleting and their service calls (searchUnitById, searchNameById, relation lookup and deletion) are not part of this model. The titles searchNameById would give are a parameter of formatRelationsUnitResponse. createUnit and createUnitYaml are modelled through saveUnit, whose un-awaited return is the `Unhandled` reply; createScreen, createScreenYaml, createItinerary and createItineraryYaml likewise. The exercise controller's service calls (searchUnitCard, updateCards, updateCardDetails) are a map from cards to details and the writes issued.
- The Express router, the middleware, the MongoDB client, YAML decoding (js-yaml) and jsonschema validation are left out. Validity is a boolean. A decoded YAML file is a `Json` value.
- A store write's own failure is left out, and so is the answer a successful save echoes back (`result.ops[0]`). Writes are listed in the order they are issued. `Promise.all` in saveUnit is modelled as relation saves issued one after another.
- Numbers are integers. Floating point and `NaN` are not modelled.
- Strings are sequences of characters, not UTF-16 code units.
- `Object.keys` order is insertion order. JavaScript lists integer-like keys first; that is not modelled.
- Prototype properties, and the built-in properties of arrays and strings other than `length`, are left out.
- `replace` substitutions such as `$&` in the replacement text are left out.
- A Mongo `$eq` on a title is exact equality of the (possibly missing) stored value.
- A YAML file that does not decode to an object is left out. The model assumes `fileContent['title'] = ...` succeeds.
- Units.FormatSpec: takes the stored unit's card list as given. A stored unit with no `cards` property would make `unit.cards.forEach` throw at the first property that puts the cards; stored units always carry `cards`, since buildUnit sets it.
- Stored records are reduced to an id and a title, because the handlers read nothing else from them.
- Itineraries.FindItineraryById: states only when nothing is found, because the found record is used only to pick the 404.
- The seven statement templates are written as their prefixes with `UNIT_VALUE?` appended; the texts are those of the source's table.
- The schemas are not modelled, because validation is a boolean. Two of their quirks are therefore not captured. The unit schema nests card fields under `details`. The screen schema lists `"mode, card"` as one required name.

## Findings

| source | as written | input that shows it | evidently intended | confidence | as-written member | corrected member |
|---|---|---|---|---|---|---|
| src/api/components/unit/unit.controller.ts:137-140 | `if (unitFound)` tests the array `searchUnitByTitle` returns, and an array is always truthy | a valid body `{title: "A"}` with the store empty is refused with "Name already exists" | refuse only when some stored unit has the title (`unitFound.length > 0`) | not executed | Units.SaveUnitAsWritten, Units.TitleTakenAsWritten, Units.FirstUnitAsWritten, Units.TitleCheckOnEmptyStore | Units.SaveUnit, Units.SaveUnitOutcome, Units.TitleTaken |
| src/api/components/unit/unit.controller.ts:164-169 | `if (unit)` tests the array and pushes `unit._id`, which is undefined on an array | relation list `["A"]` with no unit titled "A": the id `undefined` is pushed and no error is returned. saveUnit as written never reaches this line, because the check at 137-140 refuses every valid body first; the defect shows only once that check is fixed | "Unit A not found" when no unit matches, else the first match's `_id` | not executed | Units.ResolveNameAsWritten, Units.MissingUnitAsWritten | Units.ResolveName, Units.GetUnitIdRelations |
