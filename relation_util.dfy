/** The relation kinds between units and the two switch tables that name
    them (relation.model.ts, util/relation.util.ts). */
module RelationUtil {
  import opened Json

  /** RELATION_TYPE. */
  datatype RelationType = Inheritance | Composition | Aggregation | Association | Use

  /** A stored relation; `kind` is None where the saved type was `undefined`. */
  datatype Relation = Relation(unitFrom: string, unitTo: string, kind: Option<RelationType>)

  /** The five relation names a unit document may list. */
  const RelationKeys: seq<string> := ["bases", "associates", "aggregates", "parts", "used"]

  /** getRelationType: a relation name to its type; a name with no case gives
      `undefined` (None). */
  function GetRelationType(relation: string): (r: Option<RelationType>)
    ensures r.Some? <==> relation in RelationKeys
    ensures relation == "bases" <==> r == Some(Inheritance)
    ensures relation == "associates" <==> r == Some(Association)
    ensures relation == "aggregates" <==> r == Some(Aggregation)
    ensures relation == "parts" <==> r == Some(Composition)
    ensures relation == "used" <==> r == Some(Use)
  {
    match relation
    case "bases" => Some(Inheritance)
    case "associates" => Some(Association)
    case "aggregates" => Some(Aggregation)
    case "parts" => Some(Composition)
    case "used" => Some(Use)
    case _ => None
  }

  /** getRelationKeyByType: a type back to its relation name. */
  function GetRelationKeyByType(kind: RelationType): (key: string)
    ensures key in RelationKeys
  {
    match kind
    case Inheritance => "bases"
    case Association => "associates"
    case Aggregation => "aggregates"
    case Composition => "parts"
    case Use => "used"
  }

  /** Naming a type recovers it. */
  lemma TypeKeyRoundTrip(kind: RelationType)
    ensures GetRelationType(GetRelationKeyByType(kind)) == Some(kind)
  {
  }

  /** Typing a relation name recovers the name. */
  lemma KeyTypeRoundTrip(relation: string)
    requires relation in RelationKeys
    ensures GetRelationType(relation).Some?
    ensures GetRelationKeyByType(GetRelationType(relation).value) == relation
  {
  }

  /** Distinct relation names have distinct types, and distinct types distinct names. */
  lemma RelationNamesInjective(a: string, b: string, s: RelationType, t: RelationType)
    ensures a in RelationKeys && b in RelationKeys && a != b ==> GetRelationType(a) != GetRelationType(b)
    ensures s != t ==> GetRelationKeyByType(s) != GetRelationKeyByType(t)
  {
    if a in RelationKeys && b in RelationKeys && a != b {
      KeyTypeRoundTrip(a);
      KeyTypeRoundTrip(b);
    }
    if s != t {
      TypeKeyRoundTrip(s);
      TypeKeyRoundTrip(t);
    }
  }
}
