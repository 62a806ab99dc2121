/** Statement synthesis for exercises (screen/statements.utils.ts): the
    seven open-answer templates, the unit value substituted into them, and the
    two fixed fallback statements. */
module Statements {
  import opened Json

  const Placeholder: string := "UNIT_VALUE"
  const ExerciseFallback: string := "Completa el ejercicio: "
  const FillStatement: string := "Completa la frase: "

  /** The text before the placeholder in each of the seven templates. */
  const Prefixes: map<string, string> := map[
    "what" := "¿Qué es ",
    "whatFor" := "¿Para qué se usa ",
    "where" := "¿Dónde surgio ",
    "how" := "¿Cómo es ",
    "when" := "¿Cuándo fue ",
    "why" := "¿Por qué surgio ",
    "who" := "¿Quién inventó "
  ]

  /** STATEMENTS, keyed by card name: each template is its prefix, the
      placeholder and a closing question mark ("what" is "¿Qué es UNIT_VALUE?"). */
  const Templates: map<string, string> := map card | card in Prefixes :: Prefixes[card] + Placeholder + "?"

  /** `pat` occurs in `s` starting at position `i`. */
  predicate OccursAt(s: string, pat: string, i: int) {
    0 <= i && i + |pat| <= |s| && s[i..i + |pat|] == pat
  }

  ghost predicate Mentions(s: string, pat: string) {
    exists i :: OccursAt(s, pat, i)
  }

  /** `s.indexOf(pat)`: the first position where `pat` occurs, None for -1. */
  function IndexOf(s: string, pat: string): (r: Option<nat>)
    ensures r.Some? ==> OccursAt(s, pat, r.value)
    ensures r.Some? ==> forall j :: 0 <= j < r.value ==> !OccursAt(s, pat, j)
    ensures r.None? ==> forall j :: !OccursAt(s, pat, j)
    decreases |s|
  {
    if |s| < |pat| then None
    else if s[..|pat|] == pat then Some(0)
    else
      var rest := IndexOf(s[1..], pat);
      ShiftOccurrence(s, pat);
      assert !OccursAt(s, pat, 0) by { assert s[0..|pat|] == s[..|pat|]; }
      match rest
      case None => None
      case Some(k) => Some(k + 1)
  }

  /** An occurrence in `s[1..]` is one in `s`, one position further on. */
  lemma ShiftOccurrence(s: string, pat: string)
    requires |s| > 0
    ensures forall j :: 1 <= j ==> (OccursAt(s, pat, j) <==> OccursAt(s[1..], pat, j - 1))
  {
    forall j | 1 <= j
      ensures OccursAt(s, pat, j) <==> OccursAt(s[1..], pat, j - 1)
    {
      if j + |pat| <= |s| {
        assert s[1..][j - 1..j - 1 + |pat|] == s[j..j + |pat|];
      }
    }
  }

  /** `s.replace(pat, rep)` with a string pattern: only the first occurrence
      is replaced. */
  function ReplaceFirst(s: string, pat: string, rep: string): string {
    match IndexOf(s, pat)
    case None => s
    case Some(i) => s[..i] + rep + s[i + |pat|..]
  }

  /** In a template whose prefix has no 'U', the placeholder found is the one
      after the prefix. */
  lemma ReplaceAfterPrefix(prefix: string, suffix: string, rep: string)
    requires 'U' !in prefix
    ensures ReplaceFirst(prefix + Placeholder + suffix, Placeholder, rep) == prefix + rep + suffix
  {
    var s := prefix + Placeholder + suffix;
    assert s[|prefix|..|prefix| + |Placeholder|] == Placeholder;
    assert OccursAt(s, Placeholder, |prefix|);
    forall j | 0 <= j < |prefix|
      ensures !OccursAt(s, Placeholder, j)
    {
      assert s[j] == prefix[j];
    }
    var found := IndexOf(s, Placeholder);
    assert found == Some(|prefix|);
    assert s[..|prefix|] == prefix;
    assert s[|prefix| + |Placeholder|..] == suffix;
  }

  /** No prefix contains the placeholder's first letter, so the only
      placeholder in a template is the one after its prefix. */
  lemma TemplateShape(card: string)
    requires card in Templates
    ensures card in Prefixes && 'U' !in Prefixes[card]
    ensures Templates[card] == Prefixes[card] + Placeholder + "?"
  {
  }

  /** The unit value: `gender + " " + unitName` when the gender is truthy,
      otherwise the unit name alone. */
  function UnitValue(unitName: string, gender: Option<string>): (v: string)
    ensures gender.Some? && gender.value != "" ==> v == gender.value + " " + unitName
    ensures gender.None? || gender.value == "" ==> v == unitName
  {
    if gender.Some? && gender.value != "" then gender.value + " " + unitName else unitName
  }

  /** getStatement: the fallback text for a card with no template; for each
      of the seven cards, the template's text with the unit value in the
      placeholder's place. */
  function GetStatement(unitName: string, gender: Option<string>, card: string): (r: string)
    ensures card !in Templates ==> r == ExerciseFallback
    ensures card in Templates ==> r == Prefixes[card] + UnitValue(unitName, gender) + "?"
  {
    if card in Templates then
      TemplateShape(card);
      ReplaceAfterPrefix(Prefixes[card], "?", UnitValue(unitName, gender));
      ReplaceFirst(Templates[card], Placeholder, UnitValue(unitName, gender))
    else ExerciseFallback
  }

  /** getFillStatement. */
  function GetFillStatement(): (r: string)
    ensures r == "Completa la frase: "
  {
    FillStatement
  }

  /** An empty gender counts as no gender. */
  lemma EmptyGenderIsAbsent(unitName: string, card: string)
    ensures GetStatement(unitName, Some(""), card) == GetStatement(unitName, None, card)
  {
  }

  /** A prefix without 'U', a value without the placeholder and a closing
      "?" leave no placeholder behind. */
  lemma NoPlaceholderAround(p: string, v: string)
    requires 'U' !in p && !Mentions(v, Placeholder)
    ensures !Mentions(p + v + "?", Placeholder)
  {
    var s, n := p + v + "?", |Placeholder|;
    forall j | 0 <= j && j + n <= |s|
      ensures !OccursAt(s, Placeholder, j)
    {
      if j < |p| {
        assert s[j..j + n][0] == s[j] == p[j] != Placeholder[0];
      } else if j - |p| + n <= |v| {
        assert s[j..j + n] == v[j - |p|..j - |p| + n];
        assert !OccursAt(v, Placeholder, j - |p|);
      } else {
        assert j + n == |s|;
        assert s[j..j + n][n - 1] == s[|s| - 1] == '?' != Placeholder[n - 1];
      }
    }
  }

  /** The statement keeps no placeholder, unless the unit value brings one. */
  lemma NoResidualPlaceholder(unitName: string, gender: Option<string>, card: string)
    requires !Mentions(UnitValue(unitName, gender), Placeholder)
    ensures !Mentions(GetStatement(unitName, gender, card), Placeholder)
  {
    if card in Templates {
      TemplateShape(card);
      NoPlaceholderAround(Prefixes[card], UnitValue(unitName, gender));
    } else {
      var f, n := ExerciseFallback, |Placeholder|;
      forall j | 0 <= j && j + n <= |f|
        ensures !OccursAt(f, Placeholder, j)
      {
        assert f[j..j + n][0] == f[j] != Placeholder[0];
      }
    }
  }

  /** The worked example: "car" with the gender "el". */
  lemma CarExample()
    ensures GetStatement("car", Some("el"), "what") == "¿Qué es el car?"
  {
  }

  /** "car" with no gender. */
  lemma CarExampleWithoutGender()
    ensures GetStatement("car", None, "what") == "¿Qué es car?"
  {
  }

}
