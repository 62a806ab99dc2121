/** Values of the untyped documents the controllers handle: request bodies,
    decoded YAML files and what the store gives back.  JavaScript semantics that
    the controllers rely on (truthiness, property reads, `for ... of`,
    `Object.keys`, string conversion) are defined here once. */
module Json {

  datatype Option<+T> = None | Some(value: T)

  /** The outcome of a JavaScript expression that may throw a TypeError. */
  datatype Result<+T> = Ok(value: T) | TypeError

  /** A JSON value.  Numbers are integers in this model. */
  datatype Json =
    | JNull
    | JBool(b: bool)
    | JNum(n: int)
    | JStr(s: string)
    | JArr(items: seq<Json>)
    | JObj(members: seq<Member>)

  /** One property of an object; an object keeps its properties in key order. */
  datatype Member = Member(key: string, value: Json)

  /** JavaScript truthiness: null, false, 0 and "" are falsy, arrays and objects are truthy. */
  predicate Truthy(v: Json) {
    match v
    case JNull => false
    case JBool(b) => b
    case JNum(n) => n != 0
    case JStr(s) => s != ""
    case JArr(_) => true
    case JObj(_) => true
  }

  /** Truthiness of a property read that may give `undefined` (None). */
  predicate Present(v: Option<Json>) {
    v.Some? && Truthy(v.value)
  }

  /** A member list is a JavaScript object only when no key repeats. */
  predicate DistinctKeys(ms: seq<Member>) {
    forall i, j :: 0 <= i < j < |ms| ==> ms[i].key != ms[j].key
  }

  predicate HasKey(ms: seq<Member>, key: string) {
    exists i :: 0 <= i < |ms| && ms[i].key == key
  }

  /** `obj[key]` on an object: the value under `key`, or None for `undefined`. */
  function Get(ms: seq<Member>, key: string): (r: Option<Json>)
    ensures r.Some? <==> HasKey(ms, key)
  {
    if ms == [] then None
    else if ms[0].key == key then Some(ms[0].value)
    else
      assert forall i :: 1 <= i < |ms| ==> ms[i] == ms[1..][i - 1];
      Get(ms[1..], key)
  }

  /** `obj[key] = value`: an existing property keeps its place and takes the
      new value, a new one is added at the end. */
  function Put(ms: seq<Member>, key: string, value: Json): (r: seq<Member>)
    ensures Get(r, key) == Some(value)
    ensures forall k :: k != key ==> Get(r, k) == Get(ms, k)
    ensures HasKey(ms, key) ==> |r| == |ms|
    ensures !HasKey(ms, key) ==> r == ms + [Member(key, value)]
  {
    if ms == [] then [Member(key, value)]
    else if ms[0].key == key then [Member(key, value)] + ms[1..]
    else
      var rest := Put(ms[1..], key, value);
      assert forall i :: 1 <= i < |ms| ==> ms[i] == ms[1..][i - 1];
      assert (ms[0..1] + ms[1..])[1..] == ms[1..];
      [ms[0]] + rest
  }

  /** A property of an object a handler builds up key by key; V is what the
      handler stores under the key.  These objects (`relationsId`,
      `unitResponse`, `relationsResponse`) hold typed values (id lists,
      details, title lists) rather than `Json`, so they get this typed copy
      of `Member`/`Get`/`Put`; `Lookup` and `Assign` follow the same key rules. */
  datatype Slot<V> = Slot(key: string, value: V)

  /** `obj[key]` on a built object. */
  function Lookup<V>(slots: seq<Slot<V>>, key: string): (r: Option<V>)
    ensures r.None? <==> forall i :: 0 <= i < |slots| ==> slots[i].key != key
  {
    if slots == [] then None
    else if slots[0].key == key then Some(slots[0].value)
    else
      assert forall i :: 1 <= i < |slots| ==> slots[i] == slots[1..][i - 1];
      Lookup(slots[1..], key)
  }

  /** `obj[key] = value` on a built object: an existing property keeps its
      place, a new one is added at the end. */
  function Assign<V>(slots: seq<Slot<V>>, key: string, value: V): (r: seq<Slot<V>>)
    ensures Lookup(r, key) == Some(value)
    ensures forall k :: k != key ==> Lookup(r, k) == Lookup(slots, k)
    ensures Lookup(slots, key).None? ==> r == slots + [Slot(key, value)]
    ensures |r| == if Lookup(slots, key).None? then |slots| + 1 else |slots|
  {
    if slots == [] then [Slot(key, value)]
    else if slots[0].key == key then [Slot(key, value)] + slots[1..]
    else
      assert forall i :: 1 <= i < |slots| ==> slots[i] == slots[1..][i - 1];
      assert slots == [slots[0]] + slots[1..];
      [slots[0]] + Assign(slots[1..], key, value)
  }

  /** Assigning a key twice leaves what the second assignment stored. */
  lemma {:induction false} AssignTwice<V>(slots: seq<Slot<V>>, key: string, a: V, b: V)
    ensures Assign(Assign(slots, key, a), key, b) == Assign(slots, key, b)
  {
    if slots != [] && slots[0].key != key {
      AssignTwice(slots[1..], key, a, b);
    }
  }

  /** Assigning a key the value it already holds changes nothing. */
  lemma {:induction false} AssignSame<V>(slots: seq<Slot<V>>, key: string, value: V)
    requires Lookup(slots, key) == Some(value)
    ensures Assign(slots, key, value) == slots
  {
    if slots[0].key != key {
      AssignSame(slots[1..], key, value);
    }
  }

  /** Assigning a property of an object leaves it an object. */
  lemma {:induction false} PutKeepsKeysDistinct(ms: seq<Member>, key: string, value: Json)
    requires DistinctKeys(ms)
    ensures DistinctKeys(Put(ms, key, value))
  {
    if ms != [] && ms[0].key != key {
      var rest := Put(ms[1..], key, value);
      PutKeepsKeysDistinct(ms[1..], key, value);
      var r := Put(ms, key, value);
      assert r == [ms[0]] + rest;
      assert forall i :: 0 <= i < |ms| - 1 ==> ms[1..][i] == ms[i + 1];
      assert !HasKey(ms[1..], ms[0].key);
      assert Get(rest, ms[0].key).None?;
      forall i, j | 0 <= i < j < |r| ensures r[i].key != r[j].key {
        if i > 0 {
          assert r[i] == rest[i - 1] && r[j] == rest[j - 1];
        } else {
          assert r[0] == ms[0] && r[j] == rest[j - 1];
          assert HasKey(rest, rest[j - 1].key);
        }
      }
    } else if ms != [] {
      var r := Put(ms, key, value);
      forall i, j | 0 <= i < j < |r| ensures r[i].key != r[j].key {
        assert r[j] == ms[j];
        if i > 0 { assert r[i] == ms[i]; }
      }
    }
  }

  /** In an object every key reads back its own value. */
  lemma {:induction false} GetMember(ms: seq<Member>, i: nat)
    requires DistinctKeys(ms) && i < |ms|
    ensures Get(ms, ms[i].key) == Some(ms[i].value)
  {
    if i > 0 {
      assert ms[0].key != ms[i].key;
      assert ms[1..][i - 1] == ms[i];
      GetMember(ms[1..], i - 1);
    }
  }

  /** `v.key` on any value: a TypeError on null, `undefined` on the other
      primitives and on arrays (their built-in members are not modelled). */
  function Prop(v: Json, key: string): (r: Result<Option<Json>>)
    ensures r.TypeError? <==> v.JNull?
    ensures v.JObj? ==> r == Ok(Get(v.members, key))
  {
    match v
    case JNull => TypeError
    case JObj(ms) => Ok(Get(ms, key))
    case _ => Ok(None)
  }

  /** The values `for (const x of v)` visits: the items of an array, the
      characters of a string (each as a one-character string); anything else is
      not iterable. */
  function Iterate(v: Json): (r: Result<seq<Json>>)
    ensures r.Ok? <==> v.JArr? || v.JStr?
    ensures v.JArr? ==> r == Ok(v.items)
    ensures v.JStr? ==> |r.value| == |v.s| &&
                        forall i :: 0 <= i < |v.s| ==> r.value[i] == JStr([v.s[i]])
  {
    match v
    case JArr(items) => Ok(items)
    case JStr(s) => Ok(seq(|s|, i requires 0 <= i < |s| => JStr([s[i]])))
    case _ => TypeError
  }

  /** Decimal digits of a natural number. */
  function NatToString(n: nat): (r: string)
    ensures |r| > 0
    ensures forall i :: 0 <= i < |r| ==> '0' <= r[i] <= '9'
    decreases n
  {
    if n < 10 then [Digit(n)] else NatToString(n / 10) + [Digit(n % 10)]
  }

  function Digit(d: nat): (c: char)
    requires d < 10
    ensures '0' <= c <= '9' && c as int - '0' as int == d
  {
    (d + '0' as int) as char
  }

  /** `String(n)` for an integer. */
  function IntToString(n: int): string {
    if n < 0 then "-" + NatToString(-n) else NatToString(n)
  }

  /** `String(v)`, as used when a value is concatenated into a message. */
  function Display(v: Json): string {
    match v
    case JNull => "null"
    case JBool(b) => if b then "true" else "false"
    case JNum(n) => IntToString(n)
    case JStr(s) => s
    case JArr(items) =>
      Join(seq(|items|, i requires 0 <= i < |items| =>
             if items[i].JNull? then "" else Display(items[i])))
    case JObj(_) => "[object Object]"
  }

  /** `Array.prototype.join` with the default separator. */
  function Join(parts: seq<string>): string {
    if parts == [] then ""
    else if |parts| == 1 then parts[0]
    else parts[0] + "," + Join(parts[1..])
  }

  /** The entries `Object.keys(v)` visits, each paired with `v[key]`:
      an object's own members, an array's or a string's positions; a number or
      a boolean has none.  `Object.keys(null)` throws; every caller tests the
      value for truthiness first, so null is never passed, and the `[]` for it
      is never used. */
  function Entries(v: Json): (r: seq<Member>)
    ensures v.JObj? ==> r == v.members
    ensures v.JArr? ==> |r| == |v.items| &&
                        forall i :: 0 <= i < |r| ==> r[i] == Member(NatToString(i), v.items[i])
  {
    match v
    case JObj(ms) => ms
    case JArr(items) => seq(|items|, i requires 0 <= i < |items| => Member(NatToString(i), items[i]))
    case JStr(s) => seq(|s|, i requires 0 <= i < |s| => Member(NatToString(i), JStr([s[i]])))
    case _ => []
  }
}
