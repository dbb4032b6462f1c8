/** JSON values as JavaScript sees them after `response.json()` or
    `JSON.parse`: objects keep their keys in insertion order. The functions
    here are the three JavaScript operations the dashboard applies to such
    values: truthiness, property reads (`v.key`) and object spread
    (`{...a, ...b}`). */
module Json {
  import opened Wrappers
  import Text

  datatype Json =
    | JNull
    | JBool(b: bool)
    | JNum(n: int)
    | JStr(s: string)
    | JArr(items: seq<Json>)
    | JObj(fields: seq<(string, Json)>)

  /** JavaScript truthiness (`if (v)`, `!!v`, `v && ...`, `v || ...`). */
  predicate Truthy(v: Json) {
    match v
    case JNull => false
    case JBool(b) => b
    case JNum(n) => n != 0
    case JStr(s) => s != ""
    case _ => true
  }

  /** The value of the last field named `key`, if any (with repeated keys,
      `JSON.parse` keeps the last value). */
  function Lookup(fields: seq<(string, Json)>, key: string): (r: Option<Json>)
    decreases |fields|
  {
    if |fields| == 0 then None
    else
      var r := Lookup(fields[1..], key);
      if r.None? && fields[0].0 == key then Some(fields[0].1) else r
  }

  /** The outcome of the property read `v.key`. */
  datatype Read = Found(value: Json) | Undefined | NullRead

  /** `v.key`: objects yield their field or `undefined`; arrays, strings,
      numbers and booleans have none of the keys the dashboard reads, so they
      yield `undefined`; reading a property of `null` throws a TypeError. */
  function Member(v: Json, key: string): (r: Read)
    ensures r.NullRead? <==> v.JNull?
    ensures r.Found? ==> v.JObj? && Lookup(v.fields, key) == Some(r.value)
  {
    match v
    case JNull => NullRead
    case JObj(fields) => (match Lookup(fields, key) case Some(x) => Found(x) case None => Undefined)
    case _ => Undefined
  }

  /** `v.key` used as a condition, for a `v` known not to be null. */
  predicate TruthyMember(v: Json, key: string) {
    Member(v, key).Found? && Truthy(Member(v, key).value)
  }

  /** `Array.isArray(v.key)`, for a `v` known not to be null. */
  predicate ArrayMember(v: Json, key: string) {
    Member(v, key).Found? && Member(v, key).value.JArr?
  }

  /** The fields an object spread `{...v}` copies: those of an object, none
      for null, numbers and booleans. */
  function FieldsOf(v: Json): seq<(string, Json)> {
    if v.JObj? then v.fields else []
  }

  /** Assigning `o[key] = x`: an existing field keeps its position and takes
      the new value; a new key is appended. */
  function Set(fields: seq<(string, Json)>, key: string, x: Json): (r: seq<(string, Json)>)
    ensures Lookup(r, key) == Some(x)
    ensures forall k :: k != key ==> Lookup(r, k) == Lookup(fields, k)
    decreases |fields|
  {
    if |fields| == 0 then [(key, x)]
    else if fields[0].0 == key then [(key, x)] + SetRest(fields[1..], key, x)
    else [fields[0]] + Set(fields[1..], key, x)
  }

  /** `Set` on the fields after the first occurrence of `key`: every later
      occurrence also takes the new value. */
  function SetRest(fields: seq<(string, Json)>, key: string, x: Json): (r: seq<(string, Json)>)
    ensures |r| == |fields|
    ensures Lookup(r, key) == (if Lookup(fields, key).Some? then Some(x) else None)
    ensures forall k :: k != key ==> Lookup(r, k) == Lookup(fields, k)
    decreases |fields|
  {
    if |fields| == 0 then []
    else [(fields[0].0, if fields[0].0 == key then x else fields[0].1)] + SetRest(fields[1..], key, x)
  }

  /** `{...a, ...b}` on field lists: `b`'s fields assigned over `a`'s, in order. */
  function Spread(a: seq<(string, Json)>, b: seq<(string, Json)>): (r: seq<(string, Json)>)
    decreases |b|
  {
    if |b| == 0 then a else Spread(Set(a, b[0].0, b[0].1), b[1..])
  }

  /** After a spread, a key reads from the right-hand object when that object
      has it, and otherwise from the left-hand one. */
  lemma {:induction false} SpreadLookup(a: seq<(string, Json)>, b: seq<(string, Json)>, key: string)
    ensures Lookup(Spread(a, b), key) == (if Lookup(b, key).Some? then Lookup(b, key) else Lookup(a, key))
    decreases |b|
  {
    if |b| > 0 {
      SpreadLookup(Set(a, b[0].0, b[0].1), b[1..], key);
      if b[0].0 != key && Lookup(b[1..], key).None? {
        assert Lookup(b, key).None?;
      }
    }
  }

  /** `SpreadLookup` for every key at once. */
  lemma SpreadLookupAll(a: seq<(string, Json)>, b: seq<(string, Json)>)
    ensures forall k :: Lookup(Spread(a, b), k) == (if Lookup(b, k).Some? then Lookup(b, k) else Lookup(a, k))
  {
    forall k
      ensures Lookup(Spread(a, b), k) == (if Lookup(b, k).Some? then Lookup(b, k) else Lookup(a, k))
    {
      SpreadLookup(a, b, k);
    }
  }

  /** `String(v)`, the text `new Error(v)` and `localStorage.setItem` store
      for a value: arrays join their elements with commas (null elements
      become empty), objects become "[object Object]". */
  function ToJsString(v: Json): string {
    match v
    case JNull => "null"
    case JBool(b) => if b then "true" else "false"
    case JNum(n) => Text.IntString(n)
    case JStr(s) => s
    case JArr(items) => JoinItems(items)
    case JObj(_) => "[object Object]"
  }

  function JoinItems(items: seq<Json>): string
    decreases items
  {
    if |items| == 0 then ""
    else
      var head := if items[0].JNull? then "" else ToJsString(items[0]);
      if |items| == 1 then head else head + "," + JoinItems(items[1..])
  }
}
