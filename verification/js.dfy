/** JavaScript values as they come out of `JSON.parse`, the truthiness test
    behind `!x` and `x || y`, and property lookup on object literals. */
module Js {
  import opened Base

  /** A parsed JSON value. An absent property (`undefined`) is `None` of an
      `Option<JsonValue>`, never a `JsonValue`. JSON has no NaN or infinities,
      so every number is a real. */
  datatype JsonValue =
    | JNull
    | JBool(b: bool)
    | JNumber(n: real)
    | JString(s: string)
    | JArray(items: seq<JsonValue>)
    | JObject(fields: map<string, JsonValue>)

  /** JavaScript truthiness of a possibly absent value: `undefined`, `null`,
      `false`, `0` and `""` are falsy, everything else (arrays and objects
      included, even empty ones) is truthy. */
  predicate Truthy(v: Option<JsonValue>) {
    match v
    case None => false
    case Some(JNull) => false
    case Some(JBool(b)) => b
    case Some(JNumber(n)) => n != 0.0
    case Some(JString(s)) => s != ""
    case Some(JArray(_)) => true
    case Some(JObject(_)) => true
  }

  /** The values that are falsy, listed independently of `Truthy`. */
  lemma FalsyValues(v: Option<JsonValue>)
    ensures !Truthy(v) <==>
      v in {None, Some(JNull), Some(JBool(false)), Some(JNumber(0.0)), Some(JString(""))}
  {
  }

  /** `v.key` for a value that is not `null` (reading a property of `null`
      throws a TypeError, which callers handle before calling this). Only keys
      that no prototype defines are read this way, so a missing own property
      reads as `undefined`. */
  function Member(v: JsonValue, key: string): (r: Option<JsonValue>)
    requires !v.JNull?
    ensures r.Some? <==> v.JObject? && key in v.fields
    ensures r.Some? ==> r.value == v.fields[key]
  {
    match v
    case JObject(fields) => if key in fields then Some(fields[key]) else None
    case _ => None
  }

  /** The property names every object literal inherits from `Object.prototype`.
      Reading any of them from a plain object gives a function or, for
      `__proto__`, the prototype object itself: truthy values that are not strings. */
  const ObjectPrototypeNames: set<string> := {
    "constructor", "__defineGetter__", "__defineSetter__", "hasOwnProperty",
    "__lookupGetter__", "__lookupSetter__", "isPrototypeOf", "propertyIsEnumerable",
    "toString", "valueOf", "__proto__", "toLocaleString"
  }

  /** What `literal[key]` reads from an object literal whose own properties are `own`. */
  datatype Lookup<+V> = Own(value: V) | PrototypeMember(name: string) | Missing

  function LiteralLookup<V>(own: map<string, V>, key: string): (r: Lookup<V>)
    ensures r.Own? <==> key in own
    ensures r.Own? ==> r.value == own[key]
    ensures r.PrototypeMember? <==> key !in own && key in ObjectPrototypeNames
    ensures r.PrototypeMember? ==> r.name == key
  {
    if key in own then Own(own[key])
    else if key in ObjectPrototypeNames then PrototypeMember(key)
    else Missing
  }
}
