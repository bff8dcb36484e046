/** Untyped JavaScript values, as read back from storage or a request body. */
module JsValues {
  import opened Wrappers
  import opened OrderedMaps

  /**
   * A JavaScript value. `JObj` is a plain object (the model only reads its
   * properties by name, never iterates them), `JMap` a `Map` instance keyed by
   * strings, iterated in insertion order.
   */
  datatype Js =
    | JUndefined
    | JNull
    | JBool(b: bool)
    | JNum(n: int)
    | JStr(s: string)
    | JArr(items: seq<Js>)
    | JObj(props: map<string, Js>)
    | JMap(entries: Entries<string, Js>)

  /** `typeof v === "object"` (true of `null`, arrays, objects and maps). */
  predicate IsObject(v: Js)
  {
    v.JNull? || v.JArr? || v.JObj? || v.JMap?
  }

  /** `v == null` (loose equality: `null` or `undefined`). */
  predicate IsNullish(v: Js)
  {
    v.JNull? || v.JUndefined?
  }

  /**
   * The property `name` of `v` when `name in v`. Only plain objects carry the
   * named properties the model reads; arrays and maps have none of them.
   */
  function Field(v: Js, name: string): Option<Js>
  {
    if v.JObj? && name in v.props then Some(v.props[name]) else None
  }

  /** `name in v && typeof v[name] === "string" ? v[name] : undefined`. */
  function StringField(v: Js, name: string): (r: Option<string>)
    ensures r.Some? <==> Field(v, name).Some? && Field(v, name).value.JStr?
  {
    match Field(v, name)
    case Some(JStr(s)) => Some(s)
    case _ => None
  }

  /** `name in v && typeof v[name] === "boolean" ? v[name] : undefined`. */
  function BoolField(v: Js, name: string): (r: Option<bool>)
    ensures r.Some? <==> Field(v, name).Some? && Field(v, name).value.JBool?
  {
    match Field(v, name)
    case Some(JBool(b)) => Some(b)
    case _ => None
  }

  /** `name in v && typeof v[name] === "number" ? v[name] : undefined`. */
  function NumField(v: Js, name: string): (r: Option<int>)
    ensures r.Some? <==> Field(v, name).Some? && Field(v, name).value.JNum?
  {
    match Field(v, name)
    case Some(JNum(n)) => Some(n)
    case _ => None
  }

  /** An optional field is missing when it is absent or `undefined`. */
  predicate Missing(v: Js, name: string)
  {
    Field(v, name).None? || Field(v, name).value.JUndefined?
  }

  function JsOfStr(o: Option<string>): Js
  {
    if o.Some? then JStr(o.value) else JUndefined
  }

  function JsOfBool(o: Option<bool>): Js
  {
    if o.Some? then JBool(o.value) else JUndefined
  }

  function JsOfNum(o: Option<int>): Js
  {
    if o.Some? then JNum(o.value) else JUndefined
  }

  /** A property written as `JsOfStr(o)` reads back as `o`. */
  lemma StringFieldOf(props: map<string, Js>, name: string, o: Option<string>)
    requires name in props && props[name] == JsOfStr(o)
    ensures StringField(JObj(props), name) == o
  {
  }

  /** A property written as `JsOfBool(o)` reads back as `o`. */
  lemma BoolFieldOf(props: map<string, Js>, name: string, o: Option<bool>)
    requires name in props && props[name] == JsOfBool(o)
    ensures BoolField(JObj(props), name) == o
  {
  }
}
