/** Reading a string-valued JavaScript object literal (`Record<string, string>`)
    by key, as `rec[key] || rec[fallback]` does it, and the own-property
    lookup with a fallback that the colour tables mean. */
module JsRecord {

  /** What a property read on a plain object can give: one of its own string
      values, a member every object inherits from `Object.prototype`, or
      `undefined`. */
  datatype JsValue = Str(s: string) | Inherited(name: string) | Undefined

  /** The members every plain object literal inherits from `Object.prototype`. */
  const PrototypeMembers: set<string> := {
    "constructor", "hasOwnProperty", "isPrototypeOf", "propertyIsEnumerable",
    "toLocaleString", "toString", "valueOf", "__proto__",
    "__defineGetter__", "__defineSetter__", "__lookupGetter__", "__lookupSetter__"
  }

  /** `rec[key]` on an object literal whose own properties are `rec`. */
  function Get(rec: map<string, string>, key: string): (v: JsValue)
    ensures key in rec ==> v == Str(rec[key])
    ensures key !in rec && key in PrototypeMembers ==> v.Inherited?
    ensures key !in rec && key !in PrototypeMembers ==> v == Undefined
  {
    if key in rec then Str(rec[key])
    else if key in PrototypeMembers then Inherited(key)
    else Undefined
  }

  /** JavaScript truthiness: the empty string and `undefined` are false,
      every other string and every function are true. */
  predicate Truthy(v: JsValue) {
    match v
    case Str(s) => s != ""
    case Inherited(_) => true
    case Undefined => false
  }

  /** `rec[key] || rec[fallback]`, as the colour tables are read. */
  function GetOr(rec: map<string, string>, key: string, fallback: string): (v: JsValue)
    ensures Truthy(Get(rec, key)) ==> v == Get(rec, key)
    ensures !Truthy(Get(rec, key)) ==> v == Get(rec, fallback)
  {
    var first := Get(rec, key);
    if Truthy(first) then first else Get(rec, fallback)
  }

  /** The lookup the tables mean: the key's own non-empty value, otherwise the
      fallback's value. */
  function OwnOr(rec: map<string, string>, key: string, fallback: string): (r: string)
    requires fallback in rec
    ensures key in rec && rec[key] != "" ==> r == rec[key]
    ensures key !in rec || rec[key] == "" ==> r == rec[fallback]
    ensures r in rec.Values
  {
    if key in rec && rec[key] != "" then rec[key] else rec[fallback]
  }

  /** Where the two agree: for every key that is not an inherited member
      name, `rec[key] || rec[fallback]` gives the intended string. */
  lemma GetOrAgreesOffPrototype(rec: map<string, string>, key: string, fallback: string)
    requires fallback in rec && rec[fallback] != ""
    requires key in rec || key !in PrototypeMembers
    ensures GetOr(rec, key, fallback) == Str(OwnOr(rec, key, fallback))
  {
  }

  /** Where they part: a key naming an inherited member that the table does
      not define yields that member, a function, not the fallback string. */
  lemma InheritedKeyEscapesFallback(rec: map<string, string>, key: string, fallback: string)
    requires key !in rec && key in PrototypeMembers
    ensures GetOr(rec, key, fallback) == Inherited(key)
    ensures GetOr(rec, key, fallback) != Get(rec, fallback) || fallback == key
  {
  }
}
