/**
 * JavaScript values as the frontend receives them from `JSON.parse` and
 * keeps them in its stores: the JSON types plus `undefined`. Numbers are
 * integers here; the frontend only tests them for truthiness.
 */
module JsValues {
  datatype Js =
    | JsUndefined
    | JsNull
    | JsBool(b: bool)
    | JsNumber(n: int)
    | JsString(s: string)
    | JsArray(items: seq<Js>)
    | JsObject(fields: map<string, Js>)

  /** JavaScript truthiness: `undefined`, `null`, `false`, `0` and `""` are falsy. */
  predicate Truthy(v: Js) {
    match v
    case JsUndefined => false
    case JsNull => false
    case JsBool(b) => b
    case JsNumber(n) => n != 0
    case JsString(s) => s != ""
    case JsArray(_) => true
    case JsObject(_) => true
  }

  /** `typeof v === 'object'`: objects, arrays and `null`. */
  predicate IsObjectType(v: Js) {
    v.JsNull? || v.JsArray? || v.JsObject?
  }

  /** `v?.key` on a value: the property of an object, `undefined` otherwise. */
  function Field(v: Js, key: string): (r: Js)
    ensures !v.JsObject? ==> r == JsUndefined
    ensures v.JsObject? && key in v.fields ==> r == v.fields[key]
  {
    if v.JsObject? && key in v.fields then v.fields[key] else JsUndefined
  }
}
