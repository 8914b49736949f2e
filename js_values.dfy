/**
 * The loosely typed values that cross the HTTP boundary (request bodies, query
 * parameters, database rows) and the JavaScript tests the handlers apply to them.
 * Numbers are integers; objects and arrays are spelled out by the modules that use them.
 */
module JsValues {
  import opened Text

  datatype Json = Undefined | Null | Bool(b: bool) | Num(n: int) | Str(s: string)

  /** `!v` holds: `undefined`, `null`, `false`, `0` and `""`. */
  predicate Falsy(v: Json) {
    v == Undefined || v == Null || v == Bool(false) || v == Num(0) || v == Str("")
  }

  /** `v == null` (loose equality): `undefined` or `null`. */
  predicate Nullish(v: Json) {
    v == Undefined || v == Null
  }

  /** `a ?? b`. */
  function Coalesce(a: Json, b: Json): (r: Json)
    ensures !Nullish(a) ==> r == a
    ensures Nullish(a) ==> r == b
  {
    if Nullish(a) then b else a
  }

  /** `typeof v === "number"`. */
  predicate IsNumber(v: Json) {
    v.Num?
  }

  /** `typeof v === "string"`. */
  predicate IsString(v: Json) {
    v.Str?
  }

  /** `String(v)`. */
  function JsString(v: Json): string {
    match v
    case Undefined => "undefined"
    case Null => "null"
    case Bool(b) => if b then "true" else "false"
    case Num(n) => Decimal(n)
    case Str(s) => s
  }

  /** A property read `obj.key` on an object modelled as a map: a missing key is `undefined`. */
  function Get(obj: map<string, Json>, key: string): (r: Json)
    ensures key !in obj ==> r == Undefined
  {
    if key in obj then obj[key] else Undefined
  }
}
