/** JavaScript values as the request handlers receive them: JSON values plus
    `undefined`, with the coercions the handlers use (truthiness, `||`, `??`,
    optional property access and `String(v)`). Numbers are integral here. */
module JsValue {
  import opened Base

  /** An object is modelled by its own enumerable properties; a property whose value
      is `undefined` is still present (it is an own property of the object). */
  datatype Value =
    | Undef
    | Null
    | Bool(b: bool)
    | Num(n: int)
    | Str(s: string)
    | Arr(items: seq<Value>)
    | Obj(fields: map<string, Value>)

  /** JavaScript truthiness (NaN is not a value of this model). */
  predicate Truthy(v: Value) {
    match v
    case Undef => false
    case Null => false
    case Bool(b) => b
    case Num(n) => n != 0
    case Str(s) => s != ""
    case Arr(_) => true
    case Obj(_) => true
  }

  /** `v == null`: null or undefined. */
  predicate IsNullish(v: Value) {
    v.Undef? || v.Null?
  }

  /** isPlainObject of the templates controller: not null, typeof "object", not an array. */
  predicate IsPlainObject(v: Value) {
    v.Obj?
  }

  /** `v?.[key]`: the own property, or undefined when `v` has none (or is not an object). */
  function Get(v: Value, key: string): (r: Value)
    ensures v.Obj? && key in v.fields ==> r == v.fields[key]
    ensures !(v.Obj? && key in v.fields) ==> r == Undef
  {
    if v.Obj? && key in v.fields then v.fields[key] else Undef
  }

  /** `a || b`. */
  function Or(a: Value, b: Value): (r: Value)
    ensures Truthy(a) ==> r == a
    ensures !Truthy(a) ==> r == b
  {
    if Truthy(a) then a else b
  }

  /** `a ?? b`. */
  function Coalesce(a: Value, b: Value): (r: Value)
    ensures IsNullish(a) ==> r == b
    ensures !IsNullish(a) ==> r == a
  {
    if IsNullish(a) then b else a
  }

  /** `String(v)`. Arrays join their elements' strings with "," and write null and
      undefined elements as empty; every plain object prints as "[object Object]". */
  function ToJsString(v: Value): string {
    match v
    case Undef => "undefined"
    case Null => "null"
    case Bool(b) => if b then "true" else "false"
    case Num(n) => IntToString(n)
    case Str(s) => s
    case Arr(items) => Join(ElementStrings(v), ",")
    case Obj(_) => "[object Object]"
  }

  function ElementStrings(a: Value): (r: seq<string>)
    requires a.Arr?
    ensures |r| == |a.items|
    decreases a, 0
  {
    seq(|a.items|, i requires 0 <= i < |a.items| =>
      var e := a.items[i];
      if IsNullish(e) then "" else ToJsString(e))
  }

  /** The text a database text column stores for a body value: absent or null is
      SQL NULL, anything else is its string form. */
  function ColumnText(v: Value): (r: Option<string>)
    ensures IsNullish(v) <==> r.None?
    ensures v.Str? ==> r == Some(v.s)
  {
    if IsNullish(v) then None else Some(ToJsString(v))
  }

  /** A string property stored as text when it is truthy, and NULL otherwise: `x || null`. */
  function TextOrNull(v: Value): (r: Option<string>)
    ensures !Truthy(v) ==> r.None?
    ensures v.Str? && v.s != "" ==> r == Some(v.s)
  {
    if Truthy(v) then Some(ToJsString(v)) else None
  }
}
