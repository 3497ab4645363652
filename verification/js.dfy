/**
 * The JavaScript values the screens receive from servers and storage and
 * the few operations they apply to them: truthiness, `a || b`, property
 * reads and string conversion (template literals, `alert`, `FormData`).
 * Numbers are integers; `NaN` and fractions do not occur in the model.
 */
module Js {
  import Text

  datatype Value =
    | Undefined
    | Null
    | Bool(b: bool)
    | Num(n: int)
    | Str(s: string)
    | Arr(items: seq<Value>)
    | Obj(fields: map<string, Value>)

  /** `null` and `undefined`: the values whose property reads throw a TypeError. */
  predicate Nullish(v: Value) {
    v.Undefined? || v.Null?
  }

  /** JavaScript truthiness: `undefined`, `null`, `false`, `0` and `""` are falsy. */
  predicate Truthy(v: Value) {
    match v
    case Undefined => false
    case Null => false
    case Bool(b) => b
    case Num(n) => n != 0
    case Str(s) => s != ""
    case Arr(_) => true
    case Obj(_) => true
  }

  /** `a || b`: `a` when it is truthy, otherwise `b`. */
  function Or(a: Value, b: Value): (r: Value)
    ensures Truthy(a) ==> r == a
    ensures !Truthy(a) ==> r == b
  {
    if Truthy(a) then a else b
  }

  /**
   * `v.key` for a named (non-index, non-`length`) key: the own property of an
   * object, `undefined` otherwise. On `null` and `undefined` the source
   * throws; callers test `Nullish` first where that matters.
   */
  function Get(v: Value, key: string): (r: Value)
    ensures !v.Obj? ==> r.Undefined?
    ensures v.Obj? && key !in v.fields ==> r.Undefined?
  {
    match v
    case Obj(m) => if key in m then m[key] else Undefined
    case _ => Undefined
  }

  /** `v?.key`: optional chaining gives `undefined` on a nullish receiver. */
  function OptGet(v: Value, key: string): Value {
    if Nullish(v) then Undefined else Get(v, key)
  }

  /** `String(v)`, as a template literal or `alert` renders it. */
  function Show(v: Value): string
    decreases v, 1
  {
    match v
    case Undefined => "undefined"
    case Null => "null"
    case Bool(b) => if b then "true" else "false"
    case Num(n) => if n < 0 then "-" + Text.NatToString(-n) else Text.NatToString(n)
    case Str(s) => s
    case Arr(items) => Join(items)
    case Obj(_) => "[object Object]"
  }

  /** `Array.prototype.join(",")`: `null` and `undefined` elements render empty. */
  function Join(items: seq<Value>): string
    decreases items, 0
  {
    if items == [] then ""
    else
      var head := if Nullish(items[0]) then "" else Show(items[0]);
      if |items| == 1 then head else head + "," + Join(items[1..])
  }

  /** A list of strings, as Spring serialises a `List<String>` body. */
  function StrList(ss: seq<string>): (r: Value)
    ensures r.Arr? && |r.items| == |ss|
    ensures forall i :: 0 <= i < |ss| ==> r.items[i] == Str(ss[i])
  {
    Arr(seq(|ss|, i requires 0 <= i < |ss| => Str(ss[i])))
  }
}
