/** The JavaScript values the application reads from storage, HTTP bodies
    and persisted settings, with the coercions its code applies to them:
    truthiness, `??`, property access, `String(v)` and `Number(v)`. */
module JsValue {
  import opened Common
  import opened JsNumber

  datatype Value =
    | Undefined
    | Null
    | Bool(b: bool)
    | Num(n: JsNum)
    | Str(s: string)
    | Arr(elems: seq<Value>)
    | Obj(fields: map<string, Value>)

  /** JavaScript truthiness: undefined, null, false, 0, NaN and "" are falsy. */
  predicate IsTruthy(v: Value) {
    match v
    case Undefined => false
    case Null => false
    case Bool(b) => b
    case Num(n) => !n.NaN? && !(n.Finite? && n.m == 0)
    case Str(s) => s != ""
    case _ => true
  }

  predicate IsNullish(v: Value) {
    v.Undefined? || v.Null?
  }

  /** `v ?? d`. */
  function Coalesce(v: Value, d: Value): (r: Value)
    ensures IsNullish(v) ==> r == d
    ensures !IsNullish(v) ==> r == v
  {
    if IsNullish(v) then d else v
  }

  /** The outcome of `v.key`: reading a property of null or undefined throws
      a TypeError, a missing property is undefined. */
  datatype Access = Got(value: Value) | TypeError

  function Get(v: Value, key: string): (r: Access)
    ensures r.TypeError? <==> IsNullish(v)
  {
    match v
    case Undefined => TypeError
    case Null => TypeError
    case Obj(f) => Got(if key in f then f[key] else Undefined)
    case _ => Got(Undefined)
  }

  /** `v?.key`: undefined instead of a TypeError. */
  function OptGet(v: Value, key: string): (r: Value)
    ensures IsNullish(v) ==> r == Undefined
    ensures v.Obj? ==> r == if key in v.fields then v.fields[key] else Undefined
  {
    if IsNullish(v) then Undefined else Get(v, key).value
  }

  /** `String(v)`. Array elements that are null or undefined print as "". */
  function ToJsString(v: Value): string
    decreases v, 1
  {
    match v
    case Undefined => "undefined"
    case Null => "null"
    case Bool(b) => if b then "true" else "false"
    case Num(n) => NumberToString(n)
    case Str(s) => s
    case Arr(e) => JoinElems(v, e)
    case Obj(_) => "[object Object]"
  }

  /** `e.join(",")` for the elements `e` of the array `v`. */
  function JoinElems(v: Value, e: seq<Value>): string
    requires v.Arr? && forall k :: 0 <= k < |e| ==> e[k] in v.elems
    decreases v, 0, |e|
  {
    if e == [] then ""
    else
      var first := if IsNullish(e[0]) then "" else ToJsString(e[0]);
      if |e| == 1 then first else first + "," + JoinElems(v, e[1..])
  }

  /** `Number(v)`; arrays and objects go through their string form. */
  function ToNumber(v: Value): JsNum {
    match v
    case Undefined => NaN
    case Null => Finite(0, 0)
    case Bool(b) => if b then Finite(1, 0) else Finite(0, 0)
    case Num(n) => n
    case Str(s) => StringToNumber(s)
    case _ => StringToNumber(ToJsString(v))
  }

  /** What `String` and `Number` give for the values the application sees. */
  lemma CoercionExamples()
    ensures ToJsString(Num(Finite(9, 0))) == "9"
    ensures ToJsString(Str("9")) == "9"
    ensures ToJsString(Undefined) == "undefined"
    ensures ToNumber(Null) == Finite(0, 0) && ToNumber(Undefined) == NaN
    ensures ToJsString(Arr([Num(Finite(1, 0)), Null])) == "1,"
  {
    assert NatToString(9) == "9";
    assert NatToString(1) == "1";
  }
}
