/**
  JavaScript values as the converter sees them: the doc-definition objects it builds,
  the parsed `data-pdfmake` payloads and the user's option objects. An object is a map
  from property names to values; object identity is not modelled, so an object that
  one part of the program updates in place is threaded through explicitly.
 */
module Values {
  import opened Optional
  import opened Strings
  import opened Numbers

  datatype Value =
    | Undefined
    | Null
    | Bool(b: bool)
    | Number(n: JsNum)
    | Str(s: string)
    | Arr(items: seq<Value>)
    | Obj(fields: map<string, Value>)

  type Props = map<string, Value>

  function Num(r: real): Value {
    Number(Finite(r))
  }

  /** ToBoolean: `false`, `0`, `NaN`, `''`, `null` and `undefined` are falsy. */
  predicate Truthy(v: Value) {
    match v
    case Undefined => false
    case Null => false
    case Bool(b) => b
    case Number(n) => !(n.NaN? || (n.Finite? && n.r == 0.0))
    case Str(s) => s != ""
    case Arr(_) => true
    case Obj(_) => true
  }

  /** `a || b` */
  function Or(a: Value, b: Value): (r: Value)
    ensures Truthy(r) <==> Truthy(a) || Truthy(b)
  {
    if Truthy(a) then a else b
  }

  /** Property `k` of an object, `undefined` when it is missing. */
  function Field(p: Props, k: string): Value {
    if k in p then p[k] else Undefined
  }

  /** `v.k`: reading a property of `null` or `undefined` throws a TypeError (None);
      the keys the converter reads are not own properties of strings, numbers,
      booleans or arrays. */
  function Member(v: Value, k: string): (r: Option<Value>)
    ensures r.None? <==> v.Undefined? || v.Null?
  {
    match v
    case Undefined => None
    case Null => None
    case Obj(p) => Some(Field(p, k))
    case _ => Some(Undefined)
  }

  /** A value whose properties can be read without a TypeError. */
  predicate Readable(v: Value) {
    !v.Undefined? && !v.Null?
  }

  /** `v.k` for a value that is neither `null` nor `undefined`. */
  function Get(v: Value, k: string): Value
    requires Readable(v)
  {
    Member(v, k).value
  }

  /** `typeof v` */
  function TypeOf(v: Value): string {
    match v
    case Undefined => "undefined"
    case Null => "object"
    case Bool(_) => "boolean"
    case Number(_) => "number"
    case Str(_) => "string"
    case Arr(_) => "object"
    case Obj(_) => "object"
  }

  /** `String(v)`; an array is the comma-join of its elements with `null` and
      `undefined` written as empty strings. */
  function JsString(v: Value): string
    decreases v, 1
  {
    match v
    case Undefined => "undefined"
    case Null => "null"
    case Bool(b) => if b then "true" else "false"
    case Number(n) => NumberString(n)
    case Str(s) => s
    case Arr(items) => JoinElements(v, 0)
    case Obj(_) => "[object Object]"
  }

  function JoinElements(v: Value, i: nat): string
    requires v.Arr? && i <= |v.items|
    decreases v, 0, |v.items| - i
  {
    if i == |v.items| then ""
    else
      var x := v.items[i];
      var s := if x.Undefined? || x.Null? then "" else JsString(x);
      (if i == 0 then "" else ",") + s + JoinElements(v, i + 1)
  }

  /** ToNumber on any value (what `isNaN`, `/`, `>` and `Math.max` apply). */
  function ToNumberValue(v: Value): JsNum {
    match v
    case Undefined => NaN
    case Null => Finite(0.0)
    case Bool(b) => Finite(if b then 1.0 else 0.0)
    case Number(n) => n
    case Str(s) => ToNumber(s)
    case Arr(_) => ToNumber(JsString(v))
    case Obj(_) => NaN
  }

  lemma {:induction false} NatStringInjective(m: nat, n: nat)
    requires NatString(m) == NatString(n)
    ensures m == n
  {
    NatStringValue(m);
    NatStringValue(n);
  }

  lemma IndexKeysInjective()
    ensures forall m: nat, n: nat :: NatString(m) == NatString(n) ==> m == n
  {
    forall m: nat, n: nat | NatString(m) == NatString(n) ensures m == n {
      NatStringInjective(m, n);
    }
  }

  /** The enumerable own properties `for (k in v)` visits, with their values:
      an object's fields, an array's or a string's indices; none for the other values. */
  function ForIn(v: Value): (m: Props)
    ensures v.Obj? ==> m == v.fields
    ensures v.Arr? ==> forall i | 0 <= i < |v.items| :: NatString(i) in m && m[NatString(i)] == v.items[i]
    ensures !v.Obj? && !v.Arr? && !v.Str? ==> m == map[]
  {
    match v
    case Obj(p) => p
    case Arr(items) =>
      IndexKeysInjective();
      map i | 0 <= i < |items| :: NatString(i) := items[i]
    case Str(s) =>
      IndexKeysInjective();
      map i | 0 <= i < |s| :: NatString(i) := Str([s[i]])
    case _ => map[]
  }
}
