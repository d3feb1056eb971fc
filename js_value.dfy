/** The slice of JavaScript's value semantics that the three node operators
    rely on: values as JSON data plus `undefined`, truthiness (ToBoolean),
    string conversion (String(v)), and property reads (`v[p]`, `Object(v)[p]`).
    A proxy-node record is a plain object: a map from field name to value. */
module JsValue {

  datatype Option<+T> = None | Some(value: T)

  /** A JavaScript value. Numbers are integers here (see README, Left out). */
  datatype Value =
    | Undefined
    | Null
    | Bool(b: bool)
    | Num(n: int)
    | Str(s: string)
    | Arr(items: seq<Value>)
    | Obj(props: map<string, Value>)

  /** A proxy-node record (`{ server, name, ... }`); `_entrance` is one more field. */
  type Proxy = map<string, Value>

  /** Reading a field that is not present yields `undefined`. */
  function Field(p: Proxy, k: string): Value {
    if k in p then p[k] else Undefined
  }

  /** ECMAScript ToBoolean: the test behind `if (v)`, `v && ...`, `filter(p => p.x)`. */
  predicate Truthy(v: Value) {
    match v
    case Undefined => false
    case Null => false
    case Bool(b) => b
    case Num(n) => n != 0
    case Str(s) => s != ""
    case Arr(_) => true
    case Obj(_) => true
  }

  function DigitChar(d: nat): (c: char)
    requires d < 10
    ensures '0' <= c <= '9'
  {
    "0123456789"[d]
  }

  /** Decimal notation of a natural number, most significant digit first. */
  function NatToDecimal(n: nat): (s: string)
    ensures |s| >= 1
    ensures forall i :: 0 <= i < |s| ==> '0' <= s[i] <= '9'
  {
    if n < 10 then [DigitChar(n)] else NatToDecimal(n / 10) + [DigitChar(n % 10)]
  }

  /** ECMAScript ToString, i.e. `String(v)` and `${v}`. */
  function ToStr(v: Value): (s: string)
    decreases v, 1
  {
    match v
    case Undefined => "undefined"
    case Null => "null"
    case Bool(b) => if b then "true" else "false"
    case Num(n) => if n < 0 then "-" + NatToDecimal(-n) else NatToDecimal(n)
    case Str(s) => s
    case Arr(xs) => JoinItems(xs)
    case Obj(_) => "[object Object]"
  }

  /** `Array.prototype.join(",")`: `null` and `undefined` elements print as "". */
  function JoinItems(xs: seq<Value>): string
    decreases xs, 0
  {
    if xs == [] then ""
    else
      var first := if xs[0].Null? || xs[0].Undefined? then "" else ToStr(xs[0]);
      if |xs| == 1 then first else first + "," + JoinItems(xs[1..])
  }

  /** A canonical array index: decimal digits without a leading zero ("0" itself allowed). */
  predicate IsIndex(p: string) {
    |p| >= 1 && (forall i :: 0 <= i < |p| ==> '0' <= p[i] <= '9') && (p[0] == '0' ==> |p| == 1)
  }

  function DecimalValue(p: string): nat
    requires forall i :: 0 <= i < |p| ==> '0' <= p[i] <= '9'
  {
    if p == [] then 0 else 10 * DecimalValue(p[..|p| - 1]) + (p[|p| - 1] as int - '0' as int)
  }

  /** `Object(v)[p]`: a property read that never throws. Objects yield their own
      field; arrays and strings their element at a canonical index and their
      `length`; every other value, `null` and `undefined` included, yields
      `undefined` (inherited prototype members are not modelled). */
  function Prop(v: Value, p: string): Value {
    match v
    case Obj(m) => Field(m, p)
    case Arr(xs) =>
      if p == "length" then Num(|xs|)
      else if IsIndex(p) && DecimalValue(p) < |xs| then xs[DecimalValue(p)]
      else Undefined
    case Str(s) =>
      if p == "length" then Num(|s|)
      else if IsIndex(p) && DecimalValue(p) < |s| then Str([s[DecimalValue(p)]])
      else Undefined
    case _ => Undefined
  }

  /** `v.p`: like Prop, except that reading from `null` or `undefined` throws a
      TypeError (None). */
  function Member(v: Value, p: string): (r: Option<Value>)
    ensures r.None? <==> (v.Null? || v.Undefined?)
    ensures r.Some? ==> r.value == Prop(v, p)
  {
    if v.Null? || v.Undefined? then None else Some(Prop(v, p))
  }

  /** Destructuring with a default, `const { k = true } = args`: the default
      applies only when the property reads as `undefined`; the result is then
      tested for truthiness. */
  function FlagWithDefaultTrue(args: Value, k: string): (on: bool)
    ensures Prop(args, k).Undefined? ==> on
    ensures !Prop(args, k).Undefined? ==> (on <==> Truthy(Prop(args, k)))
  {
    var v := Prop(args, k);
    if v.Undefined? then true else Truthy(v)
  }
}
