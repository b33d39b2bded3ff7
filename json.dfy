/**
  JavaScript values as the route handlers see them after `JSON.parse`, together with
  the operators the code applies to them: truthiness (`if (x)`, `!x`, `||`), nullish
  coalescing (`??`), optional property access (`?.`) and `String(x)`.
  `Undefined` is a property that is not there; it is distinct from JSON `null`,
  which is what makes `??` and `||` behave differently.
 */
module Json {

  datatype JsValue =
    | Undefined
    | Null
    | Bool(b: bool)
    | Num(n: int)
    | Str(s: string)
    | Arr(items: seq<JsValue>)
    | Obj(fields: map<string, JsValue>)

  /** JavaScript truthiness. Numbers are integers here, so `NaN` does not arise. */
  predicate Truthy(v: JsValue)
  {
    match v
    case Undefined => false
    case Null => false
    case Bool(b) => b
    case Num(n) => n != 0
    case Str(s) => s != ""
    case Arr(_) => true
    case Obj(_) => true
  }

  /** `v === null || v === undefined`, the test behind `??` and `?.`. */
  predicate Nullish(v: JsValue)
  {
    v.Undefined? || v.Null?
  }

  /** `a ?? b` */
  function Coalesce(a: JsValue, b: JsValue): JsValue
  {
    if Nullish(a) then b else a
  }

  /** `a || b` */
  function OrElse(a: JsValue, b: JsValue): JsValue
  {
    if Truthy(a) then a else b
  }

  /** `v?.key`. Only objects carry the properties the handlers read: none of the keys
      they use names a property of strings, arrays or Object.prototype. */
  function Get(v: JsValue, key: string): JsValue
  {
    if v.Obj? && key in v.fields then v.fields[key] else Undefined
  }

  /** `v?.k1?.k2` */
  function Get2(v: JsValue, k1: string, k2: string): JsValue
  {
    Get(Get(v, k1), k2)
  }

  /** `String(v)` for the values above. */
  function ToJsString(v: JsValue): string
  {
    match v
    case Undefined => "undefined"
    case Null => "null"
    case Bool(b) => if b then "true" else "false"
    case Num(n) => IntToDecimal(n)
    case Str(s) => s
    case Arr(items) => JoinItems(items)
    case Obj(_) => "[object Object]"
  }

  /** `Array.prototype.join(",")`: a `null` or `undefined` element contributes "". */
  function JoinItems(items: seq<JsValue>): string
  {
    if |items| == 0 then ""
    else
      var first := if Nullish(items[0]) then "" else ToJsString(items[0]);
      if |items| == 1 then first else first + "," + JoinItems(items[1..])
  }

  function IntToDecimal(n: int): string
  {
    if n < 0 then "-" + NatToDecimal(-n) else NatToDecimal(n)
  }

  predicate IsDigit(c: char)
  {
    '0' <= c <= '9'
  }

  /** The decimal digit for `k`. */
  function Digit(k: nat): (c: char)
    requires k < 10
    ensures IsDigit(c) && c as int - '0' as int == k
  {
    ('0' as int + k) as char
  }

  /** The number a string of decimal digits denotes, read most significant first. */
  function DecimalValue(s: string): nat
  {
    if s == [] then 0
    else
      var d := if IsDigit(s[|s| - 1]) then s[|s| - 1] as int - '0' as int else 0;
      DecimalValue(s[..|s| - 1]) * 10 + d
  }

  /** `String(n)` for a non-negative integer: digits only, no leading zero, and they
      read back as `n`. */
  function NatToDecimal(n: nat): (r: string)
    ensures |r| > 0 && forall i :: 0 <= i < |r| ==> IsDigit(r[i])
    ensures r[0] == '0' ==> n == 0 && r == "0"
    ensures DecimalValue(r) == n
    decreases n
  {
    var d := Digit(n % 10);
    if n < 10 then [d]
    else
      var prefix := NatToDecimal(n / 10);
      assert (prefix + [d])[..|prefix|] == prefix;
      prefix + [d]
  }

  /** `String(v)` of a truthy value is what the code stores; for a string it is the
      string itself. */
  lemma StringOfStr(s: string)
    ensures ToJsString(Str(s)) == s
  {
  }
}
