/** The fragment of JavaScript values that the plugin's options, file records and
    metadata are made of, with the conversions the plugin relies on: truthiness
    (`if (!x)`), `typeof`, string conversion (`acc += x`, property keys) and
    `Object.keys`. Numbers are integers here; floating point is not modelled. */
module JsValues {

  datatype Value =
    | Undefined
    | Null
    | Bool(b: bool)
    | Number(n: int)
    | Text(s: string)
    | List(items: seq<Value>)
    | Object(fields: map<string, Value>)

  /** JavaScript truthiness: `undefined`, `null`, `false`, `0` and `""` are falsy. */
  predicate Truthy(v: Value)
  {
    match v
    case Undefined => false
    case Null => false
    case Bool(b) => b
    case Number(n) => n != 0
    case Text(s) => s != ""
    case List(_) => true
    case Object(_) => true
  }

  /** The result of the `typeof` operator; arrays and `null` are "object". */
  function TypeOf(v: Value): (r: string)
    ensures r == "object" <==> v.Null? || v.List? || v.Object?
  {
    match v
    case Undefined => "undefined"
    case Null => "object"
    case Bool(_) => "boolean"
    case Number(_) => "number"
    case Text(_) => "string"
    case List(_) => "object"
    case Object(_) => "object"
  }

  /** Decimal notation of a natural number, as `String(n)` writes it for
      n < 2^53 (larger integers are rounded, and from 10^21 on JavaScript uses
      exponent form). */
  function NatToString(n: nat): (r: string)
    ensures |r| >= 1
    ensures forall i :: 0 <= i < |r| ==> '0' <= r[i] <= '9'
    decreases n
  {
    var digit := "0123456789"[n % 10];
    if n < 10 then [digit] else NatToString(n / 10) + [digit]
  }

  /** `String(v)`: the string a value turns into when it is appended to a string
      or used as a property key. */
  function ToString(v: Value): string
  {
    match v
    case Undefined => "undefined"
    case Null => "null"
    case Bool(b) => if b then "true" else "false"
    case Number(n) => if n < 0 then "-" + NatToString(-n) else NatToString(n)
    case Text(s) => s
    case List(items) => JoinElements(items)
    case Object(_) => "[object Object]"
  }

  /** `Array.prototype.join(",")`: `undefined` and `null` elements become "". */
  function JoinElements(items: seq<Value>): string
  {
    if items == [] then ""
    else
      var first := if items[0].Undefined? || items[0].Null? then "" else ToString(items[0]);
      if |items| == 1 then first else first + "," + JoinElements(items[1..])
  }

  /** The own enumerable properties of an object, `Object.keys(v)` paired with
      `v[key]`; for an array these are its indices written in decimal. */
  function OwnProperties(v: Value): (m: map<string, Value>)
    requires v.List? || v.Object?
    ensures v.Object? ==> m == v.fields
  {
    if v.Object? then v.fields else IndexedProperties(v.items)
  }

  function IndexedProperties(items: seq<Value>): (m: map<string, Value>)
    ensures m.Keys == set i | 0 <= i < |items| :: NatToString(i)
  {
    if items == [] then map[]
    else
      var n := |items| - 1;
      var props := IndexedProperties(items[..n])[NatToString(n) := items[n]];
      assert (set i | 0 <= i < n + 1 :: NatToString(i))
          == (set i | 0 <= i < n :: NatToString(i)) + {NatToString(n)};
      props
  }
}
