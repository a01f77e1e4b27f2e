/**
 * The JavaScript values the frontend code inspects with `typeof`, `in` and
 * truthiness tests. An object keeps its own properties in order, as
 * `Object.entries` lists them.
 */
module Js {
  datatype JsValue =
    | Undefined
    | Null
    | Bool(b: bool)
    | Num(n: real)
    | NaN
    | Str(s: string)
    | Arr(elems: seq<JsValue>)
    | Obj(props: seq<(string, JsValue)>)

  /** JavaScript truthiness: `undefined`, `null`, `false`, `0`, `NaN` and `""` are falsy, everything else is truthy. */
  predicate Truthy(v: JsValue)
  {
    match v
    case Undefined => false
    case Null => false
    case Bool(b) => b
    case Num(n) => n != 0.0
    case NaN => false
    case Str(s) => s != ""
    case Arr(_) => true
    case Obj(_) => true
  }

  /** The `typeof` operator (functions and symbols are not modelled). */
  function TypeOf(v: JsValue): string
  {
    match v
    case Undefined => "undefined"
    case Null => "object"
    case Bool(_) => "boolean"
    case Num(_) => "number"
    case NaN => "number"
    case Str(_) => "string"
    case Arr(_) => "object"
    case Obj(_) => "object"
  }

  /** `key in v` for an object; arrays are not asked about named keys here and have none. */
  predicate HasKey(v: JsValue, key: string)
  {
    v.Obj? && exists i :: 0 <= i < |v.props| && v.props[i].0 == key
  }

  /** `v[key]` on an object's own properties: the first property with that key, or `undefined`. */
  function Lookup(props: seq<(string, JsValue)>, key: string): (r: JsValue)
    ensures r != Undefined ==> exists i :: 0 <= i < |props| && props[i] == (key, r)
  {
    if props == [] then Undefined
    else if props[0].0 == key then props[0].1
    else Lookup(props[1..], key)
  }

  function DigitChar(d: nat): char
    requires d < 10
  {
    "0123456789"[d]
  }

  /** The decimal spelling of an array index, as `Object.entries` gives it. */
  function IndexKey(n: nat): (r: string)
    ensures r != ""
  {
    if n < 10 then [DigitChar(n)] else IndexKey(n / 10) + [DigitChar(n % 10)]
  }

  /** `Object.entries(v)` for an object or an array (for an array, its indices as keys). */
  function Entries(v: JsValue): (r: seq<(string, JsValue)>)
    requires v.Obj? || v.Arr?
    ensures v.Obj? ==> r == v.props
    ensures v.Arr? ==> |r| == |v.elems| && forall i :: 0 <= i < |r| ==> r[i].1 == v.elems[i]
  {
    if v.Obj? then v.props else seq(|v.elems|, i requires 0 <= i < |v.elems| => (IndexKey(i), v.elems[i]))
  }

  /** The keys of an object literal or a parsed JSON object are distinct. */
  predicate DistinctKeys(props: seq<(string, JsValue)>)
  {
    forall i, j :: 0 <= i < j < |props| ==> props[i].0 != props[j].0
  }

  /** How many UTF-16 code units a character takes: two outside the Basic Multilingual Plane. */
  function CodeUnits(c: char): (n: nat)
    ensures n == 1 <==> c as int <= 0xFFFF
    ensures n == 1 || n == 2
  {
    if c as int <= 0xFFFF then 1 else 2
  }

  /**
   * A string's `length` in JavaScript: its UTF-16 code units. It is the
   * number of characters exactly when none lies outside the Basic
   * Multilingual Plane.
   */
  function JsLength(s: string): (n: nat)
    ensures |s| <= n <= 2 * |s|
    ensures n == |s| <==> forall i :: 0 <= i < |s| ==> s[i] as int <= 0xFFFF
  {
    if s == [] then 0
    else
      var rest := s[1..];
      assert forall i :: 0 <= i < |rest| ==> rest[i] == s[i + 1];
      CodeUnits(s[0]) + JsLength(rest)
  }

  /** A UTF-16 code unit. */
  newtype CodeUnit = x: int | 0 <= x < 0x1_0000

  /**
   * The UTF-16 encoding of one character: itself inside the Basic
   * Multilingual Plane, otherwise a high surrogate followed by a low one
   * that decode back to it.
   */
  function EncodeChar(c: char): (u: seq<CodeUnit>)
    ensures |u| == CodeUnits(c)
    ensures |u| == 1 ==> u[0] as int == c as int
    ensures |u| == 2 ==> 0xD800 <= u[0] as int < 0xDC00 && 0xDC00 <= u[1] as int < 0xE000
                         && c as int == 0x10000 + (u[0] as int - 0xD800) * 0x400 + (u[1] as int - 0xDC00)
  {
    var v := c as int;
    if v <= 0xFFFF then [v as CodeUnit]
    else
      var w := v - 0x10000;
      [(0xD800 + w / 0x400) as CodeUnit, (0xDC00 + w % 0x400) as CodeUnit]
  }

  /** A JavaScript string as the code units `length` counts and `slice` cuts. */
  function Utf16(s: string): (u: seq<CodeUnit>)
    ensures |u| == JsLength(s)
  {
    if s == [] then [] else EncodeChar(s[0]) + Utf16(s[1..])
  }
}
