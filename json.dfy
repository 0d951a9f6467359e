/**
 * The values `json.loads` produces, and the Python operations the tasker
 * applies to them: truthiness, `dict.get`, `int(...)` and `str(...)`.
 * `json.loads` itself and Python's repr of floats and containers are
 * supplied from outside as a `Runtime`.
 */
module Json {
  import opened Base
  import opened Text

  datatype Float = Finite(r: real) | PosInf | NegInf | NaN

  datatype Json =
    | JNull
    | JBool(b: bool)
    | JInt(i: int)
    | JFloat(f: Float)
    | JStr(s: string)
    | JArray(items: seq<Json>)
    | JObject(fields: map<string, Json>)

  /** The library functions the model does not define: `json.loads` and `str()` of floats, lists and dicts. */
  datatype Runtime = Runtime(loads: string -> Option<Json>, repr: Json -> string)

  /** Python's `bool(v)`. */
  predicate Truthy(v: Json) {
    match v
    case JNull => false
    case JBool(b) => b
    case JInt(i) => i != 0
    case JFloat(f) => f != Finite(0.0)
    case JStr(s) => s != ""
    case JArray(items) => items != []
    case JObject(fields) => fields != map[]
  }

  /** `a or b` */
  function Or(a: Json, b: Json): (r: Json)
    ensures Truthy(a) ==> r == a
    ensures !Truthy(a) ==> r == b
  {
    if Truthy(a) then a else b
  }

  /** `d.get(k)`: a missing key reads as None. */
  function Get(d: map<string, Json>, k: string): Json {
    if k in d then d[k] else JNull
  }

  /** Outcome of Python's `int(v)`. */
  datatype Conversion = Converted(n: int) | ValueError | TypeError | OverflowError

  /** `int(r)` for a finite float: truncation toward zero. */
  function Trunc(r: real): (n: int)
    ensures r >= 0.0 ==> n as real <= r < n as real + 1.0
    ensures r < 0.0 ==> n as real - 1.0 < r <= n as real
  {
    if r >= 0.0 then r.Floor else -((-r).Floor)
  }

  /** Digits, with single underscores allowed between them (Python integer literal syntax). */
  predicate IsDigitBody(s: string) {
    s != [] && IsDigit(s[0]) && IsDigit(s[|s| - 1])
    && (forall k :: 0 <= k < |s| ==> IsDigit(s[k]) || s[k] == '_')
    && (forall k :: 0 <= k < |s| - 1 ==> !(s[k] == '_' && s[k + 1] == '_'))
  }

  function DigitValue(c: char): nat
    requires IsDigit(c)
  {
    c as int - '0' as int
  }

  function DigitsValue(s: string): nat
    decreases |s|
  {
    if s == [] then 0
    else if IsDigit(s[|s| - 1]) then DigitsValue(s[..|s| - 1]) * 10 + DigitValue(s[|s| - 1])
    else DigitsValue(s[..|s| - 1])
  }

  /** `int(s)` for a string: surrounding whitespace, an optional sign and a digit body. */
  function ParseIntLiteral(s: string): Option<int> {
    var t := Strip(s);
    if t != [] && (t[0] == '+' || t[0] == '-') then
      if IsDigitBody(t[1..]) then
        var n: int := DigitsValue(t[1..]);
        Some(if t[0] == '-' then -n else n)
      else None
    else if IsDigitBody(t) then Some(DigitsValue(t))
    else None
  }

  /** Python's `int(v)` on a decoded JSON value. */
  function IntOf(v: Json): Conversion {
    match v
    case JNull => TypeError
    case JBool(b) => Converted(if b then 1 else 0)
    case JInt(i) => Converted(i)
    case JFloat(f) =>
      (match f
       case Finite(r) => Converted(Trunc(r))
       case NaN => ValueError
       case _ => OverflowError)
    case JStr(s) =>
      (match ParseIntLiteral(s)
       case Some(n) => Converted(n)
       case None => ValueError)
    case JArray(_) => TypeError
    case JObject(_) => TypeError
  }

  /** `isinstance(v, (int, float))`; `bool` is a subclass of `int`. */
  predicate IsNumber(v: Json) {
    v.JBool? || v.JInt? || v.JFloat?
  }

  /** Python's `str(v)`. */
  function PyStr(v: Json, rt: Runtime): string {
    match v
    case JNull => "None"
    case JBool(b) => if b then "True" else "False"
    case JInt(i) => IntToString(i)
    case JStr(s) => s
    case _ => rt.repr(v)
  }

  /** Python's `v == w` between JSON values where a number meets a number: True == 1 == 1.0. */
  function NumericValue(v: Json): Option<real> {
    match v
    case JBool(b) => Some(if b then 1.0 else 0.0)
    case JInt(i) => Some(i as real)
    case JFloat(f) => if f.Finite? then Some(f.r) else None
    case _ => None
  }
}
