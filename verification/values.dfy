/** JSON-shaped values as both sides of the application see them: parsed
    response bodies and property reads in the browser clients, request bodies
    in the Python servers. Numbers are integers; see README "Left out". */
module Values {
  import Text

  /** `Undefined` is what an ECMAScript property read yields for a missing
      property; it never comes out of a JSON parser. */
  datatype Value =
    | Undefined
    | Null
    | Bool(b: bool)
    | Num(n: int)
    | Str(s: string)
    | Arr(items: seq<Value>)
    | Obj(props: map<string, Value>)

  /** An HTTP reply: a JSON body with a status code, or an error page the web
      framework writes itself (an uncaught exception, a validation failure). */
  datatype Reply = Json(status: int, body: Value) | FrameworkError(status: int)

  /** A request body as a server receives it: JSON that parsed, or bytes
      that did not. */
  datatype RequestBody = Parsed(json: Value) | Unparsable

  /** A parsed JSON value: `Undefined` nowhere inside. */
  predicate IsJson(v: Value) {
    match v
    case Undefined => false
    case Arr(items) => forall i :: 0 <= i < |items| ==> IsJson(items[i])
    case Obj(props) => forall k :: k in props ==> IsJson(props[k])
    case _ => true
  }

  /** ECMAScript ToBoolean. */
  predicate JsTruthy(v: Value) {
    match v
    case Undefined => false
    case Null => false
    case Bool(b) => b
    case Num(n) => n != 0
    case Str(s) => s != []
    case Arr(_) => true
    case Obj(_) => true
  }

  /** `a || b` in ECMAScript: the first operand when truthy, else the second. */
  function JsOr(a: Value, b: Value): (r: Value)
    ensures JsTruthy(b) ==> JsTruthy(r)
    ensures r == a || r == b
    ensures JsTruthy(a) ==> r == a
    ensures !JsTruthy(a) ==> r == b
  {
    if JsTruthy(a) then a else b
  }

  /** Python truthiness of a parsed JSON value (`None`, `False`, `0`, `""`,
      `[]` and `{}` are falsy). */
  predicate PyTruthy(v: Value)
    requires IsJson(v)
  {
    match v
    case Null => false
    case Bool(b) => b
    case Num(n) => n != 0
    case Str(s) => s != []
    case Arr(items) => items != []
    case Obj(props) => props != map[]
  }

  /** The Python type name of a parsed JSON value, as it appears in an
      AttributeError message. */
  function PyTypeName(v: Value): string
    requires IsJson(v)
  {
    match v
    case Null => "NoneType"
    case Bool(_) => "bool"
    case Num(_) => "int"
    case Str(_) => "str"
    case Arr(_) => "list"
    case Obj(_) => "dict"
  }

  /** The message of the AttributeError Python raises for `v.attr` when the
      type of `v` has no such attribute. */
  function NoAttribute(v: Value, attr: string): string
    requires IsJson(v)
  {
    "'" + PyTypeName(v) + "' object has no attribute '" + attr + "'"
  }

  /** `d.get(key, default)` on a Python dict. */
  function PyGet(props: map<string, Value>, key: string, default: Value): (r: Value)
    ensures key in props ==> r == props[key]
    ensures key !in props ==> r == default
  {
    if key in props then props[key] else default
  }

  /** A JSON object built from literal pairs, as `jsonify({...})`,
      `Response.json({...})` and `JSON.stringify({...})` write them. */
  function Object2(k1: string, v1: Value, k2: string, v2: Value): Value {
    Obj(map[k1 := v1, k2 := v2])
  }

  function Object3(k1: string, v1: Value, k2: string, v2: Value, k3: string, v3: Value): Value {
    Obj(map[k1 := v1, k2 := v2, k3 := v3])
  }

  function Object1(k: string, v: Value): Value {
    Obj(map[k := v])
  }

  /** Length of a string in UTF-16 code units, which is what ECMAScript's
      `length` counts: a code point above U+FFFF takes two. */
  function Utf16Length(s: string): (n: nat)
    ensures |s| <= n <= 2 * |s|
  {
    if s == [] then 0 else (if s[0] as int > 0xFFFF then 2 else 1) + Utf16Length(s[1..])
  }

  /** The outcome of an ECMAScript property read `v.key`. */
  datatype Read = Got(value: Value) | TypeError

  /** `v.key` for the property names the clients read. Reading a property of
      `null` or `undefined` throws a TypeError; strings and arrays have a
      `length`; objects have their own properties; any other property is
      `undefined` (the names read here are not on any prototype). */
  function GetProp(v: Value, key: string): (r: Read)
    ensures r.TypeError? <==> (v.Undefined? || v.Null?)
    ensures v.Obj? && key in v.props ==> r == Got(v.props[key])
    ensures v.Obj? && key !in v.props ==> r == Got(Undefined)
  {
    match v
    case Undefined => TypeError
    case Null => TypeError
    case Str(s) => Got(if key == "length" then Num(Utf16Length(s)) else Undefined)
    case Arr(items) => Got(if key == "length" then Num(|items|) else Undefined)
    case Obj(props) => Got(if key in props then props[key] else Undefined)
    case _ => Got(Undefined)
  }

  /** `Array.isArray(data) && data[0]` is truthy: a non-empty array whose
      first element is truthy. */
  predicate HasTruthyFirst(v: Value) {
    v.Arr? && |v.items| > 0 && JsTruthy(v.items[0])
  }

  /** `data[0].language` once `HasTruthyFirst(data)` holds; a truthy value is
      never null or undefined, so the read cannot throw. */
  function FirstLanguage(v: Value): Value
    requires HasTruthyFirst(v)
  {
    GetProp(v.items[0], "language").value
  }

  /** ECMAScript ToString, as a template literal `${v}` applies it. Arrays
      join their elements with ',' and print null/undefined elements as ''. */
  function JsToString(v: Value): string {
    match v
    case Undefined => "undefined"
    case Null => "null"
    case Bool(b) => if b then "true" else "false"
    case Num(n) => Text.IntToDecimal(n)
    case Str(s) => s
    case Arr(items) =>
      JoinComma(seq(|items|, i requires 0 <= i < |items| =>
        if items[i].Undefined? || items[i].Null? then "" else JsToString(items[i])))
    case Obj(_) => "[object Object]"
  }

  /** `parts.join(',')`. */
  function JoinComma(parts: seq<string>): string {
    if parts == [] then ""
    else if |parts| == 1 then parts[0]
    else parts[0] + "," + JoinComma(parts[1..])
  }
}
