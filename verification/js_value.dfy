/**
 * The JavaScript values that cross the worker boundary and that the plug-ins
 * and utilities inspect, with the few language operations the code uses on
 * them: truthiness, `typeof`, property reads, string conversion.
 */
module JsValue {
  import opened Wrappers
  import Text

  /**
   * A JavaScript value. Numbers are integers; `Error` is an Error object with
   * its `name`, its `message` and its own enumerable fields.
   */
  datatype Value =
    | Undefined
    | Null
    | Bool(b: bool)
    | Num(n: int)
    | Str(s: string)
    | Arr(items: seq<Value>)
    | Obj(fields: map<string, Value>)
    | Error(name: string, message: string, fields: map<string, Value>)

  /** The outcome of running a piece of script: a returned value or a thrown one. */
  datatype Completion = Returned(value: Value) | Threw(error: Value)

  /** The completion of an expression evaluated through `Get` and friends. */
  function AsCompletion(r: Result<Value, Value>): Completion {
    match r
    case Success(v) => Returned(v)
    case Failure(e) => Threw(e)
  }

  /** JavaScript truthiness: `undefined`, `null`, `false`, `0` and `''` are falsy. */
  predicate Truthy(v: Value) {
    match v
    case Undefined => false
    case Null => false
    case Bool(b) => b
    case Num(n) => n != 0
    case Str(s) => |s| > 0
    case _ => true
  }

  function TypeOf(v: Value): string {
    match v
    case Undefined => "undefined"
    case Bool(_) => "boolean"
    case Num(_) => "number"
    case Str(_) => "string"
    case _ => "object"
  }

  /** A non-null, non-array object. */
  predicate IsObjectLike(v: Value) {
    v.Obj? || v.Error?
  }

  function Fields(v: Value): map<string, Value>
    requires IsObjectLike(v)
  {
    v.fields
  }

  function WithFields(v: Value, f: map<string, Value>): (r: Value)
    requires IsObjectLike(v)
    ensures IsObjectLike(r) && Fields(r) == f
  {
    if v.Obj? then Obj(f) else Error(v.name, v.message, f)
  }

  function NewError(message: string): Value {
    Error("Error", message, map[])
  }

  /** The TypeError a property read on `null` or `undefined` throws (engine wording abstracted). */
  const ReadOfNullish: Value := Error("TypeError", "Cannot read properties of null or undefined", map[])

  /** The TypeError thrown when a value that is not a function is called. */
  const NotAFunction: Value := Error("TypeError", "value is not a function", map[])

  predicate IsNullish(v: Value) {
    v.Undefined? || v.Null?
  }

  /** `v[key]`: throws on `null`/`undefined`, otherwise the own field or `undefined`. */
  function Get(v: Value, key: string): (r: Result<Value, Value>)
    ensures r.Failure? <==> IsNullish(v)
    ensures r.Failure? ==> r.error == ReadOfNullish
    ensures v.Obj? ==> r == Success(if key in v.fields then v.fields[key] else Undefined)
  {
    match v
    case Undefined => Failure(ReadOfNullish)
    case Null => Failure(ReadOfNullish)
    case Obj(f) => Success(if key in f then f[key] else Undefined)
    case Error(n, m, f) =>
      Success(
        if key in f then f[key]
        else if key == "name" then Str(n)
        else if key == "message" then Str(m)
        else Undefined)
    case Arr(items) => Success(if key == "length" then Num(|items|) else Undefined)
    case Str(s) => Success(if key == "length" then Num(|s|) else Undefined)
    case _ => Success(Undefined)
  }

  /** `v[i]` for an integer index. */
  function GetIndex(v: Value, i: nat): (r: Result<Value, Value>)
    ensures r.Failure? <==> IsNullish(v)
    ensures v.Arr? ==> r == Success(if i < |v.items| then v.items[i] else Undefined)
  {
    match v
    case Undefined => Failure(ReadOfNullish)
    case Null => Failure(ReadOfNullish)
    case Arr(items) => Success(if i < |items| then items[i] else Undefined)
    case Str(s) => Success(if i < |s| then Str([s[i]]) else Undefined)
    case Obj(f) => Success(var k := Text.NatToString(i); if k in f then f[k] else Undefined)
    case Error(_, _, f) => Success(var k := Text.NatToString(i); if k in f then f[k] else Undefined)
    case _ => Success(Undefined)
  }

  /** `String(v)`, also what a template literal inserts. */
  function Show(v: Value): string {
    match v
    case Undefined => "undefined"
    case Null => "null"
    case Bool(b) => if b then "true" else "false"
    case Num(n) => Text.IntToString(n)
    case Str(s) => s
    case Arr(items) => JoinValues(items, ",")
    case Obj(_) => "[object Object]"
    case Error(n, m, f) =>
      var name := if "name" in f then Show(f["name"]) else n;
      var msg := if "message" in f then Show(f["message"]) else m;
      if name == "" then msg else if msg == "" then name else name + ": " + msg
  }

  /** `Array.prototype.join`: `null` and `undefined` elements render as empty strings. */
  function JoinValues(items: seq<Value>, sep: string): string
    decreases items, 0
  {
    if |items| == 0 then ""
    else
      var first := if items[0].Undefined? || items[0].Null? then "" else Show(items[0]);
      if |items| == 1 then first else first + sep + JoinValues(items[1..], sep)
  }
}
