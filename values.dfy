/** Ruby values as the plugin sees them: parsed JSON (nil, booleans, integers,
    strings, arrays, objects) and the symbols it stores in property hashes. */
module Values {
  import opened Wrappers
  import opened Strings

  datatype Value =
    | Nil
    | Bool(b: bool)
    | Int(i: int)
    | Str(s: string)
    | Sym(name: string)
    | List(items: seq<Value>)
    | Obj(fields: seq<(string, Value)>)

  /** A parsed JSON object: its key/value pairs in the Hash's iteration order. */
  type JsonObject = seq<(string, Value)>

  /** A provider's `@property_hash` (or `@property_flush`), keyed by symbol name. */
  type PropertyHash = map<string, Value>

  const PRESENT := Sym("present")
  const ABSENT := Sym("absent")
  const REST_CLIENT := Sym("rest_client")

  /** Ruby truthiness: everything except nil and false. */
  predicate Truthy(v: Value)
    ensures v.Int? || v.Str? || v.Sym? || v.List? || v.Obj? ==> Truthy(v)
    ensures v.Bool? ==> (Truthy(v) <==> v.b)
  {
    !(v.Nil? || v == Bool(false))
  }

  /** Ruby's `a || b`. */
  function Or(a: Value, b: Value): (r: Value)
    ensures Truthy(a) ==> r == a
    ensures !Truthy(a) ==> r == b
  {
    if Truthy(a) then a else b
  }

  /** `json[key]`: the value bound to `key`, nil when there is none. */
  function Field(obj: JsonObject, key: string): Value
  {
    if obj == [] then Nil
    else if obj[|obj| - 1].0 == key then obj[|obj| - 1].1
    else Field(obj[..|obj| - 1], key)
  }

  /** The pairs of a parsed JSON value that is an object; none otherwise. */
  function Fields(v: Value): JsonObject
  {
    if v.Obj? then v.fields else []
  }

  /** `hash[key]` on a property hash: nil for a missing key. */
  function At(h: PropertyHash, key: string): Value
  {
    if key in h then h[key] else Nil
  }

  /** `inspect`. */
  function Inspect(v: Value): string
  {
    match v
    case Nil => "nil"
    case Bool(b) => if b then "true" else "false"
    case Int(i) => IntToString(i)
    case Str(s) => "\"" + s + "\""
    case Sym(n) => ":" + n
    case List(items) =>
      "[" + Join(seq(|items|, k requires 0 <= k < |items| => Inspect(items[k])), ", ") + "]"
    case Obj(fields) =>
      "{" + Join(seq(|fields|, k requires 0 <= k < |fields| =>
                       "\"" + fields[k].0 + "\"=>" + Inspect(fields[k].1)), ", ") + "}"
  }

  /** `to_s`, which is what string interpolation `"#{v}"` uses. */
  function ToS(v: Value): string
  {
    match v
    case Nil => ""
    case Str(s) => s
    case Sym(n) => n
    case _ => Inspect(v)
  }

  /** The name a parameter value written as a string or a symbol stands for. */
  function ValueName(v: Value): (n: Option<string>)
    ensures v.Str? ==> n == Some(v.s)
    ensures v.Sym? ==> n == Some(v.name)
    ensures !v.Str? && !v.Sym? ==> n == None
  {
    if v.Str? then Some(v.s) else if v.Sym? then Some(v.name) else None
  }

  /** An `ensure` limited to `present` and `absent`, with Puppet's message for
      any other value. */
  function MungePresentAbsent(v: Value): (r: Result<Value>)
    ensures r.Ok? <==> ValueName(v) == Some("present") || ValueName(v) == Some("absent")
    ensures r.Ok? ==> r.value == Sym(ValueName(v).value)
  {
    var n := ValueName(v);
    if n == Some("present") then Ok(PRESENT)
    else if n == Some("absent") then Ok(ABSENT)
    else Err("Invalid value " + Inspect(v) + ". Valid values are present, absent.")
  }

  /** The `validate` block of a path parameter: `value` must satisfy
      `Puppet::Util.absolute_path?`, given here as `isAbsolute`; the refusal
      names the parameter, says what the path must be and quotes the value. */
  function AbsolutePathCheck(param: string, must: string, value: string, isAbsolute: string -> bool): (o: Outcome)
    ensures o.Pass? <==> isAbsolute(value)
    ensures o.Fail? ==> ("'" + param + "' file path must be " + must) <= o.error
    ensures o.Fail? ==> |o.error| > |value| && o.error[|o.error| - |value| - 1..] == value + "'"
  {
    if isAbsolute(value) then Pass
    else
      var head := "'" + param + "' file path must be " + must;
      var msg := head + ", not '" + value + "'";
      assert msg == head + (", not '" + value + "'");
      assert msg[|msg| - |value| - 1..] == value + "'";
      Fail(msg)
  }

  /** The pairs of `fields` whose value is not nil, in order: `delete_if` of
      the nil values on a freshly built hash. */
  function DropNil(fields: seq<(string, Value)>): (r: seq<(string, Value)>)
    ensures |r| <= |fields|
    ensures forall p :: p in r <==> p in fields && p.1 != Nil
  {
    if fields == [] then []
    else
      var rest := DropNil(fields[1..]);
      assert forall p :: p in fields <==> p == fields[0] || p in fields[1..];
      if fields[0].1 == Nil then rest else [fields[0]] + rest
  }
}
