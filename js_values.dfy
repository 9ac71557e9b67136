/**
 * The slice of JavaScript semantics the bot's parsers rely on: JSON values as
 * `JSON.parse` and `express.json` produce them, optional chaining, truthiness,
 * `String.prototype.trim`, and the `String(...)` / `Number(...)` coercions.
 * Numbers are finite reals; floating-point rounding is not modelled.
 */
module JsValues {
  import opened Wrappers

  datatype Json =
    | JNull
    | JBool(b: bool)
    | JNumber(n: real)
    | JInfinity(negative: bool)  // what `JSON.parse` makes of a literal too large for a double, such as 1e999
    | JString(s: string)
    | JArray(items: seq<Json>)
    | JObject(fields: map<string, Json>)

  /**
   * The parts of the runtime the model does not define: `JSON.parse` (None when
   * it throws), `Number(s)` on a string (None when the result is NaN or
   * infinite), and the decimal rendering of a number by `String(n)`.
   */
  datatype Runtime = Runtime(
    jsonParse: string -> Option<Json>,
    stringToNumber: string -> Option<real>,
    numberToString: real -> string)

  /** `v.key` on a parsed value: only objects carry the keys the bot reads. */
  function Get(v: Json, key: string): Option<Json>
  {
    if v.JObject? && key in v.fields then Some(v.fields[key]) else None
  }

  /** `o?.key`: undefined when `o` is undefined. */
  function Prop(o: Option<Json>, key: string): Option<Json>
  {
    if o.Some? then Get(o.value, key) else None
  }

  /** `o?.[0]`: the first array element, the property "0" of an object, or the first character of a string. */
  function First(o: Option<Json>): (r: Option<Json>)
    ensures r.Some? ==> o.Some? && (o.value.JArray? || o.value.JObject? || o.value.JString?)
    ensures o.Some? && o.value.JArray? ==> r == (if |o.value.items| > 0 then Some(o.value.items[0]) else None)
  {
    match o
    case Some(JArray(items)) => if |items| > 0 then Some(items[0]) else None
    case Some(JObject(fields)) => if "0" in fields then Some(fields["0"]) else None
    case Some(JString(s)) => if |s| > 0 then Some(JString([s[0]])) else None
    case _ => None
  }

  /** JavaScript truthiness; `None` is `undefined`. A parsed value is never NaN. */
  predicate Truthy(o: Option<Json>) {
    match o
    case None => false
    case Some(JNull) => false
    case Some(JBool(b)) => b
    case Some(JNumber(n)) => n != 0.0
    case Some(JString(s)) => s != ""
    case Some(_) => true
  }

  /** The characters `trim` removes: ECMAScript WhiteSpace (with every Zs character) and LineTerminator. */
  predicate IsJsWhitespace(c: char) {
    var n := c as int;
    n == 0x09 || n == 0x0A || n == 0x0B || n == 0x0C || n == 0x0D || n == 0x20
    || n == 0xA0 || n == 0x1680 || (0x2000 <= n <= 0x200A) || n == 0x2028 || n == 0x2029
    || n == 0x202F || n == 0x205F || n == 0x3000 || n == 0xFEFF
  }

  /** Drops leading whitespace: the result is a suffix of `s`, everything dropped is whitespace. */
  function TrimStart(s: string): (r: string)
    ensures |r| <= |s| && r == s[|s| - |r|..]
    ensures forall k :: 0 <= k < |s| - |r| ==> IsJsWhitespace(s[k])
    ensures r != [] ==> !IsJsWhitespace(r[0])
  {
    if |s| > 0 && IsJsWhitespace(s[0]) then TrimStart(s[1..]) else s
  }

  /** Drops trailing whitespace: the result is a prefix of `s`, everything dropped is whitespace. */
  function TrimEnd(s: string): (r: string)
    ensures |r| <= |s| && r == s[..|r|]
    ensures forall k :: |r| <= k < |s| ==> IsJsWhitespace(s[k])
    ensures r != [] ==> !IsJsWhitespace(r[|r| - 1])
  {
    if |s| > 0 && IsJsWhitespace(s[|s| - 1]) then TrimEnd(s[..|s| - 1]) else s
  }

  /** `s.trim()`. */
  function Trim(s: string): (r: string)
  {
    TrimEnd(TrimStart(s))
  }

  /**
   * `trim` keeps a contiguous slice `s[a..b]` of its input, drops only whitespace,
   * and leaves no whitespace at either end of what it keeps.
   */
  lemma TrimSlice(s: string) returns (a: nat, b: nat)
    ensures a <= b <= |s| && Trim(s) == s[a..b]
    ensures forall k :: 0 <= k < a ==> IsJsWhitespace(s[k])
    ensures forall k :: b <= k < |s| ==> IsJsWhitespace(s[k])
    ensures Trim(s) != [] ==> !IsJsWhitespace(Trim(s)[0]) && !IsJsWhitespace(Trim(s)[|Trim(s)| - 1])
  {
    var t := TrimStart(s);
    var e := TrimEnd(t);
    a := |s| - |t|;
    b := a + |e|;
    KeptSlice(s, t, e, a);
  }

  /** A prefix `e` of the suffix `t == s[a..]` is the slice `s[a..a + |e|]`. */
  lemma KeptSlice(s: string, t: string, e: string, a: nat)
    requires a + |t| == |s| && t == s[a..]
    requires |e| <= |t| && e == t[..|e|]
    ensures s[a..a + |e|] == e
    ensures forall k :: a + |e| <= k < |s| ==> s[k] == t[k - a]
    ensures e != [] ==> e[0] == t[0]
  {
  }

  /** Trimming twice is trimming once. */
  lemma TrimIdempotent(s: string)
    ensures Trim(Trim(s)) == Trim(s)
  {
    var t := Trim(s);
    assert TrimStart(t) == t;
    assert TrimEnd(t) == t;
  }

  /**
   * `String(v)` and `Number(v)` throw a TypeError on `v`: a parsed object with
   * its own `toString` key has no callable `toString`, and its `valueOf`
   * returns the object itself; an array throws when one of its elements
   * does, since it converts through `join`.
   */
  predicate ConversionThrows(v: Json)
    decreases v
  {
    match v
    case JObject(fields) => "toString" in fields
    case JArray(items) => exists i :: 0 <= i < |items| && ConversionThrows(items[i])
    case _ => false
  }

  /** `String(v)`; `Err` is the TypeError it throws. */
  function ToJsString(v: Json, rt: Runtime): (r: Result<string>)
    ensures r.Err? <==> ConversionThrows(v)
    decreases v
  {
    match v
    case JNull => Ok("null")
    case JBool(b) => Ok(if b then "true" else "false")
    case JNumber(n) => Ok(rt.numberToString(n))
    case JInfinity(negative) => Ok(if negative then "-Infinity" else "Infinity")
    case JString(s) => Ok(s)
    case JArray(items) =>
      // Array.prototype.join(","), in which a null element prints as "".
      var parts := seq(|items|, i requires 0 <= i < |items| =>
                         if items[i].JNull? then Ok("") else ToJsString(items[i], rt));
      assert forall i :: 0 <= i < |items| ==> (parts[i].Err? <==> ConversionThrows(items[i]));
      JoinAll(parts)
    case JObject(fields) => if "toString" in fields then Err else Ok("[object Object]")
  }

  /** Joins converted strings with ","; the first conversion that threw makes the join throw. */
  function JoinAll(parts: seq<Result<string>>): (r: Result<string>)
    ensures r.Err? <==> exists i :: 0 <= i < |parts| && parts[i].Err?
  {
    if parts == [] then Ok("")
    else if |parts| == 1 then parts[0]
    else
      var rest := JoinAll(parts[1..]);
      assert forall i :: 1 <= i < |parts| ==> parts[i] == parts[1..][i - 1];
      match (parts[0], rest)
      case (Ok(first), Ok(others)) => Ok(first + "," + others)
      case _ => Err
  }

  /** `Number(o)`: `Err` is the TypeError it throws, `Ok(None)` a NaN or infinite result. */
  function ToNumber(o: Option<Json>, rt: Runtime): (r: Result<Option<real>>)
    ensures r.Err? <==> o.Some? && ConversionThrows(o.value)
    ensures o.None? ==> r == Ok(None)
    ensures o == Some(JNull) || o == Some(JBool(false)) ==> r == Ok(Some(0.0))
    ensures o == Some(JBool(true)) ==> r == Ok(Some(1.0))
    ensures o.Some? && o.value.JNumber? ==> r == Ok(Some(o.value.n))
    ensures o.Some? && o.value.JInfinity? ==> r == Ok(None)
  {
    match o
    case None => Ok(None)
    case Some(JNull) => Ok(Some(0.0))
    case Some(JBool(b)) => Ok(Some(if b then 1.0 else 0.0))
    case Some(JNumber(n)) => Ok(Some(n))
    case Some(JInfinity(_)) => Ok(None)
    case Some(JString(s)) => Ok(rt.stringToNumber(s))
    // An object or array becomes a primitive through its toString().
    case Some(v) =>
      match ToJsString(v, rt)
      case Err => Err
      case Ok(text) => Ok(rt.stringToNumber(text))
  }
}
