/**
 * The function-call arguments the handlers receive: a JSON object, read through
 * Jackson's `has`, `get`, `asText`, `asInt` and `asBoolean`.
 */
module Json {
  import opened Common
  import opened Strings

  /** A JSON value. Numbers are integers; floating-point numbers are not part of this model. */
  datatype JsonValue =
    | JNull
    | JBool(b: bool)
    | JInt(n: int)
    | JString(s: string)
    | JArray(items: seq<JsonValue>)
    | JObject(fields: map<string, JsonValue>)

  /** The argument object of a function call, keyed by field name. */
  type Args = map<string, JsonValue>

  const INT_MIN: int := -0x8000_0000
  const INT_MAX: int := 0x7FFF_FFFF

  /** Java's narrowing conversion of an integer to `int` (two's complement, 32 bits). */
  function ToInt32(n: int): (r: int)
    ensures INT_MIN <= r <= INT_MAX
    ensures INT_MIN <= n <= INT_MAX ==> r == n
    ensures (r - n) % 0x1_0000_0000 == 0
  {
    (n - INT_MIN) % 0x1_0000_0000 + INT_MIN
  }

  /** `node.asText()`: the text of a string, the literal of a scalar, "" for a container. */
  function AsText(v: JsonValue): string
  {
    match v
    case JNull => "null"
    case JBool(b) => if b then "true" else "false"
    case JInt(n) => IntToText(n)
    case JString(s) => s
    case JArray(_) => ""
    case JObject(_) => ""
  }

  /**
   * Jackson's reading of a text node as an `int`: after trimming, an optional sign and
   * decimal digits that fit an `int`; anything else gives the default 0.
   */
  function TextAsInt(s: string): (n: int)
    ensures INT_MIN <= n <= INT_MAX
  {
    var t := Trim(s);
    var negative := t != [] && t[0] == '-';
    var digits := if t != [] && (t[0] == '-' || t[0] == '+') then t[1..] else t;
    if !IsDigits(digits) then 0
    else
      var d: int := DigitsValue(digits);
      var v := if negative then -d else d;
      if INT_MIN <= v <= INT_MAX then v else 0
  }

  /** `node.asInt()`. */
  function AsInt(v: JsonValue): (n: int)
    ensures INT_MIN <= n <= INT_MAX
  {
    match v
    case JInt(n) => ToInt32(n)
    case JBool(b) => if b then 1 else 0
    case JString(s) => TextAsInt(s)
    case _ => 0
  }

  /** `node.asBoolean()`: a boolean, a non-zero number, or the text "true" after trimming. */
  function AsBoolean(v: JsonValue): bool
  {
    match v
    case JBool(b) => b
    case JInt(n) => n != 0
    case JString(s) => Trim(s) == "true"
    case _ => false
  }

  /** `args.has(k) ? args.get(k).asText() : dflt`. */
  function TextOr(args: Args, k: string, dflt: string): string
  {
    if k in args then AsText(args[k]) else dflt
  }

  /** `args.has(k) ? args.get(k).asText() : null`. */
  function TextOrNull(args: Args, k: string): Option<string>
  {
    if k in args then Some(AsText(args[k])) else None
  }

  /** `args.has(k) ? args.get(k).asInt() : dflt`. */
  function IntOr(args: Args, k: string, dflt: int): int
  {
    if k in args then AsInt(args[k]) else dflt
  }

  /** `args.has(k) ? args.get(k).asBoolean() : dflt`, which the source also writes as `!has || asBoolean` or `has && asBoolean`. */
  function BoolOr(args: Args, k: string, dflt: bool): bool
  {
    if k in args then AsBoolean(args[k]) else dflt
  }

  /**
   * The test `node == null || !node.isArray() || node.isEmpty()` on `args.get(k)`:
   * the elements of a present, non-empty array, or None when the argument is rejected.
   */
  function NonEmptyArray(args: Args, k: string): Option<seq<JsonValue>>
  {
    if k in args && args[k].JArray? && args[k].items != [] then Some(args[k].items) else None
  }

  /** The loop `for (JsonNode n : node) list.add(n.asText())`: the text of each element, in order. */
  method ArrayTexts(items: seq<JsonValue>) returns (texts: seq<string>)
    ensures texts == Texts(items)
  {
    texts := [];
    for i := 0 to |items|
      invariant |texts| == i
      invariant forall j :: 0 <= j < i ==> texts[j] == AsText(items[j])
    {
      texts := texts + [AsText(items[i])];
    }
  }

  /** The list `ArrayTexts` builds, as a value. */
  function Texts(items: seq<JsonValue>): (texts: seq<string>)
    ensures |texts| == |items|
    ensures forall i :: 0 <= i < |items| ==> texts[i] == AsText(items[i])
  {
    seq(|items|, i requires 0 <= i < |items| => AsText(items[i]))
  }
}
