/** The decoded JSON values the clients handle, with the Python built-ins they
    apply to them: `dict.get`, truthiness (`bool(x)`, `x or y`), `str(x)`,
    `json.dumps`, `float(x)` and `int(x)`. */
module Json {
  import opened Wrappers
  import opened Text

  /** A decoded JSON value as Python holds it. An object keeps its keys in
      insertion order, as a Python dict does; a float keeps the text `repr`
      gives for it. */
  datatype Json =
    | Null
    | Bool(b: bool)
    | Int(i: int)
    | Float(value: real, text: string)
    | Str(s: string)
    | Arr(items: seq<Json>)
    | Obj(fields: seq<(string, Json)>)

  type Fields = seq<(string, Json)>

  // ---------------------------------------------------------------------
  // dict access
  // ---------------------------------------------------------------------

  /** The value stored under `key`, if any: `d.get(key)` on a dict whose
      keys are strings, the value type left open. */
  function Lookup<V>(fields: seq<(string, V)>, key: string): (r: Option<V>)
    ensures r.Some? <==> exists k :: 0 <= k < |fields| && fields[k].0 == key
    ensures r.Some? ==> (key, r.value) in fields
  {
    if fields == [] then None
    else if fields[0].0 == key then Some(fields[0].1)
    else Lookup(fields[1..], key)
  }

  /** An entry is found when no entry before it has its key. */
  lemma {:induction false} LookupAfter(before: Fields, key: string, value: Json, after: Fields)
    requires forall k :: 0 <= k < |before| ==> before[k].0 != key
    ensures Lookup(before + [(key, value)] + after, key) == Some(value)
    decreases |before|
  {
    if before != [] {
      assert (before + [(key, value)] + after)[1..] == before[1..] + [(key, value)] + after;
      LookupAfter(before[1..], key, value, after);
    }
  }

  /** `x or ""` for an optional string. */
  function OrEmpty(x: Option<string>): string {
    if x.Some? then x.value else ""
  }

  /** `d.get(key, default)` */
  function Get(fields: Fields, key: string, default: Json): Json {
    match Lookup(fields, key)
    case Some(v) => v
    case None => default
  }

  /** `list(d.keys())` */
  function KeysOf<V>(fields: seq<(string, V)>): (r: seq<string>)
    ensures |r| == |fields|
    ensures forall k :: 0 <= k < |fields| ==> r[k] == fields[k].0
  {
    seq(|fields|, k requires 0 <= k < |fields| => fields[k].0)
  }

  // ---------------------------------------------------------------------
  // Truthiness and str()
  // ---------------------------------------------------------------------

  /** `bool(x)`: None, False, zero, and empty strings, lists and dicts are false. */
  predicate Truthy(j: Json) {
    match j
    case Null => false
    case Bool(b) => b
    case Int(i) => i != 0
    case Float(v, _) => v != 0.0
    case Str(s) => s != []
    case Arr(items) => items != []
    case Obj(fields) => fields != []
  }

  /** `str(x)`. Strings nested in a list or dict are shown between single
      quotes, without the escaping `repr` would add. */
  function Display(j: Json): string
    decreases j, 1
  {
    match j
    case Null => "None"
    case Bool(b) => if b then "True" else "False"
    case Int(i) => IntToString(i)
    case Float(_, text) => text
    case Str(s) => s
    case Arr(items) =>
      "[" + Join(", ", seq(|items|, k requires 0 <= k < |items| => Repr(items[k]))) + "]"
    case Obj(fields) =>
      "{" + Join(", ", seq(|fields|, k requires 0 <= k < |fields| =>
                              "'" + fields[k].0 + "': " + Repr(fields[k].1))) + "}"
  }

  function Repr(j: Json): string
    decreases j, 2
  {
    if j.Str? then "'" + j.s + "'" else Display(j)
  }

  // ---------------------------------------------------------------------
  // json.dumps with its default settings
  // ---------------------------------------------------------------------

  function HexDigit(d: nat): char
    requires d < 16
  {
    if d < 10 then ('0' as int + d) as char else ('a' as int + d - 10) as char
  }

  function Hex4(n: nat): string
    requires n < 0x10000
  {
    [HexDigit(n / 0x1000), HexDigit(n / 0x100 % 16), HexDigit(n / 16 % 16), HexDigit(n % 16)]
  }

  /** One character of a JSON string as `json.dumps` writes it
      (`ensure_ascii=True`). */
  function EscapeChar(c: char): string {
    if c == '"' then "\\\""
    else if c == '\\' then "\\\\"
    else if c == '\n' then "\\n"
    else if c == '\r' then "\\r"
    else if c == '\t' then "\\t"
    else if c == '\U{0008}' then "\\b"
    else if c == '\U{000C}' then "\\f"
    else if ' ' <= c <= '~' then [c]
    else if (c as int) < 0x10000 then "\\u" + Hex4(c as int)
    else
      var v := c as int - 0x10000;
      "\\u" + Hex4(0xD800 + v / 0x400) + "\\u" + Hex4(0xDC00 + v % 0x400)
  }

  function EscapeString(s: string): string
    decreases |s|
  {
    if s == [] then "" else EscapeChar(s[0]) + EscapeString(s[1..])
  }

  function Quote(s: string): string {
    "\"" + EscapeString(s) + "\""
  }

  /** `json.dumps(x)` */
  function Dumps(j: Json): string
    decreases j
  {
    match j
    case Null => "null"
    case Bool(b) => if b then "true" else "false"
    case Int(i) => IntToString(i)
    case Float(_, text) => text
    case Str(s) => Quote(s)
    case Arr(items) =>
      "[" + Join(", ", seq(|items|, k requires 0 <= k < |items| => Dumps(items[k]))) + "]"
    case Obj(fields) =>
      "{" + Join(", ", seq(|fields|, k requires 0 <= k < |fields| =>
                              Quote(fields[k].0) + ": " + Dumps(fields[k].1))) + "}"
  }

  // ---------------------------------------------------------------------
  // float() and int()
  // ---------------------------------------------------------------------

  predicate IsDigit(c: char) {
    '0' <= c <= '9'
  }

  predicate AllDigits(s: string) {
    forall i :: 0 <= i < |s| ==> IsDigit(s[i])
  }

  function DigitsValue(s: string): nat
    requires AllDigits(s)
    decreases |s|
  {
    if s == [] then 0
    else DigitsValue(s[..|s| - 1]) * 10 + (s[|s| - 1] as int - '0' as int)
  }

  function Pow10(n: nat): (r: nat)
    ensures r >= 1
  {
    if n == 0 then 1 else 10 * Pow10(n - 1)
  }

  function TrimTrailingZeros(s: string): string
    decreases |s|
  {
    if s != [] && s[|s| - 1] == '0' then TrimTrailingZeros(s[..|s| - 1]) else s
  }

  /** `float(s)` for an already stripped decimal literal `[+-]digits[.digits]`.
      The text kept is the shortest decimal form with one fractional digit at
      least, which is what `repr` prints for such values. */
  function ParseDecimal(s: string): Option<Json> {
    var negative := s != [] && s[0] == '-';
    var body := if s != [] && (s[0] == '-' || s[0] == '+') then s[1..] else s;
    var dot := if '.' in body then IndexOf(body, '.') else |body|;
    var whole := body[..dot];
    var fraction := if dot < |body| then body[dot + 1..] else "";
    if !AllDigits(whole) || !AllDigits(fraction) || |whole| + |fraction| == 0 then None
    else
      var magnitude := DigitsValue(whole) as real + DigitsValue(fraction) as real / Pow10(|fraction|) as real;
      var shown := TrimTrailingZeros(fraction);
      Some(Float(if negative then -magnitude else magnitude,
                 (if negative then "-" else "") + NatToString(DigitsValue(whole)) + "."
                 + (if shown == [] then "0" else shown)))
  }

  /** `float(x)`, as a float value; None where Python raises. */
  function ToFloat(j: Json): (r: Option<Json>)
    ensures r.Some? ==> r.value.Float?
  {
    match j
    case Int(i) => Some(Float(i as real, IntToString(i) + ".0"))
    case Bool(b) => Some(if b then Float(1.0, "1.0") else Float(0.0, "0.0"))
    case Float(_, _) => Some(j)
    case Str(s) => ParseDecimal(Strip(s))
    case _ => None
  }

  /** `int(s)` for an already stripped literal `[+-]digits`. */
  function ParseInteger(s: string): Option<int> {
    var negative := s != [] && s[0] == '-';
    var body := if s != [] && (s[0] == '-' || s[0] == '+') then s[1..] else s;
    if body == [] || !AllDigits(body) then None
    else
      var n: int := DigitsValue(body);
      Some(if negative then -n else n)
  }

  /** `int(x)`: truncation toward zero for floats; None where Python raises. */
  function ToInt(j: Json): Option<int> {
    match j
    case Int(i) => Some(i)
    case Bool(b) => Some(if b then 1 else 0)
    case Float(v, _) => Some(if v >= 0.0 then v.Floor else -((-v).Floor))
    case Str(s) => ParseInteger(Strip(s))
    case _ => None
  }
}
