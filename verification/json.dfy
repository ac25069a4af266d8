/** The JSON values stored in the backend's `jsonb` columns (lesson content,
    enrollment progress), together with the three JavaScript operations the
    core applies to them: truthiness, `String(v)` and `JSON.stringify(v)`.
    Numbers are integers here; objects keep their fields in order. */
module Json {
  import opened Wrappers
  import Text

  datatype Json =
    | JNull
    | JBool(b: bool)
    | JNum(n: int)
    | JString(s: string)
    | JArray(items: seq<Json>)
    | JObject(fields: seq<(string, Json)>)

  /** `!!v`: null, false, 0 and "" are falsy; every array and object is truthy. */
  predicate Truthy(v: Json) {
    match v
    case JNull => false
    case JBool(b) => b
    case JNum(n) => n != 0
    case JString(s) => s != ""
    case JArray(_) => true
    case JObject(_) => true
  }

  /** `key in obj` for an object's own fields. */
  predicate HasKey(fields: seq<(string, Json)>, key: string) {
    exists i :: 0 <= i < |fields| && fields[i].0 == key
  }

  /** `obj[key]`: the value of the last field named `key` (a later key
      overrides an earlier one, as in an object literal or `JSON.parse`). */
  function Get(fields: seq<(string, Json)>, key: string): (r: Option<Json>)
    ensures r.Some? <==> HasKey(fields, key)
    decreases |fields|
  {
    if |fields| == 0 then None
    else if fields[|fields| - 1].0 == key then Some(fields[|fields| - 1].1)
    else Get(fields[..|fields| - 1], key)
  }

  /** `String(v)`: arrays are joined with commas (null elements become the
      empty string), objects print as "[object Object]". */
  function ToJsString(v: Json): string
    decreases v
  {
    match v
    case JNull => "null"
    case JBool(b) => if b then "true" else "false"
    case JNum(n) => Text.IntToString(n)
    case JString(s) => s
    case JArray(items) =>
      JoinComma(seq(|items|, i requires 0 <= i < |items| =>
        if items[i].JNull? then "" else ToJsString(items[i])))
    case JObject(_) => "[object Object]"
  }

  function JoinComma(parts: seq<string>): string
    decreases |parts|
  {
    if |parts| == 0 then ""
    else if |parts| == 1 then parts[0]
    else parts[0] + "," + JoinComma(parts[1..])
  }

  function HexDigit(d: nat): char
    requires d < 16
  {
    if d < 10 then ('0' as int + d) as char else ('a' as int + d - 10) as char
  }

  /** The JSON escape of one character inside a string literal. */
  function EscapeChar(c: char): string {
    if c == '"' then "\\\""
    else if c == '\\' then "\\\\"
    else if c == '\n' then "\\n"
    else if c == '\r' then "\\r"
    else if c == '\t' then "\\t"
    else if c == 8 as char then "\\b"
    else if c == 12 as char then "\\f"
    else if (c as int) < 0x20 then "\\u00" + [HexDigit(c as int / 16), HexDigit(c as int % 16)]
    else [c]
  }

  function Quote(s: string): string {
    "\"" + EscapeBody(s) + "\""
  }

  function EscapeBody(s: string): string
    decreases |s|
  {
    if |s| == 0 then "" else EscapeChar(s[0]) + EscapeBody(s[1..])
  }

  /** `JSON.stringify(v)` without indentation. */
  function Stringify(v: Json): string
    decreases v
  {
    match v
    case JNull => "null"
    case JBool(b) => if b then "true" else "false"
    case JNum(n) => Text.IntToString(n)
    case JString(s) => Quote(s)
    case JArray(items) =>
      "[" + JoinComma(seq(|items|, i requires 0 <= i < |items| => Stringify(items[i]))) + "]"
    case JObject(fields) =>
      "{" + JoinComma(seq(|fields|, i requires 0 <= i < |fields| =>
        assert fields[i] in fields;
        Quote(fields[i].0) + ":" + Stringify(fields[i].1))) + "}"
  }
}
