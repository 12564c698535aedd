/**
 * JSON values as the backend writes them with `json.dumps` and the client
 * reads them with `JSON.parse`, plus the few JavaScript and Python value rules
 * (truthiness, string conversion) that the event handlers depend on.
 */
module Json {
  import opened Wrappers
  import opened Text

  /** A JSON value. Objects keep their members in insertion order; numbers are integers. */
  datatype Json =
    | JNull
    | JBool(b: bool)
    | JNum(n: int)
    | JStr(s: string)
    | JArr(items: seq<Json>)
    | JObj(fields: seq<(string, Json)>)

  /** A JavaScript property read off a parsed payload; `None` is `undefined`. */
  type Value = Option<Json>

  /** The member `key` of a member list; a later duplicate wins, as in `JSON.parse`. */
  function Lookup(fields: seq<(string, Json)>, key: string): (r: Value)
    ensures r.Some? <==> exists i :: 0 <= i < |fields| && fields[i].0 == key
    ensures r.Some? ==> (key, r.value) in fields
    decreases |fields|
  {
    if |fields| == 0 then None
    else if fields[|fields| - 1].0 == key then Some(fields[|fields| - 1].1)
    else
      var r := Lookup(fields[..|fields| - 1], key);
      assert forall i :: 0 <= i < |fields| - 1 ==> fields[..|fields| - 1][i] == fields[i];
      r
  }

  /** `data.key` in JavaScript: only objects carry the named members the model reads. */
  function Prop(j: Json, key: string): Value {
    match j
    case JObj(fields) => Lookup(fields, key)
    case _ => None
  }

  /** `v === JStr(s)`: a property that is exactly the string `s`. */
  predicate IsStr(v: Value, s: string) {
    v == Some(JStr(s))
  }

  /** JavaScript truthiness of a property: `undefined`, `null`, `false`, `0` and `""` are falsy. */
  predicate Truthy(v: Value) {
    match v
    case None => false
    case Some(j) =>
      match j
      case JNull => false
      case JBool(b) => b
      case JNum(n) => n != 0
      case JStr(s) => s != ""
      case _ => true
  }

  /** Python truthiness: `None`, `False`, `0` and empty strings, lists and dicts are falsy. */
  predicate PyTruthy(j: Json) {
    match j
    case JNull => false
    case JBool(b) => b
    case JNum(n) => n != 0
    case JStr(s) => s != ""
    case JArr(items) => items != []
    case JObj(fields) => fields != []
  }

  /** What a JavaScript template literal `${v}` prints for a parsed value. */
  function JsString(v: Value): string {
    match v
    case None => "undefined"
    case Some(j) => JsText(j)
  }

  function JsText(j: Json): string
    decreases j
  {
    match j
    case JNull => "null"
    case JBool(b) => if b then "true" else "false"
    case JNum(n) => IntToString(n)
    case JStr(s) => s
    case JArr(items) =>
      // Array.prototype.join prints null elements as empty strings
      Join(seq(|items|, i requires 0 <= i < |items| => if items[i] == JNull then "" else JsText(items[i])), ",")
    case JObj(_) => "[object Object]"
  }

  // ---------------------------------------------------------------------------
  // json.dumps with the default separators (", " and ": ")
  // ---------------------------------------------------------------------------

  function HexDigit(d: nat): char
    requires d < 16
  {
    if d < 10 then ('0' as int + d) as char else ('a' as int + d - 10) as char
  }

  /** Four lower-case hex digits: the `00e7` of a `\u00e7` escape. */
  function Hex4(n: nat): string
    requires n < 0x10000
  {
    [HexDigit(n / 0x1000), HexDigit(n / 0x100 % 16), HexDigit(n / 16 % 16), HexDigit(n % 16)]
  }

  /**
   * How `json.dumps` writes one character of a string. With `ascii`
   * (`ensure_ascii=True`, the default) everything outside space..tilde is
   * escaped, astral characters as a surrogate pair; without it only the
   * quote, the backslash and the control characters are.
   */
  function EscapeChar(c: char, ascii: bool): string {
    if c == '"' then "\\\""
    else if c == '\\' then "\\\\"
    else if c == '\n' then "\\n"
    else if c == '\r' then "\\r"
    else if c == '\t' then "\\t"
    else if c == '\U{08}' then "\\b"
    else if c == '\U{0C}' then "\\f"
    else if c < ' ' then "\\u" + Hex4(c as int)
    else if ascii && c as int > 0x7E then
      if c as int < 0x10000 then "\\u" + Hex4(c as int)
      else
        var v := c as int - 0x10000;
        "\\u" + Hex4(0xD800 + v / 0x400) + "\\u" + Hex4(0xDC00 + v % 0x400)
    else [c]
  }

  function EscapeString(s: string, ascii: bool): string
    decreases |s|
  {
    if |s| == 0 then "" else EscapeChar(s[0], ascii) + EscapeString(s[1..], ascii)
  }

  /** A JSON string literal. */
  function Quote(s: string, ascii: bool): string {
    "\"" + EscapeString(s, ascii) + "\""
  }

  /** `json.dumps(j, ensure_ascii=ascii)`. */
  function Encode(j: Json, ascii: bool): string
    decreases j
  {
    match j
    case JNull => "null"
    case JBool(b) => if b then "true" else "false"
    case JNum(n) => IntToString(n)
    case JStr(s) => Quote(s, ascii)
    case JArr(items) =>
      "[" + Join(seq(|items|, i requires 0 <= i < |items| => Encode(items[i], ascii)), ", ") + "]"
    case JObj(fields) =>
      "{" + Join(seq(|fields|, i requires 0 <= i < |fields| =>
                   Quote(fields[i].0, ascii) + ": " + Encode(fields[i].1, ascii)), ", ") + "}"
  }

  // ---------------------------------------------------------------------------
  // No raw line feed in an encoding
  // ---------------------------------------------------------------------------

  lemma JoinFree(parts: seq<string>, sep: string, c: char)
    requires forall i :: 0 <= i < |parts| ==> c !in parts[i]
    requires c !in sep
    ensures c !in Join(parts, sep)
    decreases |parts|
  {
    if |parts| > 1 {
      JoinFree(parts[1..], sep, c);
    }
  }

  lemma {:induction false} NatToStringNoLineFeed(n: nat)
    ensures '\n' !in NatToString(n)
  {
    var r := NatToString(n);
    forall k | 0 <= k < |r| ensures r[k] != '\n' {
      assert Digit(r[k]);
    }
  }

  lemma Hex4NoLineFeed(n: nat)
    requires n < 0x10000
    ensures '\n' !in Hex4(n)
  {
  }

  lemma EscapeCharNoLineFeed(c: char, ascii: bool)
    ensures '\n' !in EscapeChar(c, ascii)
  {
    if c == '"' || c == '\\' || c == '\n' || c == '\r' || c == '\t' || c == '\U{08}' || c == '\U{0C}' {
    } else if c < ' ' {
      Hex4NoLineFeed(c as int);
    } else if ascii && c as int > 0x7E {
      if c as int < 0x10000 {
        Hex4NoLineFeed(c as int);
      } else {
        var v := c as int - 0x10000;
        Hex4NoLineFeed(0xD800 + v / 0x400);
        Hex4NoLineFeed(0xDC00 + v % 0x400);
      }
    }
  }

  lemma {:induction false} EscapeStringNoLineFeed(s: string, ascii: bool)
    ensures '\n' !in EscapeString(s, ascii)
    decreases |s|
  {
    if |s| > 0 {
      EscapeStringNoLineFeed(s[1..], ascii);
      EscapeCharNoLineFeed(s[0], ascii);
    }
  }

  /**
   * `json.dumps` never writes a raw line feed: a line feed inside a string is
   * escaped as `\n` and the default separators hold none. This is what lets
   * one `data:` line carry a whole event.
   */
  lemma {:induction false} EncodeNoLineFeed(j: Json, ascii: bool)
    ensures '\n' !in Encode(j, ascii)
    decreases j
  {
    match j
    case JNull =>
    case JBool(b) =>
    case JNum(n) =>
      NatToStringNoLineFeed(if n < 0 then -n else n);
    case JStr(s) =>
      EscapeStringNoLineFeed(s, ascii);
    case JArr(items) =>
      var parts := seq(|items|, i requires 0 <= i < |items| => Encode(items[i], ascii));
      forall i | 0 <= i < |items| ensures '\n' !in parts[i] {
        EncodeNoLineFeed(items[i], ascii);
      }
      JoinFree(parts, ", ", '\n');
    case JObj(fields) =>
      var parts := seq(|fields|, i requires 0 <= i < |fields| =>
                     Quote(fields[i].0, ascii) + ": " + Encode(fields[i].1, ascii));
      forall i | 0 <= i < |fields| ensures '\n' !in parts[i] {
        EscapeStringNoLineFeed(fields[i].0, ascii);
        EncodeNoLineFeed(fields[i].1, ascii);
      }
      JoinFree(parts, ", ", '\n');
  }

  // ---------------------------------------------------------------------------
  // What JSON.parse can give back unchanged
  // ---------------------------------------------------------------------------

  /** A key JavaScript would reorder to the front of an object (an array index such as "0" or "12"). */
  predicate IndexLikeKey(k: string) {
    |k| > 0 && forall i :: 0 <= i < |k| ==> Digit(k[i])
  }

  /** The largest integer a JavaScript number holds exactly (2^53 - 1). */
  const MaxSafeInteger: int := 0x1F_FFFF_FFFF_FFFF

  /**
   * A value that survives `json.dumps` followed by `JSON.parse` unchanged:
   * its numbers are safe integers and its objects have distinct, non-index
   * keys (as every Python dict the backend sends does).
   */
  predicate Wire(j: Json)
    decreases j
  {
    match j
    case JNum(n) => -MaxSafeInteger <= n <= MaxSafeInteger
    case JArr(items) => forall i :: 0 <= i < |items| ==> Wire(items[i])
    case JObj(fields) =>
      (forall i :: 0 <= i < |fields| ==> Wire(fields[i].1) && !IndexLikeKey(fields[i].0))
      && (forall i, k :: 0 <= i < k < |fields| ==> fields[i].0 != fields[k].0)
    case _ => true
  }

  /**
   * The assumption the model makes of the browser's `JSON.parse`: it reads
   * back every `json.dumps` encoding of a `Wire` value. `JSON.parse` is not
   * part of this model; each theorem that needs this names it as a hypothesis.
   */
  ghost predicate InvertsEncoding(parse: string -> Option<Json>) {
    forall j: Json, ascii: bool {:trigger Encode(j, ascii)} :: Wire(j) ==> parse(Encode(j, ascii)) == Some(j)
  }
}
