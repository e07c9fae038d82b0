/**
 The canonical text of a JSON tree: the compact encoder of encoding/json with
 HTML escaping off (keys sorted, no blanks), then the ASCII rewriting.
 */
module Canonical {
  import opened Utf8
  import opened AsciiEscape
  import opened Json

  const QUOTE: Byte := '"' as int
  const BACKSLASH: Byte := '\\' as int
  const COMMA: Byte := ',' as int
  const COLON: Byte := ':' as int
  const OPEN_ARR: Byte := '[' as int
  const CLOSE_ARR: Byte := ']' as int
  const OPEN_OBJ: Byte := '{' as int
  const CLOSE_OBJ: Byte := '}' as int

  /**
   Which text is meant: the encoder's UTF-8, the canonical ASCII, or the output
   of Python's json.dumps with ensure_ascii, which the canonical form is meant to equal.
   */
  datatype Charset = Unicode | AsciiOnly | Python

  const DEL: Byte := 0x7F

  /** The letter of the two-character escapes, 0 for a character that has none. */
  function ShortEscape(c: char): (letter: Byte)
    ensures letter < 0x80
  {
    if c == '"' then QUOTE
    else if c == '\\' then BACKSLASH
    else if c == '\U{0008}' then 'b' as int
    else if c == '\U{000C}' then 'f' as int
    else if c == '\n' then 'n' as int
    else if c == '\r' then 'r' as int
    else if c == '\t' then 't' as int
    else 0
  }

  /** One character of a string literal. */
  function QuoteChar(c: char, cs: Charset): (b: Bytes)
    ensures b != []
  {
    var r := c as int;
    if ShortEscape(c) != 0 then [BACKSLASH, ShortEscape(c)]
    else if r < 0x20 || r == 0x2028 || r == 0x2029 then UnicodeEscape(r)
    else if r == DEL && cs == Python then UnicodeEscape(r)
    else if r < 0x80 || cs == Unicode then EncodeRune(c)
    else EscapeRune(c)
  }

  function QuoteChars(s: string, cs: Charset): Bytes {
    if s == "" then [] else QuoteChar(s[0], cs) + QuoteChars(s[1..], cs)
  }

  function QuoteString(s: string, cs: Charset): Bytes {
    [QUOTE] + QuoteChars(s, cs) + [QUOTE]
  }

  function NumberText(n: Number): (b: Bytes)
    ensures |b| == |n| && IsAscii(b)
    ensures forall i | 0 <= i < |n| :: b[i] == n[i] as int
  {
    Ascii(n)
  }

  function Encode(t: Json, cs: Charset): Bytes
    decreases t, 1
  {
    match t
    case Null => Ascii("null")
    case Bool(true) => Ascii("true")
    case Bool(false) => Ascii("false")
    case Num(n) => NumberText(n)
    case Str(s) => QuoteString(s, cs)
    case Arr(elems) => [OPEN_ARR] + EncodeElems(elems, cs)
    case Obj(_) => [OPEN_OBJ] + EncodeFields(t, SortedKeys(t.fields.Keys), cs)
  }

  /** The elements and the closing bracket. */
  function EncodeElems(elems: seq<Json>, cs: Charset): Bytes
    decreases elems, 0
  {
    if elems == [] then [CLOSE_ARR]
    else Encode(elems[0], cs) + EncodeElemsTail(elems[1..], cs)
  }

  function EncodeElemsTail(elems: seq<Json>, cs: Charset): Bytes
    decreases elems, 0
  {
    if elems == [] then [CLOSE_ARR]
    else [COMMA] + (Encode(elems[0], cs) + EncodeElemsTail(elems[1..], cs))
  }

  /** The members listed by `keys` and the closing brace. */
  function EncodeFields(t: Json, keys: seq<string>, cs: Charset): Bytes
    requires t.Obj? && forall k | k in keys :: k in t.fields
    decreases t, 0, |keys|
  {
    if keys == [] then [CLOSE_OBJ]
    else EncodeField(t, keys[0], cs) + EncodeFieldsTail(t, keys[1..], cs)
  }

  function EncodeFieldsTail(t: Json, keys: seq<string>, cs: Charset): Bytes
    requires t.Obj? && forall k | k in keys :: k in t.fields
    decreases t, 0, |keys|
  {
    if keys == [] then [CLOSE_OBJ]
    else [COMMA] + (EncodeField(t, keys[0], cs) + EncodeFieldsTail(t, keys[1..], cs))
  }

  function EncodeField(t: Json, key: string, cs: Charset): Bytes
    requires t.Obj? && key in t.fields
    decreases t, 0, 0
  {
    QuoteString(key, cs) + ([COLON] + Encode(t.fields[key], cs))
  }

  function CanonicalJson(t: Json): Bytes {
    Escape(Encode(t, Unicode))
  }

  /** The same through the byte loop, as the stamper and the signer run it. */
  method CanonicalBytes(t: Json) returns (b: Bytes)
    ensures b == CanonicalJson(t)
  {
    b := EscapeLoop(Encode(t, Unicode));
  }
}
