/**
 CanonicalJson is the encoder run in ASCII mode: the rewriting pass acts on
 each string character on its own, whatever surrounds it.
 */
module CanonicalForm {
  import opened Utf8
  import opened AsciiEscape
  import opened Json
  import opened Canonical


  lemma EscapeQuoteChar(c: char, rest: Bytes)
    ensures Escape(QuoteChar(c, Unicode) + rest) == QuoteChar(c, AsciiOnly) + Escape(rest)
  {
    var r := c as int;
    if ShortEscape(c) != 0 || r < 0x20 || r == 0x2028 || r == 0x2029 {
      EscapeAscii(QuoteChar(c, Unicode), rest);
    } else {
      EscapeEncoded(c, rest);
    }
  }

  lemma {:induction false} EscapeQuoteChars(s: string, rest: Bytes)
    ensures Escape(QuoteChars(s, Unicode) + rest) == QuoteChars(s, AsciiOnly) + Escape(rest)
  {
    if s == "" {
      assert QuoteChars(s, Unicode) + rest == rest;
    } else {
      var tail := QuoteChars(s[1..], Unicode);
      Concat(QuoteChar(s[0], Unicode), tail, rest);
      EscapeQuoteChar(s[0], tail + rest);
      EscapeQuoteChars(s[1..], rest);
      Concat(QuoteChar(s[0], AsciiOnly), QuoteChars(s[1..], AsciiOnly), Escape(rest));
    }
  }

  lemma EscapeQuoteString(s: string, rest: Bytes)
    ensures Escape(QuoteString(s, Unicode) + rest) == QuoteString(s, AsciiOnly) + Escape(rest)
  {
    EscapeByte(QUOTE, QuoteChars(s, Unicode) + [QUOTE], rest);
    Concat(QuoteChars(s, Unicode), [QUOTE], rest);
    EscapeQuoteChars(s, [QUOTE] + rest);
    EscapeAscii([QUOTE], rest);
    Concat(QuoteChars(s, AsciiOnly), [QUOTE], Escape(rest));
    Concat([QUOTE], QuoteChars(s, AsciiOnly) + [QUOTE], Escape(rest));
    Concat([QUOTE], QuoteChars(s, AsciiOnly), [QUOTE]);
    Concat([QUOTE], QuoteChars(s, Unicode), [QUOTE]);
  }

  /** One structural byte in front. */
  lemma EscapeByte(b: Byte, body: Bytes, rest: Bytes)
    requires b < 0x80
    ensures Escape([b] + body + rest) == [b] + Escape(body + rest)
  {
    Concat([b], body, rest);
    EscapeAscii([b], body + rest);
  }

  lemma {:induction false} EscapeEncode(t: Json, rest: Bytes)
    ensures Escape(Encode(t, Unicode) + rest) == Encode(t, AsciiOnly) + Escape(rest)
    decreases t, 1
  {
    hide Escape, SortedKeys, Ascending;
    match t
    case Str(s) => EscapeQuoteString(s, rest);
    case Arr(elems) =>
      EscapeByte(OPEN_ARR, EncodeElems(elems, Unicode), rest);
      EscapeElems(elems, rest);
      Concat([OPEN_ARR], EncodeElems(elems, AsciiOnly), Escape(rest));
    case Obj(_) =>
      var keys := SortedKeys(t.fields.Keys);
      EscapeByte(OPEN_OBJ, EncodeFields(t, keys, Unicode), rest);
      EscapeFields(t, keys, rest);
      Concat([OPEN_OBJ], EncodeFields(t, keys, AsciiOnly), Escape(rest));
    case _ => EscapeAscii(Encode(t, Unicode), rest);
  }

  lemma {:induction false} EscapeElems(elems: seq<Json>, rest: Bytes)
    ensures Escape(EncodeElems(elems, Unicode) + rest) == EncodeElems(elems, AsciiOnly) + Escape(rest)
    decreases elems, 0
  {
    if elems == [] {
      EscapeAscii([CLOSE_ARR], rest);
    } else {
      var tail := EncodeElemsTail(elems[1..], Unicode);
      Concat(Encode(elems[0], Unicode), tail, rest);
      EscapeEncode(elems[0], tail + rest);
      EscapeElemsTail(elems[1..], rest);
      Concat(Encode(elems[0], AsciiOnly), EncodeElemsTail(elems[1..], AsciiOnly), Escape(rest));
    }
  }

  lemma {:induction false} EscapeElemsTail(elems: seq<Json>, rest: Bytes)
    ensures Escape(EncodeElemsTail(elems, Unicode) + rest) == EncodeElemsTail(elems, AsciiOnly) + Escape(rest)
    decreases elems, 0
  {
    if elems == [] {
      EscapeAscii([CLOSE_ARR], rest);
    } else {
      var tail := EncodeElemsTail(elems[1..], Unicode);
      EscapeByte(COMMA, Encode(elems[0], Unicode) + tail, rest);
      Concat(Encode(elems[0], Unicode), tail, rest);
      EscapeEncode(elems[0], tail + rest);
      EscapeElemsTail(elems[1..], rest);
      var tail' := EncodeElemsTail(elems[1..], AsciiOnly);
      Concat(Encode(elems[0], AsciiOnly), tail', Escape(rest));
      Concat([COMMA], Encode(elems[0], AsciiOnly) + tail', Escape(rest));
    }
  }

  lemma {:induction false} EscapeFields(t: Json, keys: seq<string>, rest: Bytes)
    requires t.Obj? && forall k | k in keys :: k in t.fields
    ensures Escape(EncodeFields(t, keys, Unicode) + rest) == EncodeFields(t, keys, AsciiOnly) + Escape(rest)
    decreases t, 0, |keys|
  {
    if keys == [] {
      EscapeAscii([CLOSE_OBJ], rest);
    } else {
      var tail := EncodeFieldsTail(t, keys[1..], Unicode);
      Concat(EncodeField(t, keys[0], Unicode), tail, rest);
      EscapeField(t, keys[0], tail + rest);
      EscapeFieldsTail(t, keys[1..], rest);
      Concat(EncodeField(t, keys[0], AsciiOnly), EncodeFieldsTail(t, keys[1..], AsciiOnly), Escape(rest));
    }
  }

  lemma {:induction false} EscapeFieldsTail(t: Json, keys: seq<string>, rest: Bytes)
    requires t.Obj? && forall k | k in keys :: k in t.fields
    ensures Escape(EncodeFieldsTail(t, keys, Unicode) + rest) == EncodeFieldsTail(t, keys, AsciiOnly) + Escape(rest)
    decreases t, 0, |keys|
  {
    if keys == [] {
      EscapeAscii([CLOSE_OBJ], rest);
    } else {
      var tail := EncodeFieldsTail(t, keys[1..], Unicode);
      EscapeByte(COMMA, EncodeField(t, keys[0], Unicode) + tail, rest);
      Concat(EncodeField(t, keys[0], Unicode), tail, rest);
      EscapeField(t, keys[0], tail + rest);
      EscapeFieldsTail(t, keys[1..], rest);
      var tail' := EncodeFieldsTail(t, keys[1..], AsciiOnly);
      Concat(EncodeField(t, keys[0], AsciiOnly), tail', Escape(rest));
      Concat([COMMA], EncodeField(t, keys[0], AsciiOnly) + tail', Escape(rest));
    }
  }

  lemma {:induction false} EscapeField(t: Json, key: string, rest: Bytes)
    requires t.Obj? && key in t.fields
    ensures Escape(EncodeField(t, key, Unicode) + rest) == EncodeField(t, key, AsciiOnly) + Escape(rest)
    decreases t, 0, 0
  {
    var v := Encode(t.fields[key], Unicode);
    var v' := Encode(t.fields[key], AsciiOnly);
    Concat(QuoteString(key, Unicode), [COLON] + v, rest);
    EscapeQuoteString(key, [COLON] + v + rest);
    EscapeByte(COLON, v, rest);
    EscapeEncode(t.fields[key], rest);
    Concat([COLON], v', Escape(rest));
    Concat(QuoteString(key, AsciiOnly), [COLON] + v', Escape(rest));
  }

  /** The rewriting pass commutes with the encoder. */
  lemma CanonicalIsAsciiEncode(t: Json)
    ensures CanonicalJson(t) == Encode(t, AsciiOnly)
  {
    EscapeEncode(t, []);
    assert Encode(t, Unicode) + [] == Encode(t, Unicode);
    assert Encode(t, AsciiOnly) + [] == Encode(t, AsciiOnly);
  }

  // --------------------------------------------------------- how a character is written

  /** The characters that have an escape of two characters, and its letter. */
  const SHORT_ESCAPES := map['"' := '"', '\\' := '\\', '\U{0008}' := 'b', '\U{000C}' := 'f', '\n' := 'n', '\r' := 'r', '\t' := 't']

  /** Printable ASCII stands for itself, '<', '>' and '&' included; the short escapes and \u00XX cover the rest of ASCII. */
  lemma AsciiCharForm(c: char, cs: Charset)
    requires c as int < 0x7F
    ensures c in SHORT_ESCAPES ==> QuoteChar(c, cs) == [BACKSLASH, SHORT_ESCAPES[c] as int]
    ensures c !in SHORT_ESCAPES && c as int >= 0x20 ==> QuoteChar(c, cs) == [c as int]
    ensures c !in SHORT_ESCAPES && c as int < 0x20 ==> QuoteChar(c, cs) == UnicodeEscape(c as int)
  {
    hide UnicodeEscape;
  }

  /** Beyond ASCII, and for the two line separators in any text, a character is written as escapes. */
  lemma OtherCharForm(c: char)
    requires c as int >= 0x80
    ensures QuoteChar(c, AsciiOnly) == if c as int < 0x1_0000 then UnicodeEscape(c as int)
                                       else UnicodeEscape(0xD800 + (c as int - 0x1_0000) / 0x400)
                                            + UnicodeEscape(0xDC00 + (c as int - 0x1_0000) % 0x400)
    ensures c as int == 0x2028 || c as int == 0x2029 ==> QuoteChar(c, Unicode) == UnicodeEscape(c as int)
  {
    hide UnicodeEscape;
  }
}
