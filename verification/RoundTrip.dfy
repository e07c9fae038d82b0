/**
 Reading undoes writing: the encoder's text and its canonical ASCII form both
 read back as the tree they were written from, so canonical text is unique.
 */
module RoundTrip {
  import opened Utf8
  import opened AsciiEscape
  import opened Json
  import opened Canonical
  import opened CanonicalForm
  import opened Parse

  // ------------------------------------------------------------------ strings

  lemma CodeUnitOfEscape(r: int, rest: Bytes)
    requires 0 <= r < 0x1_0000
    ensures CodeUnit(UnicodeEscape(r) + rest) == r
    ensures (UnicodeEscape(r) + rest)[6..] == rest
  {
    var b := UnicodeEscape(r) + rest;
    assert b[6..] == rest;
    assert r / 0x100 == r / 16 / 16 && r / 0x1000 == r / 0x100 / 16;
    assert HexValue(b[2]) == r / 0x1000;
    assert HexValue(b[3]) == r / 0x100 % 16;
    assert HexValue(b[4]) == r / 16 % 16;
    assert HexValue(b[5]) == r % 16;
  }

  lemma ReadEscapedRune(c: char, rest: Bytes)
    requires c as int >= 0x80
    ensures ReadChar(EscapeRune(c) + rest) == Parsed(c, rest)
  {
    var r := c as int;
    if r > 0xFFFF {
      var hi := 0xD800 + (r - 0x1_0000) / 0x400;
      var lo := 0xDC00 + (r - 0x1_0000) % 0x400;
      Concat(UnicodeEscape(hi), UnicodeEscape(lo), rest);
      CodeUnitOfEscape(hi, UnicodeEscape(lo) + rest);
      CodeUnitOfEscape(lo, rest);
      var b := EscapeRune(c) + rest;
      assert b[12..] == rest;
    } else {
      CodeUnitOfEscape(r, rest);
    }
  }

  lemma ReadQuotedChar(c: char, cs: Charset, rest: Bytes)
    ensures ReadChar(QuoteChar(c, cs) + rest) == Parsed(c, rest)
    ensures QuoteChar(c, cs)[0] != QUOTE
  {
    var r := c as int;
    var b := QuoteChar(c, cs) + rest;
    if ShortEscape(c) != 0 {
      assert b[..2] == [BACKSLASH, ShortEscape(c)];
      assert b[0] == BACKSLASH && b[1] == ShortEscape(c);
      assert b[2..] == rest;
    } else if r < 0x20 || r == 0x2028 || r == 0x2029 || (r == DEL && cs == Python) {
      ReadUnicodeEscape(r, rest);
    } else if r < 0x80 || cs == Unicode {
      DecodeEncode(c, rest);
      FirstByte(c);
    } else {
      ReadEscapedRune(c, rest);
    }
  }

  lemma ReadUnicodeEscape(r: int, rest: Bytes)
    requires 0 <= r < 0x1_0000 && IsScalar(r)
    ensures ReadChar(UnicodeEscape(r) + rest) == Parsed(r as char, rest)
  {
    CodeUnitOfEscape(r, rest);
  }

  lemma FirstByte(c: char)
    requires ShortEscape(c) == 0 && c as int >= 0x20
    ensures EncodeRune(c)[0] >= 0x20 && EncodeRune(c)[0] != BACKSLASH && EncodeRune(c)[0] != QUOTE
  {
  }

  lemma {:induction false} ReadQuotedChars(s: string, cs: Charset, rest: Bytes)
    ensures ReadChars(QuoteChars(s, cs) + ([QUOTE] + rest)) == Parsed(s, rest)
  {
    var close := [QUOTE] + rest;
    if s == "" {
      assert QuoteChars(s, cs) + close == close;
      assert close[1..] == rest;
    } else {
      Concat(QuoteChar(s[0], cs), QuoteChars(s[1..], cs), close);
      ReadQuotedChar(s[0], cs, QuoteChars(s[1..], cs) + close);
      ReadQuotedChars(s[1..], cs, rest);
      assert [s[0]] + s[1..] == s;
    }
  }

  lemma ReadQuoted(s: string, cs: Charset, rest: Bytes)
    ensures ReadString(QuoteString(s, cs) + rest) == Parsed(s, rest)
    ensures (QuoteString(s, cs) + rest)[0] == QUOTE
  {
    var b := QuoteString(s, cs) + rest;
    assert b[1..] == QuoteChars(s, cs) + ([QUOTE] + rest);
    ReadQuotedChars(s, cs, rest);
  }

  // ------------------------------------------------------------------ numbers

  lemma {:induction false} ReadNumber(n: string, rest: Bytes)
    requires forall i | 0 <= i < |n| :: IsNumberChar(n[i]) && n[i] as int < 0x80
    requires !StartsNumberChar(rest)
    ensures ReadNumberChars(Ascii(n) + rest) == Parsed(n, rest)
  {
    if n == "" {
      assert Ascii(n) + rest == rest;
    } else {
      var b := Ascii(n) + rest;
      assert b[1..] == Ascii(n[1..]) + rest;
      assert b[0] == n[0] as int;
      ReadNumber(n[1..], rest);
      assert [n[0]] + n[1..] == n;
    }
  }

  // ------------------------------------------------------------------- values

  /** A value never starts with a byte that would end a list of members. */
  predicate StartsValue(b: Bytes) {
    b != [] && b[0] != CLOSE_ARR && b[0] != CLOSE_OBJ && b[0] != COMMA
  }

  lemma EncodeStartsValue(t: Json, cs: Charset)
    ensures StartsValue(Encode(t, cs))
  {
    if t.Num? {
      assert NumberText(t.text)[0] == t.text[0] as int;
    }
  }

  lemma ReadScalar(t: Json, cs: Charset, rest: Bytes)
    requires t.Null? || t.Bool? || t.Num?
    requires !StartsNumberChar(rest)
    ensures ReadValue(Encode(t, cs) + rest) == Parsed(t, rest)
  {
    var b := Encode(t, cs) + rest;
    match t
    case Null => assert b[..4] == Ascii("null") && b[4..] == rest && b[0] == 'n' as int;
    case Bool(true) => assert b[..4] == Ascii("true") && b[4..] == rest && b[0] == 't' as int;
    case Bool(false) => assert b[..5] == Ascii("false") && b[5..] == rest && b[0] == 'f' as int;
    case Num(n) =>
      assert b[0] == n[0] as int;
      ReadNumber(n, rest);
  }

  lemma {:induction false} ReadEncoded(t: Json, cs: Charset, rest: Bytes)
    requires !StartsNumberChar(rest)
    ensures ReadValue(Encode(t, cs) + rest) == Parsed(t, rest)
    decreases t, 2
  {
    match t
    case Str(s) => ReadQuoted(s, cs, rest);
    case Arr(elems) => ReadEncodedArr(elems, cs, rest);
    case Obj(_) => ReadEncodedObj(t, cs, rest);
    case _ => ReadScalar(t, cs, rest);
  }

  lemma {:induction false} ReadEncodedArr(elems: seq<Json>, cs: Charset, rest: Bytes)
    ensures ReadValue(Encode(Arr(elems), cs) + rest) == Parsed(Arr(elems), rest)
    decreases Arr(elems), 1
  {
    var b := Encode(Arr(elems), cs) + rest;
    var body := EncodeElems(elems, cs) + rest;
    assert b[0] == OPEN_ARR && b[1..] == body;
    if elems == [] {
      assert body[0] == CLOSE_ARR && body[1..] == rest;
    } else {
      EncodeStartsValue(elems[0], cs);
      assert body[0] == Encode(elems[0], cs)[0];
      ReadEncodedElem(elems, cs, rest);
    }
  }

  lemma {:induction false} ReadEncodedElem(elems: seq<Json>, cs: Charset, rest: Bytes)
    requires elems != []
    ensures ReadElem(Encode(elems[0], cs) + EncodeElemsTail(elems[1..], cs) + rest) == Parsed(elems, rest)
    decreases elems, 0
  {
    var tail := EncodeElemsTail(elems[1..], cs) + rest;
    Concat(Encode(elems[0], cs), EncodeElemsTail(elems[1..], cs), rest);
    ReadEncoded(elems[0], cs, tail);
    ReadEncodedElemsTail(elems[1..], cs, rest);
    assert [elems[0]] + elems[1..] == elems;
  }

  lemma {:induction false} ReadEncodedElemsTail(elems: seq<Json>, cs: Charset, rest: Bytes)
    ensures ReadElemsTail(EncodeElemsTail(elems, cs) + rest) == Parsed(elems, rest)
    decreases elems, 1
  {
    var b := EncodeElemsTail(elems, cs) + rest;
    if elems == [] {
      assert b[1..] == rest;
    } else {
      assert b[1..] == Encode(elems[0], cs) + EncodeElemsTail(elems[1..], cs) + rest;
      ReadEncodedElem(elems, cs, rest);
    }
  }

  /** The members of an object that `keys` lists, in that order. */
  ghost function Members(fields: map<string, Json>, keys: seq<string>): (members: seq<Member>)
    requires forall k | k in keys :: k in fields
    ensures members == [] <==> keys == []
  {
    if keys == [] then [] else [Member(keys[0], fields[keys[0]])] + Members(fields, keys[1..])
  }

  lemma {:induction false} MembersAreFields(fields: map<string, Json>, keys: seq<string>)
    requires forall k | k in keys :: k in fields
    ensures FromMembers(Members(fields, keys)) == map k | k in fields && k in keys :: fields[k]
  {
    if keys != [] {
      MembersAreFields(fields, keys[1..]);
      assert keys == [keys[0]] + keys[1..];
    }
  }

  lemma {:induction false} ReadEncodedObj(t: Json, cs: Charset, rest: Bytes)
    requires t.Obj?
    ensures ReadValue(Encode(t, cs) + rest) == Parsed(t, rest)
    decreases t, 1
  {
    hide SortedKeys, Ascending, ReadFields, EncodeFields, FromMembers, Members, ReadValue;
    var keys := SortedKeys(t.fields.Keys);
    ReadEncodedFields(t, keys, cs, rest);
    Concat([OPEN_OBJ], EncodeFields(t, keys, cs), rest);
    ReadObject(EncodeFields(t, keys, cs) + rest, Members(t.fields, keys), rest);
    MembersAreFields(t.fields, keys);
    assert FromMembers(Members(t.fields, keys)) == t.fields;
  }

  lemma {:induction false} ReadEncodedFields(t: Json, keys: seq<string>, cs: Charset, rest: Bytes)
    requires t.Obj? && forall k | k in keys :: k in t.fields
    ensures ReadFields(EncodeFields(t, keys, cs) + rest) == Parsed(Members(t.fields, keys), rest)
    decreases t, 0, |keys| + 1
  {
    var body := EncodeFields(t, keys, cs) + rest;
    if keys == [] {
      assert body[0] == CLOSE_OBJ && body[1..] == rest;
    } else {
      var f := EncodeField(t, keys[0], cs);
      assert f[0] == QUOTE;
      Concat(f, EncodeFieldsTail(t, keys[1..], cs), rest);
      assert body[0] == f[0];
      ReadEncodedField(t, keys, cs, rest);
    }
  }

  lemma ReadObject(body: Bytes, members: seq<Member>, rest: Bytes)
    requires ReadFields(body) == Parsed(members, rest)
    ensures ReadValue([OPEN_OBJ] + body) == Parsed(Obj(FromMembers(members)), rest)
  {
    assert ([OPEN_OBJ] + body)[1..] == body;
  }

  lemma {:induction false} ReadEncodedField(t: Json, keys: seq<string>, cs: Charset, rest: Bytes)
    requires t.Obj? && keys != [] && forall k | k in keys :: k in t.fields
    ensures ReadField(EncodeField(t, keys[0], cs) + EncodeFieldsTail(t, keys[1..], cs) + rest)
         == Parsed(Members(t.fields, keys), rest)
    decreases t, 0, |keys|, 0
  {
    var tail := EncodeFieldsTail(t, keys[1..], cs) + rest;
    Concat(EncodeField(t, keys[0], cs), EncodeFieldsTail(t, keys[1..], cs), rest);
    ReadEncoded(t.fields[keys[0]], cs, tail);
    ReadEncodedFieldsTail(t, keys[1..], cs, rest);
    ReadFieldParts(keys[0], Encode(t.fields[keys[0]], cs), t.fields[keys[0]], cs, tail, Members(t.fields, keys[1..]), rest);
  }

  lemma {:induction false} ReadEncodedFieldsTail(t: Json, keys: seq<string>, cs: Charset, rest: Bytes)
    requires t.Obj? && forall k | k in keys :: k in t.fields
    ensures ReadFieldsTail(EncodeFieldsTail(t, keys, cs) + rest) == Parsed(Members(t.fields, keys), rest)
    decreases t, 0, |keys|, 1
  {
    var b := EncodeFieldsTail(t, keys, cs) + rest;
    if keys == [] {
      assert b[1..] == rest;
    } else {
      assert b[1..] == EncodeField(t, keys[0], cs) + EncodeFieldsTail(t, keys[1..], cs) + rest;
      ReadEncodedField(t, keys, cs, rest);
    }
  }

  /** One member, given how its value and the members after it read. */
  lemma ReadFieldParts(key: string, v: Bytes, value: Json, cs: Charset, tail: Bytes, members: seq<Member>, rest: Bytes)
    requires ReadValue(v + tail) == Parsed(value, tail)
    requires ReadFieldsTail(tail) == Parsed(members, rest)
    ensures ReadField(QuoteString(key, cs) + ([COLON] + v) + tail) == Parsed([Member(key, value)] + members, rest)
  {
    Concat(QuoteString(key, cs), [COLON] + v, tail);
    Concat([COLON], v, tail);
    ReadQuoted(key, cs, [COLON] + (v + tail));
    ReadFieldStep(QuoteString(key, cs) + ([COLON] + (v + tail)), key, v + tail, value, tail, members, rest);
  }

  lemma ReadFieldStep(b: Bytes, key: string, after: Bytes, value: Json, tail: Bytes, members: seq<Member>, rest: Bytes)
    requires ReadString(b) == Parsed(key, [COLON] + after)
    requires ReadValue(after) == Parsed(value, tail)
    requires ReadFieldsTail(tail) == Parsed(members, rest)
    ensures ReadField(b) == Parsed([Member(key, value)] + members, rest)
  {
    assert ([COLON] + after)[1..] == after;
  }

  // ------------------------------------------------------------- main results

  /** A canonical row reads back as the tree it was written from. */
  lemma CanonicalReadsBack(t: Json)
    ensures ReadValue(CanonicalJson(t)) == Parsed(t, [])
  {
    CanonicalIsAsciiEncode(t);
    ReadEncoded(t, AsciiOnly, []);
    assert Encode(t, AsciiOnly) + [] == Encode(t, AsciiOnly);
  }

  /** The ASCII rewriting keeps the meaning of every text the encoder writes. */
  lemma EscapeKeepsMeaning(t: Json)
    ensures ReadValue(Escape(Encode(t, Unicode))) == ReadValue(Encode(t, Unicode)) == Parsed(t, [])
  {
    CanonicalReadsBack(t);
    ReadEncoded(t, Unicode, []);
    assert Encode(t, Unicode) + [] == Encode(t, Unicode);
  }

  /** Canonical text determines the tree. */
  lemma CanonicalInjective(s: Json, t: Json)
    requires CanonicalJson(s) == CanonicalJson(t)
    ensures s == t
  {
    CanonicalReadsBack(s);
    CanonicalReadsBack(t);
  }
}
