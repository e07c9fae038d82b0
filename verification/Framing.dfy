/**
 A JSONL file is the canonical rows, each closed by a line feed. No row holds a
 control byte, so the file splits back into the same rows and each row reads
 back as its tree.
 */
module Framing {
  import opened Utf8
  import opened AsciiEscape
  import opened Json
  import opened Canonical
  import opened CanonicalForm
  import opened Parse
  import opened RoundTrip

  const LINE_FEED: Byte := 0x0A

  /** Only printable bytes; in Python's text not even DEL. */
  predicate Printable(b: Bytes, cs: Charset) {
    forall i | 0 <= i < |b| :: b[i] >= 0x20 && (cs == Python ==> b[i] != DEL)
  }

  lemma PrintableConcat(a: Bytes, b: Bytes, cs: Charset)
    requires Printable(a, cs) && Printable(b, cs)
    ensures Printable(a + b, cs)
  {
  }

  lemma PrintableEncodedRune(c: char, cs: Charset)
    requires c as int >= 0x20 && (cs == Python ==> c as int != DEL)
    ensures Printable(EncodeRune(c), cs)
  {
  }

  lemma PrintableUnicodeEscape(r: int, cs: Charset)
    requires 0 <= r < 0x1_0000
    ensures Printable(UnicodeEscape(r), cs)
  {
  }

  lemma PrintableEscapedRune(c: char, cs: Charset)
    requires c as int >= 0x80
    ensures Printable(EscapeRune(c), cs)
  {
    hide UnicodeEscape;
    var r := c as int;
    if r > 0xFFFF {
      var hi, lo := 0xD800 + (r - 0x1_0000) / 0x400, 0xDC00 + (r - 0x1_0000) % 0x400;
      PrintableUnicodeEscape(hi, cs);
      PrintableUnicodeEscape(lo, cs);
      PrintableConcat(UnicodeEscape(hi), UnicodeEscape(lo), cs);
    } else {
      PrintableUnicodeEscape(r, cs);
    }
  }

  lemma PrintableChar(c: char, cs: Charset)
    ensures Printable(QuoteChar(c, cs), cs)
  {
    hide UnicodeEscape, EscapeRune, EncodeRune;
    var r := c as int;
    if ShortEscape(c) != 0 {
    } else if r < 0x20 || r == 0x2028 || r == 0x2029 || (r == DEL && cs == Python) {
      PrintableUnicodeEscape(r, cs);
    } else if r < 0x80 || cs == Unicode {
      PrintableEncodedRune(c, cs);
    } else {
      PrintableEscapedRune(c, cs);
    }
  }

  lemma {:induction false} PrintableChars(s: string, cs: Charset)
    ensures Printable(QuoteChars(s, cs), cs)
  {
    if s != "" {
      PrintableChar(s[0], cs);
      PrintableChars(s[1..], cs);
    }
  }

  lemma {:induction false} PrintableEncode(t: Json, cs: Charset)
    ensures Printable(Encode(t, cs), cs)
    decreases t, 1
  {
    hide EncodeElems, EncodeFields, QuoteChars, NumberText;
    match t
    case Str(s) => PrintableString(s, cs);
    case Arr(elems) =>
      PrintableElems(elems, cs);
      PrintableConcat([OPEN_ARR], EncodeElems(elems, cs), cs);
    case Obj(_) =>
      var keys := SortedKeys(t.fields.Keys);
      PrintableFields(t, keys, cs);
      PrintableConcat([OPEN_OBJ], EncodeFields(t, keys, cs), cs);
    case _ => PrintableScalar(t, cs);
  }

  lemma PrintableString(s: string, cs: Charset)
    ensures Printable(QuoteString(s, cs), cs)
  {
    PrintableChars(s, cs);
    PrintableConcat([QUOTE], QuoteChars(s, cs), cs);
    PrintableConcat([QUOTE] + QuoteChars(s, cs), [QUOTE], cs);
  }

  lemma PrintableScalar(t: Json, cs: Charset)
    requires t.Null? || t.Bool? || t.Num?
    ensures Printable(Encode(t, cs), cs)
  {
    if t.Num? {
      assert forall i | 0 <= i < |t.text| :: NumberText(t.text)[i] == t.text[i] as int && IsNumberChar(t.text[i]);
    }
  }

  lemma {:induction false} PrintableElems(elems: seq<Json>, cs: Charset)
    ensures Printable(EncodeElems(elems, cs), cs)
    decreases elems, 0
  {
    if elems != [] {
      PrintableEncode(elems[0], cs);
      PrintableElemsTail(elems[1..], cs);
      PrintableConcat(Encode(elems[0], cs), EncodeElemsTail(elems[1..], cs), cs);
    }
  }

  lemma {:induction false} PrintableFields(t: Json, keys: seq<string>, cs: Charset)
    requires t.Obj? && forall k | k in keys :: k in t.fields
    ensures Printable(EncodeFields(t, keys, cs), cs)
    decreases t, 0, |keys|
  {
    if keys != [] {
      PrintableField(t, keys[0], cs);
      PrintableFieldsTail(t, keys[1..], cs);
      PrintableConcat(EncodeField(t, keys[0], cs), EncodeFieldsTail(t, keys[1..], cs), cs);
    }
  }

  lemma {:induction false} PrintableElemsTail(elems: seq<Json>, cs: Charset)
    ensures Printable(EncodeElemsTail(elems, cs), cs)
    decreases elems, 0
  {
    if elems != [] {
      PrintableEncode(elems[0], cs);
      PrintableElemsTail(elems[1..], cs);
      PrintableConcat(Encode(elems[0], cs), EncodeElemsTail(elems[1..], cs), cs);
    }
  }

  lemma {:induction false} PrintableField(t: Json, key: string, cs: Charset)
    requires t.Obj? && key in t.fields
    ensures Printable(EncodeField(t, key, cs), cs)
    decreases t, 0, 0
  {
    PrintableString(key, cs);
    PrintableEncode(t.fields[key], cs);
    PrintableConcat([COLON], Encode(t.fields[key], cs), cs);
    PrintableConcat(QuoteString(key, cs), [COLON] + Encode(t.fields[key], cs), cs);
  }

  lemma {:induction false} PrintableFieldsTail(t: Json, keys: seq<string>, cs: Charset)
    requires t.Obj? && forall k | k in keys :: k in t.fields
    ensures Printable(EncodeFieldsTail(t, keys, cs), cs)
    decreases t, 0, |keys|
  {
    if keys != [] {
      PrintableField(t, keys[0], cs);
      PrintableFieldsTail(t, keys[1..], cs);
      PrintableConcat(EncodeField(t, keys[0], cs), EncodeFieldsTail(t, keys[1..], cs), cs);
    }
  }

  // -------------------------------------------------------------------- lines

  /** The file the writer appends row after row. */
  function WriteLines(rows: seq<Json>): Bytes {
    if rows == [] then [] else CanonicalJson(rows[0]) + ([LINE_FEED] + WriteLines(rows[1..]))
  }

  /** The bytes before the first line feed, all of them when there is none. */
  function LineLength(b: Bytes): (n: nat)
    ensures n <= |b|
    ensures forall i | 0 <= i < n :: b[i] != LINE_FEED
    ensures n < |b| ==> b[n] == LINE_FEED
  {
    if b == [] || b[0] == LINE_FEED then 0 else 1 + LineLength(b[1..])
  }

  /** A line scanner: every line feed ends a line, an unfinished last line counts if it has bytes. */
  function ScanLines(b: Bytes): seq<Bytes>
    decreases |b|
  {
    if b == [] then []
    else
      var n := LineLength(b);
      [b[..n]] + (if n < |b| then ScanLines(b[n + 1..]) else [])
  }

  function Texts(rows: seq<Json>): (lines: seq<Bytes>)
    ensures |lines| == |rows|
    ensures forall i | 0 <= i < |rows| :: lines[i] == CanonicalJson(rows[i])
  {
    if rows == [] then [] else [CanonicalJson(rows[0])] + Texts(rows[1..])
  }

  lemma {:induction false} FileSplits(rows: seq<Json>)
    ensures ScanLines(WriteLines(rows)) == Texts(rows)
  {
    if rows != [] {
      CanonicalIsAsciiEncode(rows[0]);
      PrintableEncode(rows[0], AsciiOnly);
      hide CanonicalJson;
      FirstLine(CanonicalJson(rows[0]), WriteLines(rows[1..]));
      FileSplits(rows[1..]);
    }
  }

  lemma FileReadsBack(rows: seq<Json>)
    ensures |ScanLines(WriteLines(rows))| == |rows|
    ensures forall i | 0 <= i < |rows| :: ReadValue(ScanLines(WriteLines(rows))[i]) == Parsed(rows[i], [])
  {
    FileSplits(rows);
    forall i | 0 <= i < |rows| ensures ReadValue(Texts(rows)[i]) == Parsed(rows[i], []) {
      CanonicalReadsBack(rows[i]);
    }
  }

  lemma FirstLine(row: Bytes, rest: Bytes)
    requires forall i | 0 <= i < |row| :: row[i] != LINE_FEED
    ensures ScanLines(row + ([LINE_FEED] + rest)) == [row] + ScanLines(rest)
  {
    var b := row + ([LINE_FEED] + rest);
    FirstLineLength(row, rest);
    assert b[..|row|] == row && b[|row| + 1..] == rest;
  }

  lemma {:induction false} FirstLineLength(row: Bytes, rest: Bytes)
    requires forall i | 0 <= i < |row| :: row[i] != LINE_FEED
    ensures LineLength(row + ([LINE_FEED] + rest)) == |row|
  {
    if row != [] {
      assert (row + ([LINE_FEED] + rest))[1..] == row[1..] + ([LINE_FEED] + rest);
      FirstLineLength(row[1..], rest);
    }
  }
}
