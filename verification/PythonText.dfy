/**
 When the canonical text of a tree is the text Python's json.dumps writes for the
 same value, with ensure_ascii, sorted keys and compact separators.
 */
module PythonText {
  import opened Utf8
  import opened Json
  import opened Canonical
  import opened CanonicalForm
  import opened Decimal
  import opened Framing
  import opened RoundTrip

  // -------------------------------------------------------------------- numbers

  /** An integer of the JSON grammar (section 6 of RFC 8259): no fraction, no exponent, no leading zero. */
  predicate IsIntegerLiteral(n: Number) {
    var digits := if n[0] == '-' then n[1..] else n;
    AllDigits(digits) && (digits[0] == '0' ==> |digits| == 1)
  }

  function IntegerValue(n: Number): int
    requires IsIntegerLiteral(n)
  {
    var value: int := NatValue(if n[0] == '-' then n[1..] else n);
    if n[0] == '-' then -value else value
  }

  /** How Python writes the float a literal denotes, as a parameter. */
  type FloatText = Number -> Number

  /** Python reads an integer literal as an int and any other as a float, and writes the value. */
  function PythonNumber(float: FloatText, n: Number): Number {
    if IsIntegerLiteral(n) then IntText(IntegerValue(n)) else float(n)
  }

  lemma {:induction false} NatTextOfValue(s: string)
    requires AllDigits(s) && (s[0] == '0' ==> |s| == 1)
    ensures NatText(NatValue(s)) == s
    ensures NatValue(s) == 0 <==> s == "0"
  {
    var n := |s| - 1;
    var d := s[n] as int - '0' as int;
    assert IsDigit(s[n]) && Digit(d) == s[n];
    if n == 0 {
      assert s[..0] == "" && s == [s[0]];
    } else {
      NatTextOfValue(s[..n]);
      assert NatValue(s) / 10 == NatValue(s[..n]) && NatValue(s) % 10 == d;
      assert s == s[..n] + [s[n]];
    }
  }

  lemma ZeroText()
    ensures NatText(0) == "0"
  {
  }

  /** Of the integer literals Python rewrites exactly "-0". */
  lemma IntegerKept(float: FloatText, n: Number)
    requires IsIntegerLiteral(n)
    ensures PythonNumber(float, n) == n <==> n != "-0"
  {
    hide NatText, NatValue;
    if n[0] == '-' {
      NatTextOfValue(n[1..]);
      ZeroText();
      assert n == "-" + n[1..];
    } else {
      NatTextOfValue(n);
    }
  }

  // ---------------------------------------------------------------------- trees

  /** The tree with its numbers as Python writes them. */
  function Renumbered(float: FloatText, t: Json): Json {
    match t
    case Num(n) => Num(PythonNumber(float, n))
    case Arr(elems) => Arr(seq(|elems|, i requires 0 <= i < |elems| => Renumbered(float, elems[i])))
    case Obj(fields) => Obj(map k | k in fields :: Renumbered(float, fields[k]))
    case _ => t
  }

  function PythonJson(float: FloatText, t: Json): Bytes {
    Encode(Renumbered(float, t), Python)
  }

  const DEL_CHAR: char := '\U{007F}'

  /** No string and no member name holds U+007F. */
  predicate DelFree(t: Json) {
    match t
    case Str(s) => DEL_CHAR !in s
    case Arr(elems) => forall i | 0 <= i < |elems| :: DelFree(elems[i])
    case Obj(fields) => forall k | k in fields :: DEL_CHAR !in k && DelFree(fields[k])
    case _ => true
  }

  /** An integer literal other than "-0", or a float literal in Python's own form. */
  predicate InPythonForm(float: FloatText, n: Number) {
    if IsIntegerLiteral(n) then n != "-0" else float(n) == n
  }

  /** Every number of the tree is in Python's own form. */
  predicate PythonNumbers(float: FloatText, t: Json) {
    match t
    case Num(n) => InPythonForm(float, n)
    case Arr(elems) => forall i | 0 <= i < |elems| :: PythonNumbers(float, elems[i])
    case Obj(fields) => forall k | k in fields :: PythonNumbers(float, fields[k])
    case _ => true
  }

  lemma NumberKept(float: FloatText, n: Number)
    ensures PythonNumber(float, n) == n <==> InPythonForm(float, n)
  {
    if IsIntegerLiteral(n) {
      IntegerKept(float, n);
    }
  }

  lemma {:induction false} RenumberedSame(float: FloatText, t: Json)
    ensures Renumbered(float, t) == t <==> PythonNumbers(float, t)
  {
    hide PythonNumber, InPythonForm;
    match t
    case Num(n) => NumberKept(float, n);
    case Arr(elems) =>
      forall i | 0 <= i < |elems| ensures Renumbered(float, elems[i]) == elems[i] <==> PythonNumbers(float, elems[i]) {
        RenumberedSame(float, elems[i]);
      }
      assert Renumbered(float, t) == t <==> forall i | 0 <= i < |elems| :: Renumbered(float, t).elems[i] == elems[i];
    case Obj(fields) =>
      forall k | k in fields ensures Renumbered(float, fields[k]) == fields[k] <==> PythonNumbers(float, fields[k]) {
        RenumberedSame(float, fields[k]);
      }
      assert Renumbered(float, t) == t <==> forall k | k in fields :: Renumbered(float, t).fields[k] == fields[k];
    case _ =>
  }

  // ------------------------------------------------------------- U+007F in the text

  lemma NoDelParts(a: Bytes, b: Bytes)
    requires DEL !in a + b
    ensures DEL !in a && DEL !in b
  {
    assert forall i | 0 <= i < |a| :: a[i] == (a + b)[i];
    assert forall i | 0 <= i < |b| :: b[i] == (a + b)[|a| + i];
  }

  lemma {:induction false} NoDelChars(s: string)
    requires DEL !in QuoteChars(s, AsciiOnly)
    ensures DEL_CHAR !in s
  {
    if s != "" {
      NoDelParts(QuoteChar(s[0], AsciiOnly), QuoteChars(s[1..], AsciiOnly));
      NoDelChars(s[1..]);
      assert s == [s[0]] + s[1..];
    }
  }

  lemma NoDelString(s: string)
    requires DEL !in QuoteString(s, AsciiOnly)
    ensures DEL_CHAR !in s
  {
    NoDelParts([QUOTE] + QuoteChars(s, AsciiOnly), [QUOTE]);
    NoDelParts([QUOTE], QuoteChars(s, AsciiOnly));
    NoDelChars(s);
  }

  lemma {:induction false} NoDelTree(t: Json)
    requires DEL !in Encode(t, AsciiOnly)
    ensures DelFree(t)
    decreases t, 1
  {
    match t
    case Str(s) => NoDelString(s);
    case Arr(elems) =>
      NoDelParts([OPEN_ARR], EncodeElems(elems, AsciiOnly));
      if elems != [] {
        NoDelParts(Encode(elems[0], AsciiOnly), EncodeElemsTail(elems[1..], AsciiOnly));
        NoDelTree(elems[0]);
        NoDelElems(elems[1..]);
        assert forall i | 0 < i < |elems| :: elems[i] == elems[1..][i - 1];
      }
    case Obj(fields) =>
      var keys := SortedKeys(fields.Keys);
      NoDelParts([OPEN_OBJ], EncodeFields(t, keys, AsciiOnly));
      if keys != [] {
        NoDelParts(EncodeField(t, keys[0], AsciiOnly), EncodeFieldsTail(t, keys[1..], AsciiOnly));
        NoDelField(t, keys[0]);
        NoDelFields(t, keys[1..]);
      }
      assert forall k | k in fields :: k in keys && (k == keys[0] || k in keys[1..]);
    case _ =>
  }

  lemma {:induction false} NoDelElems(elems: seq<Json>)
    requires DEL !in EncodeElemsTail(elems, AsciiOnly)
    ensures forall i | 0 <= i < |elems| :: DelFree(elems[i])
    decreases elems, 0
  {
    if elems != [] {
      var tail := EncodeElemsTail(elems[1..], AsciiOnly);
      NoDelParts([COMMA], Encode(elems[0], AsciiOnly) + tail);
      NoDelParts(Encode(elems[0], AsciiOnly), tail);
      NoDelTree(elems[0]);
      NoDelElems(elems[1..]);
      assert forall i | 0 < i < |elems| :: elems[i] == elems[1..][i - 1];
    }
  }

  lemma {:induction false} NoDelField(t: Json, key: string)
    requires t.Obj? && key in t.fields && DEL !in EncodeField(t, key, AsciiOnly)
    ensures DEL_CHAR !in key && DelFree(t.fields[key])
    decreases t, 0, 0
  {
    var v := Encode(t.fields[key], AsciiOnly);
    NoDelParts(QuoteString(key, AsciiOnly), [COLON] + v);
    NoDelParts([COLON], v);
    NoDelString(key);
    NoDelTree(t.fields[key]);
  }

  lemma {:induction false} NoDelFields(t: Json, keys: seq<string>)
    requires t.Obj? && forall k | k in keys :: k in t.fields
    requires DEL !in EncodeFieldsTail(t, keys, AsciiOnly)
    ensures forall k | k in keys :: DEL_CHAR !in k && DelFree(t.fields[k])
    decreases t, 0, |keys|
  {
    if keys != [] {
      var tail := EncodeFieldsTail(t, keys[1..], AsciiOnly);
      NoDelParts([COMMA], EncodeField(t, keys[0], AsciiOnly) + tail);
      NoDelParts(EncodeField(t, keys[0], AsciiOnly), tail);
      NoDelField(t, keys[0]);
      NoDelFields(t, keys[1..]);
    }
  }

  // ------------------------------------------------------------ texts without U+007F

  lemma {:induction false} SameChars(s: string)
    requires DEL_CHAR !in s
    ensures QuoteChars(s, AsciiOnly) == QuoteChars(s, Python)
  {
    if s != "" {
      SameChars(s[1..]);
    }
  }

  lemma SameString(s: string)
    requires DEL_CHAR !in s
    ensures QuoteString(s, AsciiOnly) == QuoteString(s, Python)
  {
    SameChars(s);
  }

  lemma {:induction false} SameEncode(t: Json)
    requires DelFree(t)
    ensures Encode(t, AsciiOnly) == Encode(t, Python)
    decreases t, 1
  {
    match t
    case Str(s) => SameString(s);
    case Arr(elems) =>
      if elems != [] {
        SameEncode(elems[0]);
        SameElems(elems[1..]);
      }
    case Obj(fields) =>
      var keys := SortedKeys(fields.Keys);
      if keys != [] {
        SameField(t, keys[0]);
        SameFields(t, keys[1..]);
      }
    case _ =>
  }

  lemma {:induction false} SameElems(elems: seq<Json>)
    requires forall i | 0 <= i < |elems| :: DelFree(elems[i])
    ensures EncodeElemsTail(elems, AsciiOnly) == EncodeElemsTail(elems, Python)
    decreases elems, 0
  {
    if elems != [] {
      SameEncode(elems[0]);
      SameElems(elems[1..]);
    }
  }

  lemma {:induction false} SameField(t: Json, key: string)
    requires t.Obj? && key in t.fields && DelFree(t)
    ensures EncodeField(t, key, AsciiOnly) == EncodeField(t, key, Python)
    decreases t, 0, 0
  {
    SameString(key);
    SameEncode(t.fields[key]);
  }

  lemma {:induction false} SameFields(t: Json, keys: seq<string>)
    requires t.Obj? && DelFree(t) && forall k | k in keys :: k in t.fields
    ensures EncodeFieldsTail(t, keys, AsciiOnly) == EncodeFieldsTail(t, keys, Python)
    decreases t, 0, |keys|
  {
    if keys != [] {
      SameField(t, keys[0]);
      SameFields(t, keys[1..]);
    }
  }

  // ----------------------------------------------------------------- main results

  /**
   The canonical text is Python's exactly when no string and no member name holds
   U+007F and every number literal already has the form Python would write.
   */
  lemma MatchesPython(float: FloatText, t: Json)
    ensures CanonicalJson(t) == PythonJson(float, t) <==> DelFree(t) && PythonNumbers(float, t)
  {
    hide Encode, Renumbered, DelFree, PythonNumbers;
    var p := Renumbered(float, t);
    CanonicalIsAsciiEncode(t);
    RenumberedSame(float, t);
    if CanonicalJson(t) == PythonJson(float, t) {
      CanonicalReadsBack(t);
      ReadEncoded(p, Python, []);
      assert Encode(p, Python) + [] == Encode(p, Python);
      PrintableEncode(t, Python);
      NoDelTree(t);
    }
    if DelFree(t) {
      SameEncode(t);
    }
  }

  /** Inputs on which the two differ whatever floats look like, and one on which they differ as Python writes 1e-07. */
  lemma DiffersFromPython(float: FloatText)
    ensures CanonicalJson(Str([DEL_CHAR])) != PythonJson(float, Str([DEL_CHAR]))
    ensures CanonicalJson(Num("-0")) != PythonJson(float, Num("-0"))
    ensures float("1e-7") == "1e-07" ==> CanonicalJson(Num("1e-7")) != PythonJson(float, Num("1e-7"))
  {
    MatchesPython(float, Str([DEL_CHAR]));
    MatchesPython(float, Num("-0"));
    MatchesPython(float, Num("1e-7"));
    hide PythonJson, CanonicalJson, InPythonForm;
    NotPythonForms(float);
    assert DEL_CHAR in [DEL_CHAR];
  }

  lemma NotPythonForms(float: FloatText)
    ensures !InPythonForm(float, "-0")
    ensures float("1e-7") == "1e-07" ==> !InPythonForm(float, "1e-7")
  {
    assert "-0"[1..] == "0" && IsIntegerLiteral("-0");
    assert "1e-7"[1] == 'e' && !IsIntegerLiteral("1e-7");
    assert |"1e-7"| == 4 && |"1e-07"| == 5;
  }
}
