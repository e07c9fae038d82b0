/**
 Reading compact JSON back (section 7 of RFC 8259 for string escapes), with the
 choices of encoding/json: a lone surrogate becomes U+FFFD, a repeated member
 name keeps its last value, a number keeps its text.
 */
module Parse {
  import opened Utf8
  import opened Json
  import opened Canonical

  datatype Parsed<+T> = Parsed(value: T, rest: Bytes) | Failed

  // ------------------------------------------------------------------ strings

  /** The value of a hexadecimal digit, 16 for any other byte. */
  function HexValue(b: Byte): (n: int)
    ensures 0 <= n <= 16
  {
    if '0' as int <= b <= '9' as int then b - '0' as int
    else if 'a' as int <= b <= 'f' as int then b - 'a' as int + 10
    else if 'A' as int <= b <= 'F' as int then b - 'A' as int + 10
    else 16
  }

  /** The code unit of the \uXXXX escape at the start of `b`, 0x10000 when there is none. */
  function CodeUnit(b: Bytes): (u: int)
    ensures 0 <= u <= 0x1_0000
    ensures u < 0x1_0000 ==> |b| >= 6
  {
    if |b| >= 6 && b[0] == BACKSLASH && b[1] == 'u' as int
       && HexValue(b[2]) < 16 && HexValue(b[3]) < 16 && HexValue(b[4]) < 16 && HexValue(b[5]) < 16
    then HexValue(b[2]) * 0x1000 + HexValue(b[3]) * 0x100 + HexValue(b[4]) * 0x10 + HexValue(b[5])
    else 0x1_0000
  }

  function Unescape(letter: Byte): (c: int) {
    if letter == QUOTE || letter == BACKSLASH || letter == '/' as int then letter
    else if letter == 'b' as int then 0x08
    else if letter == 'f' as int then 0x0C
    else if letter == 'n' as int then 0x0A
    else if letter == 'r' as int then 0x0D
    else if letter == 't' as int then 0x09
    else 0
  }

  /** One character inside a string literal. */
  function ReadChar(b: Bytes): (p: Parsed<char>)
    requires b != []
    ensures p.Parsed? ==> |p.rest| < |b|
  {
    if b[0] == BACKSLASH then
      if |b| >= 2 && 0 < Unescape(b[1]) < 0x80 then
        Parsed(Unescape(b[1]) as char, b[2..])
      else
        var u := CodeUnit(b);
        if u == 0x1_0000 then Failed
        else if IsScalar(u) then Parsed(u as char, b[6..])
        else
          var v := CodeUnit(b[6..]);
          if u < 0xDC00 && 0xDC00 <= v < 0xE000 then
            Parsed((0x1_0000 + (u - 0xD800) * 0x400 + (v - 0xDC00)) as char, b[12..])
          else
            Parsed(RUNE_ERROR, b[6..])
    else if b[0] < 0x20 then
      Failed
    else
      var d := DecodeRune(b);
      Parsed(d.ch, b[d.size..])
  }

  /** The rest of a string literal, up to and including its closing quote. */
  function ReadChars(b: Bytes): (p: Parsed<string>)
    ensures p.Parsed? ==> |p.rest| < |b|
    decreases |b|
  {
    if b == [] then Failed
    else if b[0] == QUOTE then Parsed("", b[1..])
    else
      var c := ReadChar(b);
      if c.Failed? then Failed
      else
        var tail := ReadChars(c.rest);
        if tail.Failed? then Failed else Parsed([c.value] + tail.value, tail.rest)
  }

  function ReadString(b: Bytes): (p: Parsed<string>)
    ensures p.Parsed? ==> |p.rest| < |b|
  {
    if b != [] && b[0] == QUOTE then ReadChars(b[1..]) else Failed
  }

  // ------------------------------------------------------------------ numbers

  predicate StartsNumberChar(b: Bytes) {
    b != [] && b[0] < 0x80 && IsNumberChar(b[0] as char)
  }

  function ReadNumberChars(b: Bytes): (p: Parsed<string>)
    ensures p.Parsed? && |p.rest| + |p.value| == |b|
    ensures forall i | 0 <= i < |p.value| :: IsNumberChar(p.value[i])
    ensures p.value == "" <==> !StartsNumberChar(b)
  {
    if StartsNumberChar(b) then
      var tail := ReadNumberChars(b[1..]);
      Parsed([b[0] as char] + tail.value, tail.rest)
    else
      Parsed("", b)
  }

  // ------------------------------------------------------------------- values

  datatype Member = Member(name: string, value: Json)

  /** Members in text order; a repeated name keeps its last value. */
  function FromMembers(members: seq<Member>): map<string, Json> {
    if members == [] then map[]
    else map[members[0].name := members[0].value] + FromMembers(members[1..])
  }

  predicate StartsWith(b: Bytes, word: Bytes) {
    |b| >= |word| && b[..|word|] == word
  }

  function ReadWord(b: Bytes, word: Bytes, t: Json): (p: Parsed<Json>)
    requires word != []
    ensures p.Parsed? ==> |p.rest| < |b|
  {
    if StartsWith(b, word) then Parsed(t, b[|word|..]) else Failed
  }

  function ReadValue(b: Bytes): (p: Parsed<Json>)
    ensures p.Parsed? ==> |p.rest| < |b|
    decreases |b|, 0
  {
    if b == [] then Failed
    else if b[0] == 'n' as int then ReadWord(b, Ascii("null"), Null)
    else if b[0] == 't' as int then ReadWord(b, Ascii("true"), Bool(true))
    else if b[0] == 'f' as int then ReadWord(b, Ascii("false"), Bool(false))
    else if b[0] == QUOTE then
      var s := ReadString(b);
      if s.Failed? then Failed else Parsed(Str(s.value), s.rest)
    else if b[0] == OPEN_ARR then
      var e := ReadElems(b[1..]);
      if e.Failed? then Failed else Parsed(Arr(e.value), e.rest)
    else if b[0] == OPEN_OBJ then
      var f := ReadFields(b[1..]);
      if f.Failed? then Failed else Parsed(Obj(FromMembers(f.value)), f.rest)
    else if StartsNumberChar(b) then
      var n := ReadNumberChars(b);
      Parsed(Num(n.value), n.rest)
    else Failed
  }

  function ReadElems(b: Bytes): (p: Parsed<seq<Json>>)
    ensures p.Parsed? ==> |p.rest| < |b|
    decreases |b|, 2
  {
    if b != [] && b[0] == CLOSE_ARR then Parsed([], b[1..])
    else ReadElem(b)
  }

  function ReadElem(b: Bytes): (p: Parsed<seq<Json>>)
    ensures p.Parsed? ==> |p.rest| < |b|
    decreases |b|, 1
  {
    var v := ReadValue(b);
    if v.Failed? then Failed
    else
      var tail := ReadElemsTail(v.rest);
      if tail.Failed? then Failed else Parsed([v.value] + tail.value, tail.rest)
  }

  function ReadElemsTail(b: Bytes): (p: Parsed<seq<Json>>)
    ensures p.Parsed? ==> |p.rest| < |b|
    decreases |b|, 0
  {
    if b == [] then Failed
    else if b[0] == CLOSE_ARR then Parsed([], b[1..])
    else if b[0] == COMMA then ReadElem(b[1..])
    else Failed
  }

  function ReadFields(b: Bytes): (p: Parsed<seq<Member>>)
    ensures p.Parsed? ==> |p.rest| < |b|
    decreases |b|, 2
  {
    if b != [] && b[0] == CLOSE_OBJ then Parsed([], b[1..])
    else ReadField(b)
  }

  function ReadField(b: Bytes): (p: Parsed<seq<Member>>)
    ensures p.Parsed? ==> |p.rest| < |b|
    decreases |b|, 1
  {
    var k := ReadString(b);
    if k.Failed? || k.rest == [] || k.rest[0] != COLON then Failed
    else
      var v := ReadValue(k.rest[1..]);
      if v.Failed? then Failed
      else
        var tail := ReadFieldsTail(v.rest);
        if tail.Failed? then Failed else Parsed([Member(k.value, v.value)] + tail.value, tail.rest)
  }

  function ReadFieldsTail(b: Bytes): (p: Parsed<seq<Member>>)
    ensures p.Parsed? ==> |p.rest| < |b|
    decreases |b|, 0
  {
    if b == [] then Failed
    else if b[0] == CLOSE_OBJ then Parsed([], b[1..])
    else if b[0] == COMMA then ReadField(b[1..])
    else Failed
  }
}
