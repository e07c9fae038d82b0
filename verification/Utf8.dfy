/**
 UTF-8 as the Go standard library reads and writes it (section 3 of RFC 3629):
 an encoder for one Unicode scalar value and a decoder that answers
 (U+FFFD, 1) for every byte that does not start a well-formed sequence.
 */
module Utf8 {

  type Byte = b: int | 0 <= b < 0x100
  type Bytes = seq<Byte>

  const RUNE_ERROR: char := '\U{FFFD}'

  datatype Rune = Rune(ch: char, size: nat)

  predicate IsScalar(r: int) {
    0 <= r < 0xD800 || 0xE000 <= r < 0x11_0000
  }

  /** The scalar value whose base-64 digits are `w`, `x`, `y`, `z`. */
  function Scalar(w: int, x: int, y: int, z: int): int {
    w * 0x4_0000 + x * 0x1000 + y * 0x40 + z
  }

  lemma Base64Digits(r: nat)
    ensures r == Scalar(r / 0x4_0000, r / 0x1000 % 0x40, r / 0x40 % 0x40, r % 0x40)
  {
    assert r / 0x1000 == r / 0x40 / 0x40;
    assert r / 0x4_0000 == r / 0x1000 / 0x40;
  }

  predicate IsAscii(b: Bytes) {
    forall i | 0 <= i < |b| :: b[i] < 0x80
  }

  predicate IsContinuation(b: Byte) {
    0x80 <= b <= 0xBF
  }

  /** The bytes of an ASCII string literal. */
  function Ascii(s: string): (b: Bytes)
    requires forall i | 0 <= i < |s| :: s[i] as int < 0x80
    ensures |b| == |s| && IsAscii(b)
    ensures forall i | 0 <= i < |s| :: b[i] == s[i] as int
  {
    seq(|s|, i requires 0 <= i < |s| => s[i] as int)
  }

  function EncodeRune(c: char): (b: Bytes)
    ensures 1 <= |b| <= 4
    ensures c as int < 0x80 <==> b[0] < 0x80
    ensures c as int < 0x80 ==> b == [c as int]
  {
    var r := c as int;
    if r < 0x80 then
      [r]
    else if r < 0x800 then
      [0xC0 + r / 0x40, 0x80 + r % 0x40]
    else if r < 0x1_0000 then
      [0xE0 + r / 0x1000, 0x80 + r / 0x40 % 0x40, 0x80 + r % 0x40]
    else
      [0xF0 + r / 0x4_0000, 0x80 + r / 0x1000 % 0x40, 0x80 + r / 0x40 % 0x40, 0x80 + r % 0x40]
  }

  function Utf8Text(s: string): Bytes {
    if s == "" then [] else EncodeRune(s[0]) + Utf8Text(s[1..])
  }

  function DecodeRune(b: Bytes): (d: Rune)
    requires b != []
    ensures 1 <= d.size <= 4 && d.size <= |b|
    ensures b[0] < 0x80 ==> d == Rune(b[0] as char, 1)
  {
    var invalid := Rune(RUNE_ERROR, 1);
    if b[0] < 0x80 then
      Rune(b[0] as char, 1)
    else if 0xC2 <= b[0] <= 0xDF then
      if |b| >= 2 && IsContinuation(b[1]) then
        Rune(Scalar(0, 0, b[0] - 0xC0, b[1] - 0x80) as char, 2)
      else
        invalid
    else if 0xE0 <= b[0] <= 0xEF then
      var low := if b[0] == 0xE0 then 0xA0 else 0x80;
      var high := if b[0] == 0xED then 0x9F else 0xBF;
      if |b| >= 3 && low <= b[1] <= high && IsContinuation(b[2]) then
        Rune(Scalar(0, b[0] - 0xE0, b[1] - 0x80, b[2] - 0x80) as char, 3)
      else
        invalid
    else if 0xF0 <= b[0] <= 0xF4 then
      var low := if b[0] == 0xF0 then 0x90 else 0x80;
      var high := if b[0] == 0xF4 then 0x8F else 0xBF;
      if |b| >= 4 && low <= b[1] <= high && IsContinuation(b[2]) && IsContinuation(b[3]) then
        Rune(Scalar(b[0] - 0xF0, b[1] - 0x80, b[2] - 0x80, b[3] - 0x80) as char, 4)
      else
        invalid
    else
      invalid
  }

  /** Decoding undoes encoding, whatever bytes follow. */
  lemma DecodeEncode(c: char, rest: Bytes)
    ensures DecodeRune(EncodeRune(c) + rest) == Rune(c, |EncodeRune(c)|)
    ensures (EncodeRune(c) + rest)[|EncodeRune(c)|..] == rest
  {
    var e := EncodeRune(c);
    Base64Digits(c as int);
    assert (e + rest)[|e|..] == rest;
    if |e| == 1 {
      assert (e + rest)[0] == e[0];
    } else if |e| == 2 {
      Decode2(e[0], e[1], rest);
    } else if |e| == 3 {
      Decode3(e[0], e[1], e[2], rest);
    } else {
      Decode4(e[0], e[1], e[2], e[3], rest);
    }
  }

  lemma Decode2(w: Byte, x: Byte, rest: Bytes)
    requires 0xC2 <= w <= 0xDF && IsContinuation(x)
    ensures DecodeRune([w, x] + rest) == Rune(Scalar(0, 0, w - 0xC0, x - 0x80) as char, 2)
  {
    var b := [w, x] + rest;
    assert b[0] == w && b[1] == x;
  }

  lemma Decode3(w: Byte, x: Byte, y: Byte, rest: Bytes)
    requires 0xE0 <= w <= 0xEF && IsContinuation(x) && IsContinuation(y)
    requires w == 0xE0 ==> x >= 0xA0
    requires w == 0xED ==> x <= 0x9F
    ensures DecodeRune([w, x, y] + rest) == Rune(Scalar(0, w - 0xE0, x - 0x80, y - 0x80) as char, 3)
  {
    var b := [w, x, y] + rest;
    assert b[0] == w && b[1] == x && b[2] == y;
  }

  lemma Decode4(w: Byte, x: Byte, y: Byte, z: Byte, rest: Bytes)
    requires 0xF0 <= w <= 0xF4 && IsContinuation(x) && IsContinuation(y) && IsContinuation(z)
    requires w == 0xF0 ==> x >= 0x90
    requires w == 0xF4 ==> x <= 0x8F
    ensures DecodeRune([w, x, y, z] + rest) == Rune(Scalar(w - 0xF0, x - 0x80, y - 0x80, z - 0x80) as char, 4)
  {
    var b := [w, x, y, z] + rest;
    assert b[0] == w && b[1] == x && b[2] == y && b[3] == z;
  }

  /**
   The decoder answers with a rune exactly when its encoding starts the bytes, and
   with U+FFFD and one byte when no encoding does: overlong forms, surrogates and
   cut sequences are refused.
   */
  lemma DecodeExactly(b: Bytes)
    requires b != []
    ensures var d := DecodeRune(b);
            if EncodeRune(d.ch) <= b && |EncodeRune(d.ch)| == d.size then forall c :: EncodeRune(c) <= b ==> c == d.ch
            else d == Rune(RUNE_ERROR, 1) && forall c :: !(EncodeRune(c) <= b)
  {
    forall c | EncodeRune(c) <= b ensures DecodeRune(b) == Rune(c, |EncodeRune(c)|) {
      var e := EncodeRune(c);
      assert e + b[|e|..] == b;
      DecodeEncode(c, b[|e|..]);
    }
    RuneOrError(b);
    hide DecodeRune, EncodeRune;
  }

  lemma DigitsOf(w: int, x: int, y: int, z: int)
    requires 0 <= w && 0 <= x < 0x40 && 0 <= y < 0x40 && 0 <= z < 0x40
    ensures var r := Scalar(w, x, y, z);
            r % 0x40 == z && r / 0x40 % 0x40 == y && r / 0x1000 % 0x40 == x && r / 0x4_0000 == w
            && r / 0x40 == w * 0x1000 + x * 0x40 + y && r / 0x1000 == w * 0x40 + x
  {
    var r := Scalar(w, x, y, z);
    assert r / 0x40 == w * 0x1000 + x * 0x40 + y;
    assert r / 0x1000 == r / 0x40 / 0x40 == w * 0x40 + x;
    assert r / 0x4_0000 == r / 0x1000 / 0x40 == w;
  }

  lemma RuneOrError(b: Bytes)
    requires b != []
    ensures var d := DecodeRune(b);
            d == Rune(RUNE_ERROR, 1) || (EncodeRune(d.ch) <= b && |EncodeRune(d.ch)| == d.size)
  {
    var d := DecodeRune(b);
    if d.size == 2 {
      TwoBytes(b);
    } else if d.size == 3 {
      ThreeBytes(b);
    } else if d.size == 4 {
      FourBytes(b);
    } else {
      assert b[0] < 0x80 ==> [b[0]] <= b;
    }
  }

  lemma TwoBytes(b: Bytes)
    requires b != [] && DecodeRune(b).size == 2
    ensures EncodeRune(DecodeRune(b).ch) == b[..2]
  {
    DigitsOf(0, 0, b[0] - 0xC0, b[1] - 0x80);
    assert b[..2] == [b[0], b[1]];
  }

  lemma ThreeBytes(b: Bytes)
    requires b != [] && DecodeRune(b).size == 3
    ensures EncodeRune(DecodeRune(b).ch) == b[..3]
  {
    DigitsOf(0, b[0] - 0xE0, b[1] - 0x80, b[2] - 0x80);
    assert b[..3] == [b[0], b[1], b[2]];
  }

  lemma FourBytes(b: Bytes)
    requires b != [] && DecodeRune(b).size == 4
    ensures EncodeRune(DecodeRune(b).ch) == b[..4]
  {
    DigitsOf(b[0] - 0xF0, b[1] - 0x80, b[2] - 0x80, b[3] - 0x80);
    assert b[..4] == [b[0], b[1], b[2], b[3]];
  }
}
