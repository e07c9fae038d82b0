/**
 The rewriting pass that turns the encoder's UTF-8 text into pure ASCII:
 every non-ASCII rune becomes a \uXXXX escape, a surrogate pair above U+FFFF.
 */
module AsciiEscape {
  import opened Utf8

  function HexDigit(n: int): (b: Byte)
    requires 0 <= n < 16
    ensures b < 0x80
  {
    if n < 10 then n + '0' as int else n - 10 + 'a' as int
  }

  /** A backslash, a `u` and four lower-case hexadecimal digits. */
  function UnicodeEscape(r: int): (b: Bytes)
    requires 0 <= r < 0x1_0000
    ensures |b| == 6 && IsAscii(b)
  {
    ['\\' as int, 'u' as int,
     HexDigit(r / 0x1000), HexDigit(r / 0x100 % 16), HexDigit(r / 16 % 16), HexDigit(r % 16)]
  }

  function EscapeRune(c: char): Bytes {
    var r := c as int;
    if r < 0x80 then
      [r]
    else if r > 0xFFFF then
      UnicodeEscape(0xD800 + (r - 0x1_0000) / 0x400) + UnicodeEscape(0xDC00 + (r - 0x1_0000) % 0x400)
    else
      UnicodeEscape(r)
  }

  function Escape(b: Bytes): Bytes {
    if b == [] then
      []
    else
      var d := DecodeRune(b);
      EscapeRune(d.ch) + Escape(b[d.size..])
  }

  lemma {:induction false} EscapeIsAscii(b: Bytes)
    ensures IsAscii(Escape(b))
  {
    if b != [] {
      EscapeIsAscii(b[DecodeRune(b).size..]);
    }
  }

  lemma EscapeFirst(b: Bytes)
    requires b != [] && b[0] < 0x80
    ensures Escape(b) == [b[0]] + Escape(b[1..])
  {
  }

  lemma Concat(a: Bytes, b: Bytes, c: Bytes)
    ensures a + (b + c) == a + b + c
  {
  }

  lemma ConcatTail(a: Bytes, b: Bytes)
    requires a != []
    ensures (a + b)[0] == a[0] && (a + b)[1..] == a[1..] + b
    ensures [a[0]] + a[1..] == a
  {
  }

  lemma {:induction false} EscapeAscii(a: Bytes, rest: Bytes)
    requires IsAscii(a)
    ensures Escape(a + rest) == a + Escape(rest)
  {
    if a == [] {
      assert a + rest == rest;
    } else {
      hide *;
      ConcatTail(a, rest);
      EscapeFirst(a + rest);
      IsAsciiTail(a);
      EscapeAscii(a[1..], rest);
      Concat([a[0]], a[1..], Escape(rest));
    }
  }

  lemma IsAsciiTail(a: Bytes)
    requires a != [] && IsAscii(a)
    ensures a[0] < 0x80 && IsAscii(a[1..])
  {
  }

  /** A second pass changes nothing, so an already canonical row is a fixed point. */
  lemma EscapeIdempotent(b: Bytes)
    ensures Escape(Escape(b)) == Escape(b)
  {
    EscapeIsAscii(b);
    EscapeAscii(Escape(b), []);
    assert Escape(b) + [] == Escape(b);
  }

  lemma EscapeEncoded(c: char, rest: Bytes)
    ensures Escape(EncodeRune(c) + rest) == EscapeRune(c) + Escape(rest)
  {
    DecodeEncode(c, rest);
  }

  /** The index loop, with its fast path for text that needs no rewriting. */
  method EscapeLoop(b: Bytes) returns (out: Bytes)
    ensures out == Escape(b)
  {
    var ascii := IsAsciiLoop(b);
    if ascii {
      EscapeAscii(b, []);
      assert b + [] == b;
      return b;
    }
    out := [];
    var i := 0;
    WrittenNone(b);
    hide *;
    while i < |b|
      invariant 0 <= i <= |b|
      invariant Written(b, i, out)
    {
      var piece, size := EscapeAt(b, i);
      EscapeStep(b, i, out);
      out := out + piece;
      i := i + size;
    }
    WrittenAll(b, out);
  }

  /** The body of the loop: what it appends and how far it moves. */
  method EscapeAt(b: Bytes, i: nat) returns (out: Bytes, size: nat)
    requires i < |b|
    ensures out == EscapeRune(DecodeRune(b[i..]).ch)
    ensures size == DecodeRune(b[i..]).size
  {
    var c := b[i];
    assert b[i..][0] == c;
    if c < 0x80 {
      return [c], 1;
    }
    var d := DecodeRune(b[i..]);
    if d == Rune(RUNE_ERROR, 1) {
      ReplacementEscape();
      return Ascii("\\ufffd"), 1;
    }
    var r := d.ch as int;
    if r > 0xFFFF {
      r := r - 0x1_0000;
      var hi, lo := 0xD800 + r / 0x400, 0xDC00 + r % 0x400;
      return UnicodeEscape(hi) + UnicodeEscape(lo), d.size;
    }
    NonAsciiRune(b[i..]);
    return UnicodeEscape(r), d.size;
  }

  lemma NonAsciiRune(b: Bytes)
    requires b != [] && b[0] >= 0x80
    ensures DecodeRune(b).ch as int >= 0x80
  {
  }

  lemma WrittenNone(b: Bytes)
    ensures Written(b, 0, [])
  {
    assert b[0..] == b;
  }

  lemma WrittenAll(b: Bytes, out: Bytes)
    requires Written(b, |b|, out)
    ensures out == Escape(b)
  {
    assert b[|b|..] == [];
  }

  /** `out` is the escaped form of the first `i` bytes of `b`. */
  ghost predicate Written(b: Bytes, i: nat, out: Bytes)
    requires i <= |b|
  {
    out + Escape(b[i..]) == Escape(b)
  }

  /** What one turn of the loop appends. */
  lemma EscapeStep(b: Bytes, i: nat, out: Bytes)
    requires i < |b| && Written(b, i, out)
    ensures var d := DecodeRune(b[i..]);
            Written(b, i + d.size, out + EscapeRune(d.ch))
  {
    var d := DecodeRune(b[i..]);
    assert b[i..][d.size..] == b[i + d.size..];
    Concat(out, EscapeRune(d.ch), Escape(b[i + d.size..]));
  }

  lemma ReplacementEscape()
    ensures EscapeRune(RUNE_ERROR) == Ascii("\\ufffd")
  {
    assert UnicodeEscape(0xFFFD) == Ascii("\\ufffd");
  }

  method IsAsciiLoop(b: Bytes) returns (ascii: bool)
    ensures ascii <==> IsAscii(b)
  {
    for i := 0 to |b|
      invariant forall j | 0 <= j < i :: b[j] < 0x80
    {
      if b[i] >= 0x80 {
        return false;
      }
    }
    return true;
  }

  /** The four digits of an escape are lower-case, as Go's %04x and Python write them. */
  lemma EscapeIsLowerHex(r: int)
    requires 0 <= r < 0x1_0000
    ensures UnicodeEscape(r)[0] == '\\' as int && UnicodeEscape(r)[1] == 'u' as int
    ensures forall i | 2 <= i < 6 ::
              '0' as int <= UnicodeEscape(r)[i] <= '9' as int || 'a' as int <= UnicodeEscape(r)[i] <= 'f' as int
  {
  }
}
