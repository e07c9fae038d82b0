/** The order of member names is the order of their UTF-8 bytes, as encoding/json sorts map keys. */
module KeyOrder {
  import opened Utf8
  import opened Json
  import opened Canonical
  import opened CanonicalForm
  import opened Parse
  import opened RoundTrip

  /** `x` is a proper prefix of `y`, or has the smaller byte where they first differ. */
  ghost predicate BytesPrecede(x: Bytes, y: Bytes) {
    x < y || exists i :: 0 <= i < |x| && i < |y| && x[..i] == y[..i] && x[i] < y[i]
  }

  lemma BytesPrecedeOneWay(x: Bytes, y: Bytes)
    requires BytesPrecede(x, y)
    ensures !BytesPrecede(y, x) && x != y
  {
  }

  // ------------------------------------------------------------------- one rune

  /** `x` and `y` first differ at `i`, where `x` is smaller. */
  predicate LessAt(x: Bytes, y: Bytes, i: nat) {
    i < |x| && i < |y| && x[..i] == y[..i] && x[i] < y[i]
  }

  predicate IsDigits(x: int, y: int, z: int) {
    0 <= x < 0x40 && 0 <= y < 0x40 && 0 <= z < 0x40
  }

  /** Numbers compare as their base-64 digits do. */
  lemma DigitOrder(w: int, x: int, y: int, z: int, w': int, x': int, y': int, z': int)
    requires IsDigits(x, y, z) && IsDigits(x', y', z') && Scalar(w, x, y, z) < Scalar(w', x', y', z')
    ensures w < w' || (w == w' && (x < x' || (x == x' && (y < y' || (y == y' && z < z')))))
  {
  }

  lemma RuneDigits(c: char)
    ensures var r := c as int;
            var w, x, y, z := r / 0x4_0000, r / 0x1000 % 0x40, r / 0x40 % 0x40, r % 0x40;
            && IsDigits(x, y, z) && w >= 0 && r == Scalar(w, x, y, z)
            && EncodeRune(c) == (if r < 0x80 then [r]
                                 else if r < 0x800 then [0xC0 + y + 0x40 * x, 0x80 + z]
                                 else if r < 0x1_0000 then [0xE0 + x + 0x40 * w, 0x80 + y, 0x80 + z]
                                 else [0xF0 + w, 0x80 + x, 0x80 + y, 0x80 + z])
            && (r < 0x800 ==> w == 0 && x == 0) && (r < 0x1_0000 ==> 0x40 * w + x < 0x10)
  {
    Base64Digits(c as int);
  }

  /** The encoding of a smaller rune has the smaller byte where the two first differ. */
  lemma RuneOrder(c: char, d: char) returns (i: nat)
    requires c < d
    ensures LessAt(EncodeRune(c), EncodeRune(d), i)
  {
    RuneDigits(c);
    RuneDigits(d);
    hide EncodeRune;
    var r, s := c as int, d as int;
    DigitOrder(r / 0x4_0000, r / 0x1000 % 0x40, r / 0x40 % 0x40, r % 0x40, s / 0x4_0000, s / 0x1000 % 0x40, s / 0x40 % 0x40, s % 0x40);
    var x, y := EncodeRune(c), EncodeRune(d);
    i := if x[0] != y[0] then 0 else if x[1] != y[1] then 1 else if x[2] != y[2] then 2 else 3;
  }

  // -------------------------------------------------------------------- whole text

  lemma {:induction false} TextConcat(a: string, b: string)
    ensures Utf8Text(a + b) == Utf8Text(a) + Utf8Text(b)
  {
    if a == "" {
      assert a + b == b;
    } else {
      assert (a + b)[1..] == a[1..] + b;
      TextConcat(a[1..], b);
    }
  }

  lemma LessAfter(p: Bytes, x: Bytes, y: Bytes, x': Bytes, y': Bytes, i: nat)
    requires LessAt(x, y, i)
    ensures LessAt(p + (x + x'), p + (y + y'), |p| + i)
  {
    var a, b := p + (x + x'), p + (y + y');
    assert a[|p| + i] == x[i] && b[|p| + i] == y[i];
    assert a[..|p| + i] == p + x[..i] && b[..|p| + i] == p + y[..i];
  }

  lemma PrecedesKept(a: string, b: string)
    requires Precedes(a, b)
    ensures BytesPrecede(Utf8Text(a), Utf8Text(b))
  {
    hide EncodeRune;
    if a < b {
      assert b == a + b[|a|..];
      TextConcat(a, b[|a|..]);
      TextFrom(b, |a|);
    } else {
      var k: nat :| SmallerAt(a, b, k);
      TextFrom(a, k);
      TextFrom(b, k);
      var i := RuneOrder(a[k], b[k]);
      hide Utf8Text, LessAt;
      LessAfter(Utf8Text(a[..k]), EncodeRune(a[k]), EncodeRune(b[k]), Utf8Text(a[k + 1..]), Utf8Text(b[k + 1..]), i);
      LessPrecedes(Utf8Text(a), Utf8Text(b), |Utf8Text(a[..k])| + i);
    }
  }

  lemma LessPrecedes(x: Bytes, y: Bytes, i: nat)
    requires LessAt(x, y, i)
    ensures BytesPrecede(x, y)
  {
  }

  lemma TextFrom(a: string, k: nat)
    requires k < |a|
    ensures Utf8Text(a) == Utf8Text(a[..k]) + (EncodeRune(a[k]) + Utf8Text(a[k + 1..]))
  {
    hide EncodeRune;
    TextConcat(a[..k], a[k..]);
    assert a == a[..k] + a[k..] && a[k..][1..] == a[k + 1..];
  }

  /** The sorter's order is that of the UTF-8 bytes. */
  lemma KeysOrderedAsBytes(a: string, b: string)
    ensures KeyLeq(a, b) <==> a == b || BytesPrecede(Utf8Text(a), Utf8Text(b))
  {
    hide KeyLeq, Precedes, BytesPrecede, Utf8Text;
    KeyLeqMeans(a, b);
    KeyLeqMeans(b, a);
    KeyTotal(a, b);
    if Precedes(a, b) {
      PrecedesKept(a, b);
    } else if Precedes(b, a) {
      PrecedesKept(b, a);
      BytesPrecedeOneWay(Utf8Text(b), Utf8Text(a));
    }
  }

  // --------------------------------------------------------------- the written text

  lemma {:induction false} MemberNames(fields: map<string, Json>, keys: seq<string>)
    requires forall k | k in keys :: k in fields
    ensures |Members(fields, keys)| == |keys|
    ensures forall i | 0 <= i < |keys| :: Members(fields, keys)[i].name == keys[i]
  {
    if keys != [] {
      MemberNames(fields, keys[1..]);
    }
  }

  /** Reading an object's text member by member meets the names in the order of their UTF-8 bytes. */
  lemma TextInByteOrder(t: Json)
    requires t.Obj?
    ensures CanonicalJson(t) != [] && CanonicalJson(t)[0] == OPEN_OBJ
    ensures var p := ReadFields(CanonicalJson(t)[1..]);
            && p.Parsed? && p.rest == [] && |p.value| == |t.fields|
            && forall i, j | 0 <= i < j < |p.value| :: BytesPrecede(Utf8Text(p.value[i].name), Utf8Text(p.value[j].name))
  {
    hide CanonicalJson, EncodeFields, ReadFields, Utf8Text, BytesPrecede, Precedes, Members;
    var keys := SortedKeys(t.fields.Keys);
    CanonicalIsAsciiEncode(t);
    var body := EncodeFields(t, keys, AsciiOnly);
    assert CanonicalJson(t)[1..] == body && body + [] == body;
    ReadEncodedFields(t, keys, AsciiOnly, []);
    MemberNames(t.fields, keys);
    AsManyKeys(keys, t.fields.Keys);
    forall i, j | 0 <= i < j < |keys| ensures BytesPrecede(Utf8Text(keys[i]), Utf8Text(keys[j])) {
      PrecedesKept(keys[i], keys[j]);
    }
    assert |t.fields| == |t.fields.Keys|;
  }

  lemma {:induction false} AsManyKeys(ks: seq<string>, keys: set<string>)
    requires Ascending(ks) && forall k :: k in ks <==> k in keys
    ensures |ks| == |keys|
    decreases |ks|
  {
    if ks == [] {
      assert keys == {};
    } else {
      assert forall j | 0 < j < |ks| :: ks[j] != ks[0] by { Distinct(ks); }
      assert ks[0] in keys;
      assert forall k :: k in ks[1..] <==> k in keys - {ks[0]};
      AsManyKeys(ks[1..], keys - {ks[0]});
    }
  }

  lemma Distinct(ks: seq<string>)
    requires Ascending(ks)
    ensures forall j | 0 < j < |ks| :: ks[j] != ks[0]
  {
    forall j | 0 < j < |ks| ensures ks[j] != ks[0] {
      assert Precedes(ks[0], ks[j]);
    }
  }
}
