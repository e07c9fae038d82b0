/** The connection attributes of a MySQL handshake: length-encoded pairs. */
module MySqlAttrs {
  import opened Utf8

  // --------------------------------------------------------- little-endian numbers

  function Pow256(k: nat): (p: nat)
    ensures p >= 1
  {
    if k == 0 then 1 else 0x100 * Pow256(k - 1)
  }

  function LeBytes(n: nat, k: nat): (b: Bytes)
    ensures |b| == k
  {
    if k == 0 then [] else [n % 0x100] + LeBytes(n / 0x100, k - 1)
  }

  function LeValue(b: Bytes): nat {
    if b == [] then 0 else (b[0] as int) + 0x100 * LeValue(b[1..])
  }

  lemma {:induction false} LeRoundTrip(n: nat, k: nat)
    requires n < Pow256(k)
    ensures LeValue(LeBytes(n, k)) == n
  {
    if k > 0 {
      LeRoundTrip(n / 0x100, k - 1);
      assert LeBytes(n, k)[1..] == LeBytes(n / 0x100, k - 1);
    }
  }

  // ------------------------------------------------------------------------ reading

  datatype Read<+T> = Read(value: T, consumed: nat) | NoRead

  /** mysqlReadLenEncInt: the first byte selects the width; 0xFB and 0xFF are refused. */
  function ReadLenEncInt(b: Bytes): (r: Read<nat>)
    ensures r.Read? ==> 1 <= r.consumed <= |b|
  {
    if |b| == 0 then NoRead
    else if b[0] < 0xFB then Read(b[0], 1)
    else if b[0] == 0xFC then if |b| < 3 then NoRead else Read(LeValue(b[1..3]), 3)
    else if b[0] == 0xFD then if |b| < 4 then NoRead else Read(LeValue(b[1..4]), 4)
    else if b[0] == 0xFE then if |b| < 9 then NoRead else Read(LeValue(b[1..9]), 9)
    else NoRead
  }

  function ReadLenEncString(b: Bytes): (r: Read<Bytes>)
    ensures r.Read? ==> 1 <= r.consumed <= |b|
  {
    var n := ReadLenEncInt(b);
    if n.NoRead? || |b| - n.consumed < n.value then NoRead
    else Read(b[n.consumed..n.consumed + n.value], n.consumed + n.value)
  }

  datatype Pair = Pair(key: Bytes, value: Bytes)

  /** A key and the value after it. */
  function ReadPair(b: Bytes): (r: Read<Pair>)
    ensures r.Read? ==> 1 <= r.consumed <= |b|
  {
    var k := ReadLenEncString(b);
    if k.NoRead? then NoRead
    else
      var v := ReadLenEncString(b[k.consumed..]);
      if v.NoRead? then NoRead else Read(Pair(k.value, v.value), k.consumed + v.consumed)
  }

  /** The pairs read before the block ends or a read fails. */
  function ReadPairs(b: Bytes): seq<Pair>
    decreases |b|
  {
    var p := ReadPair(b);
    if p.NoRead? then [] else [p.value] + ReadPairs(b[p.consumed..])
  }

  /** The attribute map: empty keys are ignored and the last duplicate wins. */
  function Table(pairs: seq<Pair>): map<Bytes, Bytes> {
    if pairs == [] then map[]
    else
      var p := pairs[|pairs| - 1];
      var before := Table(pairs[..|pairs| - 1]);
      if p.key == [] then before else before[p.key := p.value]
  }

  /** `done` are the pairs read before position `i`. */
  ghost predicate ReadSoFar(block: Bytes, i: nat, done: seq<Pair>)
    requires i <= |block|
  {
    done + ReadPairs(block[i..]) == ReadPairs(block)
  }

  lemma ReadMore(block: Bytes, i: nat, done: seq<Pair>)
    requires i <= |block| && ReadSoFar(block, i, done)
    ensures ReadPair(block[i..]).NoRead? ==> done == ReadPairs(block)
    ensures ReadPair(block[i..]).Read? ==> ReadSoFar(block, i + ReadPair(block[i..]).consumed, done + [ReadPair(block[i..]).value])
  {
    hide ReadPair;
    var p := ReadPair(block[i..]);
    if p.NoRead? {
      assert done + [] == done;
    } else {
      assert block[i..][p.consumed..] == block[i + p.consumed..];
      assert done + ([p.value] + ReadPairs(block[i + p.consumed..])) == done + [p.value] + ReadPairs(block[i + p.consumed..]);
    }
  }

  lemma TableLast(pairs: seq<Pair>, p: Pair)
    ensures Table(pairs + [p]) == if p.key == [] then Table(pairs) else Table(pairs)[p.key := p.value]
  {
    assert (pairs + [p])[..|pairs|] == pairs;
  }

  /** The index loop of ParseMySQLClientAttrs. */
  method ParseMySqlClientAttrs(block: Bytes) returns (out: map<Bytes, Bytes>)
    ensures out == Table(ReadPairs(block))
  {
    hide Table, ReadPairs, ReadLenEncString;
    out := map[];
    ghost var done: seq<Pair> := [];
    var i := 0;
    NothingRead(block);
    while i < |block|
      invariant 0 <= i <= |block|
      invariant out == Table(done)
      invariant ReadSoFar(block, i, done)
    {
      ReadMore(block, i, done);
      ghost var p := ReadPair(block[i..]);
      var k := ReadLenEncString(block[i..]);
      if k.NoRead? {
        return;
      }
      assert block[i..][k.consumed..] == block[i + k.consumed..];
      i := i + k.consumed;
      var v := ReadLenEncString(block[i..]);
      if v.NoRead? {
        return;
      }
      i := i + v.consumed;
      TableLast(done, p.value);
      done := done + [p.value];
      if k.value != [] {
        out := out[k.value := v.value];
      }
    }
    ReadMore(block, |block|, done);
  }

  lemma NothingRead(block: Bytes)
    ensures ReadSoFar(block, 0, []) && Table([]) == map[]
  {
    assert block[0..] == block;
  }

  // ------------------------------------------------------------------------ writing

  const MAX_LENGTH := 0x1_0000_0000_0000_0000

  /** Protocol::LengthEncodedInteger. */
  function EncodeInt(n: nat): (b: Bytes)
    requires n < MAX_LENGTH
    ensures |b| >= 1
  {
    if n < 0xFB then [n]
    else if n < 0x1_0000 then [0xFC] + LeBytes(n, 2)
    else if n < 0x100_0000 then [0xFD] + LeBytes(n, 3)
    else [0xFE] + LeBytes(n, 8)
  }

  function EncodeString(s: Bytes): Bytes
    requires |s| < MAX_LENGTH
  {
    EncodeInt(|s|) + s
  }

  predicate Encodable(pairs: seq<Pair>) {
    forall i | 0 <= i < |pairs| :: |pairs[i].key| < MAX_LENGTH && |pairs[i].value| < MAX_LENGTH
  }

  function EncodePair(p: Pair): Bytes
    requires |p.key| < MAX_LENGTH && |p.value| < MAX_LENGTH
  {
    EncodeString(p.key) + EncodeString(p.value)
  }

  function EncodePairs(pairs: seq<Pair>): Bytes
    requires Encodable(pairs)
  {
    if pairs == [] then [] else EncodePair(pairs[0]) + EncodePairs(pairs[1..])
  }

  // -------------------------------------------------------------------- round trips

  lemma Powers()
    ensures Pow256(2) == 0x1_0000 && Pow256(3) == 0x100_0000 && Pow256(8) == MAX_LENGTH
  {
    assert Pow256(1) == 0x100;
    assert Pow256(2) == 0x1_0000;
    assert Pow256(3) == 0x100_0000;
    assert Pow256(4) == 0x1_0000_0000;
    assert Pow256(5) == 0x100_0000_0000;
    assert Pow256(6) == 0x1_0000_0000_0000;
    assert Pow256(7) == 0x100_0000_0000_0000;
    assert Pow256(8) == 0x100 * Pow256(7);
  }

  lemma ReadWide(tag: Byte, n: nat, k: nat, rest: Bytes)
    requires (tag == 0xFC && k == 2) || (tag == 0xFD && k == 3) || (tag == 0xFE && k == 8)
    requires n < Pow256(k)
    ensures ReadLenEncInt([tag] + LeBytes(n, k) + rest) == Read(n, k + 1)
  {
    hide LeBytes, LeValue, Pow256;
    var b := [tag] + LeBytes(n, k) + rest;
    assert b[0] == tag && b[1..k + 1] == LeBytes(n, k);
    LeRoundTrip(n, k);
  }

  lemma ReadInt(n: nat, rest: Bytes)
    requires n < MAX_LENGTH
    ensures ReadLenEncInt(EncodeInt(n) + rest) == Read(n, |EncodeInt(n)|)
  {
    Powers();
    hide LeBytes, Pow256;
    if n < 0xFB {
      assert (EncodeInt(n) + rest)[0] == n;
    } else if n < 0x1_0000 {
      ReadWide(0xFC, n, 2, rest);
    } else if n < 0x100_0000 {
      ReadWide(0xFD, n, 3, rest);
    } else {
      ReadWide(0xFE, n, 8, rest);
    }
  }

  lemma ReadString(s: Bytes, rest: Bytes)
    requires |s| < MAX_LENGTH
    ensures ReadLenEncString(EncodeString(s) + rest) == Read(s, |EncodeString(s)|)
    ensures (EncodeString(s) + rest)[|EncodeString(s)|..] == rest
  {
    hide EncodeInt, ReadLenEncInt;
    var e := EncodeInt(|s|);
    assert e + s + rest == e + (s + rest);
    ReadInt(|s|, s + rest);
    assert (e + s + rest)[|e|..|e| + |s|] == s;
  }

  lemma ReadEncodedPair(p: Pair, rest: Bytes)
    requires |p.key| < MAX_LENGTH && |p.value| < MAX_LENGTH
    ensures ReadPair(EncodePair(p) + rest) == Read(p, |EncodePair(p)|)
    ensures (EncodePair(p) + rest)[|EncodePair(p)|..] == rest
  {
    hide EncodeString, ReadLenEncString;
    var k, v := EncodeString(p.key), EncodeString(p.value);
    assert k + v + rest == k + (v + rest);
    ReadString(p.key, v + rest);
    ReadString(p.value, rest);
  }

  lemma {:induction false} PairsRoundTrip(pairs: seq<Pair>)
    requires Encodable(pairs)
    ensures ReadPairs(EncodePairs(pairs)) == pairs
  {
    if pairs != [] {
      hide EncodePair, ReadPair;
      ReadEncodedPair(pairs[0], EncodePairs(pairs[1..]));
      PairsRoundTrip(pairs[1..]);
    }
  }

  // --------------------------------------------------------------------- truncation

  /** A string cut short does not read. */
  lemma CutIntFails(n: nat, t: nat)
    requires n < MAX_LENGTH && t < |EncodeInt(n)|
    ensures ReadLenEncInt(EncodeInt(n)[..t]).NoRead?
  {
    hide LeBytes;
    if t > 0 {
      assert EncodeInt(n)[..t][0] == EncodeInt(n)[0];
    }
  }

  lemma CutStringFails(s: Bytes, t: nat)
    requires |s| < MAX_LENGTH && t < |EncodeString(s)|
    ensures ReadLenEncString(EncodeString(s)[..t]).NoRead?
  {
    hide EncodeInt, ReadLenEncInt;
    var e := EncodeInt(|s|);
    if t < |e| {
      assert (e + s)[..t] == e[..t];
      CutIntFails(|s|, t);
    } else {
      assert (e + s)[..t] == e + s[..t - |e|];
      ReadInt(|s|, s[..t - |e|]);
    }
  }

  lemma CutPairFails(p: Pair, t: nat)
    requires |p.key| < MAX_LENGTH && |p.value| < MAX_LENGTH && t < |EncodePair(p)|
    ensures ReadPair(EncodePair(p)[..t]).NoRead?
  {
    hide EncodeString, ReadLenEncString;
    var k, v := EncodeString(p.key), EncodeString(p.value);
    if t < |k| {
      assert (k + v)[..t] == k[..t];
      CutStringFails(p.key, t);
    } else {
      assert (k + v)[..t] == k + v[..t - |k|];
      ReadString(p.key, v[..t - |k|]);
      CutStringFails(p.value, t - |k|);
    }
  }

  /** Cutting a block anywhere leaves a prefix of its pairs. */
  lemma {:induction false} CutBlock(pairs: seq<Pair>, t: nat) returns (n: nat)
    requires Encodable(pairs) && t <= |EncodePairs(pairs)|
    ensures n <= |pairs| && ReadPairs(EncodePairs(pairs)[..t]) == pairs[..n]
  {
    hide EncodePair, ReadPair;
    n := 0;
    if pairs == [] {
      NothingToRead();
    } else {
      var p, tail := EncodePair(pairs[0]), EncodePairs(pairs[1..]);
      if t < |p| {
        assert (p + tail)[..t] == p[..t];
        CutPairFails(pairs[0], t);
      } else {
        var u := t - |p|;
        assert (p + tail)[..t] == p + tail[..u];
        ReadEncodedPair(pairs[0], tail[..u]);
        var m := CutBlock(pairs[1..], u);
        n := m + 1;
        assert pairs[..n] == [pairs[0]] + pairs[1..][..m];
      }
    }
  }

  lemma NothingToRead()
    ensures ReadPairs([]) == []
  {
  }

  // ---------------------------------------------------------------------- the table

  /** Pair `i` is the last one with its key. */
  predicate LastWith(pairs: seq<Pair>, i: nat, key: Bytes) {
    i < |pairs| && pairs[i].key == key && forall j | i < j < |pairs| :: pairs[j].key != key
  }

  /** What the table holds: for each non-empty key its last value, and nothing else. */
  lemma {:induction false} TableHoldsLast(pairs: seq<Pair>, key: Bytes)
    ensures key in Table(pairs) <==> key != [] && exists i: nat :: LastWith(pairs, i, key)
    ensures forall i: nat | key in Table(pairs) && LastWith(pairs, i, key) :: pairs[i].value == Table(pairs)[key]
  {
    if pairs != [] {
      var n := |pairs| - 1;
      TableHoldsLast(pairs[..n], key);
      if pairs[n].key == key {
        assert LastWith(pairs, n, key);
      } else {
        forall i: nat ensures LastWith(pairs, i, key) <==> LastWith(pairs[..n], i, key) {
          LastWithPrefix(pairs, i, key);
        }
      }
    }
  }

  lemma LastWithPrefix(pairs: seq<Pair>, i: nat, key: Bytes)
    requires pairs != [] && pairs[|pairs| - 1].key != key
    ensures LastWith(pairs, i, key) <==> LastWith(pairs[..|pairs| - 1], i, key)
  {
  }

  // ----------------------------------------------------------------- what is refused

  /** An integer is read exactly when its first byte names a width and that many bytes are there. */
  lemma ReadIntIff(b: Bytes)
    ensures ReadLenEncInt(b).Read?
       <==> b != [] && (b[0] < 0xFB || (b[0] == 0xFC && |b| >= 3) || (b[0] == 0xFD && |b| >= 4) || (b[0] == 0xFE && |b| >= 9))
    ensures b != [] && (b[0] == 0xFB || b[0] == 0xFF) ==> ReadLenEncInt(b).NoRead? && ReadPairs(b) == []
  {
  }
}
