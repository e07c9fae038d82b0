/** The parameters of a PostgreSQL StartupMessage: NUL-terminated strings in pairs. */
module PgParams {
  import opened Utf8
  import opened MySqlAttrs

  const NUL: Byte := 0

  /** The bytes before the first NUL, all of them when there is none. */
  function NulIndex(b: Bytes): (n: nat)
    ensures n <= |b|
    ensures n < |b| ==> b[n] == NUL
    ensures forall i | 0 <= i < n :: b[i] != NUL
  {
    if b == [] || b[0] == NUL then 0 else 1 + NulIndex(b[1..])
  }

  /** The terminated strings of a body, stopping where two NULs meet. */
  function Strings(b: Bytes): seq<Bytes>
    decreases |b|
  {
    var n := NulIndex(b);
    if n == |b| then []
    else [b[..n]] + (if n + 1 < |b| && b[n + 1] == NUL then [] else Strings(b[n + 1..]))
  }

  /** Trailing empty strings are dropped. */
  function Trimmed(parts: seq<Bytes>): seq<Bytes> {
    if parts != [] && parts[|parts| - 1] == [] then Trimmed(parts[..|parts| - 1]) else parts
  }

  /** Strings two by two; an odd last one is ignored. */
  function InPairs(parts: seq<Bytes>): seq<Pair> {
    if |parts| < 2 then [] else [Pair(parts[0], parts[1])] + InPairs(parts[2..])
  }

  // ------------------------------------------------------------------------ parsing

  /** ParsePGStartupParams. */
  method ParsePgStartupParams(body: Bytes) returns (out: map<Bytes, Bytes>)
    ensures out == Table(InPairs(Trimmed(Strings(body))))
  {
    out := map[];
    if |body| == 0 {
      return;
    }
    var parts := SplitAtNuls(body);
    ghost var all := Trimmed(parts);
    while |parts| > 0 && parts[|parts| - 1] == []
      invariant Trimmed(parts) == all
      decreases |parts|
    {
      parts := parts[..|parts| - 1];
    }
    out := Tabulate(parts);
  }

  /** `parts` are the strings that end before position `start`. */
  ghost predicate SplitSoFar(body: Bytes, start: nat, parts: seq<Bytes>)
    requires start <= |body|
  {
    parts + Strings(body[start..]) == Strings(body)
  }

  /** The walk over the body. */
  method SplitAtNuls(body: Bytes) returns (parts: seq<Bytes>)
    ensures parts == Strings(body)
  {
    hide Strings;
    parts := [];
    var start := 0;
    assert SplitSoFar(body, 0, []) by {
      assert body[0..] == body && [] + Strings(body) == Strings(body);
    }
    hide SplitSoFar;
    for i := 0 to |body|
      invariant 0 <= start <= i
      invariant SplitSoFar(body, start, parts)
      invariant forall j | start <= j < i :: body[j] != NUL
    {
      if body[i] == NUL {
        SplitAt(body, start, i, parts);
        parts := parts + [body[start..i]];
        start := i + 1;
        if start < |body| && body[start] == NUL {
          return;
        }
      }
    }
    SplitDone(body, start, parts);
  }

  lemma SplitDone(body: Bytes, start: nat, parts: seq<Bytes>)
    requires start <= |body| && SplitSoFar(body, start, parts)
    requires forall j | start <= j < |body| :: body[j] != NUL
    ensures parts == Strings(body)
  {
    assert Strings(body[start..]) == [];
    assert parts + [] == parts;
  }

  lemma SplitAt(body: Bytes, start: nat, i: nat, parts: seq<Bytes>)
    requires start <= i < |body| && body[i] == NUL && SplitSoFar(body, start, parts)
    requires forall j | start <= j < i :: body[j] != NUL
    ensures if i + 1 < |body| && body[i + 1] == NUL then parts + [body[start..i]] == Strings(body)
            else SplitSoFar(body, i + 1, parts + [body[start..i]])
  {
    var s, rest := body[start..i], body[i + 1..];
    Sliced(body, start, i);
    StringsOf(s, rest);
    hide Strings;
    if rest != [] && rest[0] == NUL {
      Regroup(parts, s, []);
    } else {
      Regroup(parts, s, Strings(rest));
    }
  }

  lemma Sliced(body: Bytes, start: nat, i: nat)
    requires start <= i < |body| && body[i] == NUL
    ensures body[start..] == body[start..i] + ([NUL] + body[i + 1..])
  {
  }

  lemma Regroup(parts: seq<Bytes>, s: Bytes, more: seq<Bytes>)
    ensures parts + ([s] + more) == parts + [s] + more
    ensures parts + ([s] + []) == parts + [s]
  {
  }

  predicate NulFree(s: Bytes) {
    forall i | 0 <= i < |s| :: s[i] != NUL
  }

  lemma FirstString(s: Bytes, rest: Bytes)
    requires NulFree(s)
    ensures NulIndex(s + ([NUL] + rest)) == |s|
    ensures (s + ([NUL] + rest))[..|s|] == s && (s + ([NUL] + rest))[|s| + 1..] == rest
  {
    var b := s + ([NUL] + rest);
    assert b[|s|] == NUL && forall i | 0 <= i < |s| :: b[i] == s[i];
    assert NulIndex(b) == |s|;
  }

  /** A string, its NUL, and what follows: a NUL there ends the walk. */
  lemma StringsOf(s: Bytes, rest: Bytes)
    requires NulFree(s)
    ensures Strings(s + ([NUL] + rest)) == [s] + (if rest != [] && rest[0] == NUL then [] else Strings(rest))
  {
    FirstString(s, rest);
    assert rest != [] ==> (s + ([NUL] + rest))[|s| + 1] == rest[0];
  }

  method Tabulate(parts: seq<Bytes>) returns (out: map<Bytes, Bytes>)
    ensures out == Table(InPairs(parts))
  {
    out := map[];
    ghost var done: seq<Pair> := [];
    var i := 0;
    assert parts[0..] == parts;
    while i + 1 < |parts|
      invariant 0 <= i <= |parts|
      invariant out == Table(done)
      invariant done + InPairs(parts[i..]) == InPairs(parts)
    {
      var k, v := parts[i], parts[i + 1];
      ghost var p := Pair(k, v);
      assert parts[i..][2..] == parts[i + 2..];
      assert done + ([p] + InPairs(parts[i + 2..])) == done + [p] + InPairs(parts[i + 2..]);
      TableLast(done, p);
      done := done + [p];
      if k != [] {
        out := out[k := v];
      }
      i := i + 2;
    }
    assert done + [] == done;
  }

  // ------------------------------------------------------------------------ writing

  /** Parameters a StartupMessage can carry: no NUL inside, no empty name. */
  predicate Sendable(pairs: seq<Pair>) {
    forall i | 0 <= i < |pairs| :: pairs[i].key != [] && NulFree(pairs[i].key) && NulFree(pairs[i].value)
  }

  /** name NUL value NUL ... and a final NUL. */
  function EncodeParams(pairs: seq<Pair>): Bytes {
    if pairs == [] then [NUL]
    else pairs[0].key + ([NUL] + (pairs[0].value + ([NUL] + EncodeParams(pairs[1..]))))
  }

  /** The index of the first empty value, the number of pairs when there is none. */
  function FirstEmptyValue(pairs: seq<Pair>): (n: nat)
    ensures n <= |pairs|
  {
    if pairs == [] || pairs[0].value == [] then 0 else 1 + FirstEmptyValue(pairs[1..])
  }

  function Flat(pairs: seq<Pair>): seq<Bytes> {
    if pairs == [] then [] else [pairs[0].key, pairs[0].value] + Flat(pairs[1..])
  }

  /** What the walk collects: everything up to the first empty value. */
  function Collected(pairs: seq<Pair>): seq<Bytes> {
    if pairs == [] then []
    else if pairs[0].value == [] then [pairs[0].key]
    else [pairs[0].key, pairs[0].value] + Collected(pairs[1..])
  }

  lemma {:induction false} WalkCollects(pairs: seq<Pair>)
    requires pairs != [] && Sendable(pairs)
    ensures Strings(EncodeParams(pairs)) == Collected(pairs)
  {
    hide Strings;
    var p, more := pairs[0], EncodeParams(pairs[1..]);
    var tail := p.value + ([NUL] + more);
    StringsOf(p.key, tail);
    if p.value == [] {
      assert tail[0] == NUL;
    } else {
      assert tail[0] == p.value[0];
      StringsOf(p.value, more);
      if pairs[1..] == [] {
        assert more[0] == NUL;
      } else {
        assert more[0] == pairs[1].key[0];
        WalkCollects(pairs[1..]);
      }
      assert [p.key] + ([p.value] + Collected(pairs[1..])) == [p.key, p.value] + Collected(pairs[1..]);
    }
  }

  lemma {:induction false} CollectedPairs(pairs: seq<Pair>)
    requires Sendable(pairs)
    ensures Trimmed(Collected(pairs)) == Collected(pairs)
    ensures InPairs(Collected(pairs)) == pairs[..FirstEmptyValue(pairs)]
  {
    if pairs != [] && pairs[0].value != [] {
      CollectedPairs(pairs[1..]);
      var c, tail := Collected(pairs), Collected(pairs[1..]);
      assert c[2..] == tail;
      if tail != [] {
        assert c[|c| - 1] == tail[|tail| - 1];
        LastNotEmpty(pairs[1..]);
      }
      var n := FirstEmptyValue(pairs[1..]);
      assert pairs[..n + 1] == [pairs[0]] + pairs[1..][..n];
    }
  }

  lemma {:induction false} LastNotEmpty(pairs: seq<Pair>)
    requires Sendable(pairs) && Collected(pairs) != []
    ensures Collected(pairs)[|Collected(pairs)| - 1] != []
  {
    if pairs[0].value != [] && Collected(pairs[1..]) != [] {
      LastNotEmpty(pairs[1..]);
    }
  }

  lemma NoParams()
    ensures Trimmed(Strings([NUL])) == []
  {
    var empty: Bytes := [];
    assert NulIndex([NUL]) == 0;
    assert [NUL][1..] == empty && Strings(empty) == [];
    assert Strings([NUL]) == [empty];
    assert [empty][..0] == [];
  }

  /** The parser reads exactly the parameters before the first empty value. */
  lemma ParamsRoundTrip(pairs: seq<Pair>)
    requires Sendable(pairs)
    ensures InPairs(Trimmed(Strings(EncodeParams(pairs)))) == pairs[..FirstEmptyValue(pairs)]
  {
    if pairs == [] {
      NoParams();
    } else {
      WalkCollects(pairs);
      CollectedPairs(pairs);
    }
  }

  /** All parameters are read exactly when every value is non-empty. */
  lemma ReadsAllIffNoEmptyValue(pairs: seq<Pair>)
    requires Sendable(pairs)
    ensures InPairs(Trimmed(Strings(EncodeParams(pairs)))) == pairs <==> forall i | 0 <= i < |pairs| :: pairs[i].value != []
  {
    hide Strings, Trimmed, InPairs, EncodeParams;
    ParamsRoundTrip(pairs);
    FirstEmptyIsFirst(pairs);
  }

  lemma {:induction false} FirstEmptyIsFirst(pairs: seq<Pair>)
    ensures FirstEmptyValue(pairs) == |pairs| <==> forall i | 0 <= i < |pairs| :: pairs[i].value != []
  {
    if pairs != [] {
      FirstEmptyIsFirst(pairs[1..]);
      assert (forall i | 0 <= i < |pairs| :: pairs[i].value != [])
        <==> pairs[0].value != [] && forall i | 0 <= i < |pairs[1..]| :: pairs[1..][i].value != [] by {
        assert forall i | 0 < i < |pairs| :: pairs[i] == pairs[1..][i - 1];
      }
    }
  }

  // ------------------------------------------------------------- the returned map

  /** No later pair has the key of pair `i`. */
  predicate IsLast(pairs: seq<Pair>, i: nat)
    requires i < |pairs|
  {
    forall j | i < j < |pairs| :: pairs[j].key != pairs[i].key
  }

  /** Every parameter after the first `n` whose value counts is also the one that counts among the first `n`. */
  ghost predicate RestRepeats(pairs: seq<Pair>, n: nat)
    requires n <= |pairs|
  {
    forall i | n <= i < |pairs| && IsLast(pairs, i) :: exists j :: 0 <= j < n && IsLast(pairs[..n], j) && pairs[j] == pairs[i]
  }

  lemma LastCounts(pairs: seq<Pair>, i: nat)
    requires i < |pairs| && IsLast(pairs, i) && pairs[i].key != []
    ensures pairs[i].key in Table(pairs) && Table(pairs)[pairs[i].key] == pairs[i].value
  {
    hide Table;
    TableHoldsLast(pairs, pairs[i].key);
    assert LastWith(pairs, i, pairs[i].key);
  }

  /** A key of the table has a pair that counts. */
  lemma LastOf(pairs: seq<Pair>, key: Bytes) returns (i: nat)
    requires key in Table(pairs)
    ensures i < |pairs| && IsLast(pairs, i) && pairs[i] == Pair(key, Table(pairs)[key])
  {
    hide Table;
    TableHoldsLast(pairs, key);
    i :| LastWith(pairs, i, key);
  }

  lemma PrefixTableThenRepeats(pairs: seq<Pair>, n: nat)
    requires Sendable(pairs) && n <= |pairs| && Table(pairs[..n]) == Table(pairs)
    ensures RestRepeats(pairs, n)
  {
    hide Table;
    forall i | n <= i < |pairs| && IsLast(pairs, i)
      ensures exists j :: 0 <= j < n && IsLast(pairs[..n], j) && pairs[j] == pairs[i]
    {
      LastCounts(pairs, i);
      var j := LastOf(pairs[..n], pairs[i].key);
      assert pairs[..n][j] == pairs[j];
    }
  }

  lemma RepeatsThenSameEntry(pairs: seq<Pair>, n: nat, key: Bytes)
    requires Sendable(pairs) && n <= |pairs| && RestRepeats(pairs, n) && key in Table(pairs)
    ensures key in Table(pairs[..n]) && Table(pairs[..n])[key] == Table(pairs)[key]
  {
    hide Table;
    var i := LastOf(pairs, key);
    if i < n {
      assert pairs[..n][i] == pairs[i] && IsLast(pairs[..n], i);
      LastCounts(pairs[..n], i);
    } else {
      var j :| 0 <= j < n && IsLast(pairs[..n], j) && pairs[j] == pairs[i];
      assert pairs[..n][j] == pairs[j];
      LastCounts(pairs[..n], j);
    }
  }

  lemma LastExists(pairs: seq<Pair>, i: nat)
    requires i < |pairs|
    ensures exists k: nat :: LastWith(pairs, k, pairs[i].key)
    decreases |pairs| - i
  {
    if !LastWith(pairs, i, pairs[i].key) {
      var j :| i < j < |pairs| && pairs[j].key == pairs[i].key;
      LastExists(pairs, j);
    }
  }

  lemma PrefixKeys(pairs: seq<Pair>, n: nat)
    requires Sendable(pairs) && n <= |pairs|
    ensures forall key | key in Table(pairs[..n]) :: key in Table(pairs)
  {
    hide Table;
    forall key | key in Table(pairs[..n]) ensures key in Table(pairs) {
      var i := LastOf(pairs[..n], key);
      assert pairs[i].key == key && key != [];
      TableHoldsLast(pairs, key);
      LastExists(pairs, i);
    }
  }

  /**
   The returned map is that of all parameters sent exactly when every parameter
   from the first empty value on only repeats what counts before it.
   */
  lemma MapHoldsAllIff(pairs: seq<Pair>)
    requires Sendable(pairs)
    ensures Table(InPairs(Trimmed(Strings(EncodeParams(pairs))))) == Table(pairs)
       <==> RestRepeats(pairs, FirstEmptyValue(pairs))
  {
    hide Strings, Trimmed, InPairs, EncodeParams, Table, RestRepeats, FirstEmptyValue;
    ParamsRoundTrip(pairs);
    var n := FirstEmptyValue(pairs);
    if Table(pairs[..n]) == Table(pairs) {
      PrefixTableThenRepeats(pairs, n);
    }
    if RestRepeats(pairs, n) {
      PrefixKeys(pairs, n);
      forall key | key in Table(pairs) ensures key in Table(pairs[..n]) && Table(pairs[..n])[key] == Table(pairs)[key] {
        RepeatsThenSameEntry(pairs, n, key);
      }
      assert Table(pairs[..n]) == Table(pairs);
    }
  }

  /** When no name is sent twice, the map holds all parameters exactly when no value is empty. */
  lemma DistinctNamesIff(pairs: seq<Pair>)
    requires Sendable(pairs) && forall i, j | 0 <= i < j < |pairs| :: pairs[i].key != pairs[j].key
    ensures Table(InPairs(Trimmed(Strings(EncodeParams(pairs))))) == Table(pairs)
       <==> forall i | 0 <= i < |pairs| :: pairs[i].value != []
  {
    hide Strings, Trimmed, InPairs, EncodeParams, Table, FirstEmptyValue;
    MapHoldsAllIff(pairs);
    FirstEmptyIsFirst(pairs);
    var n := FirstEmptyValue(pairs);
    if n < |pairs| {
      assert IsLast(pairs, n);
      assert !RestRepeats(pairs, n);
    }
  }

  // ------------------------------------------------------------------ malformed bodies

  /** A string after the last NUL is not read. */
  lemma {:induction false} TailIgnored(b: Bytes, tail: Bytes)
    requires NulFree(tail) && (b == [] || b[|b| - 1] == NUL)
    ensures Strings(b + tail) == Strings(b)
    decreases |b|
  {
    if b == [] {
      assert b + tail == tail;
      NoNul(tail);
      NoNul([]);
    } else {
      var n := NulIndex(b);
      assert n < |b|;
      var s, rest := b[..n], b[n + 1..];
      assert b == s + ([NUL] + rest);
      assert b + tail == s + ([NUL] + (rest + tail));
      StringsOf(s, rest);
      StringsOf(s, rest + tail);
      hide Strings;
      if rest == [] {
        TailIgnored([], tail);
        assert rest + tail == [] + tail;
      } else {
        assert rest[|rest| - 1] == b[|b| - 1];
        assert (rest + tail)[0] == rest[0];
        TailIgnored(rest, tail);
      }
    }
  }

  lemma NoNul(s: Bytes)
    requires NulFree(s)
    ensures Strings(s) == []
  {
    assert NulIndex(s) == |s|;
  }

  /** A name without a value is not read. */
  lemma {:induction false} OddNameIgnored(parts: seq<Bytes>, name: Bytes)
    requires |parts| % 2 == 0
    ensures InPairs(parts + [name]) == InPairs(parts)
  {
    if parts != [] {
      assert (parts + [name])[2..] == parts[2..] + [name];
      OddNameIgnored(parts[2..], name);
    }
  }
}
