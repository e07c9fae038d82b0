/**
 JSON values as encoding/json decodes them with UseNumber: a number keeps its
 literal text, an object is a finite map.
 */
module Json {

  predicate IsNumberChar(c: char) {
    '0' <= c <= '9' || c == '-' || c == '+' || c == '.' || c == 'e' || c == 'E'
  }

  type Number = s: string | |s| > 0 && forall i | 0 <= i < |s| :: IsNumberChar(s[i])
    witness "0"

  datatype Json =
    | Null
    | Bool(b: bool)
    | Num(text: Number)
    | Str(s: string)
    | Arr(elems: seq<Json>)
    | Obj(fields: map<string, Json>)

  // ---------------------------------------------------------------- key order

  /** Lexicographic order by code point, which is Go's order on the UTF-8 bytes of map keys. */
  predicate KeyLeq(a: string, b: string) {
    a == "" || (b != "" && (a[0] < b[0] || (a[0] == b[0] && KeyLeq(a[1..], b[1..]))))
  }

  lemma KeyTotal(a: string, b: string)
    ensures KeyLeq(a, b) || KeyLeq(b, a)
  {
  }

  lemma KeyAntisymmetric(a: string, b: string)
    requires KeyLeq(a, b) && KeyLeq(b, a)
    ensures a == b
  {
    if a != "" {
      KeyAntisymmetric(a[1..], b[1..]);
      assert a == [a[0]] + a[1..] && b == [b[0]] + b[1..];
    }
  }

  lemma KeyTransitive(a: string, b: string, c: string)
    requires KeyLeq(a, b) && KeyLeq(b, c)
    ensures KeyLeq(a, c)
  {
  }

  predicate IsLeastKey(k: string, keys: set<string>) {
    k in keys && forall x | x in keys :: KeyLeq(k, x)
  }

  lemma LeastKeyExists(keys: set<string>) returns (k: string)
    requires keys != {}
    ensures IsLeastKey(k, keys)
  {
    var x :| x in keys;
    var rest := keys - {x};
    KeyTotal(x, x);
    k := x;
    if rest != {} {
      var y := LeastKeyExists(rest);
      KeyTotal(x, y);
      k := if KeyLeq(x, y) then x else y;
      forall z | z in rest ensures KeyLeq(k, z) {
        if k == x {
          KeyTransitive(x, y, z);
        }
      }
    }
    assert forall z | z in keys :: z == x || z in rest;
  }

  lemma LeastKeyUnique(keys: set<string>)
    ensures forall a, b | IsLeastKey(a, keys) && IsLeastKey(b, keys) :: a == b
  {
    forall a, b | IsLeastKey(a, keys) && IsLeastKey(b, keys) ensures a == b {
      KeyAntisymmetric(a, b);
    }
  }

  /** `a` and `b` first differ at `i`, where `a` has the smaller character. */
  predicate SmallerAt(a: string, b: string, i: nat) {
    i < |a| && i < |b| && a[..i] == b[..i] && a[i] < b[i]
  }

  /** `a` is a proper prefix of `b`, or has the smaller character where they first differ. */
  ghost predicate Precedes(a: string, b: string) {
    a < b || exists i: nat :: SmallerAt(a, b, i)
  }

  lemma {:induction false} KeyLeqMeans(a: string, b: string)
    ensures KeyLeq(a, b) <==> a == b || Precedes(a, b)
  {
    if a == "" {
      assert b != "" ==> a < b;
    } else if b == "" {
      assert forall i: nat :: !SmallerAt(a, b, i);
    } else if a[0] == b[0] {
      KeyLeqMeans(a[1..], b[1..]);
      hide SmallerAt;
      SameHead(a, b);
    } else {
      assert SmallerAt(a, b, 0) <==> a[0] < b[0];
      forall i: nat | SmallerAt(a, b, i) ensures i == 0 {
      }
    }
  }

  lemma SameHead(a: string, b: string)
    requires a != "" && b != "" && a[0] == b[0]
    ensures a == b <==> a[1..] == b[1..]
    ensures Precedes(a, b) <==> Precedes(a[1..], b[1..])
  {
    var x, y := a[1..], b[1..];
    assert a == [a[0]] + x && b == [b[0]] + y;
    forall i: nat ensures SmallerAt(a, b, i + 1) <==> SmallerAt(x, y, i) {
      ShiftedAt(a, b, i);
    }
    hide SmallerAt;
    if i: nat :| SmallerAt(a, b, i) {
      NotAtZero(a, b, i);
      assert SmallerAt(x, y, i - 1);
    }
    if i: nat :| SmallerAt(x, y, i) {
      assert SmallerAt(a, b, i + 1);
    }
  }

  lemma NotAtZero(a: string, b: string, i: nat)
    requires SmallerAt(a, b, i) && a[0] == b[0]
    ensures i > 0
  {
  }

  lemma ShiftedAt(a: string, b: string, i: nat)
    requires a != "" && b != "" && a[0] == b[0]
    ensures SmallerAt(a, b, i + 1) <==> SmallerAt(a[1..], b[1..], i)
  {
    if i < |a[1..]| && i < |b[1..]| {
      assert a[..i + 1] == [a[0]] + a[1..][..i] && b[..i + 1] == [b[0]] + b[1..][..i];
    }
  }

  ghost predicate Ascending(ks: seq<string>) {
    forall i, j | 0 <= i < j < |ks| :: Precedes(ks[i], ks[j])
  }

  function SortedKeys(keys: set<string>): (ks: seq<string>)
    ensures forall k :: k in ks <==> k in keys
    ensures Ascending(ks)
  {
    if keys == {} then
      []
    else
      HasLeastKey(keys);
      var k :| k in keys && IsLeastKey(k, keys);
      var rest := SortedKeys(keys - {k});
      LeastFirst(k, keys, rest);
      [k] + rest
  }

  lemma LeastFirst(k: string, keys: set<string>, rest: seq<string>)
    requires IsLeastKey(k, keys) && Ascending(rest) && forall x :: x in rest <==> x in keys - {k}
    ensures Ascending([k] + rest)
  {
    hide KeyLeq, Precedes;
    forall j | 0 <= j < |rest| ensures Precedes(k, rest[j]) {
      assert rest[j] in rest;
      KeyLeqMeans(k, rest[j]);
    }
  }

  lemma HasLeastKey(keys: set<string>)
    requires keys != {}
    ensures exists k :: k in keys && IsLeastKey(k, keys)
    ensures forall a, b | IsLeastKey(a, keys) && IsLeastKey(b, keys) :: a == b
  {
    var k := LeastKeyExists(keys);
    LeastKeyUnique(keys);
  }
}
