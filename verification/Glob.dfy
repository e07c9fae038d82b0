/** The greedy left-to-right glob matcher of the route conditions. */
module Glob {

  const STAR := '*'

  /** What a pattern means: `*` stands for any text, every other character for itself. */
  ghost predicate Matches(pattern: string, value: string)
    decreases |pattern|
  {
    if pattern == "" then value == ""
    else if pattern[0] == STAR then exists k :: 0 <= k <= |value| && Matches(pattern[1..], value[k..])
    else value != "" && value[0] == pattern[0] && Matches(pattern[1..], value[1..])
  }

  predicate IsLiteral(s: string) {
    STAR !in s
  }

  /** `s` occurs in `value` at position `k`. */
  predicate At(value: string, k: nat, s: string) {
    k + |s| <= |value| && value[k..k + |s|] == s
  }

  /** strings.Split(pattern, "*"). */
  function Split(pattern: string): (parts: seq<string>)
    ensures |parts| >= 1
    ensures forall i | 0 <= i < |parts| :: IsLiteral(parts[i])
    ensures Join(parts) == pattern
    ensures |parts| == 1 <==> IsLiteral(pattern)
  {
    if pattern == "" then [""]
    else
      var rest := Split(pattern[1..]);
      if pattern[0] == STAR then
        assert ([""] + rest)[1..] == rest;
        [""] + rest
      else
        assert [pattern[0]] + pattern[1..] == pattern;
        assert |rest| > 1 ==> [pattern[0]] + (rest[0] + [STAR] + Join(rest[1..])) == [pattern[0]] + rest[0] + [STAR] + Join(rest[1..]);
        [[pattern[0]] + rest[0]] + rest[1..]
  }

  function Join(parts: seq<string>): string
    requires |parts| >= 1
  {
    if |parts| == 1 then parts[0] else parts[0] + [STAR] + Join(parts[1..])
  }

  /** strings.Index from `pos`: the leftmost occurrence, none as |value| + 1. */
  function IndexFrom(value: string, pos: nat, s: string): (k: nat)
    requires pos <= |value|
    ensures k <= |value| ==> pos <= k && At(value, k, s)
    ensures forall j | pos <= j < k && j <= |value| :: !At(value, j, s)
    decreases |value| - pos
  {
    if At(value, pos, s) then pos
    else if pos == |value| then |value| + 1
    else IndexFrom(value, pos + 1, s)
  }

  /** The middle pieces occur in order from `pos` on, apart, and the last piece ends the value. */
  ghost predicate Floats(middle: seq<string>, last: string, value: string, pos: nat)
    decreases |middle|
  {
    if middle == [] then |last| <= |value| && pos <= |value| - |last| && At(value, |value| - |last|, last)
    else exists k: nat :: pos <= k && At(value, k, middle[0]) && Floats(middle[1..], last, value, k + |middle[0]|)
  }

  // ------------------------------------------------------------------- meaning

  lemma {:induction false} LiteralPrefix(s: string, rest: string, value: string)
    requires IsLiteral(s)
    ensures Matches(s + rest, value) <==> At(value, 0, s) && Matches(rest, value[|s|..])
    decreases |s|
  {
    if s == "" {
      assert s + rest == rest && value[0..] == value;
    } else {
      assert s[0] in s && (s + rest)[0] == s[0] && (s + rest)[1..] == s[1..] + rest;
      if value != "" && value[0] == s[0] {
        assert IsLiteral(s[1..]) by {
          assert forall c | c in s[1..] :: c in s;
        }
        LiteralPrefix(s[1..], rest, value[1..]);
        assert |value| >= |s| ==> value[1..][|s[1..]|..] == value[|s|..];
        assert |value| >= |s| ==> value[..|s|] == [value[0]] + value[1..][..|s| - 1];
        assert s == [s[0]] + s[1..];
      } else if |value| >= |s| {
        assert value[..|s|][0] == value[0];
      }
    }
  }

  lemma LiteralMatch(s: string, value: string)
    requires IsLiteral(s)
    ensures Matches(s, value) <==> value == s
  {
    LiteralPrefix(s, "", value);
    assert s + "" == s;
    if At(value, 0, s) && value[|s|..] == "" {
      assert value == value[..|s|] + value[|s|..];
    }
  }

  lemma StarMatch(rest: string, value: string)
    ensures Matches([STAR] + rest, value) <==> exists k :: 0 <= k <= |value| && Matches(rest, value[k..])
  {
    assert ([STAR] + rest)[1..] == rest;
  }

  /** The same, counting positions in the whole value. */
  lemma StarMatchFrom(rest: string, value: string, pos: nat)
    requires pos <= |value|
    ensures Matches([STAR] + rest, value[pos..]) <==> exists k :: pos <= k <= |value| && Matches(rest, value[k..])
  {
    StarMatch(rest, value[pos..]);
    forall k | 0 <= k <= |value| - pos ensures value[pos..][k..] == value[pos + k..] {
    }
    if Matches([STAR] + rest, value[pos..]) {
      var k :| 0 <= k <= |value[pos..]| && Matches(rest, value[pos..][k..]);
      assert Matches(rest, value[pos + k..]);
    }
    if k :| pos <= k <= |value| && Matches(rest, value[k..]) {
      assert value[pos..][k - pos..] == value[k..];
      assert Matches(rest, value[pos..][k - pos..]);
    }
  }

  lemma LiteralPrefixFrom(s: string, rest: string, value: string, k: nat)
    requires IsLiteral(s) && k <= |value|
    ensures Matches(s + rest, value[k..]) <==> At(value, k, s) && Matches(rest, value[k + |s|..])
  {
    LiteralPrefix(s, rest, value[k..]);
    if k + |s| <= |value| {
      assert value[k..][..|s|] == value[k..k + |s|];
      assert value[k..][|s|..] == value[k + |s|..];
    }
  }

  lemma JoinLast(middle: seq<string>, last: string)
    ensures Join(middle + [last]) == if middle == [] then last else middle[0] + ([STAR] + Join(middle[1..] + [last]))
  {
    if middle == [] {
      assert middle + [last] == [last];
    } else {
      assert (middle + [last])[1..] == middle[1..] + [last];
    }
  }

  /** After a star the pieces float: this is the meaning of the rest of the pattern. */
  lemma {:induction false} FloatsMeaning(middle: seq<string>, last: string, value: string, pos: nat)
    requires pos <= |value| && IsLiteral(last) && forall i | 0 <= i < |middle| :: IsLiteral(middle[i])
    ensures Matches([STAR] + Join(middle + [last]), value[pos..]) <==> Floats(middle, last, value, pos)
    decreases |middle|
  {
    hide Matches, Join;
    var rest := Join(middle + [last]);
    StarMatchFrom(rest, value, pos);
    JoinLast(middle, last);
    if middle == [] {
      forall k | pos <= k <= |value| ensures Matches(rest, value[k..]) <==> k == |value| - |last| && At(value, k, last) {
        LiteralMatch(last, value[k..]);
      }
    } else {
      var tail := [STAR] + Join(middle[1..] + [last]);
      forall k: nat | pos <= k <= |value|
        ensures Matches(rest, value[k..]) <==> At(value, k, middle[0]) && Floats(middle[1..], last, value, k + |middle[0]|)
      {
        LiteralPrefixFrom(middle[0], tail, value, k);
        if At(value, k, middle[0]) {
          FloatsMeaning(middle[1..], last, value, k + |middle[0]|);
        }
      }
    }
  }

  // -------------------------------------------------------------------- greed

  /** More room never hurts. */
  lemma {:induction false} FloatsEarlier(middle: seq<string>, last: string, value: string, pos: nat, earlier: nat)
    requires earlier <= pos && Floats(middle, last, value, pos)
    ensures Floats(middle, last, value, earlier)
  {
  }

  /** Taking the leftmost occurrence of the next piece never loses a match. */
  lemma LeftmostIsBest(middle: seq<string>, last: string, value: string, pos: nat)
    requires middle != [] && pos <= |value|
    ensures var k := IndexFrom(value, pos, middle[0]);
            Floats(middle, last, value, pos) <==> k <= |value| && Floats(middle[1..], last, value, k + |middle[0]|)
  {
    var k := IndexFrom(value, pos, middle[0]);
    if Floats(middle, last, value, pos) {
      var j: nat :| pos <= j && At(value, j, middle[0]) && Floats(middle[1..], last, value, j + |middle[0]|);
      FloatsEarlier(middle[1..], last, value, j + |middle[0]|, k + |middle[0]|);
    }
  }

  /** Greedy matching decides exactly the meaning of the pattern. */
  method GlobMatch(pattern: string, value: string) returns (matched: bool)
    ensures matched <==> Matches(pattern, value)
  {
    var parts := Split(pattern);
    if IsLiteral(pattern) {
      LiteralMatch(pattern, value);
      return pattern == value;
    }
    var n := |parts|;
    var middle, last := parts[1..n - 1], parts[n - 1];
    ghost var rest := [STAR] + Join(middle + [last]);
    assert parts[1..] == middle + [last] && pattern == parts[0] + rest by {
      assert pattern == parts[0] + [STAR] + Join(parts[1..]);
    }
    assert Matches(pattern, value) <==> At(value, 0, parts[0]) && Floats(middle, last, value, |parts[0]|) by {
      LiteralPrefix(parts[0], rest, value);
      if At(value, 0, parts[0]) {
        FloatsMeaning(middle, last, value, |parts[0]|);
      }
    }
    var pos := 0;
    if parts[0] != "" {
      if !At(value, 0, parts[0]) {
        return false;
      }
      pos := |parts[0]|;
    }
    matched := Float(middle, last, value, pos);
  }

  /** The scan over the middle pieces and the check of the last one. */
  method Float(middle: seq<string>, last: string, value: string, start: nat) returns (matched: bool)
    requires start <= |value|
    ensures matched <==> Floats(middle, last, value, start)
  {
    var pos: nat := start;
    var i := 0;
    assert middle[0..] == middle;
    while i < |middle|
      invariant 0 <= i <= |middle| && pos <= |value|
      invariant Floats(middle, last, value, start) <==> Floats(middle[i..], last, value, pos)
    {
      var seg := middle[i];
      LeftmostIsBest(middle[i..], last, value, pos);
      assert middle[i..][1..] == middle[i + 1..];
      i := i + 1;
      if seg == "" {
        assert At(value, pos, seg);
        continue;
      }
      var idx := IndexFrom(value, pos, seg);
      if idx > |value| {
        return false;
      }
      pos := idx + |seg|;
    }
    assert middle[i..] == [];
    if last != "" {
      if !(|last| <= |value| && At(value, |value| - |last|, last)) {
        return false;
      }
      if |value| - |last| < pos {
        return false;
      }
    }
    return true;
  }
}
