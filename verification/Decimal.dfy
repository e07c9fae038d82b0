/** Decimal text of 64-bit integers: fmt's %d and strconv's ParseInt(s, 10, 64). */
module Decimal {
  import opened Wrappers
  import opened Arithmetic
  import opened Json

  const INT64_LIMIT := 0x8000_0000_0000_0000

  predicate IsInt64(n: int) {
    -INT64_LIMIT <= n < INT64_LIMIT
  }

  /** Two's complement wrap-around. */
  function Wrap64(n: int): (w: int)
    ensures IsInt64(w)
    ensures IsInt64(n) ==> w == n
  {
    (n + INT64_LIMIT) % (2 * INT64_LIMIT) - INT64_LIMIT
  }

  /** Numbers less than 2^64 apart wrap to different values. */
  lemma WrapInjective(m: int, n: int)
    requires Wrap64(m) == Wrap64(n) && -2 * INT64_LIMIT < m - n < 2 * INT64_LIMIT
    ensures m == n
  {
  }

  lemma WrapSmall(n: nat)
    requires n < INT64_LIMIT
    ensures Wrap64(n) == n
  {
  }

  lemma WrapStep(n: int)
    ensures Wrap64(Wrap64(n) + 1) == Wrap64(n + 1)
  {
    var m := 2 * INT64_LIMIT;
    var a := n + INT64_LIMIT;
    assert a == m * (a / m) + a % m;
    var q, r := a / m, a % m;
    if r + 1 < m {
      ModUnique(a + 1, m, q, r + 1);
    } else {
      ModUnique(a + 1, m, q + 1, 0);
    }
  }

  predicate IsDigit(c: char) {
    '0' <= c <= '9'
  }

  function Digit(d: int): (c: char)
    requires 0 <= d < 10
    ensures IsDigit(c) && c as int - '0' as int == d
  {
    (d + '0' as int) as char
  }

  function NatText(n: nat): (s: string)
    ensures s != "" && forall i | 0 <= i < |s| :: IsDigit(s[i])
  {
    if n < 10 then [Digit(n)] else NatText(n / 10) + [Digit(n % 10)]
  }

  function IntText(n: int): (s: Number) {
    if n < 0 then "-" + NatText(-n) else NatText(n)
  }

  function NatValue(s: string): (n: nat)
    requires forall i | 0 <= i < |s| :: IsDigit(s[i])
  {
    if s == "" then 0
    else
      assert IsDigit(s[|s| - 1]);
      NatValue(s[..|s| - 1]) * 10 + (s[|s| - 1] as int - '0' as int)
  }

  predicate AllDigits(s: string) {
    s != "" && forall i | 0 <= i < |s| :: IsDigit(s[i])
  }

  /** Fails on an empty, non-integer or out-of-range literal. */
  function ParseInt64(s: string): (r: Option<int>)
    ensures r.Some? ==> IsInt64(r.value)
  {
    var signed := s != "" && (s[0] == '-' || s[0] == '+');
    var digits := if signed then s[1..] else s;
    if !AllDigits(digits) then None
    else
      var v: int := NatValue(digits);
      var n := if signed && s[0] == '-' then -v else v;
      if IsInt64(n) then Some(n) else None
  }

  lemma {:induction false} NatValueOfText(n: nat)
    ensures NatValue(NatText(n)) == n
  {
    if n >= 10 {
      NatValueOfText(n / 10);
      assert NatText(n)[..|NatText(n)| - 1] == NatText(n / 10);
    } else {
      assert NatText(n)[..0] == "";
    }
  }

  lemma ParseIntText(n: int)
    requires IsInt64(n)
    ensures ParseInt64(IntText(n)) == Some(n)
  {
    if n < 0 {
      assert IntText(n)[1..] == NatText(-n);
      NatValueOfText(-n);
    } else {
      assert IsDigit(NatText(n)[0]);
      NatValueOfText(n);
    }
  }

  lemma IntTextInjective(m: int, n: int)
    requires IntText(m) == IntText(n)
    ensures m == n
  {
    assert m < 0 ==> IntText(m)[0] == '-' && IntText(m)[1..] == NatText(-m);
    assert n < 0 ==> IntText(n)[0] == '-' && IntText(n)[1..] == NatText(-n);
    assert m >= 0 ==> IsDigit(IntText(m)[0]);
    assert n >= 0 ==> IsDigit(IntText(n)[0]);
    NatValueOfText(if m < 0 then -m else m);
    NatValueOfText(if n < 0 then -n else n);
  }
}
