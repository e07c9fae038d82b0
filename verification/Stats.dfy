/** The numbers of one baseline key: rolling counts, hour statistics and their decayed forms, over exact reals. */
module Stats {

  /** One recorded event: when, in Unix seconds, and its UTC hour. */
  datatype Observation = Observation(at: int, hour: int)

  /** math.Pow and math.Sqrt, as parameters. */
  datatype Maths = Maths(pow: (real, real) -> real, sqrt: real -> real)

  /** The laws used: powers of a rate in (0, 1] stay in (0, 1], powers of 1 are 1. */
  ghost predicate Lawful(m: Maths) {
    && (forall r: real, a: real {:trigger m.pow(r, a)} :: 0.0 < r <= 1.0 && a >= 0.0 ==> 0.0 < m.pow(r, a) <= 1.0)
    && (forall a: real {:trigger m.pow(1.0, a)} :: m.pow(1.0, a) == 1.0)
    && m.sqrt(0.0) == 0.0
  }

  datatype Decay = Decay(m: Maths, rate: real, period: int)

  ghost predicate ValidDecay(d: Decay) {
    Lawful(d.m) && 0.0 < d.rate <= 1.0 && d.period > 0
  }

  predicate ValidHours(obs: seq<Observation>) {
    forall i | 0 <= i < |obs| :: 0 <= obs[i].hour < 24
  }

  function MaxReal(a: real, b: real): real {
    if a > b then a else b
  }

  /** The age in decay periods, never negative. */
  function Age(d: Decay, now: int, o: Observation): (a: real)
    requires d.period > 0
    ensures a >= 0.0
  {
    var age := (now - o.at) as real / d.period as real;
    if age < 0.0 then 0.0 else age
  }

  function Weight(d: Decay, now: int, o: Observation): real
    requires d.period > 0
  {
    d.m.pow(d.rate, Age(d, now, o))
  }

  // -------------------------------------------------------------- sums, left to right

  function SumW(d: Decay, now: int, obs: seq<Observation>): real
    requires d.period > 0
  {
    if obs == [] then 0.0 else SumW(d, now, obs[..|obs| - 1]) + Weight(d, now, obs[|obs| - 1])
  }

  function SumWH(d: Decay, now: int, obs: seq<Observation>): real
    requires d.period > 0
  {
    if obs == [] then 0.0
    else
      var o := obs[|obs| - 1];
      SumWH(d, now, obs[..|obs| - 1]) + Weight(d, now, o) * (o.hour as real)
  }

  function SumWHH(d: Decay, now: int, obs: seq<Observation>): real
    requires d.period > 0
  {
    if obs == [] then 0.0
    else
      var o := obs[|obs| - 1];
      SumWHH(d, now, obs[..|obs| - 1]) + Weight(d, now, o) * (o.hour as real) * (o.hour as real)
  }

  /** The weighted squared deviations from `mean`: the two-pass form. */
  function SumDev(d: Decay, now: int, obs: seq<Observation>, mean: real): real
    requires d.period > 0
  {
    if obs == [] then 0.0
    else
      var o := obs[|obs| - 1];
      SumDev(d, now, obs[..|obs| - 1], mean) + Weight(d, now, o) * ((o.hour as real - mean) * (o.hour as real - mean))
  }

  function SumHours(obs: seq<Observation>): real {
    if obs == [] then 0.0 else SumHours(obs[..|obs| - 1]) + obs[|obs| - 1].hour as real
  }

  function SumSquares(obs: seq<Observation>, mean: real): real {
    if obs == [] then 0.0
    else
      var h := obs[|obs| - 1].hour as real;
      SumSquares(obs[..|obs| - 1], mean) + (h - mean) * (h - mean)
  }

  /** Mean and variance from the one-pass sums. */
  function MeanOf(w: real, s: real): real
    requires w > 0.0
  {
    s / w
  }

  function VarianceOf(w: real, s: real, q: real): real
    requires w > 0.0
  {
    q / w - MeanOf(w, s) * MeanOf(w, s)
  }

  // ------------------------------------------------------------------------ laws

  lemma {:induction false} SumBounds(d: Decay, now: int, obs: seq<Observation>)
    requires ValidDecay(d) && ValidHours(obs)
    ensures 0.0 <= SumW(d, now, obs) <= |obs| as real
    ensures obs != [] ==> SumW(d, now, obs) > 0.0
    ensures 0.0 <= SumWH(d, now, obs) <= 23.0 * SumW(d, now, obs)
  {
    if obs != [] {
      var n := |obs| - 1;
      SumBounds(d, now, obs[..n]);
      var w, h := Weight(d, now, obs[n]), obs[n].hour as real;
      WeightBounds(d, now, obs[n]);
      hide Weight, Lawful;
      assert SumW(d, now, obs[..n]) <= n as real;
      var p := WeightedHour(w, h);
      Accumulate(SumW(d, now, obs[..n]), SumWH(d, now, obs[..n]), n, w, p);
    }
  }

  lemma WeightBounds(d: Decay, now: int, o: Observation)
    requires ValidDecay(d)
    ensures 0.0 < Weight(d, now, o) <= 1.0
  {
  }

  lemma Accumulate(w: real, s: real, n: nat, dw: real, ds: real)
    requires 0.0 <= w <= n as real && 0.0 <= s <= 23.0 * w
    requires 0.0 < dw <= 1.0 && 0.0 <= ds <= 23.0 * dw
    ensures 0.0 < w + dw <= (n + 1) as real && 0.0 <= s + ds <= 23.0 * (w + dw)
  {
  }

  lemma WeightedHour(w: real, h: real) returns (p: real)
    requires 0.0 < w && 0.0 <= h <= 23.0
    ensures p == w * h && 0.0 <= p <= 23.0 * w
  {
    p := w * h;
  }

  /** The squares expanded, in terms of the one-pass sums. */
  function Expanded(q: real, s: real, w: real, mean: real): real {
    q - 2.0 * mean * s + mean * mean * w
  }

  /** The two-pass deviations in terms of the one-pass sums. */
  lemma {:induction false} DevExpands(d: Decay, now: int, obs: seq<Observation>, mean: real)
    requires d.period > 0
    ensures SumDev(d, now, obs, mean) == Expanded(SumWHH(d, now, obs), SumWH(d, now, obs), SumW(d, now, obs), mean)
  {
    hide Expanded, Weight;
    if obs == [] {
      NothingExpanded(mean);
      assert SumW(d, now, obs) == SumWH(d, now, obs) == SumWHH(d, now, obs) == SumDev(d, now, obs, mean) == 0.0;
    } else {
      var n := |obs| - 1;
      hide SumW, SumWH, SumWHH, SumDev;
      SumsLast(d, now, obs, mean);
      DevExpands(d, now, obs[..n], mean);
      DevStep(SumDev(d, now, obs[..n], mean), SumWHH(d, now, obs[..n]), SumWH(d, now, obs[..n]), SumW(d, now, obs[..n]),
              Weight(d, now, obs[n]), obs[n].hour as real, mean,
              SumDev(d, now, obs, mean), SumWHH(d, now, obs), SumWH(d, now, obs), SumW(d, now, obs));
    }
  }

  lemma SumsLast(d: Decay, now: int, obs: seq<Observation>, mean: real)
    requires d.period > 0 && obs != []
    ensures var before, w, h := obs[..|obs| - 1], Weight(d, now, obs[|obs| - 1]), obs[|obs| - 1].hour as real;
            && SumW(d, now, obs) == SumW(d, now, before) + w
            && SumWH(d, now, obs) == SumWH(d, now, before) + w * h
            && SumWHH(d, now, obs) == SumWHH(d, now, before) + w * h * h
            && SumDev(d, now, obs, mean) == SumDev(d, now, before, mean) + w * ((h - mean) * (h - mean))
  {
    hide Weight;
  }

  lemma NothingExpanded(mean: real)
    ensures Expanded(0.0, 0.0, 0.0, mean) == 0.0
  {
  }

  lemma DevStep(dev: real, q: real, s: real, t: real, w: real, h: real, m: real, dev': real, q': real, s': real, t': real)
    requires dev == Expanded(q, s, t, m)
    requires dev' == dev + w * ((h - m) * (h - m)) && q' == q + w * h * h && s' == s + w * h && t' == t + w
    ensures dev' == Expanded(q', s', t', m)
  {
    Square(w, h, m);
    Collect(m, s, t, w, h);
  }

  lemma Square(w: real, h: real, m: real)
    ensures w * ((h - m) * (h - m)) == w * h * h - 2.0 * m * (w * h) + m * m * w
  {
    assert (h - m) * (h - m) == h * h - 2.0 * m * h + m * m;
    assert w * (h * h - 2.0 * m * h + m * m) == w * (h * h) - w * (2.0 * m * h) + w * (m * m);
    assert w * (h * h) == w * h * h;
    assert w * (2.0 * m * h) == 2.0 * m * (w * h);
  }

  lemma Collect(m: real, s: real, t: real, w: real, h: real)
    ensures 2.0 * m * (s + w * h) == 2.0 * m * s + 2.0 * m * (w * h)
    ensures m * m * (t + w) == m * m * t + m * m * w
  {
  }

  lemma {:induction false} DevNonNegative(d: Decay, now: int, obs: seq<Observation>, mean: real)
    requires ValidDecay(d)
    ensures SumDev(d, now, obs, mean) >= 0.0
  {
    if obs != [] {
      var n := |obs| - 1;
      DevNonNegative(d, now, obs[..n], mean);
      var w, x := Weight(d, now, obs[n]), obs[n].hour as real - mean;
      assert w > 0.0;
      NonNegativeProduct(w, x);
    }
  }

  lemma NonNegativeProduct(w: real, x: real)
    requires w > 0.0
    ensures w * (x * x) >= 0.0
  {
    assert x * x >= 0.0;
  }

  /**
   The one-pass decayed mean and variance are the two-pass weighted ones: the
   mean is an hour of the day, and the clamp at zero never acts.
   */
  lemma DecayedVariance(d: Decay, now: int, obs: seq<Observation>)
    requires ValidDecay(d) && ValidHours(obs) && obs != []
    ensures var w, s, q := SumW(d, now, obs), SumWH(d, now, obs), SumWHH(d, now, obs);
            && w > 0.0
            && 0.0 <= MeanOf(w, s) <= 23.0
            && VarianceOf(w, s, q) == MeanOf(w, SumDev(d, now, obs, MeanOf(w, s)))
            && VarianceOf(w, s, q) >= 0.0
  {
    hide SumW, SumWH, SumWHH, SumDev;
    var w, s, q := SumW(d, now, obs), SumWH(d, now, obs), SumWHH(d, now, obs);
    SumBounds(d, now, obs);
    var mean := s / w;
    DevExpands(d, now, obs, mean);
    DevNonNegative(d, now, obs, mean);
    var dev := SumDev(d, now, obs, mean);
    Quotients(w, s, q, dev);
  }

  lemma Quotients(w: real, s: real, q: real, dev: real)
    requires w > 0.0 && 0.0 <= s <= 23.0 * w
    requires dev == q - 2.0 * (s / w) * s + (s / w) * (s / w) * w && dev >= 0.0
    ensures 0.0 <= s / w <= 23.0
    ensures q / w - (s / w) * (s / w) == dev / w && dev / w >= 0.0
  {
    var m := s / w;
    assert m * w == s;
    assert m * m * w == m * s by {
      assert m * m * w == m * (m * w);
    }
    assert dev == q - m * s;
    assert dev == q - m * m * w;
    var v := q / w;
    assert v * w == q;
    assert (v - m * m) * w == dev;
    Divided(v - m * m, w, dev);
    Bounded(m, w, s);
  }

  lemma Divided(x: real, w: real, y: real)
    requires w > 0.0 && x * w == y
    ensures x == y / w
    ensures y >= 0.0 ==> x >= 0.0
  {
  }

  lemma Bounded(m: real, w: real, s: real)
    requires w > 0.0 && m * w == s && 0.0 <= s <= 23.0 * w
    ensures 0.0 <= m <= 23.0
  {
    Divided(m, w, s);
    Divided(23.0 - m, w, 23.0 * w - s);
  }

  /** Without decay every weight is one, and the weighted sums are the plain ones. */
  lemma {:induction false} NoDecay(d: Decay, now: int, obs: seq<Observation>, mean: real)
    requires ValidDecay(d) && d.rate == 1.0
    ensures SumW(d, now, obs) == |obs| as real
    ensures SumWH(d, now, obs) == SumHours(obs)
    ensures SumDev(d, now, obs, mean) == SumSquares(obs, mean)
  {
    if obs != [] {
      NoDecay(d, now, obs[..|obs| - 1], mean);
    }
  }

  // ------------------------------------------------------------------- the decay

  /** The laws of powers. */
  ghost predicate PowerLaws(m: Maths) {
    && (forall r: real :: m.pow(r, 0.0) == 1.0 && m.pow(r, 1.0) == r)
    && (forall r: real, a: real, b: real :: r > 0.0 ==> m.pow(r, a + b) == m.pow(r, a) * m.pow(r, b))
  }

  /** An event counts fully when it happens, and with every decay period by the rate less. */
  lemma FadesByRate(d: Decay, now: int, o: Observation)
    requires ValidDecay(d) && PowerLaws(d.m) && o.at <= now
    ensures Weight(d, o.at, o) == 1.0
    ensures Weight(d, now + d.period, o) == Weight(d, now, o) * d.rate
  {
    hide Lawful, PowerLaws;
    OnePeriodOlder(now - o.at, d.period);
    PowerNext(d.m, d.rate, Age(d, now, o));
    AgeMoves(d, now, o);
  }

  lemma PowerNext(m: Maths, r: real, a: real)
    requires PowerLaws(m) && r > 0.0
    ensures m.pow(r, a + 1.0) == m.pow(r, a) * r && m.pow(r, 0.0) == 1.0
  {
    assert m.pow(r, a + 1.0) == m.pow(r, a) * m.pow(r, 1.0);
  }

  lemma AgeMoves(d: Decay, now: int, o: Observation)
    requires d.period > 0 && o.at <= now
    ensures Age(d, now + d.period, o) == Age(d, now, o) + 1.0 && Age(d, o.at, o) == 0.0
  {
    OnePeriodOlder(now - o.at, d.period);
    assert now + d.period - o.at == now - o.at + d.period;
  }

  lemma OnePeriodOlder(age: int, period: int)
    requires period > 0 && age >= 0
    ensures (age + period) as real / period as real == age as real / period as real + 1.0
    ensures age as real / period as real >= 0.0
  {
    var x, y := age as real, period as real;
    assert (age + period) as real == x + y;
    QuotientUnique(x + y, y, x / y + 1.0);
  }

  lemma QuotientUnique(x: real, y: real, q: real)
    requires y > 0.0 && x == q * y
    ensures x / y == q
  {
  }
}
