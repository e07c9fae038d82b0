/** The baseline store: observations per key, pruned to a window, capped in number of keys. */
module Baseline {
  import opened Arithmetic
  import opened Stats

  /** A canonicalised (agent, action, resource pattern). */
  datatype Key = Key(agent: string, action: string, resource: string)

  datatype DimensionStats = DimensionStats(count: real, mean: real, stddev: real)

  datatype Summary = Summary(rolling: nat, decayed: real, dimensions: map<string, DimensionStats>)

  const MAX_DISTINCT_KEYS := 10_000
  const RECENT_RATE_WINDOW := 3600
  const DECAY_PERIOD := 86400
  const DEFAULT_WINDOW := 14 * 86400
  const DEFAULT_DECAY_RATE: real := 0.96
  const EPSILON: real := 0.000000001

  const ACTION_FREQUENCY := "action_frequency"
  const HOUR_OF_DAY := "hour_of_day"
  const ACTION_FREQUENCY_DECAYED := "action_frequency_decayed"
  const HOUR_OF_DAY_DECAYED := "hour_of_day_decayed"

  function HourOf(ts: int): (h: int)
    ensures 0 <= h < 24
    ensures 3600 * h <= ts % 86400 < 3600 * (h + 1)
  {
    HourInDay(ts);
    ts / 3600 % 24
  }

  lemma HourInDay(ts: int)
    ensures 3600 * (ts / 3600 % 24) <= ts % 86400 < 3600 * (ts / 3600 % 24 + 1)
  {
    var h := ts / 3600;
    assert ts == 3600 * h + ts % 3600 && h == 24 * (h / 24) + h % 24;
    ModUnique(ts, 86400, h / 24, 3600 * (h % 24) + ts % 3600);
  }

  // ---------------------------------------------------------------- window lists

  /** The observations not older than `cutoff`, in order. */
  function Kept(obs: seq<Observation>, cutoff: int): (kept: seq<Observation>)
    ensures |kept| <= |obs|
  {
    if obs == [] then []
    else
      var n := |obs| - 1;
      Kept(obs[..n], cutoff) + (if obs[n].at >= cutoff then [obs[n]] else [])
  }

  lemma {:induction false} KeptTwice(obs: seq<Observation>, a: int, b: int)
    requires a <= b
    ensures Kept(Kept(obs, a), b) == Kept(obs, b)
  {
    if obs != [] {
      var n := |obs| - 1;
      KeptTwice(obs[..n], a, b);
      assert obs[n].at < a ==> Kept(obs, a) == Kept(obs[..n], a) && Kept(obs, b) == Kept(obs[..n], b);
      KeptAppend(Kept(obs[..n], a), obs[n], b);
    }
  }

  lemma KeptAppend(obs: seq<Observation>, o: Observation, cutoff: int)
    ensures Kept(obs + [o], cutoff) == Kept(obs, cutoff) + (if o.at >= cutoff then [o] else [])
  {
    assert (obs + [o])[..|obs|] == obs;
  }

  lemma {:induction false} KeptIsSubset(obs: seq<Observation>, cutoff: int)
    ensures forall o :: o in Kept(obs, cutoff) ==> o in obs && o.at >= cutoff
  {
    if obs != [] {
      KeptIsSubset(obs[..|obs| - 1], cutoff);
    }
  }

  /** Each observation is kept as often as it was there when it is not too old, and not at all otherwise. */
  lemma {:induction false} KeptExactly(obs: seq<Observation>, cutoff: int, o: Observation)
    ensures multiset(Kept(obs, cutoff))[o] == if o.at >= cutoff then multiset(obs)[o] else 0
  {
    if obs != [] {
      var n := |obs| - 1;
      KeptExactly(obs[..n], cutoff, o);
      assert obs == obs[..n] + [obs[n]];
    }
  }

  /** The newest time seen, 0 when there is none or all are before the epoch. */
  function Newest(obs: seq<Observation>): (at: int)
    ensures at >= 0
  {
    if obs == [] then 0
    else
      var before := Newest(obs[..|obs| - 1]);
      if obs[|obs| - 1].at > before then obs[|obs| - 1].at else before
  }

  /** No observation is newer, and some observation is that new unless none is after the epoch. */
  lemma {:induction false} NewestIsGreatest(obs: seq<Observation>)
    ensures forall o | o in obs :: o.at <= Newest(obs)
    ensures Newest(obs) > 0 ==> exists o :: o in obs && o.at == Newest(obs)
  {
    if obs != [] {
      var n := |obs| - 1;
      NewestIsGreatest(obs[..n]);
      assert obs == obs[..n] + [obs[n]];
      assert obs[n] in obs;
    }
  }

  // --------------------------------------------------------------------- summary

  function WindowHours(window: int): (h: real)
    ensures h >= 1.0
  {
    MaxReal(window as real / 3600.0, 1.0)
  }

  function MeanStddev(m: Maths, obs: seq<Observation>): (real, real) {
    if obs == [] then (0.0, 0.0)
    else if |obs| == 1 then (obs[0].hour as real, 0.0)
    else
      var mean := SumHours(obs) / |obs| as real;
      (mean, m.sqrt(SumSquares(obs, mean) / |obs| as real))
  }

  function RollingDimensions(m: Maths, window: int, kept: seq<Observation>): map<string, DimensionStats> {
    if kept == [] then map[]
    else
      var freq := |kept| as real / WindowHours(window);
      var hours := MeanStddev(m, kept);
      map[ACTION_FREQUENCY := DimensionStats(|kept| as real, freq, m.sqrt(MaxReal(freq, EPSILON))),
          HOUR_OF_DAY := DimensionStats(|kept| as real, hours.0, hours.1)]
  }

  function DecayedDimensions(m: Maths, window: int, w: real, s: real, q: real): map<string, DimensionStats> {
    if w <= 0.0 then map[]
    else
      var freq := w / WindowHours(window);
      map[ACTION_FREQUENCY_DECAYED := DimensionStats(w, freq, m.sqrt(MaxReal(freq, EPSILON))),
          HOUR_OF_DAY_DECAYED := DimensionStats(w, MeanOf(w, s), m.sqrt(MaxReal(0.0, VarianceOf(w, s, q))))]
  }

  /** The summary of the observations inside the window. */
  function Summarise(d: Decay, window: int, kept: seq<Observation>, now: int): Summary
    requires d.period > 0
  {
    var w, s, q := SumW(d, now, kept), SumWH(d, now, kept), SumWHH(d, now, kept);
    Summary(|kept|, if w > 0.0 then w else 0.0,
            RollingDimensions(d.m, window, kept) + DecayedDimensions(d.m, window, w, s, q))
  }

  lemma {:induction false} KeptHours(obs: seq<Observation>, cutoff: int)
    requires ValidHours(obs)
    ensures ValidHours(Kept(obs, cutoff))
  {
    KeptIsSubset(obs, cutoff);
    var kept := Kept(obs, cutoff);
    forall i | 0 <= i < |kept| ensures 0 <= kept[i].hour < 24 {
      assert kept[i] in kept;
    }
  }

  /**
   What a summary promises: the decayed total is at most the rolling count, the
   decayed mean hour is an hour of the day, and the decayed spread is that of
   the two-pass weighted variance.
   */
  lemma SummaryIsSound(d: Decay, window: int, kept: seq<Observation>, now: int)
    requires ValidDecay(d) && ValidHours(kept)
    ensures var r := Summarise(d, window, kept, now);
            && 0.0 <= r.decayed <= r.rolling as real
            && (kept != [] ==>
                  && SumW(d, now, kept) > 0.0
                  && HOUR_OF_DAY_DECAYED in r.dimensions
                  && 0.0 <= r.dimensions[HOUR_OF_DAY_DECAYED].mean <= 23.0
                  && r.dimensions[HOUR_OF_DAY_DECAYED].stddev
                       == d.m.sqrt(MeanOf(SumW(d, now, kept), SumDev(d, now, kept, r.dimensions[HOUR_OF_DAY_DECAYED].mean))))
  {
    hide SumW, SumWH, SumWHH, SumDev, MeanStddev, WindowHours, Lawful, MeanOf, VarianceOf;
    SumBounds(d, now, kept);
    if kept != [] {
      DecayedVariance(d, now, kept);
      var w, s, q := SumW(d, now, kept), SumWH(d, now, kept), SumWHH(d, now, kept);
      DecayedHour(d.m, window, w, s, q);
      assert Summarise(d, window, kept, now).dimensions[HOUR_OF_DAY_DECAYED]
          == DecayedDimensions(d.m, window, w, s, q)[HOUR_OF_DAY_DECAYED];
    }
  }

  lemma DecayedHour(m: Maths, window: int, w: real, s: real, q: real)
    requires w > 0.0 && VarianceOf(w, s, q) >= 0.0
    ensures HOUR_OF_DAY_DECAYED in DecayedDimensions(m, window, w, s, q)
    ensures DecayedDimensions(m, window, w, s, q)[HOUR_OF_DAY_DECAYED]
         == DimensionStats(w, MeanOf(w, s), m.sqrt(VarianceOf(w, s, q)))
  {
    hide MeanOf, VarianceOf, WindowHours;
  }

  /** Without decay the decayed hour statistics are the plain two-pass ones. */
  lemma NoDecayAgrees(d: Decay, window: int, kept: seq<Observation>, now: int)
    requires ValidDecay(d) && ValidHours(kept) && d.rate == 1.0 && kept != []
    ensures var r := Summarise(d, window, kept, now);
            && r.decayed == r.rolling as real
            && HOUR_OF_DAY in r.dimensions && HOUR_OF_DAY_DECAYED in r.dimensions
            && r.dimensions[HOUR_OF_DAY_DECAYED] == r.dimensions[HOUR_OF_DAY]
  {
    assert d.m.sqrt(0.0) == 0.0;
    hide SumW, SumWH, SumWHH, SumDev, WindowHours, Lawful, SumHours, SumSquares, MeanStddev;
    SummaryIsSound(d, window, kept, now);
    var mean := SumHours(kept) / |kept| as real;
    NoDecay(d, now, kept, mean);
    MeanStddevUniform(d.m, kept);
  }

  lemma MeanStddevUniform(m: Maths, obs: seq<Observation>)
    requires obs != [] && m.sqrt(0.0) == 0.0
    ensures var mean := SumHours(obs) / |obs| as real;
            MeanStddev(m, obs) == (mean, m.sqrt(SumSquares(obs, mean) / |obs| as real))
  {
    if |obs| == 1 {
      assert obs[..0] == [];
      var h := obs[0].hour as real;
      assert SumHours(obs) == h && SumHours(obs) / 1.0 == h;
      assert SumSquares(obs, h) == 0.0;
    }
  }

  /** The length of the window in hours, an hour at least. */
  function HoursIn(window: int): real {
    if window >= 3600 then window as real / 3600.0 else 1.0
  }

  /** `d` describes a count of `count` over `hours`: the mean is the rate and the spread its root, off zero. */
  predicate IsFrequency(m: Maths, d: DimensionStats, count: real, hours: real) {
    d.count == count && d.mean * hours == count
    && d.stddev == m.sqrt(if d.mean > 0.000000001 then d.mean else 0.000000001)
  }

  /** The numbers of the counts in a summary. */
  ghost predicate RollingMeans(m: Maths, window: int, kept: seq<Observation>, dims: map<string, DimensionStats>) {
    && "action_frequency" in dims && IsFrequency(m, dims["action_frequency"], |kept| as real, HoursIn(window))
    && "hour_of_day" in dims && dims["hour_of_day"].count == |kept| as real
    && dims["hour_of_day"].mean * |kept| as real == SumHours(kept)
  }

  /** The numbers of the decayed sums `w` and `s` in a summary. */
  ghost predicate DecayedMeans(m: Maths, window: int, w: real, s: real, dims: map<string, DimensionStats>) {
    && "action_frequency_decayed" in dims && IsFrequency(m, dims["action_frequency_decayed"], w, HoursIn(window))
    && "hour_of_day_decayed" in dims && dims["hour_of_day_decayed"].count == w
    && dims["hour_of_day_decayed"].mean * w == s
  }

  const DIMENSIONS := {"action_frequency", "hour_of_day", "action_frequency_decayed", "hour_of_day_decayed"}

  /** What the numbers of a summary mean. */
  lemma SummaryNumbers(d: Decay, window: int, kept: seq<Observation>, now: int)
    requires ValidDecay(d) && ValidHours(kept)
    ensures var r := Summarise(d, window, kept, now);
            && r.rolling == |kept| && r.decayed == SumW(d, now, kept)
            && r.dimensions.Keys == (if kept == [] then {} else DIMENSIONS)
            && (kept != [] ==> RollingMeans(d.m, window, kept, r.dimensions)
                               && DecayedMeans(d.m, window, SumW(d, now, kept), SumWH(d, now, kept), r.dimensions))
  {
    assert d.m.sqrt(0.0) == 0.0;
    hide SumW, SumWH, SumWHH, Lawful, RollingDimensions, DecayedDimensions, RollingMeans, DecayedMeans;
    SumBounds(d, now, kept);
    var w, s, q := SumW(d, now, kept), SumWH(d, now, kept), SumWHH(d, now, kept);
    if kept == [] {
      NoNumbers(d.m, window, w, s, q);
    } else {
      RollingNumbers(d.m, window, kept);
      DecayedNumbers(d.m, window, w, s, q);
      MergedNumbers(d.m, window, kept, w, s, RollingDimensions(d.m, window, kept), DecayedDimensions(d.m, window, w, s, q));
    }
  }

  lemma NoNumbers(m: Maths, window: int, w: real, s: real, q: real)
    requires w == 0.0
    ensures RollingDimensions(m, window, []) + DecayedDimensions(m, window, w, s, q) == map[]
  {
  }

  lemma MergedNumbers(m: Maths, window: int, kept: seq<Observation>, w: real, s: real,
                      rolling: map<string, DimensionStats>, decayed: map<string, DimensionStats>)
    requires rolling.Keys == {"action_frequency", "hour_of_day"} && RollingMeans(m, window, kept, rolling)
    requires decayed.Keys == {"action_frequency_decayed", "hour_of_day_decayed"} && DecayedMeans(m, window, w, s, decayed)
    ensures (rolling + decayed).Keys == DIMENSIONS
    ensures RollingMeans(m, window, kept, rolling + decayed) && DecayedMeans(m, window, w, s, rolling + decayed)
  {
    hide IsFrequency, SumHours;
  }

  lemma FrequencyOf(m: Maths, count: real, window: int)
    ensures WindowHours(window) == HoursIn(window)
    ensures IsFrequency(m, DimensionStats(count, count / WindowHours(window), m.sqrt(MaxReal(count / WindowHours(window), EPSILON))),
                        count, HoursIn(window))
  {
  }

  lemma RollingNumbers(m: Maths, window: int, kept: seq<Observation>)
    requires kept != [] && m.sqrt(0.0) == 0.0
    ensures RollingDimensions(m, window, kept).Keys == {"action_frequency", "hour_of_day"}
    ensures RollingMeans(m, window, kept, RollingDimensions(m, window, kept))
  {
    hide SumHours, SumSquares, MeanStddev, WindowHours, IsFrequency;
    FrequencyOf(m, |kept| as real, window);
    MeanStddevUniform(m, kept);
  }

  lemma DecayedNumbers(m: Maths, window: int, w: real, s: real, q: real)
    requires w > 0.0
    ensures DecayedDimensions(m, window, w, s, q).Keys == {"action_frequency_decayed", "hour_of_day_decayed"}
    ensures DecayedMeans(m, window, w, s, DecayedDimensions(m, window, w, s, q))
  {
    hide VarianceOf, WindowHours, IsFrequency;
    FrequencyOf(m, w, window);
  }
}
