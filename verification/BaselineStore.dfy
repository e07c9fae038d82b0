/** The store as the program runs it: maps reassigned in place, the slice filtered in place, sums in loops. */
module BaselineStore {
  import opened Stats
  import opened Baseline
  import opened KeyStore

  /** Moves the observations inside the window to the front of the same array. */
  method PruneInPlace(a: array<Observation>, cutoff: int) returns (m: nat)
    modifies a
    ensures m <= a.Length && a[..m] == Kept(old(a[..]), cutoff)
  {
    m := 0;
    var i := 0;
    while i < a.Length
      invariant 0 <= m <= i <= a.Length
      invariant a[..m] == Kept(old(a[..])[..i], cutoff)
      invariant a[i..] == old(a[..])[i..]
    {
      var o := a[i];
      assert a[i..][0] == old(a[..])[i..][0];
      assert old(a[..])[..i + 1] == old(a[..])[..i] + [o];
      KeptAppend(old(a[..])[..i], o, cutoff);
      ghost var rest := a[i + 1..];
      assert rest == old(a[..])[i..][1..];
      if o.at >= cutoff {
        a[m] := o;
        m := m + 1;
      }
      i := i + 1;
    }
    assert old(a[..])[..i] == old(a[..]);
  }

  lemma SameStore(window: int, s: Store, k: Key, o: Observation, now: int, t: Store)
    requires t.rolling == s.rolling[k := Kept(Past(s.rolling, k) + [o], now - window)]
    requires t.lastSeen == if o.at > Seen(s.lastSeen, k) then s.lastSeen[k := o.at] else s.lastSeen
    requires t.dropped == s.dropped && t.history == s.history[k := Past(s.history, k) + [o]]
    requires t.created == s.created + (if k in s.rolling then 0 else 1) && t.clock == Later(s.clock, now)
    ensures t == Recorded(window, s, k, o, now)
  {
  }

  method Pruned(obs: seq<Observation>, cutoff: int) returns (pruned: seq<Observation>)
    ensures pruned == Kept(obs, cutoff)
  {
    var a := new Observation[|obs|](i requires 0 <= i < |obs| => obs[i]);
    assert a[..] == obs;
    var m := PruneInPlace(a, cutoff);
    pruned := a[..m];
  }

  class BaselineStore {
    const windowSeconds: int
    const decay: Decay
    var rolling: map<Key, seq<Observation>>
    var lastSeen: map<Key, int>
    var dropped: nat
    ghost var history: map<Key, seq<Observation>>
    ghost var created: nat
    ghost var clock: int

    ghost function View(): Store
      reads this
    {
      Store(rolling, lastSeen, dropped, history, created, clock)
    }

    ghost predicate Valid()
      reads this
    {
      Consistent(windowSeconds, View())
    }

    /** A window or a decay rate out of range is replaced by its default. */
    constructor (windowSeconds: int, m: Maths, decayRate: real)
      ensures Valid() && View() == EMPTY
      ensures this.windowSeconds == if windowSeconds <= 0 then DEFAULT_WINDOW else windowSeconds
      ensures decay == Decay(m, if 0.0 < decayRate <= 1.0 then decayRate else DEFAULT_DECAY_RATE, DECAY_PERIOD)
      ensures Lawful(m) ==> ValidDecay(decay)
    {
      this.windowSeconds := if windowSeconds <= 0 then DEFAULT_WINDOW else windowSeconds;
      decay := Decay(m, if 0.0 < decayRate <= 1.0 then decayRate else DEFAULT_DECAY_RATE, DECAY_PERIOD);
      rolling, lastSeen, dropped := map[], map[], 0;
      history, created, clock := map[], 0, 0;
    }

    /** The least recently observed key, whatever order the map is walked in. */
    method OldestKey() returns (oldest: Key)
      requires rolling != map[]
      ensures LeastRecent(View(), oldest)
    {
      var left := rolling.Keys;
      var any :| any in left;
      oldest := any;
      var oldestAt := 0;
      var found := false;
      while left != {}
        invariant left <= rolling.Keys && oldest in rolling
        invariant found ==> oldestAt == Seen(lastSeen, oldest)
        invariant found ==> forall k | k in rolling.Keys - left :: oldestAt <= Seen(lastSeen, k)
        invariant !found ==> left == rolling.Keys
        decreases |left|
      {
        var k :| k in left;
        var seen := if k in lastSeen then lastSeen[k] else 0;
        if !found || seen < oldestAt {
          oldest, oldestAt, found := k, seen, true;
        }
        left := left - {k};
      }
    }

    /** Makes room for one more key. */
    method EvictForCap()
      requires Valid()
      modifies this
      ensures Valid() && MakesRoom(old(View()), View())
    {
      hide KeyOk;
      ghost var s := View();
      while |rolling| >= MAX_DISTINCT_KEYS
        invariant Valid()
        invariant View() == s || (|rolling| < MAX_DISTINCT_KEYS && |s.rolling| == MAX_DISTINCT_KEYS && MakesRoom(s, View()))
        decreases |rolling|
      {
        var oldest := OldestKey();
        EvictConsistent(windowSeconds, View(), oldest);
        rolling := rolling - {oldest};
        lastSeen := lastSeen - {oldest};
        history := history - {oldest};
        dropped := dropped + 1;
        assert View() == Evicted(s, oldest);
      }
    }

    /** Records one event at `now` by the store's clock; a non-positive `observedAt` means now. */
    method Observe(key: Key, observedAt: int, now: int)
      requires Valid()
      modifies this
      ensures Valid()
      ensures Observes(windowSeconds, old(View()), key, observedAt, now, View())
      ensures key.action == "" ==> View() == old(View())
      ensures key.action != "" ==> key in history && key in rolling && history[key] != []
                                   && history[key][|history[key]| - 1].at == (if observedAt <= 0 then now else observedAt)
    {
      hide Consistent, MakesRoom, Recorded;
      if key.action == "" {
        return;
      }
      var ts := observedAt;
      if ts <= 0 {
        ts := now;
      }
      if key !in rolling {
        EvictForCap();
      }
      ghost var room := View();
      RoomConsistent(windowSeconds, old(View()), key, room);
      Record(key, Observation(ts, HourOf(ts)), now);
      assert RecordsIn(windowSeconds, old(View()), room, key, ts, now, View());
    }

    /** Append, prune in place, and note the time. */
    method Record(key: Key, o: Observation, now: int)
      requires Valid() && (key in rolling || |rolling| < MAX_DISTINCT_KEYS) && 0 <= o.hour < 24
      modifies this
      ensures Valid()
      ensures View() == Recorded(windowSeconds, old(View()), key, o, now)
      ensures key in rolling && history == old(history)[key := Past(old(history), key) + [o]]
    {
      ghost var s := View();
      hide Consistent, Kept, Recorded, KeyOk;
      RecordConsistent(windowSeconds, s, key, o, now);
      var obs := Past(rolling, key) + [o];
      var pruned := Pruned(obs, now - windowSeconds);
      history := history[key := Past(history, key) + [o]];
      if key !in rolling {
        created := created + 1;
      }
      clock := Later(clock, now);
      rolling := rolling[key := pruned];
      if o.at > Seen(lastSeen, key) {
        lastSeen := lastSeen[key := o.at];
      }
      SameStore(windowSeconds, s, key, o, now, View());
    }

    /** The number of events of the last hour, which is the rate per hour. */
    method RecentRate(key: Key, now: int) returns (count: nat)
      requires Valid()
      ensures count == |Kept(Past(rolling, key), now - RECENT_RATE_WINDOW)|
      ensures now >= clock && windowSeconds >= RECENT_RATE_WINDOW ==>
                count == |Kept(Past(history, key), now - RECENT_RATE_WINDOW)|
    {
      PruningIsInvisible(windowSeconds, View(), key, if now >= clock then now else clock);
      hide Consistent;
      var obs := Past(rolling, key);
      var kept := Inside(obs, now - RECENT_RATE_WINDOW);
      count := |kept|;
    }

    /** The snapshot the scorer reads; pruning does not show in it. */
    method SummaryFor(key: Key, now: int) returns (r: Summary)
      requires Valid() && decay.period > 0
      ensures r == Summarise(decay, windowSeconds, Kept(Past(rolling, key), now - windowSeconds), now)
      ensures now >= clock ==>
                r == Summarise(decay, windowSeconds, Kept(Past(history, key), now - windowSeconds), now)
    {
      hide Consistent, Summarise, Kept, SumW, SumWH, SumWHH, MeanStddev;
      var all := Past(rolling, key);
      var kept := Inside(all, now - windowSeconds);
      var hourMean, hourStddev := MeanStddevLoop(decay.m, kept);
      var w, s, q := DecayedSums(decay, now, all, now - windowSeconds);
      r := Assemble(decay, windowSeconds, kept, now, hourMean, hourStddev, w, s, q);
      if now >= clock {
        PruningIsInvisible(windowSeconds, View(), key, now);
      }
    }
  }

  /** The observations that are not too old. */
  method Inside(obs: seq<Observation>, cutoff: int) returns (kept: seq<Observation>)
    ensures kept == Kept(obs, cutoff)
  {
    kept := [];
    for i := 0 to |obs|
      invariant kept == Kept(obs[..i], cutoff)
    {
      assert obs[..i + 1] == obs[..i] + [obs[i]];
      KeptAppend(obs[..i], obs[i], cutoff);
      if obs[i].at < cutoff {
        continue;
      }
      kept := kept + [obs[i]];
    }
    assert obs[..|obs|] == obs;
  }

  method MeanStddevLoop(m: Maths, xs: seq<Observation>) returns (mean: real, stddev: real)
    ensures (mean, stddev) == MeanStddev(m, xs)
  {
    if |xs| == 0 {
      return 0.0, 0.0;
    }
    if |xs| == 1 {
      return xs[0].hour as real, 0.0;
    }
    var sum := HoursLoop(xs);
    mean := sum / |xs| as real;
    var ss := SquaresLoop(xs, mean);
    stddev := m.sqrt(ss / |xs| as real);
  }

  method HoursLoop(xs: seq<Observation>) returns (sum: real)
    ensures sum == SumHours(xs)
  {
    sum := 0.0;
    for i := 0 to |xs|
      invariant sum == SumHours(xs[..i])
    {
      assert xs[..i + 1][..i] == xs[..i];
      sum := sum + xs[i].hour as real;
    }
    assert xs[..|xs|] == xs;
  }

  method SquaresLoop(xs: seq<Observation>, mean: real) returns (ss: real)
    ensures ss == SumSquares(xs, mean)
  {
    ss := 0.0;
    for i := 0 to |xs|
      invariant ss == SumSquares(xs[..i], mean)
    {
      assert xs[..i + 1][..i] == xs[..i];
      var d := xs[i].hour as real - mean;
      ss := ss + d * d;
    }
    assert xs[..|xs|] == xs;
  }

  /** The single pass over the weights, skipping what is outside the window. */
  method DecayedSums(d: Decay, now: int, all: seq<Observation>, cutoff: int) returns (w: real, s: real, q: real)
    requires d.period > 0
    ensures w == SumW(d, now, Kept(all, cutoff))
    ensures s == SumWH(d, now, Kept(all, cutoff))
    ensures q == SumWHH(d, now, Kept(all, cutoff))
  {
    hide SumW, SumWH, SumWHH, Weight, Kept;
    w, s, q := 0.0, 0.0, 0.0;
    SumsNone(d, now, cutoff);
    assert all[..0] == [];
    for i := 0 to |all|
      invariant w == SumW(d, now, Kept(all[..i], cutoff))
      invariant s == SumWH(d, now, Kept(all[..i], cutoff))
      invariant q == SumWHH(d, now, Kept(all[..i], cutoff))
    {
      var o := all[i];
      assert all[..i + 1] == all[..i] + [o];
      KeptAppend(all[..i], o, cutoff);
      if o.at < cutoff {
        assert Kept(all[..i], cutoff) + [] == Kept(all[..i], cutoff);
        continue;
      }
      SumsAppend(d, now, Kept(all[..i], cutoff), o);
      var weight := WeightOf(d, now, o);
      var hour := o.hour as real;
      w := w + weight;
      s := s + weight * hour;
      q := q + weight * hour * hour;
    }
    assert all[..|all|] == all;
  }

  method WeightOf(d: Decay, now: int, o: Observation) returns (weight: real)
    requires d.period > 0
    ensures weight == Weight(d, now, o)
  {
    var age := (now - o.at) as real / d.period as real;
    if age < 0.0 {
      age := 0.0;
    }
    weight := d.m.pow(d.rate, age);
  }

  lemma SumsNone(d: Decay, now: int, cutoff: int)
    requires d.period > 0
    ensures SumW(d, now, Kept([], cutoff)) == SumWH(d, now, Kept([], cutoff)) == SumWHH(d, now, Kept([], cutoff)) == 0.0
  {
  }

  lemma SumsAppend(d: Decay, now: int, obs: seq<Observation>, o: Observation)
    requires d.period > 0
    ensures SumW(d, now, obs + [o]) == SumW(d, now, obs) + Weight(d, now, o)
    ensures SumWH(d, now, obs + [o]) == SumWH(d, now, obs) + Weight(d, now, o) * (o.hour as real)
    ensures SumWHH(d, now, obs + [o]) == SumWHH(d, now, obs) + Weight(d, now, o) * (o.hour as real) * (o.hour as real)
  {
    hide Weight;
    assert (obs + [o])[..|obs|] == obs;
  }

  /** Filling in the dimensions. */
  method Assemble(d: Decay, window: int, kept: seq<Observation>, now: int,
                  hourMean: real, hourStddev: real, w: real, s: real, q: real)
    returns (r: Summary)
    requires d.period > 0 && (hourMean, hourStddev) == MeanStddev(d.m, kept)
    requires w == SumW(d, now, kept) && s == SumWH(d, now, kept) && q == SumWHH(d, now, kept)
    ensures r == Summarise(d, window, kept, now)
  {
    hide SumW, SumWH, SumWHH, MeanStddev, MeanOf, VarianceOf;
    var windowHours := window as real / 3600.0;
    if windowHours < 1.0 {
      windowHours := 1.0;
    }
    var dims: map<string, DimensionStats> := map[];
    var n := |kept| as real;
    if |kept| > 0 {
      var freq := n / windowHours;
      dims := dims[ACTION_FREQUENCY := DimensionStats(n, freq, d.m.sqrt(MaxReal(freq, EPSILON)))];
      dims := dims[HOUR_OF_DAY := DimensionStats(n, hourMean, hourStddev)];
    }
    assert dims == RollingDimensions(d.m, window, kept);
    var decayed := 0.0;
    if w > 0.0 {
      decayed := w;
      var mean := w / windowHours;
      dims := dims[ACTION_FREQUENCY_DECAYED := DimensionStats(w, mean, d.m.sqrt(MaxReal(mean, EPSILON)))];
      dims := dims[HOUR_OF_DAY_DECAYED := DimensionStats(w, MeanOf(w, s), d.m.sqrt(MaxReal(0.0, VarianceOf(w, s, q))))];
    }
    assert dims == RollingDimensions(d.m, window, kept) + DecayedDimensions(d.m, window, w, s, q);
    r := Summary(|kept|, decayed, dims);
  }
}
