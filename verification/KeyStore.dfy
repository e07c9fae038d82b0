/** The baseline store as a value, and what every step of it keeps. */
module KeyStore {
  import opened Wrappers
  import opened Stats
  import opened Baseline

  /**
   The store's maps and counter, and beside them what a store that never prunes
   would hold for the live keys, the number of keys ever created and the latest
   clock reading used for pruning.
   */
  datatype Store = Store(
    rolling: map<Key, seq<Observation>>,
    lastSeen: map<Key, int>,
    dropped: nat,
    history: map<Key, seq<Observation>>,
    created: nat,
    clock: int)

  const EMPTY := Store(map[], map[], 0, map[], 0, 0)

  function SeenAt(lastSeen: map<Key, int>, k: Key): Option<int> {
    if k in lastSeen then Some(lastSeen[k]) else None
  }

  /** Go's map lookup: zero when absent. */
  function Seen(lastSeen: map<Key, int>, k: Key): int {
    if k in lastSeen then lastSeen[k] else 0
  }

  /** Inside any window a reader may still ask for, pruned and full history agree. */
  ghost predicate SameWindow(obs: seq<Observation>, past: seq<Observation>, oldest: int) {
    forall cutoff | cutoff >= oldest :: Kept(obs, cutoff) == Kept(past, cutoff)
  }

  ghost predicate KeyOk(oldest: int, obs: seq<Observation>, past: seq<Observation>, seen: Option<int>) {
    && past != []
    && ValidHours(obs)
    && SameWindow(obs, past, oldest)
    && seen == (if Newest(past) > 0 then Some(Newest(past)) else None)
  }

  ghost predicate Consistent(window: int, s: Store) {
    && |s.rolling| <= MAX_DISTINCT_KEYS
    && s.created == |s.rolling| + s.dropped
    && s.history.Keys == s.rolling.Keys
    && s.lastSeen.Keys <= s.rolling.Keys
    && forall k | k in s.rolling :: KeyOk(s.clock - window, s.rolling[k], s.history[k], SeenAt(s.lastSeen, k))
  }

  // ----------------------------------------------------------------------- steps

  function Evicted(s: Store, k: Key): Store {
    s.(rolling := s.rolling - {k}, lastSeen := s.lastSeen - {k}, history := s.history - {k}, dropped := s.dropped + 1)
  }

  ghost predicate LeastRecent(s: Store, k: Key) {
    k in s.rolling && forall j | j in s.rolling :: Seen(s.lastSeen, k) <= Seen(s.lastSeen, j)
  }

  /** At the cap one least recently observed key goes, below it none. */
  ghost predicate MakesRoom(s: Store, t: Store) {
    if |s.rolling| < MAX_DISTINCT_KEYS then t == s
    else exists victim :: LeastRecent(s, victim) && t == Evicted(s, victim)
  }

  function Past(m: map<Key, seq<Observation>>, k: Key): seq<Observation> {
    if k in m then m[k] else []
  }

  function Later(a: int, b: int): int {
    if b > a then b else a
  }

  function Recorded(window: int, s: Store, k: Key, o: Observation, now: int): Store {
    Store(s.rolling[k := Kept(Past(s.rolling, k) + [o], now - window)],
          if o.at > Seen(s.lastSeen, k) then s.lastSeen[k := o.at] else s.lastSeen,
          s.dropped,
          s.history[k := Past(s.history, k) + [o]],
          s.created + (if k in s.rolling then 0 else 1),
          Later(s.clock, now))
  }

  /** Recording event `ts` of a key once there is room for it. */
  ghost predicate RecordsIn(window: int, s: Store, room: Store, k: Key, ts: int, now: int, t: Store) {
    (if k in s.rolling then room == s else MakesRoom(s, room))
    && t == Recorded(window, room, k, Observation(ts, HourOf(ts)), now)
  }

  /** One call of Observe: a non-positive time means now, an empty action is ignored. */
  ghost predicate Observes(window: int, s: Store, k: Key, observedAt: int, now: int, t: Store) {
    if k.action == "" then t == s
    else
      var ts := if observedAt <= 0 then now else observedAt;
      exists room :: RecordsIn(window, s, room, k, ts, now, t)
  }

  // ------------------------------------------------------------------ what is kept

  lemma SmallerMap<V>(m: map<Key, V>, k: Key)
    requires k in m
    ensures |m - {k}| == |m| - 1
  {
    assert (m - {k}).Keys == m.Keys - {k};
  }

  lemma EvictConsistent(window: int, s: Store, k: Key)
    requires Consistent(window, s) && k in s.rolling
    ensures Consistent(window, Evicted(s, k)) && |Evicted(s, k).rolling| == |s.rolling| - 1
  {
    hide KeyOk;
    SmallerMap(s.rolling, k);
    var t := Evicted(s, k);
    forall j | j in t.rolling ensures KeyOk(t.clock - window, t.rolling[j], t.history[j], SeenAt(t.lastSeen, j)) {
      assert SeenAt(t.lastSeen, j) == SeenAt(s.lastSeen, j);
    }
  }

  /** Appending to both and pruning one keeps them the same inside the window. */
  lemma WindowAppend(obs: seq<Observation>, past: seq<Observation>, oldest: int, o: Observation, cutoff: int)
    requires SameWindow(obs, past, oldest)
    ensures SameWindow(Kept(obs + [o], cutoff), past + [o], Later(oldest, cutoff))
  {
    forall c | c >= Later(oldest, cutoff) ensures Kept(Kept(obs + [o], cutoff), c) == Kept(past + [o], c) {
      KeptTwice(obs + [o], cutoff, c);
      KeptAppend(obs, o, c);
      KeptAppend(past, o, c);
    }
  }

  lemma NewestAppend(past: seq<Observation>, o: Observation)
    ensures Newest(past + [o]) == if o.at > Newest(past) then o.at else Newest(past)
  {
    assert (past + [o])[..|past|] == past;
  }

  lemma KeyRecord(window: int, clock: int, now: int, obs: seq<Observation>, past: seq<Observation>, seen: Option<int>, o: Observation)
    requires (obs == [] && past == [] && seen.None?) || KeyOk(clock - window, obs, past, seen)
    requires 0 <= o.hour < 24
    ensures var before := if seen.Some? then seen.value else 0;
            KeyOk(Later(clock, now) - window, Kept(obs + [o], now - window), past + [o], if o.at > before then Some(o.at) else seen)
  {
    hide Kept, Newest;
    WindowAppend(obs, past, clock - window, o, now - window);
    NewestAppend(past, o);
    NewestNone();
    KeptHours(obs + [o], now - window);
  }

  lemma NewestNone()
    ensures Newest([]) == 0
  {
  }

  lemma RecordConsistent(window: int, s: Store, k: Key, o: Observation, now: int)
    requires Consistent(window, s) && (k in s.rolling || |s.rolling| < MAX_DISTINCT_KEYS) && 0 <= o.hour < 24
    ensures Consistent(window, Recorded(window, s, k, o, now))
  {
    hide KeyOk;
    var t := Recorded(window, s, k, o, now);
    assert t.rolling.Keys == s.rolling.Keys + {k};
    forall j | j in t.rolling ensures KeyOk(t.clock - window, t.rolling[j], t.history[j], SeenAt(t.lastSeen, j)) {
      if j == k {
        KeyRecord(window, s.clock, now, Past(s.rolling, k), Past(s.history, k), SeenAt(s.lastSeen, k), o);
      } else {
        assert SeenAt(t.lastSeen, j) == SeenAt(s.lastSeen, j);
        KeyLater(s.clock - window, t.clock - window, s.rolling[j], s.history[j], SeenAt(s.lastSeen, j));
      }
    }
  }

  lemma KeyLater(oldest: int, later: int, obs: seq<Observation>, past: seq<Observation>, seen: Option<int>)
    requires KeyOk(oldest, obs, past, seen) && oldest <= later
    ensures KeyOk(later, obs, past, seen)
  {
  }

  lemma ObserveConsistent(window: int, s: Store, k: Key, observedAt: int, now: int, t: Store)
    requires Consistent(window, s) && Observes(window, s, k, observedAt, now, t)
    ensures Consistent(window, t)
  {
    hide Consistent, Recorded, Evicted;
    if k.action != "" {
      var ts := if observedAt <= 0 then now else observedAt;
      var room :| RecordsIn(window, s, room, k, ts, now, t);
      RoomConsistent(window, s, k, room);
      RecordConsistent(window, room, k, Observation(ts, HourOf(ts)), now);
    }
  }

  lemma RoomConsistent(window: int, s: Store, k: Key, room: Store)
    requires Consistent(window, s) && (if k in s.rolling then room == s else MakesRoom(s, room))
    ensures Consistent(window, room) && (k in room.rolling || |room.rolling| < MAX_DISTINCT_KEYS)
  {
    hide KeyOk, Evicted;
    if k !in s.rolling && |s.rolling| >= MAX_DISTINCT_KEYS {
      var victim :| LeastRecent(s, victim) && room == Evicted(s, victim);
      EvictConsistent(window, s, victim);
    }
  }

  // ------------------------------------------------------------------------- runs

  datatype Call = Call(key: Key, observedAt: int, now: int)

  /** `stores` are the states of a run of Observe calls from the empty store. */
  ghost predicate IsRun(window: int, calls: seq<Call>, stores: seq<Store>) {
    && |stores| == |calls| + 1
    && stores[0] == EMPTY
    && forall i | 0 <= i < |calls| ::
         Observes(window, stores[i], calls[i].key, calls[i].observedAt, calls[i].now, stores[i + 1])
  }

  lemma {:induction false} RunConsistent(window: int, calls: seq<Call>, stores: seq<Store>, n: nat)
    requires IsRun(window, calls, stores) && n <= |calls|
    ensures Consistent(window, stores[n])
    decreases n
  {
    hide KeyOk, Observes, IsRun;
    assert stores[0] == EMPTY && |stores| == |calls| + 1 by { RunStep(window, calls, stores, 0); }
    if n > 0 {
      RunStep(window, calls, stores, n);
      RunConsistent(window, calls, stores, n - 1);
      var c := calls[n - 1];
      ObserveConsistent(window, stores[n - 1], c.key, c.observedAt, c.now, stores[n]);
    }
  }

  lemma RunStep(window: int, calls: seq<Call>, stores: seq<Store>, n: nat)
    requires IsRun(window, calls, stores) && n <= |calls|
    ensures stores[0] == EMPTY && |stores| == |calls| + 1
    ensures n > 0 ==> Observes(window, stores[n - 1], calls[n - 1].key, calls[n - 1].observedAt, calls[n - 1].now, stores[n])
  {
  }

  /** Every recorded time is positive. */
  ghost predicate AllPositive(s: Store) {
    forall k | k in s.history :: Positive(s.history[k])
  }

  ghost predicate Positive(obs: seq<Observation>) {
    forall i | 0 <= i < |obs| :: obs[i].at > 0
  }

  lemma NewestPositive(obs: seq<Observation>)
    requires obs != [] && Positive(obs)
    ensures Newest(obs) > 0
  {
  }

  lemma ObservePositive(window: int, s: Store, c: Call, t: Store)
    requires AllPositive(s) && c.now > 0 && Observes(window, s, c.key, c.observedAt, c.now, t)
    ensures AllPositive(t)
  {
    hide LeastRecent, Recorded, AllPositive, HourOf;
    if c.key.action != "" {
      var ts := if c.observedAt <= 0 then c.now else c.observedAt;
      var room :| RecordsIn(window, s, room, c.key, ts, c.now, t);
      RoomPositive(s, room);
      RecordPositive(window, room, c.key, Observation(ts, HourOf(ts)), c.now);
    }
  }

  lemma RoomPositive(s: Store, room: Store)
    requires AllPositive(s) && (room == s || MakesRoom(s, room))
    ensures AllPositive(room)
  {
    hide LeastRecent, Positive;
  }

  lemma RecordPositive(window: int, s: Store, k: Key, o: Observation, now: int)
    requires AllPositive(s) && o.at > 0
    ensures AllPositive(Recorded(window, s, k, o, now))
  {
    hide Kept;
  }

  /** As long as the clock reads positive, both maps have the same keys in every state of a run. */
  lemma {:induction false} PositiveClockAligns(window: int, calls: seq<Call>, stores: seq<Store>, n: nat)
    requires IsRun(window, calls, stores) && n <= |calls|
    requires forall i | 0 <= i < n :: calls[i].now > 0
    ensures stores[n].lastSeen.Keys == stores[n].rolling.Keys
  {
    RunPositive(window, calls, stores, n);
    RunConsistent(window, calls, stores, n);
    PositiveAligns(window, stores[n]);
  }

  lemma {:induction false} RunPositive(window: int, calls: seq<Call>, stores: seq<Store>, n: nat)
    requires IsRun(window, calls, stores) && n <= |calls|
    requires forall i | 0 <= i < n :: calls[i].now > 0
    ensures AllPositive(stores[n])
    decreases n
  {
    hide Observes, IsRun;
    RunStep(window, calls, stores, n);
    if n > 0 {
      RunPositive(window, calls, stores, n - 1);
      ObservePositive(window, stores[n - 1], calls[n - 1], stores[n]);
    }
  }

  lemma PositiveAligns(window: int, s: Store)
    requires Consistent(window, s) && AllPositive(s)
    ensures s.lastSeen.Keys == s.rolling.Keys
  {
    hide Kept, Newest;
    forall k | k in s.rolling ensures k in s.lastSeen {
      assert KeyOk(s.clock - window, s.rolling[k], s.history[k], SeenAt(s.lastSeen, k));
      NewestPositive(s.history[k]);
    }
  }

  /**
   Pruning is invisible: a summary or a recent rate asked for at or after the
   last pruning is the one a store without pruning would give.
   */
  lemma PruningIsInvisible(window: int, s: Store, k: Key, now: int)
    requires Consistent(window, s) && now >= s.clock
    ensures Kept(Past(s.rolling, k), now - window) == Kept(Past(s.history, k), now - window)
    ensures window >= RECENT_RATE_WINDOW ==>
              Kept(Past(s.rolling, k), now - RECENT_RATE_WINDOW) == Kept(Past(s.history, k), now - RECENT_RATE_WINDOW)
  {
    hide Kept, Newest;
    if k in s.rolling {
      assert KeyOk(s.clock - window, s.rolling[k], s.history[k], SeenAt(s.lastSeen, k));
    }
  }

  /** The recent rate counts what it would count in the full history. */
  ghost predicate RateAgrees(s: Store, k: Key, now: int) {
    |Kept(Past(s.rolling, k), now - RECENT_RATE_WINDOW)| == |Kept(Past(s.history, k), now - RECENT_RATE_WINDOW)|
  }

  /** The recent rate of every key is exact after every run, at every time not before the last pruning. */
  ghost predicate RateExact(window: int) {
    forall calls, stores: seq<Store>, k, now | IsRun(window, calls, stores) && now >= stores[|calls|].clock ::
      RateAgrees(stores[|calls|], k, now)
  }

  const EARLY := 5000

  /** Two events of one key, the first just outside the window when the second is recorded. */
  function LossCalls(window: int, k: Key): seq<Call> {
    [Call(k, 0, EARLY), Call(k, 0, EARLY + window + 1)]
  }

  function LossStores(window: int, k: Key): seq<Store> {
    var late := EARLY + window + 1;
    var first := Recorded(window, EMPTY, k, Observation(EARLY, HourOf(EARLY)), EARLY);
    [EMPTY, first, Recorded(window, first, k, Observation(late, HourOf(late)), late)]
  }

  lemma LossIsRun(window: int, k: Key)
    requires window > 0 && k.action != ""
    ensures IsRun(window, LossCalls(window, k), LossStores(window, k))
  {
    hide Recorded;
    var late := EARLY + window + 1;
    var stores := LossStores(window, k);
    assert RecordsIn(window, EMPTY, EMPTY, k, EARLY, EARLY, stores[1]);
    assert Observes(window, EMPTY, k, 0, EARLY, stores[1]);
    assert k in stores[1].rolling by { KeyRecorded(window, EMPTY, k, Observation(EARLY, HourOf(EARLY)), EARLY); }
    assert RecordsIn(window, stores[1], stores[1], k, late, late, stores[2]);
    assert Observes(window, stores[1], k, 0, late, stores[2]);
  }

  lemma KeyRecorded(window: int, s: Store, k: Key, o: Observation, now: int)
    ensures k in Recorded(window, s, k, o, now).rolling
  {
  }

  /** For every shorter window there is a run after which the recent rate misses a pruned event. */
  lemma ShortWindowLosesRate(window: int, k: Key)
    requires 0 < window < RECENT_RATE_WINDOW && k.action != ""
    ensures IsRun(window, LossCalls(window, k), LossStores(window, k))
    ensures var s := LossStores(window, k)[2];
            |Kept(Past(s.rolling, k), s.clock - RECENT_RATE_WINDOW)| == 1
            && |Kept(Past(s.history, k), s.clock - RECENT_RATE_WINDOW)| == 2
  {
    LossIsRun(window, k);
    var t := EARLY + window + 1;
    var o, p := Observation(EARLY, HourOf(EARLY)), Observation(t, HourOf(t));
    KeptOne(o, EARLY - window);
    KeptTwo(o, p, t - window);
    KeptOne(p, t - RECENT_RATE_WINDOW);
    KeptTwo(o, p, t - RECENT_RATE_WINDOW);
    hide Kept, IsRun, HourOf;
    assert [] + [o] == [o] && [o] + [p] == [o, p];
    var first := Recorded(window, EMPTY, k, o, EARLY);
    assert Past(first.rolling, k) == [o] && Past(first.history, k) == [o];
    var second := Recorded(window, first, k, p, t);
    assert second == LossStores(window, k)[2];
    assert Past(second.rolling, k) == Kept([o, p], t - window) == [p];
    assert Past(second.history, k) == [o, p];
  }

  /** The recent rate is exact in all runs if and only if the window covers its hour. */
  lemma RateExactIff(window: int)
    requires window > 0
    ensures RateExact(window) <==> window >= RECENT_RATE_WINDOW
  {
    hide Kept, Observes, Consistent, LossCalls, LossStores, Past;
    if window >= RECENT_RATE_WINDOW {
      forall calls, stores: seq<Store>, k, now | IsRun(window, calls, stores) && now >= stores[|calls|].clock
        ensures RateAgrees(stores[|calls|], k, now)
      {
        RunConsistent(window, calls, stores, |calls|);
        PruningIsInvisible(window, stores[|calls|], k, now);
      }
    } else {
      var k := Key("", "read", "");
      ShortWindowLosesRate(window, k);
      LossLengths(window, k);
      var calls, stores := LossCalls(window, k), LossStores(window, k);
      assert IsRun(window, calls, stores) && !RateAgrees(stores[|calls|], k, stores[2].clock);
    }
  }

  lemma LossLengths(window: int, k: Key)
    ensures |LossCalls(window, k)| == 2 && |LossStores(window, k)| == 3
  {
  }

  lemma KeptOne(o: Observation, cutoff: int)
    ensures Kept([o], cutoff) == if o.at >= cutoff then [o] else []
  {
    KeptAppend([], o, cutoff);
    assert [] + [o] == [o];
  }

  lemma KeptTwo(o: Observation, p: Observation, cutoff: int)
    ensures Kept([o, p], cutoff) == (if o.at >= cutoff then [o] else []) + (if p.at >= cutoff then [p] else [])
  {
    KeptOne(o, cutoff);
    KeptAppend([o], p, cutoff);
    assert [o] + [p] == [o, p];
  }
}
