/** The tick loop and its watchdog over shared atomics, as interleaved loads, stores, adds and compare-and-swaps. */
module Heartbeat {
  import opened Arithmetic

  datatype Config = Config(interval: int, gapThreshold: int)

  /** NewHeartbeater: two and a half intervals unless a threshold was given. */
  function NewConfig(interval: int, gapThreshold: int): (c: Config)
    ensures c.interval == interval
    ensures gapThreshold == 0 && interval > 0 ==> 2 * c.gapThreshold <= 5 * interval < 2 * c.gapThreshold + 2
    ensures gapThreshold != 0 || interval <= 0 ==> c.gapThreshold == gapThreshold
  {
    Config(interval, if gapThreshold == 0 && interval > 0 then (interval * 5) / 2 else gapThreshold)
  }

  /** Where the tick loop stands after its emit. */
  datatype Tick = AboutToStore | AboutToCount | AboutToClear

  /** Where the watchdog stands. */
  datatype Watch = Resting | HasLast(last: int) | Late(elapsed: int) | Raised(elapsed: int) | Fired(elapsed: int)

  /** The atomics, then the program counters and the number of degraded states a tick has cleared. */
  datatype State = State(
    lastTick: int,
    started: int,
    degraded: bool,
    emitted: nat,
    gapFired: nat,
    missedTicks: int,
    tick: Tick,
    watch: Watch,
    recoveries: nat)

  function Started(now: int): State {
    State(now, now, false, 0, 0, 0, AboutToStore, Resting, 0)
  }

  datatype Step =
    | TickStore(now: int)
    | TickCount
    | TickClear
    | WatchLoad
    | WatchCompare(now: int)
    | WatchRaise
    | WatchFire
    | WatchMiss

  /** Go's integer division, which truncates towards zero. */
  function TruncDiv(a: int, d: int): (q: int)
    requires d > 0
    ensures a >= 0 ==> q >= 0 && d * q <= a < d * q + d
    ensures a < 0 ==> q <= 0 && d * q - d < a <= d * q
  {
    QuotientBounds(if a >= 0 then a else -a, d);
    if a >= 0 then Quotient(a, d) else 0 - Quotient(-a, d)
  }

  predicate Enabled(s: State, step: Step) {
    match step
    case TickStore(_) => s.tick.AboutToStore?
    case TickCount => s.tick.AboutToCount?
    case TickClear => s.tick.AboutToClear?
    case WatchLoad => s.watch.Resting?
    case WatchCompare(_) => s.watch.HasLast?
    case WatchRaise => s.watch.Late?
    case WatchFire => s.watch.Raised?
    case WatchMiss => s.watch.Fired?
  }

  function Do(c: Config, s: State, step: Step): State
    requires c.interval > 0 && Enabled(s, step)
  {
    match step
    case TickStore(now) => s.(lastTick := now, tick := AboutToCount)
    case TickCount => s.(emitted := s.emitted + 1, tick := AboutToClear)
    case TickClear =>
      s.(degraded := false, tick := AboutToStore, recoveries := s.recoveries + (if s.degraded then 1 else 0))
    case WatchLoad => if s.lastTick == 0 || s.started == 0 then s else s.(watch := HasLast(s.lastTick))
    case WatchCompare(now) =>
      var elapsed := now - s.watch.last;
      s.(watch := if elapsed <= c.interval + c.gapThreshold then Resting else Late(elapsed))
    case WatchRaise =>
      if s.degraded then s.(watch := Resting) else s.(degraded := true, watch := Raised(s.watch.elapsed))
    case WatchFire => s.(gapFired := s.gapFired + 1, watch := Fired(s.watch.elapsed))
    case WatchMiss => s.(missedTicks := s.missedTicks + TruncDiv(s.watch.elapsed, c.interval), watch := Resting)
  }

  // -------------------------------------------------------------------- invariant

  /** The fewest intervals an alert can report. */
  function LeastMissed(c: Config): int
    requires c.interval > 0
  {
    TruncDiv(c.interval + c.gapThreshold + 1, c.interval)
  }

  function Elapsed(w: Watch): int {
    match w
    case Late(e) => e
    case Raised(e) => e
    case Fired(e) => e
    case _ => 0
  }

  ghost predicate Balanced(c: Config, s: State)
    requires c.interval > 0
  {
    && s.gapFired + (if s.watch.Raised? then 1 else 0) == s.recoveries + (if s.degraded then 1 else 0)
    && (s.watch.Late? || s.watch.Raised? || s.watch.Fired? ==> Elapsed(s.watch) > c.interval + c.gapThreshold)
    && LeastMissed(c) * s.gapFired <= s.missedTicks + (if s.watch.Fired? then TruncDiv(s.watch.elapsed, c.interval) else 0)
  }

  lemma TruncMonotone(a: int, b: int, d: int)
    requires d > 0 && a <= b
    ensures TruncDiv(a, d) <= TruncDiv(b, d)
  {
    hide Quotient;
    if a >= 0 {
      QuotientMonotone(a, b, d);
    } else if b < 0 {
      QuotientMonotone(-b, -a, d);
    }
  }

  lemma StepBalanced(c: Config, s: State, step: Step)
    requires c.interval > 0 && Balanced(c, s) && Enabled(s, step)
    ensures Balanced(c, Do(c, s, step))
  {
    if step.WatchFire? {
      TruncMonotone(c.interval + c.gapThreshold + 1, s.watch.elapsed, c.interval);
      Distribute(LeastMissed(c), s.gapFired);
    }
  }

  lemma Distribute(q: int, n: int)
    ensures q * (n + 1) == q * n + q
  {
  }

  // ------------------------------------------------------------------------- runs

  ghost predicate IsRun(c: Config, begin: int, steps: seq<Step>, states: seq<State>)
    requires c.interval > 0
  {
    && |states| == |steps| + 1
    && states[0] == Started(begin)
    && forall i | 0 <= i < |steps| :: Enabled(states[i], steps[i]) && states[i + 1] == Do(c, states[i], steps[i])
  }

  lemma {:induction false} RunBalanced(c: Config, begin: int, steps: seq<Step>, states: seq<State>, n: nat)
    requires c.interval > 0 && IsRun(c, begin, steps, states) && n <= |steps|
    ensures Balanced(c, states[n])
    decreases n
  {
    if n > 0 {
      RunBalanced(c, begin, steps, states, n - 1);
      StepBalanced(c, states[n - 1], steps[n - 1]);
    }
  }

  /**
   Watchdog safety with the default threshold: between checks the alerts are the
   recoveries plus one if still degraded, and each stands for three missed ticks
   at least.
   */
  lemma DefaultWatchdog(interval: int, begin: int, steps: seq<Step>, states: seq<State>, n: nat)
    requires interval > 0 && IsRun(NewConfig(interval, 0), begin, steps, states) && n <= |steps|
    requires states[n].watch.Resting?
    ensures states[n].gapFired == states[n].recoveries + (if states[n].degraded then 1 else 0)
    ensures 3 * states[n].gapFired <= states[n].missedTicks
  {
    var c := NewConfig(interval, 0);
    RunBalanced(c, begin, steps, states, n);
    QuotientAtLeast(interval + c.gapThreshold + 1, interval, 3);
    MulMonotone(states[n].gapFired, 3, LeastMissed(c));
  }

  /** An alert is raised by a compare-and-swap that finds the flag down. */
  predicate Raises(s: State, step: Step) {
    step.WatchRaise? && !s.degraded
  }

  predicate Clears(s: State, step: Step) {
    step.TickClear? && s.degraded
  }

  lemma {:induction false} StaysDegraded(c: Config, begin: int, steps: seq<Step>, states: seq<State>, i: nat, j: nat)
    requires c.interval > 0 && IsRun(c, begin, steps, states) && i < j <= |steps|
    requires Raises(states[i], steps[i])
    requires forall k | i < k < j :: !Clears(states[k], steps[k])
    ensures states[j].degraded
    decreases j
  {
    if j > i + 1 {
      StaysDegraded(c, begin, steps, states, i, j - 1);
    }
  }

  /** Between two alerts of any run some tick has cleared the first. */
  lemma ClearedBetween(c: Config, begin: int, steps: seq<Step>, states: seq<State>, i: nat, j: nat)
    requires c.interval > 0 && IsRun(c, begin, steps, states) && i < j < |steps|
    requires Raises(states[i], steps[i]) && Raises(states[j], steps[j])
    ensures exists k :: i < k < j && Clears(states[k], steps[k])
  {
    if forall k | i < k < j :: !Clears(states[k], steps[k]) {
      StaysDegraded(c, begin, steps, states, i, j);
    }
  }

  // -------------------------------------------------------------------- the object

  /** The two bodies as the goroutines run them, each action a step of the model. */
  class Heartbeater {
    const config: Config
    var lastTickUnixNano: int
    var startedAtUnixNano: int
    var degraded: bool
    var emitted: nat
    var gapFired: nat
    var missedTicks: int
    ghost var recoveries: nat

    ghost function View(): State
      reads this
    {
      State(lastTickUnixNano, startedAtUnixNano, degraded, emitted, gapFired, missedTicks, AboutToStore, Resting, recoveries)
    }

    ghost predicate Valid()
      reads this
    {
      config.interval > 0 && Balanced(config, View())
    }

    constructor (interval: int, gapThreshold: int, now: int)
      requires interval > 0
      ensures Valid() && View() == Started(now) && config == NewConfig(interval, gapThreshold)
    {
      config := NewConfig(interval, gapThreshold);
      lastTickUnixNano, startedAtUnixNano, degraded := now, now, false;
      emitted, gapFired, missedTicks, recoveries := 0, 0, 0, 0;
    }

    /** After the emit returned at `now`. */
    method EmitOneTick(now: int)
      requires Valid()
      modifies this
      ensures Valid()
      ensures View() == Do(config, Do(config, Do(config, old(View()), TickStore(now)), TickCount), TickClear)
      ensures !degraded && recoveries == old(recoveries) + (if old(degraded) then 1 else 0)
    {
      lastTickUnixNano := now;
      emitted := emitted + 1;
      if degraded {
        degraded := false;
        recoveries := recoveries + 1;
      }
    }

    /** One watchdog check at `now`, with no tick in between. */
    method CheckGap(now: int) returns (alerted: bool)
      requires Valid()
      modifies this
      ensures Valid()
      ensures alerted <==> old(lastTickUnixNano) != 0 && old(startedAtUnixNano) != 0 && !old(degraded)
                           && now - old(lastTickUnixNano) > config.interval + config.gapThreshold
      ensures View() == if !alerted then old(View())
                        else old(View()).(degraded := true, gapFired := old(gapFired) + 1,
                                          missedTicks := old(missedTicks) + TruncDiv(now - old(lastTickUnixNano), config.interval))
    {
      var last := lastTickUnixNano;
      if last == 0 || startedAtUnixNano == 0 {
        return false;
      }
      var elapsed := now - last;
      if elapsed <= config.interval + config.gapThreshold {
        return false;
      }
      if degraded {
        return false;
      }
      TruncMonotone(config.interval + config.gapThreshold + 1, elapsed, config.interval);
      Distribute(LeastMissed(config), gapFired);
      degraded := true;
      gapFired := gapFired + 1;
      missedTicks := missedTicks + TruncDiv(elapsed, config.interval);
      return true;
    }
  }
}
