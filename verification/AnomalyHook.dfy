/** The two calls around each request: Decide before it is served, Run after. */
module AnomalyHook {
  import opened Wrappers
  import opened Stats
  import opened Baseline
  import opened KeyStore
  import Stores = BaselineStore
  import opened Detector

  const ALLOW := "allow"
  const DENY := "deny"

  /** One request: its baseline key, the raw resource, and the deterministic floor. */
  datatype Request = Request(key: Key, resource: string, floor: string)

  datatype HookResult = HookResult(decision: string, tightened: bool, verdict: Option<Verdict>, emittedAlert: bool)

  /** An empty floor means allow. */
  function FloorOf(floor: string): string {
    if floor == "" then ALLOW else floor
  }

  datatype Counters = Counters(scored: nat, flagged: nat, emitted: nat)

  /** The counters after scoring one request. */
  function Counted(c: Counters, v: Verdict, hasEmitter: bool): Counters {
    var flag := if v == Anomalous then 1 else 0;
    Counters(c.scored + 1, c.flagged + flag, c.emitted + (if hasEmitter then flag else 0))
  }

  /** Run treats a zero hour with a zero count as "not provided". */
  function Provided(hour: int, count: real): (given: (int, real))
    ensures hour != 0 || count != 0.0 ==> given == (hour, count)
    ensures hour == 0 && count == 0.0 ==> given.0 < 0 && given.1 < 0.0
  {
    if hour == 0 && count == 0.0 then (-1, -1.0) else (hour, count)
  }

  function SummaryAt(d: Decay, window: int, s: Store, k: Key, now: int): Summary
    requires d.period > 0
  {
    Summarise(d, window, Kept(Past(s.rolling, k), now - window), now)
  }

  /** The verdict on a request from the signals of the store at `now`. */
  ghost function LiveVerdict(lower: Lowering, d: Decay, window: int, cfg: Config, s: Store, req: Request, now: int): Verdict
    requires d.period > 0
  {
    var rate := |Kept(Past(s.rolling, req.key), now - RECENT_RATE_WINDOW)| as real;
    VerdictOf(lower, ScoreInput(req.key.action, req.resource, HourOf(now), rate), SummaryAt(d, window, s, req.key, now), cfg)
  }

  class Hook {
    const cfg: Config
    const exp: Exp
    const lower: Lowering
    const store: Stores.BaselineStore
    const detectionOnly: bool
    const hasEmitter: bool
    var scored: nat
    var flagged: nat
    var emitted: nat

    ghost predicate Valid()
      reads this, store
    {
      store.Valid() && store.decay.period > 0 && IsExp(exp) && emitted <= flagged <= scored
    }

    ghost function Count(): Counters
      reads this
    {
      Counters(scored, flagged, emitted)
    }

    constructor (cfg: Config, exp: Exp, lower: Lowering, store: Stores.BaselineStore, detectionOnly: bool, hasEmitter: bool)
      requires store.Valid() && store.decay.period > 0 && IsExp(exp)
      ensures Valid() && Count() == Counters(0, 0, 0)
      ensures this.cfg == cfg && this.store == store && this.detectionOnly == detectionOnly && this.hasEmitter == hasEmitter
    {
      this.cfg, this.exp, this.lower, this.store := cfg, exp, lower, store;
      this.detectionOnly, this.hasEmitter := detectionOnly, hasEmitter;
      scored, flagged, emitted := 0, 0, 0;
    }

    function EffectiveMode(): Mode {
      if detectionOnly then Alert else cfg.mode
    }

    /** Whether Decide consults the detector on a request. */
    predicate Enforces(floor: string) {
      cfg.enabled && cfg.mode == Block && !detectionOnly && FloorOf(floor) != DENY
    }

    /** Whether Run scores a request whose verdict so far is `floor`. */
    predicate Surfaces(floor: string) {
      cfg.enabled && EffectiveMode() == Alert && (FloorOf(floor) != DENY || detectionOnly)
    }

    /** Before the request is served; never looser than the floor, and nothing is learned. */
    method Decide(req: Request, now: int) returns (r: HookResult)
      requires Valid()
      modifies this
      ensures Valid()
      ensures r.decision == if r.tightened then DENY else FloorOf(req.floor)
      ensures r.tightened <==> Enforces(req.floor)
                               && LiveVerdict(lower, store.decay, store.windowSeconds, cfg, store.View(), req, now) == Anomalous
      ensures r.verdict.Some? <==> Enforces(req.floor)
      ensures Count() == if r.verdict.Some? then Counted(old(Count()), r.verdict.value, hasEmitter) else old(Count())
      ensures r.emittedAlert <==> r.tightened && hasEmitter
      ensures r.tightened ==> cfg.enabled && cfg.mode == Block && !detectionOnly && req.floor != "deny"
      ensures var consulted := cfg.enabled && cfg.mode == Block && !detectionOnly && req.floor != "deny";
              var hit := if consulted && r.tightened then 1 else 0;
              && scored == old(scored) + (if consulted then 1 else 0)
              && flagged == old(flagged) + hit
              && emitted == old(emitted) + (if hasEmitter then hit else 0)
    {
      hide Summarise, Kept, VerdictOf, IsExp, Consistent;
      var floor := FloorOf(req.floor);
      if !cfg.enabled {
        return HookResult(floor, false, None, false);
      }
      if floor == DENY {
        return HookResult(DENY, false, None, false);
      }
      if EffectiveMode() != Block || detectionOnly {
        return HookResult(floor, false, None, false);
      }
      var v := ScoreLive(req, now);
      var alerted := Tally(v);
      if v != Anomalous {
        return HookResult(floor, false, Some(v), false);
      }
      return HookResult(DENY, true, Some(v), alerted);
    }

    method ScoreLive(req: Request, now: int) returns (v: Verdict)
      requires Valid()
      ensures v == LiveVerdict(lower, store.decay, store.windowSeconds, cfg, store.View(), req, now)
      ensures var rate := |Kept(Past(store.rolling, req.key), now - 3600)| as real;
              var live := ScoreInput(req.key.action, req.resource, HourOf(now), rate);
              var summary := Summarise(store.decay, store.windowSeconds,
                                       Kept(Past(store.rolling, req.key), now - store.windowSeconds), now);
              v == if summary.rolling < cfg.minActions then
                     if cfg.coldStartFallback && Adversarial(lower, req.key.action, req.resource) then Anomalous else InsufficientData
                   else if exists n :: n in summary.dimensions && Strays(n, summary.dimensions[n], live, SigmaThreshold(cfg))
                   then Anomalous else Normal
    {
      hide Strays, Adversarial;
      hide Summarise, Kept, VerdictOf, IsExp, Consistent;
      var rate := store.RecentRate(req.key, now);
      var summary := store.SummaryFor(req.key, now);
      var res := ScoreAnomaly(exp, lower, ScoreInput(req.key.action, req.resource, HourOf(now), rate as real), summary, cfg);
      v := res.verdict;
    }

    /** Scored, and when anomalous flagged and emitted. */
    method Tally(v: Verdict) returns (alerted: bool)
      requires emitted <= flagged <= scored
      modifies this
      ensures Count() == Counted(old(Count()), v, hasEmitter)
      ensures emitted <= flagged <= scored
      ensures alerted <==> v == Anomalous && hasEmitter
    {
      scored := scored + 1;
      alerted := false;
      if v == Anomalous {
        flagged := flagged + 1;
        if hasEmitter {
          alerted := true;
          emitted := emitted + 1;
        }
      }
    }

    /** After the request: learns, and in alert mode scores. The decision passes through. */
    method Run(req: Request, hour: int, count: real, record: bool, now: int) returns (r: HookResult)
      requires Valid()
      modifies this, store
      ensures Valid()
      ensures r.decision == FloorOf(req.floor) && !r.tightened
      ensures if cfg.enabled && record then Observes(store.windowSeconds, old(store.View()), req.key, 0, now, store.View())
              else store.View() == old(store.View())
      ensures r.verdict.Some? <==> Surfaces(req.floor)
      ensures r.verdict.Some? ==>
                r.verdict.value == VerdictOf(lower, ScoreInput(req.key.action, req.resource, Provided(hour, count).0, Provided(hour, count).1),
                                             SummaryAt(store.decay, store.windowSeconds, store.View(), req.key, now), cfg)
      ensures Count() == if r.verdict.Some? then Counted(old(Count()), r.verdict.value, hasEmitter) else old(Count())
      ensures r.emittedAlert <==> r.verdict == Some(Anomalous) && hasEmitter
      ensures var surfaced := cfg.enabled && (cfg.mode == Alert || detectionOnly) && (req.floor != "deny" || detectionOnly);
              var hit := if surfaced && r.verdict == Some(Anomalous) then 1 else 0;
              && (r.verdict.Some? <==> surfaced)
              && scored == old(scored) + (if surfaced then 1 else 0)
              && flagged == old(flagged) + hit
              && emitted == old(emitted) + (if hasEmitter then hit else 0)
    {
      hide Summarise, Kept, VerdictOf, IsExp, Consistent, Observes;
      var floor := FloorOf(req.floor);
      if !cfg.enabled {
        return HookResult(floor, false, None, false);
      }
      if record {
        store.Observe(req.key, 0, now);
      }
      if floor == DENY && !detectionOnly {
        return HookResult(DENY, false, None, false);
      }
      if EffectiveMode() == Block && !detectionOnly {
        return HookResult(floor, false, None, false);
      }
      var summary := store.SummaryFor(req.key, now);
      var signals := Provided(hour, count);
      var res := ScoreAnomaly(exp, lower, ScoreInput(req.key.action, req.resource, signals.0, signals.1), summary, cfg);
      var alerted := Tally(res.verdict);
      return HookResult(floor, false, Some(res.verdict), alerted);
    }

    /** With the detector on every request is scored, one that is denied anyway only in detection-only mode. */
    predicate Scores(req: Request) {
      cfg.enabled && (req.floor != "deny" || detectionOnly)
    }

    ghost function CountScored(requests: seq<Request>): nat {
      if requests == [] then 0
      else CountScored(requests[..|requests| - 1]) + (if Scores(requests[|requests| - 1]) then 1 else 0)
    }

    /** A whole request: the decision served is Decide's, and Run sees it as its floor. */
    method Handle(req: Request, decidedAt: int, count: real, ranAt: int) returns (decision: string)
      requires Valid()
      modifies this, store
      ensures Valid()
      ensures decision == FloorOf(req.floor) || decision == DENY
      ensures decision == DENY <==> FloorOf(req.floor) == DENY
                                    || (Enforces(req.floor)
                                        && old(LiveVerdict(lower, store.decay, store.windowSeconds, cfg, store.View(), req, decidedAt)) == Anomalous)
      ensures scored <= old(scored) + 1
      ensures emitted <= old(emitted) + 1
      ensures emitted - old(emitted) <= flagged - old(flagged) <= scored - old(scored)
      ensures cfg.enabled ==> Observes(store.windowSeconds, old(store.View()), req.key, 0, ranAt, store.View())
      ensures scored == old(scored) + (if Scores(req) then 1 else 0)
      ensures cfg.mode == Alert || detectionOnly ==>
                var hit := Scores(req)
                           && VerdictOf(lower,
                                        ScoreInput(req.key.action, req.resource, Provided(HourOf(ranAt), count).0, Provided(HourOf(ranAt), count).1),
                                        SummaryAt(store.decay, store.windowSeconds, store.View(), req.key, ranAt), cfg) == Anomalous;
                && flagged == old(flagged) + (if hit then 1 else 0)
                && emitted == old(emitted) + (if hit && hasEmitter then 1 else 0)
    {
      hide Summarise, Kept, VerdictOf, IsExp, Consistent, Observes, LiveVerdict;
      var d := Decide(req, decidedAt);
      decision := d.decision;
      var _ := Run(req.(floor := decision), HourOf(ranAt), count, true, ranAt);
    }

    /** Any sequence of requests; `ranAt` is the clock when Run is called, after the request was served. */
    method HandleAll(requests: seq<Request>, decidedAt: seq<int>, rates: seq<real>, ranAt: seq<int>) returns (decisions: seq<string>)
      requires Valid() && |decidedAt| == |rates| == |ranAt| == |requests|
      modifies this, store
      ensures Valid()
      ensures |decisions| == |requests|
      ensures forall i | 0 <= i < |requests| :: decisions[i] == FloorOf(requests[i].floor) || decisions[i] == DENY
      ensures emitted <= flagged <= scored <= old(scored) + |requests|
      ensures scored == old(scored) + CountScored(requests)
    {
      hide Consistent, IsExp, Observes;
      decisions := [];
      for i := 0 to |requests|
        invariant Valid() && |decisions| == i
        invariant forall j | 0 <= j < i :: decisions[j] == FloorOf(requests[j].floor) || decisions[j] == DENY
        invariant scored <= old(scored) + i
        invariant scored == old(scored) + CountScored(requests[..i])
      {
        assert requests[..i + 1][..i] == requests[..i];
        var d := Handle(requests[i], decidedAt[i], rates[i], ranAt[i]);
        decisions := decisions + [d];
      }
      assert requests[..|requests|] == requests;
    }
  }
}
