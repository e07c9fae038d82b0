/**
 Producers and the worker of the webhook as interleaved steps. Each step is one
 atomic action of the program: a channel operation, an atomic add, or a locked
 section.
 */
module WebhookProtocol {
  import opened Webhook

  datatype Config = Config(capacity: nat, batchSize: nat)

  /** Where the worker stands; `closing` says that it found the channel closed. */
  datatype Phase<E> =
    | Idle
    | Filling(buf: seq<E>)
    | Flushing(buf: seq<E>)
    | SendingSynthetic(buf: seq<E>)
    | BumpSynthetic(buf: seq<E>)
    | Sending(buf: seq<E>, closing: bool)
    | BumpBatch(n: nat, closing: bool)
    | Exited

  /** The program's variables, then what has been offered, accepted, handed to delivery, announced and forgotten. */
  datatype State<E> = State(
    queue: seq<E>,
    closed: bool,
    phase: Phase<E>,
    dropped: nat,
    delivered: nat,
    droppedSince: nat,
    unbumped: nat,
    offered: nat,
    accepted: seq<E>,
    handed: seq<seq<E>>,
    announced: seq<nat>,
    forgotten: nat)

  datatype Step<E> =
    | PushAccept(e: E)
    | PushDrop
    | ProducerBump
    | Close
    | Receive
    | Fill
    | Flush
    | FlushClosed
    | Exit
    | TakeDropped
    | SyntheticDone(outcome: Outcome)
    | SyntheticBump
    | BatchDone(outcome: Outcome)
    | BatchBump

  function Init<E>(): State<E> {
    State([], false, Idle, 0, 0, 0, 0, 0, [], [], [], 0)
  }

  predicate Enabled<E>(c: Config, s: State<E>, step: Step<E>) {
    match step
    case PushAccept(_) => !s.closed && |s.queue| < c.capacity
    case PushDrop => !s.closed
    case ProducerBump => s.unbumped > 0
    case Close => !s.closed
    case Receive => s.phase.Idle? && s.queue != []
    case Fill => s.phase.Filling? && |s.phase.buf| < c.batchSize && s.queue != []
    case Flush => s.phase.Filling? && (|s.phase.buf| >= c.batchSize || (s.queue == [] && !s.closed))
    case FlushClosed => s.phase.Filling? && |s.phase.buf| < c.batchSize && s.queue == [] && s.closed
    case Exit => s.phase.Idle? && s.queue == [] && s.closed
    case TakeDropped => s.phase.Flushing?
    case SyntheticDone(_) => s.phase.SendingSynthetic?
    case SyntheticBump => s.phase.BumpSynthetic?
    case BatchDone(_) => s.phase.Sending?
    case BatchBump => s.phase.BumpBatch?
  }

  function Resume<E>(closing: bool): Phase<E> {
    if closing then Exited else Idle
  }

  /** Handing `buf` to deliver. */
  function Hand<E>(s: State<E>, buf: seq<E>, closing: bool): State<E> {
    s.(phase := Sending(buf, closing), handed := s.handed + [buf])
  }

  function Do<E>(c: Config, s: State<E>, step: Step<E>): State<E>
    requires Enabled(c, s, step)
  {
    match step
    case PushAccept(e) => s.(queue := s.queue + [e], accepted := s.accepted + [e], offered := s.offered + 1)
    case PushDrop => s.(dropped := s.dropped + 1, unbumped := s.unbumped + 1, offered := s.offered + 1)
    case ProducerBump => s.(unbumped := s.unbumped - 1, droppedSince := s.droppedSince + 1)
    case Close => s.(closed := true)
    case Receive => s.(phase := Filling([s.queue[0]]), queue := s.queue[1..])
    case Fill => s.(phase := Filling(s.phase.buf + [s.queue[0]]), queue := s.queue[1..])
    case Flush => s.(phase := Flushing(s.phase.buf))
    case FlushClosed => Hand(s, s.phase.buf, true)
    case Exit => s.(phase := Exited)
    case TakeDropped =>
      var taken := s.(droppedSince := 0);
      if s.droppedSince > 0
      then taken.(phase := SendingSynthetic(s.phase.buf), announced := s.announced + [s.droppedSince])
      else Hand(taken, s.phase.buf, false)
    case SyntheticDone(outcome) =>
      if outcome.Delivered? then Hand(s.(delivered := s.delivered + 1), s.phase.buf, false)
      else if outcome.Dropped? then s.(dropped := s.dropped + 1, phase := BumpSynthetic(s.phase.buf))
      else Hand(s.(forgotten := s.forgotten + 1), s.phase.buf, false)
    case SyntheticBump => Hand(s.(droppedSince := s.droppedSince + 1), s.phase.buf, false)
    case BatchDone(outcome) =>
      var n, closing := |s.phase.buf|, s.phase.closing;
      if outcome.Delivered? then s.(delivered := s.delivered + n, phase := Resume(closing))
      else if outcome.Dropped? then s.(dropped := s.dropped + n, phase := BumpBatch(n, closing))
      else s.(forgotten := s.forgotten + n, phase := Resume(closing))
    case BatchBump => s.(droppedSince := s.droppedSince + s.phase.n, phase := Resume(s.phase.closing))
  }

  /** The counters after a delivery of a synthetic event: one step, and the bump when it was dropped. */
  function SyntheticSettled<E>(c: Config, s: State<E>, outcome: Outcome): State<E>
    requires s.phase.SendingSynthetic?
  {
    var t := Do(c, s, SyntheticDone(outcome));
    if outcome.Dropped? then Do(c, t, SyntheticBump) else t
  }

  /** The same for a batch. */
  function BatchSettled<E>(c: Config, s: State<E>, outcome: Outcome): State<E>
    requires s.phase.Sending?
  {
    var t := Do(c, s, BatchDone(outcome));
    if outcome.Dropped? then Do(c, t, BatchBump) else t
  }

  // -------------------------------------------------------------------- invariant

  function Sum(ns: seq<nat>): nat {
    if ns == [] then 0 else Sum(ns[..|ns| - 1]) + ns[|ns| - 1]
  }

  function Concat<E>(batches: seq<seq<E>>): seq<E> {
    if batches == [] then [] else Concat(batches[..|batches| - 1]) + batches[|batches| - 1]
  }

  /** Received from the channel and not yet handed to deliver. */
  function Held<E>(p: Phase<E>): seq<E> {
    match p
    case Filling(buf) => buf
    case Flushing(buf) => buf
    case SendingSynthetic(buf) => buf
    case BumpSynthetic(buf) => buf
    case _ => []
  }

  /** Handed to deliver, without an outcome yet. */
  function InFlight<E>(p: Phase<E>): nat {
    match p
    case SendingSynthetic(_) => 1
    case Sending(buf, _) => |buf|
    case _ => 0
  }

  /** Counted as dropped by the worker, not yet added to the counter of unannounced drops. */
  function WorkerUnbumped<E>(p: Phase<E>): nat {
    match p
    case BumpSynthetic(_) => 1
    case BumpBatch(n, _) => n
    case _ => 0
  }

  ghost predicate Accounted<E>(s: State<E>) {
    && s.dropped == Sum(s.announced) + s.droppedSince + s.unbumped + WorkerUnbumped(s.phase)
    && s.delivered + s.dropped + s.forgotten + |s.queue| + |Held(s.phase)| + InFlight(s.phase) == s.offered + |s.announced|
  }

  /** First in, first out: accepted events are handed over, held or queued, in this order. */
  ghost predicate Fifo<E>(s: State<E>) {
    s.accepted == Concat(s.handed) + Held(s.phase) + s.queue
  }

  predicate Holds<E>(p: Phase<E>) {
    p.Filling? || p.Flushing? || p.SendingSynthetic? || p.BumpSynthetic?
  }

  ghost predicate Shaped<E>(c: Config, s: State<E>) {
    && (forall i | 0 <= i < |s.handed| :: 1 <= |s.handed[i]| <= c.batchSize)
    && (Holds(s.phase) || s.phase.Sending? ==> 1 <= |s.phase.buf| <= c.batchSize)
    && |s.queue| <= c.capacity
    && (forall i | 0 <= i < |s.announced| :: s.announced[i] > 0)
    && (s.phase.Exited? || (s.phase.Sending? && s.phase.closing) || (s.phase.BumpBatch? && s.phase.closing) ==>
          s.closed && s.queue == [])
  }

  ghost predicate Ordered<E>(c: Config, s: State<E>) {
    Fifo(s) && Shaped(c, s)
  }

  lemma SumLast(ns: seq<nat>, n: nat)
    ensures Sum(ns + [n]) == Sum(ns) + n
  {
    assert (ns + [n])[..|ns|] == ns;
  }

  lemma ConcatLast<E>(batches: seq<seq<E>>, b: seq<E>)
    ensures Concat(batches + [b]) == Concat(batches) + b
  {
    assert (batches + [b])[..|batches|] == batches;
  }

  lemma AccountedStep<E>(c: Config, s: State<E>, step: Step<E>)
    requires Accounted(s) && Enabled(c, s, step)
    ensures Accounted(Do(c, s, step))
  {
    SumLast(s.announced, s.droppedSince);
    hide Sum;
  }

  lemma OrderedStep<E>(c: Config, s: State<E>, step: Step<E>)
    requires c.batchSize > 0 && Ordered(c, s) && Enabled(c, s, step)
    ensures Ordered(c, Do(c, s, step))
  {
    FifoStep(c, s, step);
    ShapedStep(c, s, step);
  }

  lemma FifoStep<E>(c: Config, s: State<E>, step: Step<E>)
    requires Fifo(s) && Enabled(c, s, step)
    ensures Fifo(Do(c, s, step))
  {
    ConcatLast(s.handed, Held(s.phase));
    hide Concat;
    var done := Concat(s.handed);
    match step
    case PushAccept(e) => assert done + Held(s.phase) + (s.queue + [e]) == done + Held(s.phase) + s.queue + [e];
    case Receive => assert done + [] + s.queue == done + [s.queue[0]] + s.queue[1..];
    case Fill =>
      var buf := s.phase.buf;
      assert done + buf + s.queue == done + (buf + [s.queue[0]]) + s.queue[1..];
    case FlushClosed => assert done + s.phase.buf + s.queue == done + s.phase.buf + [] + s.queue;
    case TakeDropped => assert done + s.phase.buf + s.queue == done + s.phase.buf + [] + s.queue;
    case SyntheticDone(_) => assert done + s.phase.buf + s.queue == done + s.phase.buf + [] + s.queue;
    case SyntheticBump => assert done + s.phase.buf + s.queue == done + s.phase.buf + [] + s.queue;
    case _ =>
  }

  lemma ShapedStep<E>(c: Config, s: State<E>, step: Step<E>)
    requires c.batchSize > 0 && Shaped(c, s) && Enabled(c, s, step)
    ensures Shaped(c, Do(c, s, step))
  {
  }

  ghost predicate Sound<E>(c: Config, s: State<E>) {
    c.batchSize > 0 && Accounted(s) && Ordered(c, s)
  }

  lemma InitAccounted<E>()
    ensures Accounted(Init<E>())
  {
  }

  lemma InitOrdered<E>(c: Config)
    ensures Ordered(c, Init<E>())
  {
  }

  lemma InitSound<E>(c: Config)
    requires c.batchSize > 0
    ensures Sound(c, Init<E>())
  {
    hide Accounted, Ordered;
    InitAccounted<E>();
    InitOrdered<E>(c);
  }

  lemma Kept<E>(c: Config, s: State<E>, step: Step<E>)
    requires Sound(c, s) && Enabled(c, s, step)
    ensures Sound(c, Do(c, s, step))
  {
    AccountedStep(c, s, step);
    OrderedStep(c, s, step);
  }

  // ------------------------------------------------------------------------- runs

  ghost predicate IsRun<E>(c: Config, steps: seq<Step<E>>, states: seq<State<E>>) {
    && |states| == |steps| + 1
    && states[0] == Init()
    && forall i | 0 <= i < |steps| :: Enabled(c, states[i], steps[i]) && states[i + 1] == Do(c, states[i], steps[i])
  }

  lemma {:induction false} RunKeeps<E>(c: Config, steps: seq<Step<E>>, states: seq<State<E>>, n: nat)
    requires c.batchSize > 0 && IsRun(c, steps, states) && n <= |steps|
    ensures Accounted(states[n]) && Ordered(c, states[n])
    decreases n
  {
    if n > 0 {
      RunKeeps(c, steps, states, n - 1);
      AccountedStep(c, states[n - 1], steps[n - 1]);
      OrderedStep(c, states[n - 1], steps[n - 1]);
    }
  }

  /**
   Conservation: however producers and worker interleave, once the worker has
   exited and no producer is inside Push, every accepted event was handed to
   deliver once, in order; every drop was announced or is still pending; and
   every offered or synthesized event was delivered, dropped or forgotten.
   */
  lemma ShutdownBalances<E>(c: Config, steps: seq<Step<E>>, states: seq<State<E>>, n: nat)
    requires c.batchSize > 0 && IsRun(c, steps, states) && n <= |steps|
    requires states[n].phase.Exited? && states[n].unbumped == 0
    ensures states[n].accepted == Concat(states[n].handed)
    ensures states[n].dropped == Sum(states[n].announced) + states[n].droppedSince
    ensures states[n].delivered + states[n].dropped + states[n].forgotten == states[n].offered + |states[n].announced|
  {
    RunKeeps(c, steps, states, n);
  }

  /** At rest before shutdown the queue is empty too, and nothing is in flight. */
  lemma IdleBalances<E>(c: Config, steps: seq<Step<E>>, states: seq<State<E>>, n: nat)
    requires c.batchSize > 0 && IsRun(c, steps, states) && n <= |steps|
    requires states[n].phase.Idle? && states[n].unbumped == 0
    ensures states[n].accepted == Concat(states[n].handed) + states[n].queue
    ensures states[n].dropped == Sum(states[n].announced) + states[n].droppedSince
    ensures states[n].delivered + states[n].dropped + states[n].forgotten + |states[n].queue| == states[n].offered + |states[n].announced|
  {
    RunKeeps(c, steps, states, n);
  }

  /** `steps`, all of the worker's own, lead from `s` to `t`. */
  ghost predicate Leads<E>(c: Config, s: State<E>, steps: seq<Step<E>>, t: State<E>)
    decreases |steps|
  {
    if steps == [] then s == t
    else IsWorkerStep(steps[0]) && Enabled(c, s, steps[0]) && Leads(c, Do(c, s, steps[0]), steps[1..], t)
  }

  lemma {:induction false} LeadsOn<E>(c: Config, s: State<E>, steps: seq<Step<E>>, t: State<E>, step: Step<E>)
    requires Leads(c, s, steps, t) && IsWorkerStep(step) && Enabled(c, t, step)
    ensures Leads(c, s, steps + [step], Do(c, t, step))
    decreases |steps|
  {
    hide Do, Enabled, IsWorkerStep;
    if steps == [] {
      assert steps + [step] == [step];
      assert [step][1..] == [];
    } else {
      assert (steps + [step])[1..] == steps[1..] + [step];
      LeadsOn(c, Do(c, s, steps[0]), steps[1..], t, step);
    }
  }

  // ------------------------------------------------- when nothing is forgotten

  /** A delivery that ends because its request could not be built. */
  predicate Forgets<E>(step: Step<E>) {
    (step.BatchDone? || step.SyntheticDone?) && step.outcome == Forgotten
  }

  lemma ForgottenStep<E>(c: Config, s: State<E>, step: Step<E>)
    requires Shaped(c, s) && Enabled(c, s, step)
    ensures Do(c, s, step).forgotten == 0 <==> s.forgotten == 0 && !Forgets(step)
  {
  }

  /** Nothing is forgotten exactly when no delivery so far failed to build its request. */
  lemma {:induction false} ForgottenIff<E>(c: Config, steps: seq<Step<E>>, states: seq<State<E>>, n: nat)
    requires c.batchSize > 0 && IsRun(c, steps, states) && n <= |steps|
    ensures states[n].forgotten == 0 <==> forall i | 0 <= i < n :: !Forgets(steps[i])
    decreases n
  {
    if n > 0 {
      ForgottenIff(c, steps, states, n - 1);
      RunKeeps(c, steps, states, n - 1);
      hide Do, Shaped, Fifo, Accounted, Forgets;
      assert Shaped(c, states[n - 1]);
      ForgottenStep(c, states[n - 1], steps[n - 1]);
    }
  }

  /** At rest the promised balance, without the forgotten term, holds exactly when no delivery failed to build its request. */
  lemma PromisedBalance<E>(c: Config, steps: seq<Step<E>>, states: seq<State<E>>, n: nat)
    requires c.batchSize > 0 && IsRun(c, steps, states) && n <= |steps|
    requires states[n].phase.Idle? && states[n].unbumped == 0
    ensures states[n].delivered + states[n].dropped + |states[n].queue| == states[n].offered + |states[n].announced|
       <==> forall i | 0 <= i < n :: !Forgets(steps[i])
  {
    IdleBalances(c, steps, states, n);
    ForgottenIff(c, steps, states, n);
  }

  function ForgottenSteps<E>(e: E): seq<Step<E>> {
    [PushAccept(e), Receive, Flush, TakeDropped, BatchDone(Forgotten)]
  }

  function ForgottenState<E>(e: E, i: nat): State<E> {
    if i == 0 then Init()
    else if i == 1 then State([e], false, Idle, 0, 0, 0, 0, 1, [e], [], [], 0)
    else if i == 2 then State([], false, Filling([e]), 0, 0, 0, 0, 1, [e], [], [], 0)
    else if i == 3 then State([], false, Flushing([e]), 0, 0, 0, 0, 1, [e], [], [], 0)
    else if i == 4 then State([], false, Sending([e], false), 0, 0, 0, 0, 1, [e], [[e]], [], 0)
    else State([], false, Idle, 0, 0, 0, 0, 1, [e], [[e]], [], 1)
  }

  lemma ForgottenStepAt<E>(c: Config, e: E, i: nat)
    requires c.capacity > 0 && c.batchSize > 0 && i < 5
    ensures Enabled(c, ForgottenState(e, i), ForgottenSteps(e)[i])
    ensures Do(c, ForgottenState(e, i), ForgottenSteps(e)[i]) == ForgottenState(e, i + 1)
  {
    var none: seq<E> := [];
    var nothing: seq<seq<E>> := [];
    assert none + [e] == [e] && [e][1..] == none && nothing + [[e]] == [[e]];
  }

  /** One event is accepted and its only delivery cannot build its request: neither delivered nor counted as dropped. */
  lemma ForgottenExample<E>(c: Config, e: E) returns (steps: seq<Step<E>>, states: seq<State<E>>)
    requires c.capacity > 0 && c.batchSize > 0
    ensures IsRun(c, steps, states) && |steps| == 5
    ensures states[5].phase.Idle? && states[5].unbumped == 0 && states[5].queue == []
    ensures states[5].offered == 1 && states[5].forgotten == 1
    ensures states[5].delivered == states[5].dropped == |states[5].announced| == 0
  {
    steps := ForgottenSteps(e);
    states := seq(6, i requires 0 <= i < 6 => ForgottenState(e, i));
    hide Do, Enabled, ForgottenSteps;
    forall i | 0 <= i < 5 ensures Enabled(c, states[i], steps[i]) && states[i + 1] == Do(c, states[i], steps[i]) {
      ForgottenStepAt(c, e, i);
    }
  }

  // ------------------------------------------------------------------- shutting down

  /** How much the worker has left to do once the channel is closed. */
  function Remaining<E>(s: State<E>): nat {
    10 * |s.queue| +
    match s.phase
    case Filling(_) => 7
    case Flushing(_) => 6
    case SendingSynthetic(_) => 5
    case BumpSynthetic(_) => 4
    case Sending(_, _) => 3
    case BumpBatch(_, _) => 2
    case Idle => 1
    case Exited => 0
  }

  predicate IsWorkerStep<E>(step: Step<E>) {
    !(step.PushAccept? || step.PushDrop? || step.ProducerBump? || step.Close?)
  }

  /** After Close each worker step brings the exit nearer, and nothing moves it away. */
  lemma DrainTerminates<E>(c: Config, s: State<E>, step: Step<E>)
    requires s.closed && Enabled(c, s, step)
    ensures Do(c, s, step).closed
    ensures if IsWorkerStep(step) then Remaining(Do(c, s, step)) < Remaining(s) else Remaining(Do(c, s, step)) == Remaining(s)
  {
  }

  /** The worker is never stuck before it exits: some step of its own is enabled unless it waits on an open, empty channel. */
  lemma WorkerProgress<E>(c: Config, s: State<E>, outcome: Outcome)
    requires c.batchSize > 0 && Ordered(c, s) && !s.phase.Exited?
    ensures (s.phase.Idle? && s.queue == [] && !s.closed)
            || Enabled(c, s, Receive) || Enabled(c, s, Fill) || Enabled(c, s, Flush) || Enabled(c, s, FlushClosed)
            || Enabled(c, s, Exit) || Enabled(c, s, TakeDropped) || Enabled(c, s, SyntheticDone(outcome))
            || Enabled(c, s, SyntheticBump) || Enabled(c, s, BatchDone(outcome)) || Enabled(c, s, BatchBump)
  {
  }
}
