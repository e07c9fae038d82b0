/** The pusher itself: Push, the locked drop counter, and the worker's loops, each action a step of the protocol. */
module WebhookPusher {
  import opened Webhook
  import opened WebhookProtocol

  class WebhookPusher<E> {
    const config: Config
    var ch: seq<E>
    var closed: bool
    var dropped: nat
    var delivered: nat
    var droppedSinceLast: nat
    ghost var phase: Phase<E>
    ghost var unbumped: nat
    ghost var offered: nat
    ghost var accepted: seq<E>
    ghost var handed: seq<seq<E>>
    ghost var announced: seq<nat>
    ghost var forgotten: nat

    ghost function View(): State<E>
      reads this
    {
      State(ch, closed, phase, dropped, delivered, droppedSinceLast, unbumped, offered, accepted, handed, announced, forgotten)
    }

    ghost predicate Valid()
      reads this
    {
      Sound(config, View())
    }

    constructor (capacity: nat, batchSize: nat)
      requires batchSize > 0
      ensures Valid() && View() == Init() && config == Config(capacity, batchSize)
    {
      hide Sound, Sum, Concat, Accounted, Ordered, Fifo, Shaped;
      config := Config(capacity, batchSize);
      ch, closed, dropped, delivered, droppedSinceLast := [], false, 0, 0, 0;
      phase, unbumped, offered, accepted, handed, announced, forgotten := Idle, 0, 0, [], [], [], 0;
      new;
      InitSound<E>(config);
    }

    /** Never blocks: a full channel or a cancelled caller costs the event. */
    method Push(e: E, cancelled: bool)
      requires Valid() && !closed
      modifies this
      ensures Valid()
      ensures View() == if !cancelled && |old(ch)| < config.capacity
                        then Do(config, old(View()), PushAccept(e))
                        else Do(config, Do(config, old(View()), PushDrop), ProducerBump)
    {
      hide Sound;
      ghost var s := View();
      if !cancelled && |ch| < config.capacity {
        ch := ch + [e];
        accepted, offered := accepted + [e], offered + 1;
        Kept(config, s, PushAccept(e));
      } else {
        dropped := dropped + 1;
        unbumped, offered := unbumped + 1, offered + 1;
        Kept(config, s, PushDrop);
        droppedSinceLast := droppedSinceLast + 1;
        unbumped := unbumped - 1;
        Kept(config, Do(config, s, PushDrop), ProducerBump);
      }
    }

    method Shutdown()
      requires Valid() && !closed
      modifies this
      ensures Valid() && View() == Do(config, old(View()), Close)
    {
      Kept(config, View(), Close);
      hide Sound;
      closed := true;
    }

    /** One receive on a non-empty channel, into a buffer that starts out empty for the first event. */
    method ReceiveInto(buf: seq<E>) returns (filled: seq<E>)
      requires Valid() && ch != []
      requires if buf == [] then phase.Idle? else phase == Filling(buf) && |buf| < config.batchSize
      modifies this
      ensures Valid() && filled == buf + [old(ch)[0]] && phase == Filling(filled)
      ensures View() == Do(config, old(View()), if buf == [] then Receive else Fill)
    {
      Kept(config, View(), if buf == [] then Receive else Fill);
      hide Sound;
      filled := buf + [ch[0]];
      assert [] + [ch[0]] == [ch[0]];
      ch := ch[1..];
      phase := Filling(filled);
    }

    /** Returns and zeroes the drops not announced yet. */
    method TakeDroppedSince() returns (n: nat)
      requires Valid() && phase.Flushing?
      modifies this
      ensures Valid() && n == old(droppedSinceLast) && View() == Do(config, old(View()), TakeDropped)
      ensures phase == if n > 0 then SendingSynthetic(old(phase.buf)) else Sending(old(phase.buf), false)
      ensures ch == old(ch) && closed == old(closed)
    {
      hide Sound;
      Kept(config, View(), TakeDropped);
      n := droppedSinceLast;
      droppedSinceLast := 0;
      if n > 0 {
        announced := announced + [n];
        phase := SendingSynthetic(phase.buf);
      } else {
        handed := handed + [phase.buf];
        phase := Sending(phase.buf, false);
      }
    }

    /** The counters after deliver returns for the synthetic event. */
    method SettleSynthetic(outcome: Outcome)
      requires Valid() && phase.SendingSynthetic?
      modifies this
      ensures Valid() && View() == SyntheticSettled(config, old(View()), outcome)
      ensures phase == Sending(old(phase.buf), false) && ch == old(ch) && closed == old(closed)
    {
      hide Sound;
      ghost var s := View();
      Kept(config, s, SyntheticDone(outcome));
      if outcome.Dropped? {
        dropped := dropped + 1;
        phase := BumpSynthetic(phase.buf);
        assert View() == Do(config, s, SyntheticDone(outcome));
        BumpForSynthetic();
        return;
      }
      if outcome.Delivered? {
        delivered := delivered + 1;
      } else {
        forgotten := forgotten + 1;
      }
      handed := handed + [phase.buf];
      phase := Sending(phase.buf, false);
    }

    /** bumpDroppedSince for the synthetic event. */
    method BumpForSynthetic()
      requires Valid() && phase.BumpSynthetic?
      modifies this`droppedSinceLast, this`handed, this`phase
      ensures Valid() && View() == Do(config, old(View()), SyntheticBump)
    {
      hide Sound;
      Kept(config, View(), SyntheticBump);
      droppedSinceLast := droppedSinceLast + 1;
      handed := handed + [phase.buf];
      phase := Sending(phase.buf, false);
    }

    /** The counters after deliver returns for a batch. */
    method SettleBatch(batch: seq<E>, outcome: Outcome)
      requires Valid() && phase.Sending? && batch == phase.buf
      modifies this
      ensures Valid() && View() == BatchSettled(config, old(View()), outcome)
      ensures phase == Resume(old(phase.closing)) && ch == old(ch) && closed == old(closed)
    {
      hide Sound;
      ghost var s := View();
      ghost var closing := phase.closing;
      Kept(config, s, BatchDone(outcome));
      var n := |batch|;
      if outcome.Dropped? {
        dropped := dropped + n;
        phase := BumpBatch(n, closing);
        assert View() == Do(config, s, BatchDone(outcome));
        BumpForBatch(n);
        return;
      }
      if outcome.Delivered? {
        delivered := delivered + n;
      } else {
        forgotten := forgotten + n;
      }
      phase := Resume(closing);
    }

    /** bumpDroppedSince for a batch. */
    method BumpForBatch(n: nat)
      requires Valid() && phase.BumpBatch? && n == phase.n
      modifies this`droppedSinceLast, this`phase
      ensures Valid() && View() == Do(config, old(View()), BatchBump)
    {
      hide Sound;
      Kept(config, View(), BatchBump);
      droppedSinceLast := droppedSinceLast + n;
      phase := Resume(phase.closing);
    }

    /**
     The worker, run until it exits or would block on an open, empty channel, as
     a run of the protocol. `outcomes` says how the successive deliveries end.
     */
    method RunWorker(outcomes: nat -> Outcome) returns (ghost steps: seq<Step<E>>)
      requires Valid() && phase.Idle?
      modifies this
      ensures Valid() && Leads(config, old(View()), steps, View())
      ensures ch == [] && if closed then phase.Exited? else phase.Idle?
      ensures accepted == Concat(handed)
    {
      hide Sound, Do, Leads;
      ghost var s := View();
      steps := [];
      LeadsNowhere(config, s);
      var deliveries := 0;
      while |ch| > 0
        invariant Valid() && Leads(config, s, steps, View())
        invariant phase.Idle? || (phase.Exited? && ch == [] && closed)
        decreases |ch|
      {
        var buf;
        buf, steps := FillBuffer(s, steps);
        deliveries, steps := DeliverBuffer(buf, outcomes, deliveries, s, steps);
      }
      if closed && phase.Idle? {
        steps := Advance(Exit, s, steps);
      }
      AllHanded(config, View());
    }

    /** Waits for one event, then takes more until the batch is full or the channel has none ready. */
    method FillBuffer(ghost s: State<E>, ghost done: seq<Step<E>>) returns (buf: seq<E>, ghost steps: seq<Step<E>>)
      requires Valid() && phase.Idle? && ch != [] && Leads(config, s, done, View())
      modifies this
      ensures Valid() && Leads(config, s, steps, View())
      ensures phase == Filling(buf) && buf != [] && |ch| < |old(ch)| && (|buf| < config.batchSize ==> ch == [])
    {
      hide Sound, Leads;
      steps := done;
      LeadsOn(config, s, steps, View(), Receive);
      buf := ReceiveInto([]);
      steps := steps + [Receive];
      while |buf| < config.batchSize && |ch| > 0
        invariant Valid() && phase == Filling(buf) && buf != [] && |ch| < |old(ch)|
        invariant Leads(config, s, steps, View())
        decreases |ch|
      {
        LeadsOn(config, s, steps, View(), Fill);
        buf := ReceiveInto(buf);
        steps := steps + [Fill];
      }
    }

    /** Announces pending drops unless the channel was found closed, then delivers the batch. */
    method DeliverBuffer(buf: seq<E>, outcomes: nat -> Outcome, number: nat, ghost s: State<E>, ghost done: seq<Step<E>>)
      returns (deliveries: nat, ghost steps: seq<Step<E>>)
      requires Valid() && phase == Filling(buf) && buf != [] && (|buf| < config.batchSize ==> ch == [])
      requires Leads(config, s, done, View())
      modifies this
      ensures Valid() && Leads(config, s, steps, View())
      ensures ch == old(ch) && closed == old(closed)
      ensures phase.Idle? || (phase.Exited? && ch == [] && closed)
    {
      hide Sound, Leads, Do, SyntheticSettled, BatchSettled;
      deliveries := number;
      if |buf| < config.batchSize && closed {
        steps := Advance(FlushClosed, s, done);
      } else {
        steps := Advance(Flush, s, done);
        deliveries, steps := Announce(outcomes, deliveries, s, steps);
      }
      BatchLeads(config, s, steps, View(), outcomes(deliveries));
      SettleBatch(buf, outcomes(deliveries));
      steps := steps + BatchSteps(outcomes(deliveries));
      deliveries := deliveries + 1;
    }

    /** Sends the drops not announced yet as one synthetic event, if there are any. */
    method Announce(outcomes: nat -> Outcome, number: nat, ghost s: State<E>, ghost done: seq<Step<E>>)
      returns (deliveries: nat, ghost steps: seq<Step<E>>)
      requires Valid() && phase.Flushing? && Leads(config, s, done, View())
      modifies this
      ensures Valid() && Leads(config, s, steps, View())
      ensures phase == Sending(old(phase.buf), false) && ch == old(ch) && closed == old(closed)
    {
      hide Sound, Leads, Do, SyntheticSettled;
      deliveries := number;
      LeadsOn(config, s, done, View(), TakeDropped);
      var n := TakeDroppedSince();
      steps := done + [TakeDropped];
      if n > 0 {
        SyntheticLeads(config, s, steps, View(), outcomes(deliveries));
        SettleSynthetic(outcomes(deliveries));
        steps := steps + SyntheticSteps(outcomes(deliveries));
        deliveries := deliveries + 1;
      }
    }

    /** A step that moves the worker on without touching a counter. */
    ghost method Advance(step: Step<E>, s: State<E>, done: seq<Step<E>>) returns (steps: seq<Step<E>>)
      requires Valid() && Leads(config, s, done, View()) && Enabled(config, View(), step)
      requires step.Flush? || step.FlushClosed? || step.Exit?
      modifies this`phase, this`handed
      ensures Valid() && View() == Do(config, old(View()), step)
      ensures Leads(config, s, steps, View())
      ensures step.Flush? ==> phase == Flushing(old(phase.buf))
      ensures step.FlushClosed? ==> phase == Sending(old(phase.buf), true)
      ensures step.Exit? ==> phase.Exited?
    {
      Kept(config, View(), step);
      LeadsOn(config, s, done, View(), step);
      hide Sound, Leads;
      steps := done + [step];
      ghost var t := Do(config, View(), step);
      handed := t.handed;
      phase := t.phase;
    }
  }

  // --------------------------------------------------------- the steps of a delivery

  lemma LeadsNowhere<E>(c: Config, s: State<E>)
    ensures Leads(c, s, [], s)
  {
  }

  function SyntheticSteps<E>(outcome: Outcome): seq<Step<E>> {
    if outcome.Dropped? then [SyntheticDone(outcome)] + [SyntheticBump] else [SyntheticDone(outcome)]
  }

  function BatchSteps<E>(outcome: Outcome): seq<Step<E>> {
    if outcome.Dropped? then [BatchDone(outcome)] + [BatchBump] else [BatchDone(outcome)]
  }

  lemma SyntheticLeads<E>(c: Config, s: State<E>, steps: seq<Step<E>>, t: State<E>, outcome: Outcome)
    requires Leads(c, s, steps, t) && t.phase.SendingSynthetic?
    ensures Leads(c, s, steps + SyntheticSteps(outcome), SyntheticSettled(c, t, outcome))
  {
    hide Leads;
    LeadsOn(c, s, steps, t, SyntheticDone(outcome));
    if outcome.Dropped? {
      LeadsOn(c, s, steps + [SyntheticDone(outcome)], Do(c, t, SyntheticDone(outcome)), SyntheticBump);
      Regroup(steps, SyntheticDone(outcome), SyntheticBump);
    }
  }

  lemma BatchLeads<E>(c: Config, s: State<E>, steps: seq<Step<E>>, t: State<E>, outcome: Outcome)
    requires Leads(c, s, steps, t) && t.phase.Sending?
    ensures Leads(c, s, steps + BatchSteps(outcome), BatchSettled(c, t, outcome))
  {
    hide Leads;
    LeadsOn(c, s, steps, t, BatchDone(outcome));
    if outcome.Dropped? {
      LeadsOn(c, s, steps + [BatchDone(outcome)], Do(c, t, BatchDone(outcome)), BatchBump);
      Regroup(steps, BatchDone(outcome), BatchBump);
    }
  }

  lemma Regroup<T>(steps: seq<T>, a: T, b: T)
    ensures steps + [a] + [b] == steps + ([a] + [b])
  {
  }

  lemma AllHanded<E>(c: Config, s: State<E>)
    requires Sound(c, s) && s.queue == [] && (s.phase.Idle? || s.phase.Exited?)
    ensures s.accepted == Concat(s.handed)
  {
    assert Concat(s.handed) + [] + [] == Concat(s.handed);
  }
}
