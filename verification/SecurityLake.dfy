/**
 The Security Lake batching: rows are snapshotted under a lock, uploaded without
 it, and removed under it again. Writers and flushes interleave at the locks.
 */
module SecurityLake {

  type ClassUid = int

  /** A flush between its snapshot and its outcome. */
  datatype Flight<R> = Flight(cls: ClassUid, rows: seq<R>, open: bool)

  /** The writer's maps, then the flushes begun, and per class what was accepted and what was uploaded. */
  datatype Lake<R> = Lake(
    batches: map<ClassUid, seq<R>>,
    firstSeen: map<ClassUid, int>,
    dropped: nat,
    flights: seq<Flight<R>>,
    accepted: map<ClassUid, seq<R>>,
    uploaded: map<ClassUid, seq<R>>,
    overlapped: set<ClassUid>)

  datatype Step<R> =
    | Write(cls: ClassUid, row: R, now: int)
    | Begin(cls: ClassUid)
    | Finish(i: nat, ok: bool, now: int)

  function Init<R>(): Lake<R> {
    Lake(map[], map[], 0, [], map[], map[], {})
  }

  /** Go's map lookup: the empty slice when absent. */
  function Rows<R>(m: map<ClassUid, seq<R>>, c: ClassUid): seq<R> {
    if c in m then m[c] else []
  }

  // --------------------------------------------------------------- pending rows

  ghost function Pending<R>(m: map<ClassUid, seq<R>>): nat
    decreases |m|
  {
    if m == map[] then 0
    else
      HasClass(m);
      var c :| c in m;
      Smaller(m, c);
      |m[c]| + Pending(m - {c})
  }

  lemma HasClass<R>(m: map<ClassUid, seq<R>>)
    requires m != map[]
    ensures exists c :: c in m
  {
    assert (forall c :: c !in m) ==> m.Keys == {};
    assert m.Keys == {} ==> m == map[];
  }

  lemma Smaller<R>(m: map<ClassUid, seq<R>>, c: ClassUid)
    requires c in m
    ensures |m - {c}| == |m| - 1
  {
    assert (m - {c}).Keys == m.Keys - {c};
  }

  /** The sum does not depend on the order of the classes. */
  lemma {:induction false} PendingSplit<R>(m: map<ClassUid, seq<R>>, c: ClassUid)
    ensures Pending(m) == |Rows(m, c)| + Pending(m - {c})
    decreases |m|
  {
    if c !in m {
      assert m - {c} == m;
    } else {
      var d :| d in m && Pending(m) == |m[d]| + Pending(m - {d});
      if d != c {
        Smaller(m, d);
        Smaller(m, c);
        PendingSplit(m - {d}, c);
        PendingSplit(m - {c}, d);
        assert m - {d} - {c} == m - {c} - {d};
      }
    }
  }

  lemma PendingUpdate<R>(m: map<ClassUid, seq<R>>, c: ClassUid, rows: seq<R>)
    ensures Pending(m[c := rows]) == Pending(m) - |Rows(m, c)| + |rows|
  {
    PendingSplit(m, c);
    PendingSplit(m[c := rows], c);
    assert m[c := rows] - {c} == m - {c};
  }

  // ----------------------------------------------------------------------- steps

  predicate Busy<R>(s: Lake<R>, c: ClassUid) {
    exists i :: 0 <= i < |s.flights| && s.flights[i].open && s.flights[i].cls == c
  }

  predicate Enabled<R>(s: Lake<R>, step: Step<R>) {
    step.Finish? ==> step.i < |s.flights| && s.flights[step.i].open
  }

  function Appended<R>(s: Lake<R>, c: ClassUid, row: R, now: int): Lake<R> {
    s.(batches := s.batches[c := Rows(s.batches, c) + [row]],
       firstSeen := if c in s.firstSeen then s.firstSeen else s.firstSeen[c := now],
       accepted := s.accepted[c := Rows(s.accepted, c) + [row]])
  }

  function Begun<R>(s: Lake<R>, c: ClassUid): Lake<R> {
    if Rows(s.batches, c) == [] then s.(firstSeen := s.firstSeen - {c})
    else
      s.(flights := s.flights + [Flight(c, Rows(s.batches, c), true)],
         overlapped := if Busy(s, c) then s.overlapped + {c} else s.overlapped)
  }

  function Finished<R>(s: Lake<R>, i: nat, ok: bool, now: int): Lake<R>
    requires i < |s.flights|
  {
    var f := s.flights[i];
    var closed := s.(flights := s.flights[i := f.(open := false)]);
    if !ok then closed
    else
      var rows := Rows(s.batches, f.cls);
      var up := closed.(uploaded := s.uploaded[f.cls := Rows(s.uploaded, f.cls) + f.rows]);
      if |rows| <= |f.rows| then up.(batches := s.batches - {f.cls}, firstSeen := s.firstSeen - {f.cls})
      else up.(batches := s.batches[f.cls := rows[|f.rows|..]], firstSeen := s.firstSeen[f.cls := now])
  }

  ghost function Do<R>(max: nat, s: Lake<R>, step: Step<R>): Lake<R>
    requires Enabled(s, step)
  {
    match step
    case Write(c, row, now) => if Pending(s.batches) >= max then s.(dropped := s.dropped + 1) else Appended(s, c, row, now)
    case Begin(c) => Begun(s, c)
    case Finish(i, ok, now) => Finished(s, i, ok, now)
  }

  // ------------------------------------------------------------- what is uploaded

  /** Nothing lost, nothing twice: uploaded rows followed by pending rows are the accepted rows, in order. */
  ghost predicate Balanced<R>(s: Lake<R>, c: ClassUid) {
    Rows(s.uploaded, c) + Rows(s.batches, c) == Rows(s.accepted, c)
  }

  /** The pending rows are the last ones accepted, and no row has left them without an upload. */
  ghost predicate IsTail<R>(uploaded: seq<R>, pending: seq<R>, accepted: seq<R>) {
    |pending| <= |accepted| <= |uploaded| + |pending| && pending == accepted[|accepted| - |pending|..]
  }

  ghost predicate Tail<R>(s: Lake<R>, c: ClassUid) {
    IsTail(Rows(s.uploaded, c), Rows(s.batches, c), Rows(s.accepted, c))
  }

  /** A successful upload of class `c`. */
  predicate Uploads<R>(s: Lake<R>, step: Step<R>, c: ClassUid) {
    step.Finish? && step.ok && step.i < |s.flights| && s.flights[step.i].cls == c
  }

  /** The snapshot of a flush that ends is still the front of its batch. */
  ghost predicate FindsSnapshot<R>(s: Lake<R>, step: Step<R>)
    requires step.Finish? && step.i < |s.flights|
  {
    s.flights[step.i].rows <= Rows(s.batches, s.flights[step.i].cls)
  }

  lemma Split<R>(uploaded: seq<R>, pending: seq<R>, accepted: seq<R>)
    requires IsTail(uploaded, pending, accepted)
    ensures uploaded + pending == accepted <==> |uploaded| + |pending| == |accepted| && uploaded <= accepted
  {
    if |uploaded| + |pending| == |accepted| && uploaded <= accepted {
      assert uploaded == accepted[..|uploaded|];
    }
    if uploaded + pending == accepted {
      assert accepted[..|uploaded|] == uploaded;
    }
  }

  /** The removal after a successful upload, on the three sequences of its class. */
  lemma Removal<R>(uploaded: seq<R>, pending: seq<R>, accepted: seq<R>, sent: seq<R>)
    requires IsTail(uploaded, pending, accepted)
    ensures var left := if |pending| <= |sent| then [] else pending[|sent|..];
            && IsTail(uploaded + sent, left, accepted)
            && (uploaded + sent + left == accepted <==> uploaded + pending == accepted && sent <= pending)
  {
    var left := if |pending| <= |sent| then [] else pending[|sent|..];
    Split(uploaded, pending, accepted);
    Split(uploaded + sent, left, accepted);
    if uploaded + pending == accepted && sent <= pending {
      assert pending == sent + left;
      assert uploaded + sent + left == uploaded + (sent + left);
    }
    if uploaded + sent + left == accepted {
      assert accepted[..|uploaded|] == uploaded;
      assert accepted[|uploaded|..|uploaded| + |sent|] == sent;
      assert |sent| <= |pending|;
      assert pending[..|sent|] == sent;
    }
  }

  /**
   A flush that ends well keeps its class balanced exactly when its snapshot is
   still the front of the batch, and it never mends a class that is not.
   */
  lemma FinishBalanced<R>(s: Lake<R>, i: nat, now: int)
    requires i < |s.flights| && Tail(s, s.flights[i].cls)
    ensures var c := s.flights[i].cls;
            Balanced(Finished(s, i, true, now), c) <==> Balanced(s, c) && s.flights[i].rows <= Rows(s.batches, c)
    ensures Tail(Finished(s, i, true, now), s.flights[i].cls)
  {
    hide IsTail, Tail, Balanced;
    var c := s.flights[i].cls;
    var t := Finished(s, i, true, now);
    BalancedMeans(s, c);
    BalancedMeans(t, c);
    Removal(Rows(s.uploaded, c), Rows(s.batches, c), Rows(s.accepted, c), s.flights[i].rows);
    assert Rows(t.uploaded, c) == Rows(s.uploaded, c) + s.flights[i].rows;
    assert Rows(t.batches, c)
        == if |Rows(s.batches, c)| <= |s.flights[i].rows| then [] else Rows(s.batches, c)[|s.flights[i].rows|..];
  }

  /** No other step changes whether a class is balanced. */
  lemma StepBalanced<R>(max: nat, s: Lake<R>, step: Step<R>, c: ClassUid)
    requires Enabled(s, step) && Tail(s, c)
    ensures Tail(Do(max, s, step), c)
    ensures Balanced(Do(max, s, step), c) <==> Balanced(s, c) && (Uploads(s, step, c) ==> FindsSnapshot(s, step))
  {
    hide Pending, Finished, Tail, Balanced;
    match step
    case Write(d, row, now) => WriteBalanced(max, s, d, row, now, c);
    case Begin(d) => SameRows(s, Begun(s, d), c);
    case Finish(i, ok, now) =>
      if Uploads(s, step, c) {
        FinishBalanced(s, i, now);
      } else {
        OtherRows(s, i, ok, now, c);
        SameRows(s, Finished(s, i, ok, now), c);
      }
  }

  lemma SameRows<R>(s: Lake<R>, t: Lake<R>, c: ClassUid)
    requires Rows(t.batches, c) == Rows(s.batches, c) && Rows(t.uploaded, c) == Rows(s.uploaded, c)
    requires Rows(t.accepted, c) == Rows(s.accepted, c)
    ensures Balanced(t, c) <==> Balanced(s, c)
    ensures Tail(t, c) <==> Tail(s, c)
  {
    hide Rows, IsTail;
  }

  lemma OtherRows<R>(s: Lake<R>, i: nat, ok: bool, now: int, c: ClassUid)
    requires i < |s.flights| && !(ok && s.flights[i].cls == c)
    ensures var t := Finished(s, i, ok, now);
            Rows(t.batches, c) == Rows(s.batches, c) && Rows(t.uploaded, c) == Rows(s.uploaded, c)
            && Rows(t.accepted, c) == Rows(s.accepted, c)
  {
  }

  lemma WriteBalanced<R>(max: nat, s: Lake<R>, d: ClassUid, row: R, now: int, c: ClassUid)
    requires Tail(s, c)
    ensures var t := Do(max, s, Write(d, row, now));
            Tail(t, c) && (Balanced(t, c) <==> Balanced(s, c))
  {
    hide Pending, Appended, Rows, Balanced, Tail, IsTail;
    var t := Do(max, s, Write(d, row, now));
    AppendedRows(s, d, row, now, c);
    BalancedMeans(s, c);
    if Pending(s.batches) < max && c == d {
      AppendTail(Rows(s.uploaded, c), Rows(s.batches, c), Rows(s.accepted, c), row);
      BalancedMeans(t, c);
    } else {
      SameRows(s, t, c);
    }
  }

  lemma AppendedRows<R>(s: Lake<R>, d: ClassUid, row: R, now: int, c: ClassUid)
    ensures var t := Appended(s, d, row, now);
            && Rows(t.uploaded, c) == Rows(s.uploaded, c)
            && Rows(t.batches, c) == Rows(s.batches, c) + (if c == d then [row] else [])
            && Rows(t.accepted, c) == Rows(s.accepted, c) + (if c == d then [row] else [])
  {
  }

  lemma BalancedMeans<R>(s: Lake<R>, c: ClassUid)
    ensures Balanced(s, c) <==> Rows(s.uploaded, c) + Rows(s.batches, c) == Rows(s.accepted, c)
    ensures Tail(s, c) <==> IsTail(Rows(s.uploaded, c), Rows(s.batches, c), Rows(s.accepted, c))
  {
  }

  lemma AppendTail<R>(uploaded: seq<R>, pending: seq<R>, accepted: seq<R>, row: R)
    requires IsTail(uploaded, pending, accepted)
    ensures IsTail(uploaded, pending + [row], accepted + [row])
    ensures uploaded + (pending + [row]) == accepted + [row] <==> uploaded + pending == accepted
  {
    assert uploaded + (pending + [row]) == uploaded + pending + [row];
    if uploaded + pending + [row] == accepted + [row] {
      assert (uploaded + pending + [row])[..|accepted|] == uploaded + pending;
      assert (accepted + [row])[..|accepted|] == accepted;
    }
  }

  // ------------------------------------------------------------------------- runs

  ghost predicate IsRun<R>(max: nat, steps: seq<Step<R>>, states: seq<Lake<R>>) {
    && |states| == |steps| + 1
    && states[0] == Init()
    && forall i | 0 <= i < |steps| :: Enabled(states[i], steps[i]) && states[i + 1] == Do(max, states[i], steps[i])
  }

  /**
   Exactly when nothing is lost: over every interleaving, uploads failing or
   not, a class is balanced if and only if every successful upload of it so far
   ended with its snapshot still at the front of the batch. What was lost once
   is never made good.
   */
  lemma {:induction false} BalancedIff<R>(max: nat, steps: seq<Step<R>>, states: seq<Lake<R>>, n: nat, c: ClassUid)
    requires IsRun(max, steps, states) && n <= |steps|
    ensures Tail(states[n], c)
    ensures Balanced(states[n], c)
       <==> forall m | 0 <= m < n && Uploads(states[m], steps[m], c) :: FindsSnapshot(states[m], steps[m])
    decreases n
  {
    hide Pending, Begun, Finished, Appended, Uploads, FindsSnapshot;
    if n > 0 {
      BalancedIff(max, steps, states, n - 1, c);
      hide Tail, Balanced, Do;
      StepBalanced(max, states[n - 1], steps[n - 1], c);
    }
  }

  /** The rows waiting in all batches together never exceed the cap. */
  lemma {:induction false} PendingCapped<R>(max: nat, steps: seq<Step<R>>, states: seq<Lake<R>>, n: nat)
    requires IsRun(max, steps, states) && n <= |steps|
    ensures Pending(states[n].batches) <= max
    decreases n
  {
    hide Pending;
    if n == 0 {
      PendingNone<R>();
    } else {
      PendingCapped(max, steps, states, n - 1);
      StepCapped(max, states[n - 1], steps[n - 1]);
    }
  }

  lemma StepCapped<R>(max: nat, s: Lake<R>, step: Step<R>)
    requires Pending(s.batches) <= max && Enabled(s, step)
    ensures Pending(Do(max, s, step).batches) <= max
  {
    hide Pending;
    match step
    case Write(d, row, now) => PendingUpdate(s.batches, d, Rows(s.batches, d) + [row]);
    case Begin(d) =>
    case Finish(i, ok, now) =>
      var f := s.flights[i];
      PendingSplit(s.batches, f.cls);
      if |Rows(s.batches, f.cls)| > |f.rows| {
        PendingUpdate(s.batches, f.cls, Rows(s.batches, f.cls)[|f.rows|..]);
      }
  }

  /** How many of the first `n` steps are writes. */
  function Writes<R>(steps: seq<Step<R>>, n: nat): nat
    requires n <= |steps|
  {
    if n == 0 then 0 else Writes(steps, n - 1) + (if steps[n - 1].Write? then 1 else 0)
  }

  /** Every row written was accepted or is counted as dropped, and a batch has a first-seen time exactly while it has rows. */
  lemma {:induction false} WritesAccounted<R>(max: nat, steps: seq<Step<R>>, states: seq<Lake<R>>, n: nat)
    requires IsRun(max, steps, states) && n <= |steps|
    ensures Pending(states[n].accepted) + states[n].dropped == Writes(steps, n)
    ensures states[n].firstSeen.Keys == states[n].batches.Keys
    ensures forall c | c in states[n].batches :: states[n].batches[c] != []
    decreases n
  {
    hide Pending;
    if n == 0 {
      PendingNone<R>();
    } else {
      WritesAccounted(max, steps, states, n - 1);
      CountedStep(max, states[n - 1], steps[n - 1]);
      TimedStep(max, states[n - 1], steps[n - 1]);
      hide Do;
    }
  }

  lemma CountedStep<R>(max: nat, s: Lake<R>, step: Step<R>)
    requires Enabled(s, step)
    ensures Pending(Do(max, s, step).accepted) + Do(max, s, step).dropped
         == Pending(s.accepted) + s.dropped + (if step.Write? then 1 else 0)
  {
    hide Pending;
    if step.Write? {
      PendingUpdate(s.accepted, step.cls, Rows(s.accepted, step.cls) + [step.row]);
    }
  }

  lemma TimedStep<R>(max: nat, s: Lake<R>, step: Step<R>)
    requires Enabled(s, step) && s.firstSeen.Keys == s.batches.Keys && forall c | c in s.batches :: s.batches[c] != []
    ensures Do(max, s, step).firstSeen.Keys == Do(max, s, step).batches.Keys
    ensures forall c | c in Do(max, s, step).batches :: Do(max, s, step).batches[c] != []
  {
    hide Pending;
  }

  // -------------------------------------------------------- flushes that do not overlap

  /** A class with one open flush at most, whose snapshot is the front of the batch. */
  ghost predicate Alone<R>(s: Lake<R>, c: ClassUid) {
    && (forall i | 0 <= i < |s.flights| && s.flights[i].open && s.flights[i].cls == c :: s.flights[i].rows <= Rows(s.batches, c))
    && (forall i, j | 0 <= i < j < |s.flights| && s.flights[i].open && s.flights[j].open && s.flights[i].cls == c :: s.flights[j].cls != c)
  }

  lemma AloneStep<R>(max: nat, s: Lake<R>, step: Step<R>, c: ClassUid)
    requires Enabled(s, step) && Alone(s, c) && c !in Do(max, s, step).overlapped
    ensures Alone(Do(max, s, step), c)
  {
    hide Pending, Rows;
    if step.Finish? {
      AloneFinish(s, step.i, step.ok, step.now, c);
    } else if step.Begin? {
      AloneBegin(s, step.cls, c);
    } else {
      AloneWrite(s, step.cls, step.row, step.now, c);
    }
  }

  lemma AloneWrite<R>(s: Lake<R>, d: ClassUid, row: R, now: int, c: ClassUid)
    requires Alone(s, c)
    ensures Alone(Appended(s, d, row, now), c)
    ensures forall n :: Alone(s.(dropped := n), c)
  {
  }

  lemma AloneBegin<R>(s: Lake<R>, d: ClassUid, c: ClassUid)
    requires Alone(s, c) && c !in Begun(s, d).overlapped
    ensures Alone(Begun(s, d), c)
  {
  }

  lemma AloneFinish<R>(s: Lake<R>, i: nat, ok: bool, now: int, c: ClassUid)
    requires i < |s.flights| && s.flights[i].open && Alone(s, c)
    ensures Alone(Finished(s, i, ok, now), c)
  {
    OpenFlights(s, i, c);
    if !(ok && s.flights[i].cls == c) {
      OtherRows(s, i, ok, now, c);
    }
  }

  /** Closing flight `i` leaves the other open flights of a class, none if it was of that class. */
  lemma OpenFlights<R>(s: Lake<R>, i: nat, c: ClassUid)
    requires i < |s.flights| && s.flights[i].open && Alone(s, c)
    ensures var after := s.flights[i := s.flights[i].(open := false)];
            forall j | 0 <= j < |after| && after[j].open && after[j].cls == c :: s.flights[i].cls != c && s.flights[j] == after[j]
  {
  }

  lemma OverlapsStay<R>(max: nat, s: Lake<R>, step: Step<R>)
    requires Enabled(s, step)
    ensures s.overlapped <= Do(max, s, step).overlapped
  {
  }

  lemma {:induction false} RunAlone<R>(max: nat, steps: seq<Step<R>>, states: seq<Lake<R>>, n: nat, c: ClassUid)
    requires IsRun(max, steps, states) && n <= |steps| && c !in states[n].overlapped
    ensures Alone(states[n], c)
    ensures forall m | 0 <= m < n && Uploads(states[m], steps[m], c) :: FindsSnapshot(states[m], steps[m])
    decreases n
  {
    if n > 0 {
      hide Do, Pending;
      OverlapsStay(max, states[n - 1], steps[n - 1]);
      RunAlone(max, steps, states, n - 1, c);
      AloneStep(max, states[n - 1], steps[n - 1], c);
    }
  }

  /** A class whose flushes never overlapped has lost nothing. */
  lemma NoOverlapIsBalanced<R>(max: nat, steps: seq<Step<R>>, states: seq<Lake<R>>, n: nat, c: ClassUid)
    requires IsRun(max, steps, states) && n <= |steps| && c !in states[n].overlapped
    ensures Balanced(states[n], c)
  {
    hide IsRun, Alone, Balanced, Uploads, FindsSnapshot;
    RunAlone(max, steps, states, n, c);
    BalancedIff(max, steps, states, n, c);
  }

  /** The second flush begins before the first one ends, and a write comes between. */
  function OverlapSteps<R>(a: R, b: R): seq<Step<R>> {
    [Write(1, a, 0), Begin(1), Begin(1), Write(1, b, 0), Finish(0, true, 0), Finish(1, true, 0)]
  }

  function OverlapState<R>(a: R, b: R, i: nat): Lake<R> {
    var open, closed := Flight(1, [a], true), Flight(1, [a], false);
    var one, two := map[1 := [a]], map[1 := [a, b]];
    if i == 0 then Init()
    else if i == 1 then Lake(one, map[1 := 0], 0, [], one, map[], {})
    else if i == 2 then Lake(one, map[1 := 0], 0, [open], one, map[], {})
    else if i == 3 then Lake(one, map[1 := 0], 0, [open, open], one, map[], {1})
    else if i == 4 then Lake(two, map[1 := 0], 0, [open, open], two, map[], {1})
    else if i == 5 then Lake(map[1 := [b]], map[1 := 0], 0, [closed, open], two, map[1 := [a]], {1})
    else Lake(map[], map[], 0, [closed, closed], two, map[1 := [a, a]], {1})
  }

  lemma OverlapWrites<R>(a: R, b: R)
    ensures Appended(OverlapState(a, b, 0), 1, a, 0) == OverlapState(a, b, 1)
    ensures Appended(OverlapState(a, b, 3), 1, b, 0) == OverlapState(a, b, 4)
  {
    var none: seq<R> := [];
    assert none + [a] == [a];
    assert [a] + [b] == [a, b];
    assert map[1 := [a]][1 := [a, b]] == map[1 := [a, b]];
  }

  lemma OverlapBegins<R>(a: R, b: R)
    ensures Begun(OverlapState(a, b, 1), 1) == OverlapState(a, b, 2)
    ensures Begun(OverlapState(a, b, 2), 1) == OverlapState(a, b, 3)
  {
    var s := OverlapState(a, b, 2);
    assert s.flights[0].open && s.flights[0].cls == 1;
    assert Busy(s, 1);
    assert [Flight(1, [a], true)] + [Flight(1, [a], true)] == [Flight(1, [a], true), Flight(1, [a], true)];
  }

  lemma FirstFinish<R>(a: R, b: R)
    ensures Finished(OverlapState(a, b, 4), 0, true, 0) == OverlapState(a, b, 5)
  {
    var none: seq<R> := [];
    assert none + [a] == [a] && [a, b][1..] == [b];
    assert map[1 := [a, b]][1 := [b]] == map[1 := [b]];
    assert [Flight(1, [a], true), Flight(1, [a], true)][0 := Flight(1, [a], false)] == [Flight(1, [a], false), Flight(1, [a], true)];
  }

  lemma SecondFinish<R>(a: R, b: R)
    ensures Finished(OverlapState(a, b, 5), 1, true, 0) == OverlapState(a, b, 6)
  {
    assert [a] + [a] == [a, a];
    assert map[1 := [a]][1 := [a, a]] == map[1 := [a, a]];
    assert map[1 := [b]] - {1} == map[] && map[1 := 0] - {1} == map[];
    assert [Flight(1, [a], false), Flight(1, [a], true)][1 := Flight(1, [a], false)] == [Flight(1, [a], false), Flight(1, [a], false)];
  }

  lemma SmallPending<R>(a: R)
    ensures Pending<R>(map[]) == 0 && Pending(map[1 := [a]]) == 1
  {
    PendingNone<R>();
    PendingUpdate<R>(map[], 1, [a]);
  }

  lemma OverlapStep<R>(max: nat, a: R, b: R, i: nat)
    requires max >= 2 && i < 6
    ensures Enabled(OverlapState(a, b, i), OverlapSteps(a, b)[i])
    ensures Do(max, OverlapState(a, b, i), OverlapSteps(a, b)[i]) == OverlapState(a, b, i + 1)
  {
    hide Pending, Finished, Begun, Appended;
    SmallPending(a);
    if i == 0 || i == 3 {
      OverlapWrites(a, b);
    } else if i == 1 || i == 2 {
      OverlapBegins(a, b);
    } else if i == 4 {
      FirstFinish(a, b);
    } else {
      SecondFinish(a, b);
    }
  }

  /** Two overlapping flushes of one class: one row uploaded twice, another removed that neither uploaded. */
  lemma OverlapLosesRow<R>(max: nat, a: R, b: R) returns (steps: seq<Step<R>>, states: seq<Lake<R>>)
    requires max >= 2
    ensures IsRun(max, steps, states) && |steps| == 6
    ensures Rows(states[6].accepted, 1) == [a, b] && Rows(states[6].uploaded, 1) == [a, a] && Rows(states[6].batches, 1) == []
    ensures a != b ==> !Balanced(states[6], 1)
  {
    steps := OverlapSteps(a, b);
    states := seq(7, i requires 0 <= i < 7 => OverlapState(a, b, i));
    hide Do, Enabled, OverlapSteps;
    forall i | 0 <= i < 6 ensures Enabled(states[i], steps[i]) && states[i + 1] == Do(max, states[i], steps[i]) {
      OverlapStep(max, a, b, i);
    }
    assert [a, a][1] == a && [a, b][1] == b;
  }

  // ------------------------------------------------------------------- the writer

  /** The writer's locked sections. FlushClass is BeginFlush, the upload, and FinishFlush. */
  class SecurityLakeWriter<R> {
    const maxPendingRows: nat
    const maxBatchBytes: int
    var batches: map<ClassUid, seq<R>>
    var batchFirstSeen: map<ClassUid, int>
    var droppedEvents: nat
    ghost var flights: seq<Flight<R>>
    ghost var accepted: map<ClassUid, seq<R>>
    ghost var uploaded: map<ClassUid, seq<R>>
    ghost var overlapped: set<ClassUid>

    ghost function View(): Lake<R>
      reads this
    {
      Lake(batches, batchFirstSeen, droppedEvents, flights, accepted, uploaded, overlapped)
    }

    constructor (maxPendingRows: nat, maxBatchBytes: int)
      ensures View() == Init()
      ensures this.maxPendingRows == maxPendingRows && this.maxBatchBytes == maxBatchBytes
    {
      this.maxPendingRows, this.maxBatchBytes := maxPendingRows, maxBatchBytes;
      batches, batchFirstSeen, droppedEvents := map[], map[], 0;
      flights, accepted, uploaded, overlapped := [], map[], map[], {};
    }

    /** The sum over all classes, in whatever order the map is walked. */
    method TotalPending() returns (total: nat)
      ensures total == Pending(batches)
    {
      hide Pending;
      total := 0;
      var left := batches;
      while left != map[]
        invariant total + Pending(left) == Pending(batches)
        decreases |left|
      {
        HasClass(left);
        var c :| c in left;
        PendingSplit(left, c);
        Smaller(left, c);
        total := total + |left[c]|;
        left := left - {c};
      }
      PendingNone<R>();
    }

    method Write(cls: ClassUid, row: R, now: int) returns (shouldFlush: bool)
      modifies this
      ensures View() == Do(maxPendingRows, old(View()), Step.Write(cls, row, now))
      ensures shouldFlush <==> Pending(old(batches)) < maxPendingRows && |Rows(batches, cls)| * 1024 >= maxBatchBytes
    {
      var total := TotalPending();
      hide Pending;
      if total >= maxPendingRows {
        droppedEvents := droppedEvents + 1;
        return false;
      }
      batches := batches[cls := Rows(batches, cls) + [row]];
      if cls !in batchFirstSeen {
        batchFirstSeen := batchFirstSeen[cls := now];
      }
      accepted := accepted[cls := Rows(accepted, cls) + [row]];
      shouldFlush := |batches[cls]| * 1024 >= maxBatchBytes;
    }

    method BeginFlush(cls: ClassUid) returns (snapshot: seq<R>)
      modifies this
      ensures View() == Do(maxPendingRows, old(View()), Step.Begin(cls))
      ensures snapshot == Rows(batches, cls)
      ensures snapshot != [] ==> View().flights == old(View()).flights + [Flight(cls, snapshot, true)]
    {
      snapshot := Rows(batches, cls);
      if |snapshot| == 0 {
        batchFirstSeen := batchFirstSeen - {cls};
        return;
      }
      overlapped := if Busy(View(), cls) then overlapped + {cls} else overlapped;
      flights := flights + [Flight(cls, snapshot, true)];
    }

    /** After the upload; `flight` is the index of the flush in the history. */
    method FinishFlush(cls: ClassUid, snapshot: seq<R>, ok: bool, now: int, ghost flight: nat)
      requires flight < |flights| && flights[flight] == Flight(cls, snapshot, true)
      modifies this
      ensures View() == Do(maxPendingRows, old(View()), Step.Finish(flight, ok, now))
    {
      flights := flights[flight := Flight(cls, snapshot, false)];
      if !ok {
        return;
      }
      uploaded := uploaded[cls := Rows(uploaded, cls) + snapshot];
      var rows := Rows(batches, cls);
      if |rows| <= |snapshot| {
        batches := batches - {cls};
        batchFirstSeen := batchFirstSeen - {cls};
      } else {
        batches := batches[cls := rows[|snapshot|..]];
        batchFirstSeen := batchFirstSeen[cls := now];
      }
    }
  }

  lemma PendingNone<R>()
    ensures Pending<R>(map[]) == 0
  {
  }
}
