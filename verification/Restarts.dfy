/**
 What the verifier reports on the rows of any run of stamps, saves and restarts:
 exactly the places where a restart resumed from a state file that was behind.
 */
module Restarts {
  import opened Wrappers
  import opened Arithmetic
  import opened Decimal
  import opened Chain
  import opened Verify
  import opened History
  import opened Damage
  import opened Stamper

  // -------------------------------------------------------------------- any run

  /** What the last row stamped leads to, and so what a verifier expects next. */
  function Reached(c: Config, ops: seq<Op>): Link {
    if ops == [] then GENESIS
    else
      var op, before := ops[|ops| - 1], ops[..|ops| - 1];
      if op.Stamp? then Advance(c.h, After(c, before).link, op.obj) else Reached(c, before)
  }

  /** `entries` are the rows of the run, wherever they are stored. */
  ghost predicate Shows(c: Config, ops: seq<Op>, entries: seq<Entry>) {
    |entries| == |RowsOf(c, ops)| && forall i | 0 <= i < |entries| :: entries[i].line == Decoded(RowsOf(c, ops)[i])
  }

  /** Row by row, how the link it was stamped from differs from the one the row before it leads to. */
  function Breaks(c: Config, ops: seq<Op>, entries: seq<Entry>): seq<Finding>
    requires |entries| == |RowsOf(c, ops)|
  {
    if ops == [] then []
    else
      var op, before := ops[|ops| - 1], ops[..|ops| - 1];
      if op.Stamp? then
        var n := |entries| - 1;
        Breaks(c, before, entries[..n]) + Break(entries[n], Reached(c, before), After(c, before).link)
      else
        Breaks(c, before, entries)
  }

  lemma {:induction false} LinksAreInt64(c: Config, ops: seq<Op>)
    ensures IsInt64(After(c, ops).link.nextSeq)
    ensures After(c, ops).file.Some? ==> IsInt64(After(c, ops).file.value.nextSeq)
    decreases |ops|
  {
    if ops != [] {
      LinksAreInt64(c, ops[..|ops| - 1]);
    }
  }

  /** Exact report of any run, with any number of restarts and failed saves; nothing is assumed of the digest. */
  lemma {:induction false} RunReport(c: Config, ops: seq<Op>, entries: seq<Entry>)
    requires Shows(c, ops, entries)
    ensures WalkAll(c.h, START, entries).link == Reached(c, ops)
    ensures WalkAll(c.h, START, entries).findings == Breaks(c, ops, entries)
    decreases |ops|
  {
    hide Step, Break, StampRow, WalkAll, Advance, After;
    if ops == [] {
      WalkNone(c.h, START);
    } else {
      var op, before := ops[|ops| - 1], ops[..|ops| - 1];
      if op.Stamp? {
        var n := |entries| - 1;
        assert entries == entries[..n] + [entries[n]];
        RunReport(c, before, entries[..n]);
        WalkLast(c.h, START, entries[..n], entries[n]);
        LinksAreInt64(c, before);
        StepStamped(c.h, WalkAll(c.h, START, entries[..n]), After(c, before).link, op.obj, entries[n]);
      } else {
        RunReport(c, before, entries);
      }
    }
  }

  // ------------------------------------------------------------------ clean runs

  /** The state file, as a restart would load it, is not behind the rows. */
  predicate Current(c: Config, ops: seq<Op>) {
    Loaded(After(c, ops).file).link == Reached(c, ops)
  }

  /** The chain state in memory is not behind the rows. */
  predicate InStep(c: Config, ops: seq<Op>) {
    After(c, ops).link == Reached(c, ops)
  }

  /** Every row was stamped from what the row before it leads to. */
  predicate Joined(c: Config, ops: seq<Op>) {
    if ops == [] then true
    else
      var before := ops[..|ops| - 1];
      Joined(c, before) && (ops[|ops| - 1].Stamp? ==> InStep(c, before))
  }

  ghost predicate RestartsCurrent(c: Config, ops: seq<Op>, n: nat)
    requires n <= |ops|
  {
    forall i | 0 <= i < n && ops[i].Restart? :: Current(c, ops[..i])
  }

  predicate StampFollows(ops: seq<Op>, i: nat) {
    exists j :: i < j < |ops| && ops[j].Stamp?
  }

  lemma {:induction false} NoBreaksIffJoined(c: Config, ops: seq<Op>, entries: seq<Entry>)
    requires |entries| == |RowsOf(c, ops)|
    ensures Breaks(c, ops, entries) == [] <==> Joined(c, ops)
    decreases |ops|
  {
    hide Break, After, Advance;
    if ops != [] {
      var before := ops[..|ops| - 1];
      NoBreaksIffJoined(c, before, if ops[|ops| - 1].Stamp? then entries[..|entries| - 1] else entries);
    }
  }

  /** A chain that fell behind its rows has a state file that is behind them too. */
  lemma {:induction false} BehindTogether(c: Config, ops: seq<Op>)
    ensures InStep(c, ops) || !Current(c, ops)
    decreases |ops|
  {
    hide Advance;
    if ops != [] {
      BehindTogether(c, ops[..|ops| - 1]);
    }
  }

  /** Rows joined and memory in step: all restarts so far found a current state file. */
  lemma {:induction false} InStepIffRestartsCurrent(c: Config, ops: seq<Op>)
    ensures Joined(c, ops) && InStep(c, ops) <==> RestartsCurrent(c, ops, |ops|)
    decreases |ops|
  {
    hide Advance;
    if ops != [] {
      var n := |ops| - 1;
      var before := ops[..n];
      InStepIffRestartsCurrent(c, before);
      BehindTogether(c, before);
      assert forall i | 0 <= i < n :: before[..i] == ops[..i] && before[i] == ops[i];
      assert RestartsCurrent(c, ops, n) <==> RestartsCurrent(c, before, n);
      assert RestartsCurrent(c, ops, |ops|) <==> RestartsCurrent(c, ops, n) && (ops[n].Restart? ==> Current(c, before));
    }
  }

  lemma {:induction false} JoinedIffRestartsCurrent(c: Config, ops: seq<Op>)
    ensures Joined(c, ops)
       <==> forall i | 0 <= i < |ops| && ops[i].Restart? && StampFollows(ops, i) :: Current(c, ops[..i])
    decreases |ops|
  {
    hide Current, InStep;
    if ops != [] {
      var n := |ops| - 1;
      var before := ops[..n];
      assert forall i | 0 <= i < n :: before[..i] == ops[..i] && before[i] == ops[i];
      if ops[n].Stamp? {
        InStepIffRestartsCurrent(c, before);
        assert forall i | 0 <= i < n :: StampFollows(ops, i);
        assert !StampFollows(ops, n);
      } else {
        JoinedIffRestartsCurrent(c, before);
        forall i | 0 <= i < n ensures StampFollows(ops, i) <==> StampFollows(before, i) {
          if StampFollows(ops, i) {
            var j :| i < j < |ops| && ops[j].Stamp?;
            assert before[j].Stamp?;
          }
        }
        assert !StampFollows(ops, n);
      }
    }
  }

  /**
   A run verifies clean exactly when every restart that is followed by a row
   found a state file that was not behind the rows already written.
   */
  lemma CleanIffRestartsCurrent(c: Config, ops: seq<Op>, entries: seq<Entry>)
    requires Shows(c, ops, entries)
    ensures WalkAll(c.h, START, entries).findings == []
       <==> forall i | 0 <= i < |ops| && ops[i].Restart? && StampFollows(ops, i) :: Current(c, ops[..i])
  {
    hide Breaks, Joined, Current, WalkAll;
    RunReport(c, ops, entries);
    NoBreaksIffJoined(c, ops, entries);
    JoinedIffRestartsCurrent(c, ops);
  }

  // ------------------------------------------------------------------- one crash

  /** Stamps only, each with the outcome of the save it may cause. */
  function Stamps(events: seq<Fields>, written: seq<bool>): (ops: seq<Op>)
    requires |written| == |events|
    ensures |ops| == |events|
    ensures forall i | 0 <= i < |ops| :: ops[i] == Stamp(events[i], written[i])
  {
    seq(|events|, i requires 0 <= i < |events| => Stamp(events[i], written[i]))
  }

  /** The number of stamps the state file covers: up to the last periodic save that reached the disk. */
  function Covered(c: Config, written: seq<bool>): (m: nat)
    requires c.saveEvery > 0
    ensures m <= |written|
    ensures m == |written| <==> written == [] || (c.persistent && |written| % c.saveEvery == 0 && written[|written| - 1])
  {
    var n := |written|;
    if n == 0 || (c.persistent && n % c.saveEvery == 0 && written[n - 1]) then n else Covered(c, written[..n - 1])
  }

  lemma {:induction false} FileAfterStamps(c: Config, events: seq<Fields>, written: seq<bool>)
    requires c.saveEvery > 0 && |written| == |events|
    ensures var k := After(c, Stamps(events, written));
            && k.link == LinkAt(c.h, GENESIS, events, |events|)
            && k.sinceSave == |events| % c.saveEvery
            && Loaded(k.file).link == LinkAt(c.h, GENESIS, events, Covered(c, written))
    decreases |events|
  {
    hide Advance, Apply, LinkAt;
    LinkFirst(c.h, GENESIS, events);
    if events != [] {
      var n := |events| - 1;
      var before, ops := events[..n], Stamps(events, written);
      assert ops[..n] == Stamps(before, written[..n]);
      FileAfterStamps(c, before, written[..n]);
      assert events == before + [events[n]];
      LinkAtPrefix(c.h, before, [events[n]], n);
      LinkAtPrefix(c.h, before, [events[n]], Covered(c, written[..n]));
      LinkLast(c.h, events);
      NextMod(n + 1, c.saveEvery);
      StampOnce(c, After(c, ops[..n]), events[n], written[n]);
    }
  }

  lemma LinkLast(h: Digest, events: seq<Fields>)
    requires events != []
    ensures LinkAt(h, GENESIS, events, |events|)
         == Advance(h, LinkAt(h, GENESIS, events, |events| - 1), events[|events| - 1])
  {
  }

  lemma StampOnce(c: Config, k: Keeper, obj: Fields, written: bool)
    ensures Apply(c, k, Stamp(obj, written))
         == if k.sinceSave + 1 < c.saveEvery then Keeper(Advance(c.h, k.link, obj), k.sinceSave + 1, k.file)
            else Keeper(Advance(c.h, k.link, obj), 0, if c.persistent && written then Some(Advance(c.h, k.link, obj)) else k.file)
  {
  }

  lemma NextMod(n: nat, d: int)
    requires n > 0 && d > 0
    ensures n % d == if (n - 1) % d + 1 >= d then 0 else (n - 1) % d + 1
  {
    var q, r := (n - 1) / d, (n - 1) % d;
    assert n == d * q + (r + 1);
    if r + 1 >= d {
      assert n == d * (q + 1);
      ModUnique(n, d, q + 1, 0);
    } else {
      ModUnique(n, d, q, r + 1);
    }
  }

  /**
   A crash after `first`, then a restart from the state file, then `second`: the
   log verifies clean exactly when the last stamp before the crash was saved;
   otherwise the first row after the restart shows one gap and one broken link.
   */
  lemma CrashReport(c: Config, first: seq<Fields>, written: seq<bool>, second: seq<Fields>, before: seq<Entry>, after: seq<Entry>)
    requires IsDigest(c.h) && c.saveEvery > 0 && |first| <= INT64_LIMIT && |written| == |first|
    requires |before| == |first| && Holds(c.h, GENESIS, first, 0, before)
    requires |after| == |second| && second != []
    requires Holds(c.h, Apply(c, After(c, Stamps(first, written)), Restart).link, second, 0, after)
    ensures WalkAll(c.h, START, before + after).findings == []
       <==> first == [] || (c.persistent && |first| % c.saveEvery == 0 && written[|first| - 1])
    ensures Covered(c, written) < |first| ==>
              WalkAll(c.h, START, before + after).findings == Gap(after[0], Covered(c, written))
              || SomeCollision(c.h, first)
  {
    hide WalkAll, Stamps, After, Apply, Advance, IsDigest, IsPrev, Holds, SomeCollision, Wrap64, RowAt, Break, LinkAt, Covered;
    var n, m := |first|, Covered(c, written);
    CrashBreak(c, first, written, second, before, after);
    if m == n {
      BreakNone(after[0], LinkAt(c.h, GENESIS, first, m));
    } else {
      BreakBetween(c.h, first, n, m, after[0]);
      SeqAt(c.h, GENESIS, first, m);
      WrapSmall(m);
      assert GENESIS.nextSeq == 0;
    }
  }

  lemma CrashBreak(c: Config, first: seq<Fields>, written: seq<bool>, second: seq<Fields>, before: seq<Entry>, after: seq<Entry>)
    requires c.saveEvery > 0 && |written| == |first|
    requires |before| == |first| && Holds(c.h, GENESIS, first, 0, before)
    requires |after| == |second| && second != []
    requires Holds(c.h, Apply(c, After(c, Stamps(first, written)), Restart).link, second, 0, after)
    ensures WalkAll(c.h, START, before + after).findings
         == Break(after[0], LinkAt(c.h, GENESIS, first, |first|), LinkAt(c.h, GENESIS, first, Covered(c, written)))
  {
    hide WalkAll, Stamps, After, Holds, Wrap64, RowAt, Break, LinkAt, Covered;
    FileAfterStamps(c, first, written);
    var s := LinkAt(c.h, GENESIS, first, Covered(c, written));
    PrefixIsClean(c.h, first, |first|, before);
    WalkConcat(c.h, START, before, after);
    SeqAt(c.h, GENESIS, first, Covered(c, written));
    Segment(c.h, s, second, 0, after, WalkAll(c.h, START, before));
    LinkFirst(c.h, s, second);
  }

  lemma BreakNone(e: Entry, s: Link)
    ensures Break(e, s, s) == []
  {
  }
}
