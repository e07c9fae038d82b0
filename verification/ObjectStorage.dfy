/** The object-storage buffer: a flush takes everything at once and uploads it without the lock. */
module ObjectStorage {

  datatype Fate = InFlight | Uploaded | Failed

  datatype Taken<L> = Taken(lines: seq<L>, fate: Fate)

  /** The buffer and counters, then everything accepted and every flush begun with its fate. */
  datatype Buffer<L> = Buffer(lines: seq<L>, dropped: nat, totalEvents: nat, accepted: seq<L>, taken: seq<Taken<L>>)

  ghost function Concat<L>(taken: seq<Taken<L>>): seq<L> {
    if taken == [] then [] else Concat(taken[..|taken| - 1]) + taken[|taken| - 1].lines
  }

  ghost function UploadedCount<L>(taken: seq<Taken<L>>): nat {
    if taken == [] then 0
    else UploadedCount(taken[..|taken| - 1]) + (if taken[|taken| - 1].fate.Uploaded? then |taken[|taken| - 1].lines| else 0)
  }

  /**
   Every accepted line is in exactly one flush or in the buffer, in order, so it
   is in flight, uploaded, failed or pending, and never twice.
   */
  ghost predicate Keeps<L>(max: nat, b: Buffer<L>) {
    && b.accepted == Concat(b.taken) + b.lines
    && |b.lines| <= max
    && b.totalEvents == UploadedCount(b.taken)
    && forall i | 0 <= i < |b.taken| :: b.taken[i].lines != []
  }

  lemma ConcatLast<L>(taken: seq<Taken<L>>, t: Taken<L>)
    ensures Concat(taken + [t]) == Concat(taken) + t.lines
    ensures UploadedCount(taken + [t]) == UploadedCount(taken) + (if t.fate.Uploaded? then |t.lines| else 0)
  {
    assert (taken + [t])[..|taken|] == taken;
  }

  /** Giving a flush its fate moves no line. */
  lemma {:induction false} SettleKeepsLines<L>(taken: seq<Taken<L>>, i: nat, fate: Fate)
    requires i < |taken| && taken[i].fate.InFlight? && !fate.InFlight?
    ensures Concat(taken[i := taken[i].(fate := fate)]) == Concat(taken)
    ensures UploadedCount(taken[i := taken[i].(fate := fate)])
         == UploadedCount(taken) + (if fate.Uploaded? then |taken[i].lines| else 0)
    decreases |taken|
  {
    var n := |taken| - 1;
    var settled := taken[i := taken[i].(fate := fate)];
    if i == n {
      assert settled[..n] == taken[..n];
    } else {
      SettleKeepsLines(taken[..n], i, fate);
      assert settled[..n] == taken[..n][i := taken[i].(fate := fate)];
    }
  }

  class ObjectStorageWriter<L> {
    const maxPendingRows: nat
    var bufferLines: seq<L>
    var droppedEvents: nat
    var totalEvents: nat
    ghost var accepted: seq<L>
    ghost var taken: seq<Taken<L>>

    ghost function View(): Buffer<L>
      reads this
    {
      Buffer(bufferLines, droppedEvents, totalEvents, accepted, taken)
    }

    ghost predicate Valid()
      reads this
    {
      Keeps(maxPendingRows, View())
    }

    constructor (maxPendingRows: nat)
      ensures Valid() && View() == Buffer([], 0, 0, [], []) && this.maxPendingRows == maxPendingRows
    {
      this.maxPendingRows := maxPendingRows;
      bufferLines, droppedEvents, totalEvents, accepted, taken := [], 0, 0, [], [];
    }

    method Write(line: L)
      requires Valid()
      modifies this
      ensures Valid()
      ensures View() == if |old(bufferLines)| >= maxPendingRows then old(View()).(dropped := old(droppedEvents) + 1)
                        else old(View()).(lines := old(bufferLines) + [line], accepted := old(accepted) + [line])
    {
      hide Concat, UploadedCount;
      if |bufferLines| >= maxPendingRows {
        droppedEvents := droppedEvents + 1;
        return;
      }
      assert Concat(taken) + (bufferLines + [line]) == Concat(taken) + bufferLines + [line];
      bufferLines := bufferLines + [line];
      accepted := accepted + [line];
    }

    /** The locked half of Flush: take everything. */
    method Take() returns (snapshot: seq<L>)
      requires Valid()
      modifies this
      ensures Valid() && bufferLines == [] && snapshot == old(bufferLines)
      ensures View() == old(View()).(lines := [],
                                     taken := if snapshot == [] then old(taken) else old(taken) + [Taken(snapshot, InFlight)])
    {
      hide Concat, UploadedCount;
      snapshot := bufferLines;
      if |bufferLines| == 0 {
        return;
      }
      ConcatLast(taken, Taken(snapshot, InFlight));
      taken := taken + [Taken(snapshot, InFlight)];
      assert Concat(taken) + [] == Concat(taken);
      bufferLines := [];
    }

    /** The end of the upload of flush `i`, any number of which may be in flight. */
    method Settle(snapshot: seq<L>, ok: bool, ghost i: nat)
      requires Valid() && i < |taken| && taken[i] == Taken(snapshot, InFlight)
      modifies this
      ensures Valid()
      ensures View() == old(View()).(taken := old(taken)[i := Taken(snapshot, if ok then Uploaded else Failed)],
                                     totalEvents := old(totalEvents) + if ok then |snapshot| else 0)
    {
      hide Concat, UploadedCount;
      SettleKeepsLines(taken, i, if ok then Uploaded else Failed);
      taken := taken[i := Taken(snapshot, if ok then Uploaded else Failed)];
      if ok {
        totalEvents := totalEvents + |snapshot|;
      }
    }
  }
}
