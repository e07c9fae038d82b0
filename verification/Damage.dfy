/** Exactly which findings a damaged log produces, and on which rows. */
module Damage {
  import opened Wrappers
  import opened Json
  import opened Decimal
  import opened Chain
  import opened Verify
  import opened History

  /** The two findings of a row that does not follow its predecessor. */
  function Gap(e: Entry, seqNo: int): seq<Finding> {
    [Finding(e.source, e.lineNo, Some(seqNo), SeqGap), Finding(e.source, e.lineNo, Some(seqNo), PrevHashMismatch)]
  }

  /** Two different rows of the honest log collide. */
  ghost predicate SomeCollision(h: Digest, events: seq<Fields>) {
    exists a: nat, b: nat :: a < |events| && b < |events| && a != b && RowsCollide(h, events, a, b)
  }

  /** Between two points of one log a break shows both findings, unless two rows collide. */
  lemma BreakBetween(h: Digest, events: seq<Fields>, a: nat, b: nat, e: Entry)
    requires IsDigest(h) && a <= |events| && b <= |events| && a != b && |events| <= INT64_LIMIT
    ensures Break(e, LinkAt(h, GENESIS, events, a), LinkAt(h, GENESIS, events, b)) == Gap(e, LinkAt(h, GENESIS, events, b).nextSeq)
         || SomeCollision(h, events)
    ensures Break(e, LinkAt(h, GENESIS, events, a), LinkAt(h, GENESIS, events, b)) != []
  {
    hide LinkAt, RowsCollide, IsDigest;
    LinksDiffer(h, events, a, b);
  }

  // ---------------------------------------------------------------- rearranging

  /** `entries` are the honest rows `picks`, in that order: any deletion, repetition or reordering. */
  ghost predicate Rearranged(h: Digest, events: seq<Fields>, picks: seq<nat>, entries: seq<Entry>) {
    |entries| == |picks|
    && forall k | 0 <= k < |picks| ::
         picks[k] < |events| && entries[k].line == Decoded(RowAt(h, GENESIS, events, picks[k]))
  }

  /** Two findings on each row that does not directly follow the row before it in the honest log. */
  function Gaps(picks: seq<nat>, entries: seq<Entry>): seq<Finding>
    requires |entries| == |picks|
  {
    if picks == [] then []
    else
      var n := |picks| - 1;
      Gaps(picks[..n], entries[..n]) + (if picks[n] == Follows(picks, n) then [] else Gap(entries[n], Wrap64(picks[n])))
  }

  /** The row expected at position `k`. */
  function Follows(picks: seq<nat>, k: nat): nat
    requires k <= |picks|
  {
    if k == 0 then 0 else picks[k - 1] + 1
  }

  lemma PickStep(h: Digest, events: seq<Fields>, w: Walk, from: nat, to: nat, e: Entry)
    requires IsDigest(h) && from <= |events| && to < |events| && |events| <= INT64_LIMIT
    requires w.link == LinkAt(h, GENESIS, events, from) && e.line == Decoded(RowAt(h, GENESIS, events, to))
    ensures Step(h, w, e).link == LinkAt(h, GENESIS, events, to + 1)
    ensures Step(h, w, e).findings == w.findings + (if to == from then [] else Gap(e, Wrap64(to))) || SomeCollision(h, events)
    ensures Step(h, w, e).findings == w.findings <==> to == from
  {
    hide Step, StampRow, LinkHash, Wrap64, Break, RowsCollide, IsDigest, SomeCollision;
    StepStamped(h, w, LinkAt(h, GENESIS, events, to), events[to], e);
    SeqAt(h, GENESIS, events, to);
    if to != from {
      BreakBetween(h, events, from, to, e);
    }
  }

  /** Exact report of a rearranged log. */
  lemma {:induction false} RearrangedReport(h: Digest, events: seq<Fields>, picks: seq<nat>, entries: seq<Entry>)
    requires IsDigest(h) && |events| <= INT64_LIMIT && Rearranged(h, events, picks, entries)
    ensures WalkAll(h, START, entries).link == LinkAt(h, GENESIS, events, Follows(picks, |picks|))
    ensures WalkAll(h, START, entries).findings == Gaps(picks, entries) || SomeCollision(h, events)
    decreases |picks|
  {
    hide Step, WalkAll, LinkAt, Gap, IsDigest, SomeCollision, RowAt, Wrap64;
    if picks == [] {
      WalkNone(h, START);
      LinkFirst(h, GENESIS, events);
    } else {
      var n := |picks| - 1;
      assert entries == entries[..n] + [entries[n]];
      RearrangedReport(h, events, picks[..n], entries[..n]);
      WalkLast(h, START, entries[..n], entries[n]);
      PickStep(h, events, WalkAll(h, START, entries[..n]), Follows(picks, n), picks[n], entries[n]);
    }
  }

  /** A rearranged log verifies clean exactly when it is a prefix of the honest one. */
  lemma {:induction false} CleanIffPrefix(h: Digest, events: seq<Fields>, picks: seq<nat>, entries: seq<Entry>)
    requires IsDigest(h) && |events| <= INT64_LIMIT && Rearranged(h, events, picks, entries)
    ensures WalkAll(h, START, entries).findings == [] <==> forall k | 0 <= k < |picks| :: picks[k] == k
    decreases |picks|
  {
    hide Step, WalkAll, LinkAt, IsDigest, SomeCollision, RowAt;
    if picks == [] {
      WalkNone(h, START);
    } else {
      var n := |picks| - 1;
      var before := WalkAll(h, START, entries[..n]);
      assert entries == entries[..n] + [entries[n]];
      CleanIffPrefix(h, events, picks[..n], entries[..n]);
      RearrangedReport(h, events, picks[..n], entries[..n]);
      WalkLast(h, START, entries[..n], entries[n]);
      PickStep(h, events, before, Follows(picks, n), picks[n], entries[n]);
      FindingsGrow(h, before, entries[n]);
      assert forall k | 0 <= k < n :: picks[..n][k] == picks[k];
      assert (forall k | 0 <= k < |picks| :: picks[k] == k) <==> picks[n] == n && forall k | 0 <= k < n :: picks[k] == k;
    }
  }

  lemma FindingsGrow(h: Digest, w: Walk, e: Entry)
    ensures Step(h, w, e).findings == [] ==> w.findings == []
  {
  }

  // ------------------------------------------------------------------ one row

  /**
   Cutting out the rows `i` .. `j` - 1 and leaving a later row: one gap and one
   broken link, both on the first row after the cut.
   */
  lemma DeletedBlock(h: Digest, events: seq<Fields>, i: nat, before: seq<Entry>, j: nat, after: seq<Entry>)
    requires IsDigest(h) && |events| <= INT64_LIMIT
    requires |before| == i && i < j && Holds(h, GENESIS, events, 0, before)
    requires j + |after| == |events| && after != [] && Holds(h, GENESIS, events, j, after)
    ensures WalkAll(h, START, before + after).findings == Gap(after[0], j) || SomeCollision(h, events)
    ensures WalkAll(h, START, before + after).findings != []
  {
    hide WalkAll, Holds, LinkAt, Break, IsDigest, SomeCollision;
    Splice(h, events, i, before, [], j, after);
    WalkNone(h, WalkAll(h, START, before));
    assert before + [] + after == before + after;
    BreakBetween(h, events, i, j, after[0]);
    SeqAt(h, GENESIS, events, j);
  }

  /**
   Putting any line in place of row `i`: the findings are those of that line
   against the honest state before it, then those of row `i` + 1 against the
   state the line leaves behind. No other row is reported.
   */
  lemma ReplacedRow(h: Digest, events: seq<Fields>, i: nat, before: seq<Entry>, e: Entry, after: seq<Entry>)
    requires |before| == i < |events| && Holds(h, GENESIS, events, 0, before)
    requires i + 1 + |after| == |events| && Holds(h, GENESIS, events, i + 1, after)
    ensures WalkAll(h, START, before + [e] + after).findings
         == LineFindings(h, LinkAt(h, GENESIS, events, i), e)
            + (if after == [] then []
               else Break(after[0], LinkAfter(LinkAt(h, GENESIS, events, i), e.line), LinkAt(h, GENESIS, events, i + 1)))
  {
    hide LinkAt, Break, StampRow, LineFindings, ReadLine, Wrap64, RowAt;
    var s := LinkAt(h, GENESIS, events, i);
    assert [e] == [] + [e] && before + [e] + [] == before + [e];
    WalkLast(h, START, before, e);
    WalkLast(h, WalkAll(h, START, before), [], e);
    if after == [] {
      if before != [] {
        Segment(h, GENESIS, events, 0, before, START);
      }
      PrefixIsClean(h, events, i, before);
      assert before + [e] + after == before + [e];
    } else {
      Splice(h, events, i, before, [e], i + 1, after);
    }
  }

  /** The state a line leaves behind. */
  function LinkAfter(s: Link, line: Line): Link {
    var r := ReadLine(line);
    if r.Claim? then Link(Wrap64(r.seqNo + 1), Some(r.hash)) else s
  }

  lemma PrefixIsClean(h: Digest, events: seq<Fields>, i: nat, before: seq<Entry>)
    requires |before| == i && Holds(h, GENESIS, events, 0, before)
    ensures WalkAll(h, START, before).findings == []
    ensures WalkAll(h, START, before).link == LinkAt(h, GENESIS, events, i)
  {
    hide Step, StampRow, LinkAt, LinkHash, Wrap64, WalkAll, Holds, Break;
    LinkFirst(h, GENESIS, events);
    if before == [] {
      WalkNone(h, START);
    } else {
      Segment(h, GENESIS, events, 0, before, START);
    }
  }

  /** A row whose event was changed under an untouched block: exactly one hash mismatch, on that row. */
  lemma EditedEvent(h: Digest, events: seq<Fields>, i: nat, before: seq<Entry>, e: Entry, after: seq<Entry>, edited: Json)
    requires IsDigest(h)
    requires |before| == i < |events| && Holds(h, GENESIS, events, 0, before)
    requires i + 1 + |after| == |events| && Holds(h, GENESIS, events, i + 1, after)
    requires edited != Obj(Unstamped(events[i]))
    requires var s := LinkAt(h, GENESIS, events, i);
             ReadLine(e.line) == Claim(s.nextSeq, s.lastHash, LinkHash(h, s, events[i]), edited)
    ensures var s := LinkAt(h, GENESIS, events, i);
            WalkAll(h, START, before + [e] + after).findings == [Finding(e.source, e.lineNo, Some(s.nextSeq), HashMismatch)]
            || Collision(h, Preimage(s.lastHash, s.nextSeq, edited), Preimage(s.lastHash, s.nextSeq, Obj(Unstamped(events[i]))))
  {
    hide LinkAt, ReadLine, Wrap64, WalkAll, Holds, IsDigest, Preimage, IsPrev, Unstamped;
    var s := LinkAt(h, GENESIS, events, i);
    ReplacedRow(h, events, i, before, e, after);
    LinkNext(h, GENESIS, events, i + 1);
    HashesAreHex(h, GENESIS, events, i);
    var x := Obj(Unstamped(events[i]));
    if Preimage(s.lastHash, s.nextSeq, edited) == Preimage(s.lastHash, s.nextSeq, x) {
      PreimageInjective(s.lastHash, s.nextSeq, edited, s.lastHash, s.nextSeq, x);
    }
    assert LinkAt(h, GENESIS, events, i + 1) == LinkAfter(s, e.line);
  }
}
