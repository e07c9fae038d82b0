/**
 What the verifier reports on an honest log and on one that was cut, reordered,
 edited or spliced: every finding sits where the sequence of links breaks.
 */
module History {
  import opened Wrappers
  import opened Json
  import opened Decimal
  import opened Chain
  import opened Verify

  /** The chain state after the first `i` events, starting from `s`. */
  function LinkAt(h: Digest, s: Link, events: seq<Fields>, i: nat): (l: Link)
    requires i <= |events|
    decreases i
    ensures IsInt64(s.nextSeq) ==> IsInt64(l.nextSeq)
  {
    if i == 0 then s else Advance(h, LinkAt(h, s, events, i - 1), events[i - 1])
  }

  function RowAt(h: Digest, s: Link, events: seq<Fields>, i: nat): Json
    requires i < |events|
  {
    Obj(StampRow(h, LinkAt(h, s, events, i), events[i]))
  }

  /** `entries` are the rows `from`, `from` + 1, ... of the honest log, wherever they are stored. */
  ghost predicate Holds(h: Digest, s: Link, events: seq<Fields>, from: nat, entries: seq<Entry>) {
    from + |entries| <= |events|
    && forall k | 0 <= k < |entries| :: entries[k].line == Decoded(RowAt(h, s, events, from + k))
  }

  /** A walk that has followed the chain to `l` without a finding of its own. */
  ghost predicate At(w: Walk, l: Link) {
    w.link == l && w.headHash == l.lastHash
  }

  // ------------------------------------------------------------- honest segments

  lemma ReadStamped(h: Digest, s: Link, obj: Fields)
    requires IsInt64(s.nextSeq)
    ensures ReadLine(Decoded(Obj(StampRow(h, s, obj))))
         == Claim(s.nextSeq, s.lastHash, LinkHash(h, s, obj), Obj(Unstamped(obj)))
  {
    var block := Block(s.nextSeq, s.lastHash, LinkHash(h, s, obj));
    StripUndoesBlock(obj, block);
    BlockReadsBack(s.nextSeq, s.lastHash, LinkHash(h, s, obj));
  }

  /** A stamped row moves the walk to the next link; it is reported only for not joining up. */
  lemma StepStamped(h: Digest, w: Walk, s: Link, obj: Fields, e: Entry)
    requires IsInt64(s.nextSeq) && e.line == Decoded(Obj(StampRow(h, s, obj)))
    ensures Step(h, w, e) == Walk(Advance(h, s, obj), w.eventsChecked + 1, Some(s.nextSeq), Some(LinkHash(h, s, obj)),
                                  w.findings + Break(e, w.link, s))
  {
    ReadStamped(h, s, obj);
    assert Break(e, w.link, s) + [] == Break(e, w.link, s);
  }

  /** The last sequence number of `s`, none before the first stamp. */
  function HeadSeqAt(h: Digest, s: Link, events: seq<Fields>, i: nat): Option<int>
    requires i <= |events|
  {
    if i == 0 then None else Some(LinkAt(h, s, events, i - 1).nextSeq)
  }

  /** Any stretch of honest rows is reported at most once, on its first row. */
  lemma {:induction false} Segment(h: Digest, s: Link, events: seq<Fields>, from: nat, entries: seq<Entry>, w: Walk)
    requires IsInt64(s.nextSeq) && Holds(h, s, events, from, entries) && entries != []
    ensures WalkAll(h, w, entries)
         == Walk(LinkAt(h, s, events, from + |entries|), w.eventsChecked + |entries|,
                 HeadSeqAt(h, s, events, from + |entries|), LinkAt(h, s, events, from + |entries|).lastHash,
                 w.findings + Break(entries[0], w.link, LinkAt(h, s, events, from)))
    decreases |entries|
  {
    hide Step, WalkAll, Break, StampRow, LinkHash, Wrap64;
    var n := |entries| - 1;
    var e := entries[n];
    assert entries == entries[..n] + [e];
    WalkLast(h, w, entries[..n], e);
    var before := WalkAll(h, w, entries[..n]);
    if n > 0 {
      Segment(h, s, events, from, entries[..n], w);
      assert entries[..n][0] == entries[0];
    } else {
      assert entries[..n] == [];
      WalkNone(h, w);
    }
    StepStamped(h, before, LinkAt(h, s, events, from + n), events[from + n], e);
    assert LinkAt(h, s, events, from + n + 1) == Advance(h, LinkAt(h, s, events, from + n), events[from + n]);
  }

  lemma WalkNone(h: Digest, w: Walk)
    ensures WalkAll(h, w, []) == w
  {
  }

  // ---------------------------------------------------------------- completeness

  lemma LinkNext(h: Digest, s: Link, events: seq<Fields>, i: nat)
    requires 0 < i <= |events|
    ensures LinkAt(h, s, events, i).nextSeq == Wrap64(LinkAt(h, s, events, i - 1).nextSeq + 1)
    ensures LinkAt(h, s, events, i).lastHash == Some(LinkHash(h, LinkAt(h, s, events, i - 1), events[i - 1]))
  {
    hide LinkHash, Wrap64;
  }

  lemma LinkFirst(h: Digest, s: Link, events: seq<Fields>)
    ensures LinkAt(h, s, events, 0) == s
  {
  }

  lemma {:induction false} SeqAt(h: Digest, s: Link, events: seq<Fields>, i: nat)
    requires i <= |events| && IsInt64(s.nextSeq)
    ensures LinkAt(h, s, events, i).nextSeq == Wrap64(s.nextSeq + i)
    decreases i
  {
    hide *;
    if i == 0 {
      LinkFirst(h, s, events);
    } else {
      LinkNext(h, s, events, i);
      SeqAt(h, s, events, i - 1);
      WrapStep(s.nextSeq + i - 1);
    }
  }

  /**
   Every honest log verifies clean, however its rows are spread over files,
   and the walk ends at the writer's own head.
   */
  lemma HonestLogIsClean(h: Digest, events: seq<Fields>, files: seq<LogFile>)
    requires |LocateAll(files)| == |events| && Holds(h, GENESIS, events, 0, LocateAll(files))
    ensures var w := WalkAll(h, START, LocateAll(files));
            && w.findings == []
            && w.eventsChecked == |events|
            && w.link == LinkAt(h, GENESIS, events, |events|)
            && w.headHash == LinkAt(h, GENESIS, events, |events|).lastHash
            && w.headSeq == (if events == [] then None else Some(Wrap64(|events| - 1)))
  {
    hide Step, StampRow, LinkHash, Wrap64, LocateAll;
    if events != [] {
      Segment(h, GENESIS, events, 0, LocateAll(files), START);
      SeqAt(h, GENESIS, events, |events| - 1);
    }
  }

  // -------------------------------------------------------------------- splicing

  /**
   Rows of an honest log before `i`, anything at all, then its rows from `j` on:
   beyond the findings inside the foreign part, only the first row after it can
   be reported, and the walk ends where the honest log ends.
   */
  lemma Splice(h: Digest, events: seq<Fields>, i: nat, before: seq<Entry>, foreign: seq<Entry>, j: nat, after: seq<Entry>)
    requires |before| == i && Holds(h, GENESIS, events, 0, before)
    requires j + |after| == |events| && after != [] && Holds(h, GENESIS, events, j, after)
    ensures var middle := WalkAll(h, WalkAll(h, START, before), foreign);
            var w := WalkAll(h, START, before + foreign + after);
            && WalkAll(h, START, before).link == LinkAt(h, GENESIS, events, i)
            && WalkAll(h, START, before).findings == []
            && w.findings == middle.findings + Break(after[0], middle.link, LinkAt(h, GENESIS, events, j))
            && w.link == LinkAt(h, GENESIS, events, |events|)
  {
    hide Step, StampRow, LinkHash, Wrap64;
    if before != [] {
      Segment(h, GENESIS, events, 0, before, START);
    }
    WalkConcat(h, START, before, foreign);
    WalkConcat(h, START, before + foreign, after);
    Segment(h, GENESIS, events, j, after, WalkAll(h, START, before + foreign));
  }

  // ------------------------------------------------------------ distinct links

  lemma {:induction false} HashesAreHex(h: Digest, s: Link, events: seq<Fields>, i: nat)
    requires i <= |events| && IsDigest(h) && IsPrev(s.lastHash)
    ensures IsPrev(LinkAt(h, s, events, i).lastHash)
  {
  }

  /** Rows `a` and `b` of one honest log collide. */
  ghost predicate RowsCollide(h: Digest, events: seq<Fields>, a: nat, b: nat)
    requires a < |events| && b < |events|
  {
    var s, t := LinkAt(h, GENESIS, events, a), LinkAt(h, GENESIS, events, b);
    Collision(h, Preimage(s.lastHash, s.nextSeq, Obj(Unstamped(events[a]))),
                 Preimage(t.lastHash, t.nextSeq, Obj(Unstamped(events[b]))))
  }

  /** Two different points of a log differ in sequence number, and in hash unless two rows collide. */
  lemma LinksDiffer(h: Digest, events: seq<Fields>, a: nat, b: nat)
    requires IsDigest(h) && a <= |events| && b <= |events| && a != b && |events| <= INT64_LIMIT
    ensures LinkAt(h, GENESIS, events, a).nextSeq != LinkAt(h, GENESIS, events, b).nextSeq
    ensures LinkAt(h, GENESIS, events, a).lastHash == LinkAt(h, GENESIS, events, b).lastHash
        ==> a > 0 && b > 0 && RowsCollide(h, events, a - 1, b - 1)
  {
    hide LinkAt, LinkHash, IsDigest, Wrap64, RowsCollide, Collision, Preimage;
    SeqAt(h, GENESIS, events, a);
    SeqAt(h, GENESIS, events, b);
    if Wrap64(a) == Wrap64(b) {
      WrapInjective(a, b);
    }
    LinkFirst(h, GENESIS, events);
    if a > 0 {
      LinkNext(h, GENESIS, events, a);
    }
    if b > 0 {
      LinkNext(h, GENESIS, events, b);
    }
    if LinkAt(h, GENESIS, events, a).lastHash == LinkAt(h, GENESIS, events, b).lastHash {
      SameHashCollides(h, events, a - 1, b - 1);
    }
  }

  lemma SameHashCollides(h: Digest, events: seq<Fields>, a: nat, b: nat)
    requires IsDigest(h) && a < |events| && b < |events| && a != b && |events| <= INT64_LIMIT
    requires LinkHash(h, LinkAt(h, GENESIS, events, a), events[a]) == LinkHash(h, LinkAt(h, GENESIS, events, b), events[b])
    ensures RowsCollide(h, events, a, b)
  {
    hide LinkAt, Unstamped, IsDigest, IsPrev, Preimage;
    var s, t := LinkAt(h, GENESIS, events, a), LinkAt(h, GENESIS, events, b);
    var x, y := Obj(Unstamped(events[a])), Obj(Unstamped(events[b]));
    SeqAt(h, GENESIS, events, a);
    SeqAt(h, GENESIS, events, b);
    HashesAreHex(h, GENESIS, events, a);
    HashesAreHex(h, GENESIS, events, b);
    if Preimage(s.lastHash, s.nextSeq, x) == Preimage(t.lastHash, t.nextSeq, y) {
      PreimageInjective(s.lastHash, s.nextSeq, x, t.lastHash, t.nextSeq, y);
      WrapInjective(a, b);
    }
  }
}
