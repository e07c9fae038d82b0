/** The ranges of the emitted manifests tile the log, and how much of the tail they leave open. */
module Coverage {
  import opened Wrappers
  import opened Decimal
  import opened Chain
  import opened Verify
  import opened History
  import opened Manifest
  import opened LogWriter
  import opened Checkpoints

  /** Consecutive ranges from 0 to the last covered row, none shorter than the interval. */
  ghost predicate Tiles(interval: int, g: Signing) {
    && (g.last.None? <==> g.stored == [])
    && (g.stored != [] ==> g.stored[0].seqStart == 0 && g.last == Some(g.stored[|g.stored| - 1].seqEnd))
    && (forall i | 0 < i < |g.stored| :: g.stored[i].seqStart == g.stored[i - 1].seqEnd + 1)
    && (forall i | 0 <= i < |g.stored| :: g.stored[i].seqEnd - g.stored[i].seqStart + 1 >= interval)
  }

  /** No range longer than the interval. */
  ghost predicate Even(interval: int, g: Signing) {
    forall i | 0 <= i < |g.stored| :: g.stored[i].seqEnd - g.stored[i].seqStart + 1 == interval
  }

  /** The rows after the last covered one, `head` being the newest row. */
  function Uncovered(last: Option<int>, head: int): int {
    if last.None? then head + 1 else head - last.value
  }

  /** Every stamped row reaches the file and every due manifest its own. */
  ghost predicate Undisturbed(jobs: seq<Job>) {
    forall i | 0 <= i < |jobs| && Stampable(jobs[i]) :: jobs[i].wrote && jobs[i].persisted
  }

  lemma EmitTiles(u: Setup, g: Signing, head: int, headHash: string, job: Job)
    requires u.interval >= 1 && Tiles(u.interval, g) && headHash != ""
    requires Due(u.interval, g.last, head) && Uncovered(g.last, head) >= 0
    ensures var g' := Emitted(u.scheme, u.product, u.logDir, g, head, headHash, job.at, job.persisted);
            && Tiles(u.interval, g')
            && (job.persisted ==> g'.last == Some(head))
            && (!job.persisted ==> g'.last == g.last && g'.stored == g.stored)
            && (Even(u.interval, g) && Uncovered(g.last, head) <= u.interval ==> Even(u.interval, g'))
  {
    hide SigningPayload;
  }

  /** One turn of the worker on a stampable event that becomes row `n`. */
  lemma ProcessTiles(u: Setup, s: State, job: Job, n: nat)
    requires u.interval >= 1 && IsDigest(u.h) && Stampable(job) && n + 1 < INT64_LIMIT
    requires s.keeper.link.nextSeq == n
    requires Tiles(u.interval, s.signing) && 0 <= Uncovered(s.signing.last, n - 1)
    ensures var s' := Process(u, s, job);
            && Tiles(u.interval, s'.signing)
            && 0 <= Uncovered(s'.signing.last, n)
            && (job.wrote && job.persisted && Even(u.interval, s.signing) && Uncovered(s.signing.last, n - 1) < u.interval
                ==> Even(u.interval, s'.signing) && Uncovered(s'.signing.last, n) < u.interval)
  {
    hide Tiles, Even, StampRow, Emitted, IsDigest, LinkHash;
    var obj := job.event.value.fields;
    StampedLink(u, s.keeper, obj, job.saved);
    var l := Advance(u.h, s.keeper.link, obj);
    assert Wrap64(n + 1) == n + 1 && Head(l) == n;
    if Due(u.interval, s.signing.last, n) {
      HashNotEmpty(u.h, s.keeper.link, obj);
      EmitTiles(u, s.signing, n, HashOrEmpty(l), job);
    }
  }

  lemma HashNotEmpty(h: Digest, s: Link, obj: Fields)
    requires IsDigest(h)
    ensures LinkHash(h, s, obj) != ""
  {
    assert IsHexDigest(LinkHash(h, s, obj));
  }

  lemma {:induction false} RunTiles(u: Setup, jobs: seq<Job>)
    requires u.interval >= 1 && IsDigest(u.h) && |Events(jobs)| < INT64_LIMIT
    ensures var g := Run(u, FRESH, jobs).signing;
            && Tiles(u.interval, g)
            && 0 <= Uncovered(g.last, |Events(jobs)| - 1)
            && (Undisturbed(jobs) ==> Even(u.interval, g) && Uncovered(g.last, |Events(jobs)| - 1) < u.interval)
    decreases |jobs|
  {
    hide Tiles, Process, IsDigest, Recorded;
    if jobs == [] {
      TilesNone(u.interval);
    } else {
      var n := |jobs| - 1;
      var before, job := jobs[..n], jobs[n];
      var s := Run(u, FRESH, before);
      assert Undisturbed(jobs) ==> Undisturbed(before) by {
        assert forall i | 0 <= i < n :: before[i] == jobs[i];
      }
      RunTiles(u, before);
      if Stampable(job) {
        RunNextSeq(u, before);
        ProcessTiles(u, s, job, |Events(before)|);
      } else {
        assert Events(jobs) == Events(before);
        SkipProcess(u, s, job);
      }
    }
  }

  lemma TilesNone(interval: int)
    ensures Tiles(interval, UNUSED)
  {
  }

  lemma SkipProcess(u: Setup, s: State, job: Job)
    requires !Stampable(job)
    ensures Process(u, s, job) == s
  {
  }

  lemma RunNextSeq(u: Setup, jobs: seq<Job>)
    requires |Events(jobs)| < INT64_LIMIT
    ensures Run(u, FRESH, jobs).keeper.link.nextSeq == |Events(jobs)|
  {
    hide LinkAt, RowAt, Pins, Run, Events, Written;
    RunRecords(u, jobs);
    SeqAt(u.h, GENESIS, Events(jobs), |Events(jobs)|);
    WrapSmall(|Events(jobs)|);
  }

  /** Every covered row lies in exactly one range. */
  lemma {:induction false} TilesPartition(interval: int, g: Signing, row: int)
    requires interval >= 1 && Tiles(interval, g) && g.last.Some? && 0 <= row <= g.last.value
    ensures exists i :: 0 <= i < |g.stored| && g.stored[i].seqStart <= row <= g.stored[i].seqEnd
    ensures forall i, j | 0 <= i < |g.stored| && 0 <= j < |g.stored|
                          && g.stored[i].seqStart <= row <= g.stored[i].seqEnd
                          && g.stored[j].seqStart <= row <= g.stored[j].seqEnd :: i == j
  {
    var i := |g.stored| - 1;
    while row < g.stored[i].seqStart
      invariant 0 <= i < |g.stored| && row <= g.stored[i].seqEnd
      decreases i
    {
      i := i - 1;
    }
    forall a, b | 0 <= a < b < |g.stored| ensures g.stored[a].seqEnd < g.stored[b].seqStart {
      RangesAscend(interval, g, a, b);
    }
  }

  lemma {:induction false} RangesAscend(interval: int, g: Signing, a: nat, b: nat)
    requires interval >= 1 && Tiles(interval, g) && a < b < |g.stored|
    ensures g.stored[a].seqEnd < g.stored[b].seqStart
    decreases b
  {
    if a + 1 < b {
      RangesAscend(interval, g, a, b - 1);
    }
  }

  /** In an undisturbed run a cut that goes unnoticed removes fewer rows than the interval, or all of them. */
  lemma UnnoticedCutIsShort(u: Setup, jobs: seq<Job>, k: nat, entries: seq<Entry>, pinnedKey: string)
    requires u.interval >= 1 && IsDigest(u.h) && Accepts(u.scheme) && |Events(jobs)| < INT64_LIMIT && Undisturbed(jobs)
    requires pinnedKey == "" || pinnedKey == u.scheme.publicKey
    requires k == |entries| <= |Events(jobs)| && Holds(u.h, GENESIS, Events(jobs), 0, entries)
    requires Accepted(u.scheme, pinnedKey, WalkAll(u.h, START, entries), StoredManifests(u, jobs))
    ensures k == 0 || |Events(jobs)| - k < u.interval
  {
    hide WalkAll, Run, Events, Holds, Accepts, IsDigest, Accepted, Undisturbed, Even;
    TruncationReport(u, jobs, k, entries, pinnedKey);
    RunTiles(u, jobs);
    var g := Run(u, FRESH, jobs).signing;
    if k > 0 && g.last.Some? {
      assert g.stored[|g.stored| - 1].seqEnd < k;
    }
  }
}
