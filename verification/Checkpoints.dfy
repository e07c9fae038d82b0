/** Chain and manifests verified together, and what that says about the tail of a log. */
module Checkpoints {
  import opened Wrappers
  import opened Utf8
  import opened Decimal
  import opened Chain
  import opened Verify
  import opened History
  import opened Damage
  import opened Tamper
  import opened Stamper
  import opened Manifest
  import opened LogWriter

  /** A manifest file that does not load, or the manifest it holds. */
  datatype ManifestFile = Unloadable | Loadable(m: Manifest)

  datatype ManifestCheck = ManifestCheck(
    seqStart: int,
    seqEnd: int,
    headHash: string,
    signatureOk: bool,
    crossChecked: bool,
    crossCheckOk: bool)
  {
    predicate Ok() {
      signatureOk && !(crossChecked && !crossCheckOk)
    }
  }

  datatype FullVerifyResult = FullVerifyResult(chain: VerifyResult, manifests: seq<ManifestCheck>, manifestsFound: nat) {
    predicate Ok() {
      chain.Ok() && forall i | 0 <= i < |manifests| :: manifests[i].Ok()
    }
  }

  /** A manifest of another schema version is refused when it is loaded. */
  predicate Loads(f: ManifestFile) {
    f.Loadable? && f.m.schemaVersion == SCHEMA_VERSION
  }

  /** When a manifest file does not count against a log whose head is as given. */
  predicate Passes(scheme: Scheme, pinnedKey: string, headSeq: Option<int>, headHash: Option<string>, f: ManifestFile) {
    Loads(f) && VerifyManifest(scheme, f.m, pinnedKey)
    && (headSeq.None? || f.m.seqEnd < headSeq.value
        || (f.m.seqEnd == headSeq.value && headHash == Some(f.m.headHash)))
  }

  /** The manifest is of this schema and signed under the pinned key, or under its own when none is pinned. */
  ghost predicate SignedUnder(scheme: Scheme, pinnedKey: string, f: ManifestFile) {
    && f.Loadable? && f.m.schemaVersion == 1
    && (pinnedKey != "" ==> scheme.check(pinnedKey, SigningPayload(f.m), f.m.signature))
    && (pinnedKey == "" ==> scheme.check(f.m.publicKey, SigningPayload(f.m), f.m.signature))
  }

  method VerifyChainAndManifests(h: Digest, files: seq<LogFile>, stateFileMissing: bool,
                                 scheme: Scheme, pinnedKey: string, manifests: seq<ManifestFile>)
    returns (full: FullVerifyResult)
    ensures full.manifestsFound == |full.manifests| == |manifests|
    ensures var w := WalkAll(h, START, LocateAll(files));
            && full.chain == VerifyResult(Opened(files), w.eventsChecked, w.headSeq, w.headHash, w.findings, stateFileMissing)
            && (forall i | 0 <= i < |manifests| ::
                  full.manifests[i].Ok() <==> Passes(scheme, pinnedKey, w.headSeq, w.headHash, manifests[i]))
            && (full.Ok() <==> Accepted(scheme, pinnedKey, w, manifests))
    ensures full.Ok() ==> forall i | 0 <= i < |manifests| :: SignedUnder(scheme, pinnedKey, manifests[i])
  {
    hide WalkAll, LocateAll, VerifyManifest, SigningPayload, SignedUnder, Passes;
    var chain := VerifyChainFiles(h, files, stateFileMissing);
    full := FullVerifyResult(chain, [], |manifests|);
    for i := 0 to |manifests|
      invariant full.chain == chain && full.manifestsFound == |manifests| && |full.manifests| == i
      invariant forall j | 0 <= j < i ::
                  full.manifests[j].Ok() <==> Passes(scheme, pinnedKey, chain.headSeq, chain.headHash, manifests[j])
    {
      var mc := CheckManifest(scheme, pinnedKey, chain.headSeq, chain.headHash, manifests[i]);
      full := full.(manifests := full.manifests + [mc]);
    }
    forall i | 0 <= i < |manifests| && Passes(scheme, pinnedKey, chain.headSeq, chain.headHash, manifests[i])
      ensures SignedUnder(scheme, pinnedKey, manifests[i])
    {
      PassesIffSigned(scheme, pinnedKey, chain.headSeq, chain.headHash, manifests[i]);
    }
  }

  method CheckManifest(scheme: Scheme, pinnedKey: string, headSeq: Option<int>, headHash: Option<string>, f: ManifestFile)
    returns (mc: ManifestCheck)
    ensures mc.Ok() <==> Passes(scheme, pinnedKey, headSeq, headHash, f)
    ensures mc.signatureOk <==> SignedUnder(scheme, pinnedKey, f)
    ensures mc.crossChecked <==> Loads(f) && headSeq.Some? && f.m.seqEnd >= headSeq.value
    ensures mc.crossCheckOk <==> Loads(f) && headSeq.Some? && f.m.seqEnd == headSeq.value && headHash == Some(f.m.headHash)
  {
    if !Loads(f) {
      return ManifestCheck(0, 0, "", false, false, false);
    }
    var m := f.m;
    mc := ManifestCheck(m.seqStart, m.seqEnd, m.headHash, VerifyManifest(scheme, m, pinnedKey), false, false);
    if headSeq.Some? && m.seqEnd == headSeq.value {
      mc := mc.(crossChecked := true);
      if headHash.Some? && m.headHash == headHash.value {
        mc := mc.(crossCheckOk := true);
      }
    } else if headSeq.Some? && m.seqEnd > headSeq.value {
      mc := mc.(crossChecked := true);
    }
  }

  /** The verdict, as a property of the walk and the manifests. */
  ghost predicate Accepted(scheme: Scheme, pinnedKey: string, w: Walk, manifests: seq<ManifestFile>) {
    w.findings == [] && forall i | 0 <= i < |manifests| :: Passes(scheme, pinnedKey, w.headSeq, w.headHash, manifests[i])
  }

  /** A manifest passes exactly when it is signed under the right key and does not contradict the log's head. */
  lemma PassesIffSigned(scheme: Scheme, pinnedKey: string, headSeq: Option<int>, headHash: Option<string>, f: ManifestFile)
    ensures Passes(scheme, pinnedKey, headSeq, headHash, f)
       <==> SignedUnder(scheme, pinnedKey, f)
            && (headSeq.Some? ==> f.m.seqEnd <= headSeq.value && (f.m.seqEnd == headSeq.value ==> headHash == Some(f.m.headHash)))
  {
    hide SigningPayload;
  }

  function WithKey(f: ManifestFile, publicKey: string): ManifestFile {
    if f.Loadable? then Loadable(f.m.(publicKey := publicKey)) else f
  }

  /** With a key pinned, the keys the manifests carry do not matter to the verdict. */
  lemma PinnedIgnoresCarriedKeys(scheme: Scheme, pinnedKey: string, w: Walk, manifests: seq<ManifestFile>, keys: seq<string>)
    requires pinnedKey != "" && |keys| == |manifests|
    ensures Accepted(scheme, pinnedKey, w, manifests)
       <==> Accepted(scheme, pinnedKey, w, seq(|keys|, i requires 0 <= i < |keys| => WithKey(manifests[i], keys[i])))
  {
    var others := seq(|keys|, i requires 0 <= i < |keys| => WithKey(manifests[i], keys[i]));
    forall i | 0 <= i < |keys|
      ensures Passes(scheme, pinnedKey, w.headSeq, w.headHash, manifests[i])
         <==> Passes(scheme, pinnedKey, w.headSeq, w.headHash, others[i])
    {
      SamePayload(manifests[i], keys[i]);
      PassesIffSigned(scheme, pinnedKey, w.headSeq, w.headHash, manifests[i]);
      PassesIffSigned(scheme, pinnedKey, w.headSeq, w.headHash, others[i]);
    }
  }

  lemma SamePayload(f: ManifestFile, publicKey: string)
    ensures f.Loadable? ==> SigningPayload(WithKey(f, publicKey).m) == SigningPayload(f.m)
  {
    if f.Loadable? {
      assert PayloadTree(f.m.(publicKey := publicKey)) == PayloadTree(f.m);
    }
  }

  /** A manifest that the pinned key did not sign makes the verdict negative, whatever key it carries. */
  lemma ForeignKeyRefused(scheme: Scheme, pinnedKey: string, w: Walk, manifests: seq<ManifestFile>, i: nat)
    requires pinnedKey != "" && i < |manifests| && manifests[i].Loadable?
    requires !scheme.check(pinnedKey, SigningPayload(manifests[i].m), manifests[i].m.signature)
    ensures !Accepted(scheme, pinnedKey, w, manifests)
  {
    PassesIffSigned(scheme, pinnedKey, w.headSeq, w.headHash, manifests[i]);
  }

  // ------------------------------------------------------------ what a run leaves

  /** The events a run stamps, in order. */
  function Events(jobs: seq<Job>): seq<Fields> {
    if jobs == [] then []
    else
      var job := jobs[|jobs| - 1];
      Events(jobs[..|jobs| - 1]) + (if Stampable(job) then [job.event.value.fields] else [])
  }

  /** Which of them reach the file. */
  function Written(jobs: seq<Job>): seq<nat> {
    if jobs == [] then []
    else
      var job, before := jobs[|jobs| - 1], jobs[..|jobs| - 1];
      Written(before) + (if Stampable(job) && job.wrote then [|Events(before)|] else [])
  }

  /** A manifest signed over the log's state after row `seqEnd`. */
  ghost predicate Pins(u: Setup, events: seq<Fields>, m: Manifest) {
    && m.schemaVersion == SCHEMA_VERSION
    && m.publicKey == u.scheme.publicKey
    && m.signature == u.scheme.sign(SigningPayload(m))
    && 0 <= m.seqEnd < |events|
    && Some(m.headHash) == LinkAt(u.h, GENESIS, events, m.seqEnd + 1).lastHash
  }

  ghost predicate Recorded(u: Setup, jobs: seq<Job>, s: State) {
    var events, picks := Events(jobs), Written(jobs);
    && s.keeper.link == LinkAt(u.h, GENESIS, events, |events|)
    && |s.rows| == |picks|
    && (forall k | 0 <= k < |picks| :: picks[k] < |events| && s.rows[k] == RowAt(u.h, GENESIS, events, picks[k]))
    && (forall i | 0 <= i < |s.signing.stored| :: Pins(u, events, s.signing.stored[i]))
  }

  lemma PinsLonger(u: Setup, events: seq<Fields>, more: seq<Fields>, m: Manifest)
    requires Pins(u, events, m)
    ensures Pins(u, events + more, m)
  {
    hide LinkAt, SigningPayload;
    LinkAtPrefix(u.h, events, more, m.seqEnd + 1);
  }

  lemma CheckpointPins(u: Setup, g: Signing, events: seq<Fields>, job: Job)
    requires |events| < INT64_LIMIT
    requires forall i | 0 <= i < |g.stored| :: Pins(u, events, g.stored[i])
    ensures var g' := Checkpoint(u, g, LinkAt(u.h, GENESIS, events, |events|), job);
            forall i | 0 <= i < |g'.stored| :: Pins(u, events, g'.stored[i])
  {
    hide LinkAt, SigningPayload;
    var n := |events|;
    var l := LinkAt(u.h, GENESIS, events, n);
    var g' := Checkpoint(u, g, l, job);
    if g'.stored != g.stored {
      SeqAt(u.h, GENESIS, events, n);
      HeadIsLast(n);
      var m := NextManifest(u.scheme, u.product, u.logDir, g.last, Head(l), HashOrEmpty(l), job.at);
      assert g'.stored == g.stored + [m];
      SameUnsigned(m, "");
      if n == 0 {
        LinkFirst(u.h, GENESIS, events);
      } else {
        LinkNext(u.h, GENESIS, events, n);
      }
    }
  }

  lemma HeadIsLast(n: nat)
    requires n < INT64_LIMIT
    ensures Wrap64(Wrap64(n) - 1) == n - 1
  {
  }

  lemma {:induction false} RunRecords(u: Setup, jobs: seq<Job>)
    requires |Events(jobs)| < INT64_LIMIT
    ensures Recorded(u, jobs, Run(u, FRESH, jobs))
    decreases |jobs|
  {
    if jobs == [] {
      LinkFirst(u.h, GENESIS, []);
    } else {
      hide Process, Recorded, Written;
      var n := |jobs| - 1;
      var before, job := jobs[..n], jobs[n];
      assert jobs == before + [job];
      RunRecords(u, before);
      if Stampable(job) {
        StampRecords(u, before, job, Run(u, FRESH, before));
      } else {
        SkipRecords(u, before, job, Run(u, FRESH, before));
      }
    }
  }

  lemma SkipRecords(u: Setup, before: seq<Job>, job: Job, s: State)
    requires !Stampable(job) && Recorded(u, before, s)
    ensures Recorded(u, before + [job], Process(u, s, job))
  {
    hide LinkAt, RowAt, Pins;
    var jobs := before + [job];
    assert jobs[..|jobs| - 1] == before;
    assert Events(jobs) == Events(before) && Written(jobs) == Written(before);
  }

  lemma StampRecords(u: Setup, before: seq<Job>, job: Job, s: State)
    requires Stampable(job) && |Events(before)| + 1 < INT64_LIMIT && Recorded(u, before, s)
    ensures Recorded(u, before + [job], Process(u, s, job))
  {
    hide LinkAt, StampRow, Pins, Checkpoint, SigningPayload;
    var jobs, events, obj := before + [job], Events(before), job.event.value.fields;
    var n := |events|;
    assert jobs[..|jobs| - 1] == before;
    assert Events(jobs) == events + [obj];
    var s' := Process(u, s, job);
    LinkAtPrefix(u.h, events, [obj], n);
    StampedLink(u, s.keeper, obj, job.saved);
    LinkStep(u.h, Events(jobs), n + 1);
    assert s'.keeper.link == LinkAt(u.h, GENESIS, Events(jobs), n + 1);
    forall k | 0 <= k < |Written(jobs)|
      ensures Written(jobs)[k] < n + 1 && s'.rows[k] == RowAt(u.h, GENESIS, Events(jobs), Written(jobs)[k])
    {
      if k < |Written(before)| {
        LinkAtPrefix(u.h, events, [obj], Written(before)[k]);
      }
    }
    forall i | 0 <= i < |s.signing.stored| ensures Pins(u, Events(jobs), s.signing.stored[i]) {
      PinsLonger(u, events, [obj], s.signing.stored[i]);
    }
    if job.wrote {
      CheckpointPins(u, s.signing, Events(jobs), job);
    }
  }

  lemma StampedLink(u: Setup, k: Keeper, obj: Fields, saved: bool)
    ensures Stamped(u.h, u.persistent, u.saveEvery, k, obj, saved).link == Advance(u.h, k.link, obj)
  {
  }

  lemma LinkStep(h: Digest, events: seq<Fields>, i: nat)
    requires 0 < i <= |events|
    ensures LinkAt(h, GENESIS, events, i) == Advance(h, LinkAt(h, GENESIS, events, i - 1), events[i - 1])
  {
  }

  // ----------------------------------------------------------------- main results

  /** The rows of a run, stored anywhere. */
  ghost predicate Stored(u: Setup, jobs: seq<Job>, entries: seq<Entry>) {
    var rows := Run(u, FRESH, jobs).rows;
    |entries| == |rows| && forall k | 0 <= k < |rows| :: entries[k].line == Decoded(rows[k])
  }

  lemma StoredIsRearranged(u: Setup, jobs: seq<Job>, entries: seq<Entry>)
    requires |Events(jobs)| < INT64_LIMIT && Stored(u, jobs, entries)
    ensures |entries| == |Written(jobs)| && Rearranged(u.h, Events(jobs), Written(jobs), entries)
  {
    hide RowAt, LinkAt, Pins, Run, Events, Written;
    RunRecords(u, jobs);
  }

  /**
   A stamped row that fails to reach the file costs the next written row a gap
   and a broken link, and nothing else: the log is clean exactly when no row was
   written after a lost one.
   */
  lemma LostRowsReport(u: Setup, jobs: seq<Job>, entries: seq<Entry>)
    requires IsDigest(u.h) && |Events(jobs)| < INT64_LIMIT && Stored(u, jobs, entries)
    ensures WalkAll(u.h, START, entries).findings == [] <==> forall k | 0 <= k < |Written(jobs)| :: Written(jobs)[k] == k
    ensures |entries| == |Written(jobs)|
    ensures WalkAll(u.h, START, entries).findings == Gaps(Written(jobs), entries) || SomeCollision(u.h, Events(jobs))
  {
    hide WalkAll, RowAt, LinkAt, IsDigest, SomeCollision, Pins, Gaps, Run, Events, Written;
    StoredIsRearranged(u, jobs, entries);
    hide Stored, Rearranged;
    CleanIffPrefix(u.h, Events(jobs), Written(jobs), entries);
    RearrangedReport(u.h, Events(jobs), Written(jobs), entries);
  }

  /** The manifest files of a run. */
  ghost function StoredManifests(u: Setup, jobs: seq<Job>): (files: seq<ManifestFile>)
    ensures |files| == |Run(u, FRESH, jobs).signing.stored|
    ensures forall i | 0 <= i < |files| :: files[i] == Loadable(Run(u, FRESH, jobs).signing.stored[i])
  {
    var stored := Run(u, FRESH, jobs).signing.stored;
    seq(|stored|, i requires 0 <= i < |stored| => Loadable(stored[i]))
  }

  /**
   Truncation evidence. Any first `k` rows of a run's honest rows pass the chain
   check alone; with the run's manifests they are accepted exactly when the log
   was emptied or no manifest pins a row beyond the cut.
   */
  lemma TruncationReport(u: Setup, jobs: seq<Job>, k: nat, entries: seq<Entry>, pinnedKey: string)
    requires Accepts(u.scheme) && |Events(jobs)| < INT64_LIMIT
    requires pinnedKey == "" || pinnedKey == u.scheme.publicKey
    requires k == |entries| <= |Events(jobs)| && Holds(u.h, GENESIS, Events(jobs), 0, entries)
    ensures WalkAll(u.h, START, entries).findings == []
    ensures Accepted(u.scheme, pinnedKey, WalkAll(u.h, START, entries), StoredManifests(u, jobs))
       <==> k == 0 || forall i | 0 <= i < |Run(u, FRESH, jobs).signing.stored| :: Run(u, FRESH, jobs).signing.stored[i].seqEnd < k
  {
    hide WalkAll, LinkAt, Holds, Run, Events, SigningPayload, Accepts, Stored, Written;
    var events := Events(jobs);
    var w := WalkAll(u.h, START, entries);
    RunRecords(u, jobs);
    PrefixHead(u.h, events, k, entries);
    var stored := Run(u, FRESH, jobs).signing.stored;
    forall i | 0 <= i < |stored|
      ensures Passes(u.scheme, pinnedKey, w.headSeq, w.headHash, StoredManifests(u, jobs)[i]) <==> k == 0 || stored[i].seqEnd < k
    {
      PinnedPasses(u, events, stored[i], k, w, pinnedKey);
    }
  }

  /** Where a walk over the first `k` rows ends. */
  lemma PrefixHead(h: Digest, events: seq<Fields>, k: nat, entries: seq<Entry>)
    requires |events| < INT64_LIMIT && k == |entries| <= |events| && Holds(h, GENESIS, events, 0, entries)
    ensures var w := WalkAll(h, START, entries);
            && w.findings == []
            && w.headSeq == (if k == 0 then None else Some(k - 1))
            && (k > 0 ==> w.headHash == LinkAt(h, GENESIS, events, k).lastHash)
  {
    hide Step, LinkAt, Holds, StampRow;
    if k == 0 {
      WalkNone(h, START);
    } else {
      Segment(h, GENESIS, events, 0, entries, START);
      LinkFirst(h, GENESIS, events);
      SeqAt(h, GENESIS, events, k - 1);
      WrapSmall(k - 1);
    }
  }

  lemma PinnedPasses(u: Setup, events: seq<Fields>, m: Manifest, k: nat, w: Walk, pinnedKey: string)
    requires Accepts(u.scheme) && Pins(u, events, m) && k <= |events|
    requires pinnedKey == "" || pinnedKey == u.scheme.publicKey
    requires w.headSeq == (if k == 0 then None else Some(k - 1))
    requires k > 0 ==> w.headHash == LinkAt(u.h, GENESIS, events, k).lastHash
    ensures Passes(u.scheme, pinnedKey, w.headSeq, w.headHash, Loadable(m)) <==> k == 0 || m.seqEnd < k
  {
    hide LinkAt, SigningPayload;
    assert u.scheme.check(u.scheme.publicKey, SigningPayload(m), u.scheme.sign(SigningPayload(m)));
  }

  /**
   A log of any content that is accepted while a genuine manifest pins its head
   is the honest log up to that manifest, or a digest collision is known.
   */
  lemma PinnedLogIsHonest(u: Setup, jobs: seq<Job>, i: nat, entries: seq<Entry>, pinnedKey: string) returns (a: Bytes, b: Bytes)
    requires IsDigest(u.h) && |Events(jobs)| < INT64_LIMIT
    requires i < |Run(u, FRESH, jobs).signing.stored|
    requires Accepted(u.scheme, pinnedKey, WalkAll(u.h, START, entries), StoredManifests(u, jobs))
    requires WalkAll(u.h, START, entries).headSeq == Some(Run(u, FRESH, jobs).signing.stored[i].seqEnd)
    ensures 0 <= Run(u, FRESH, jobs).signing.stored[i].seqEnd < |Events(jobs)|
    ensures Claims(entries) == HonestClaims(u.h, Events(jobs), Run(u, FRESH, jobs).signing.stored[i].seqEnd + 1) || Collision(u.h, a, b)
  {
    hide WalkAll, LinkAt, Run, Events, SigningPayload, IsDigest, Claims, HonestClaims, Written, VerifyManifest, RowAt, Collision;
    RunRecords(u, jobs);
    var m := Run(u, FRESH, jobs).signing.stored[i];
    var w := WalkAll(u.h, START, entries);
    assert StoredManifests(u, jobs)[i] == Loadable(m);
    assert Passes(u.scheme, pinnedKey, w.headSeq, w.headHash, Loadable(m));
    assert w.headHash == Some(m.headHash);
    a, b := TamperEvidence(u.h, Events(jobs), m.seqEnd + 1, entries);
  }

  /** A manifest does not contradict the log of the events `forged`: it ends before the head, or at the head with its hash. */
  ghost predicate Compatible(h: Digest, forged: seq<Fields>, m: Manifest) {
    m.seqEnd < |forged| - 1
    || (m.seqEnd == |forged| - 1 && LinkAt(h, GENESIS, forged, |forged|).lastHash == Some(m.headHash))
  }

  lemma CompatiblePasses(u: Setup, events: seq<Fields>, forged: seq<Fields>, m: Manifest, w: Walk, pinnedKey: string)
    requires Accepts(u.scheme) && Pins(u, events, m) && forged != []
    requires pinnedKey == "" || pinnedKey == u.scheme.publicKey
    requires w.headSeq == Some(|forged| - 1) && w.headHash == LinkAt(u.h, GENESIS, forged, |forged|).lastHash
    ensures Passes(u.scheme, pinnedKey, w.headSeq, w.headHash, Loadable(m)) <==> Compatible(u.h, forged, m)
  {
    hide LinkAt, SigningPayload;
    assert u.scheme.check(u.scheme.publicKey, SigningPayload(m), u.scheme.sign(SigningPayload(m)));
  }

  /**
   A log restamped from its beginning over any other events is accepted with all
   of a run's manifests exactly when it is empty or each of them ends before its
   head, or at its head with its hash: only a manifest at the head binds.
   */
  lemma RestampedReport(u: Setup, jobs: seq<Job>, forged: seq<Fields>, entries: seq<Entry>, pinnedKey: string)
    requires Accepts(u.scheme) && |Events(jobs)| < INT64_LIMIT && |forged| < INT64_LIMIT
    requires pinnedKey == "" || pinnedKey == u.scheme.publicKey
    requires |entries| == |forged| && Holds(u.h, GENESIS, forged, 0, entries)
    ensures Accepted(u.scheme, pinnedKey, WalkAll(u.h, START, entries), StoredManifests(u, jobs))
       <==> forged == [] || forall i | 0 <= i < |Run(u, FRESH, jobs).signing.stored| ::
                              Compatible(u.h, forged, Run(u, FRESH, jobs).signing.stored[i])
  {
    hide WalkAll, LinkAt, Holds, Run, Events, SigningPayload, Accepts, Stored, Written, Compatible;
    var w := WalkAll(u.h, START, entries);
    RunRecords(u, jobs);
    PrefixHead(u.h, forged, |forged|, entries);
    var stored := Run(u, FRESH, jobs).signing.stored;
    forall i | 0 <= i < |stored|
      ensures Passes(u.scheme, pinnedKey, w.headSeq, w.headHash, StoredManifests(u, jobs)[i])
         <==> forged == [] || Compatible(u.h, forged, stored[i])
    {
      if forged == [] {
        PinnedPasses(u, Events(jobs), stored[i], 0, w, pinnedKey);
      } else {
        CompatiblePasses(u, Events(jobs), forged, stored[i], w, pinnedKey);
      }
    }
  }

  /** In particular a forgery that is longer than every manifest reaches goes unnoticed. */
  lemma LongForgeryAccepted(u: Setup, jobs: seq<Job>, forged: seq<Fields>, entries: seq<Entry>, pinnedKey: string)
    requires Accepts(u.scheme) && |Events(jobs)| < INT64_LIMIT && |forged| < INT64_LIMIT
    requires pinnedKey == "" || pinnedKey == u.scheme.publicKey
    requires |entries| == |forged| && Holds(u.h, GENESIS, forged, 0, entries)
    requires forall i | 0 <= i < |Run(u, FRESH, jobs).signing.stored| ::
               Run(u, FRESH, jobs).signing.stored[i].seqEnd + 1 < |forged|
    ensures Accepted(u.scheme, pinnedKey, WalkAll(u.h, START, entries), StoredManifests(u, jobs))
  {
    hide WalkAll, LinkAt, Holds, Run, Events, Accepts, Accepted;
    RestampedReport(u, jobs, forged, entries, pinnedKey);
  }
}
