/** The writer goroutine: stamp, append, and sign a checkpoint when one is due. */
module LogWriter {
  import opened Wrappers
  import opened Utf8
  import opened Json
  import opened Canonical
  import opened Decimal
  import opened Chain
  import opened Framing
  import opened Stamper
  import opened Manifest

  /** One queued event (none when it does not marshal) and the outcome of each file operation it causes. */
  datatype Job = Job(event: Option<Json>, saved: bool, wrote: bool, persisted: bool, at: string)

  datatype Setup = Setup(h: Digest, persistent: bool, saveEvery: int, scheme: Scheme, product: string, logDir: string, interval: int)

  /** Chain state, signer, the rows in the file, and the count of events written. */
  datatype State = State(keeper: Keeper, signing: Signing, rows: seq<Json>, written: nat)

  const FRESH := State(Keeper(GENESIS, 0, None), UNUSED, [], 0)

  function Head(l: Link): int {
    Wrap64(l.nextSeq - 1)
  }

  function HashOrEmpty(l: Link): string {
    if l.lastHash.None? then "" else l.lastHash.value
  }

  function Checkpoint(u: Setup, g: Signing, l: Link, job: Job): Signing {
    if Due(u.interval, g.last, Head(l))
    then Emitted(u.scheme, u.product, u.logDir, g, Head(l), HashOrEmpty(l), job.at, job.persisted)
    else g
  }

  predicate Stampable(job: Job) {
    job.event.Some? && job.event.value.Obj?
  }

  /** One turn of the worker. */
  function Process(u: Setup, s: State, job: Job): State {
    if !Stampable(job) then s
    else
      var keeper := Stamped(u.h, u.persistent, u.saveEvery, s.keeper, job.event.value.fields, job.saved);
      if !job.wrote then s.(keeper := keeper)
      else
        State(keeper,
              Checkpoint(u, s.signing, keeper.link, job),
              s.rows + [Obj(StampRow(u.h, s.keeper.link, job.event.value.fields))],
              s.written + 1)
  }

  function Run(u: Setup, s: State, jobs: seq<Job>): State {
    if jobs == [] then s else Process(u, Run(u, s, jobs[..|jobs| - 1]), jobs[|jobs| - 1])
  }

  /** The counters count what is there: rows in the file and manifests in the directory. */
  lemma {:induction false} RunCounts(u: Setup, jobs: seq<Job>)
    ensures Run(u, FRESH, jobs).written == |Run(u, FRESH, jobs).rows|
    ensures Run(u, FRESH, jobs).signing.emitted == |Run(u, FRESH, jobs).signing.stored|
    decreases |jobs|
  {
    hide StampRow, Stamped, NextManifest;
    if jobs != [] {
      RunCounts(u, jobs[..|jobs| - 1]);
    }
  }

  lemma {:induction false} WriteLinesLast(rows: seq<Json>, row: Json)
    ensures WriteLines(rows + [row]) == WriteLines(rows) + (CanonicalJson(row) + [LINE_FEED])
  {
    hide CanonicalJson;
    if rows == [] {
      assert rows + [row] == [row];
      assert [row][1..] == [];
    } else {
      assert (rows + [row])[1..] == rows[1..] + [row];
      WriteLinesLast(rows[1..], row);
      Append3(CanonicalJson(rows[0]), [LINE_FEED], WriteLines(rows[1..]), CanonicalJson(row) + [LINE_FEED]);
    }
  }

  lemma Append3(a: Bytes, b: Bytes, c: Bytes, d: Bytes)
    ensures a + (b + (c + d)) == a + (b + c) + d
  {
  }

  class LogWriter {
    const chain: ChainState
    const signer: ManifestSigner
    var file: Bytes
    var written: nat
    var errors: nat
    ghost var rows: seq<Json>

    ghost predicate Valid()
      reads this
    {
      file == WriteLines(rows)
    }

    ghost predicate Separate()
    {
      chain as object != this && signer as object != this && signer as object != chain
    }

    ghost function SetupOf(): Setup
    {
      Setup(chain.h, chain.persistent, chain.saveEvery, signer.scheme, signer.product, signer.logDir, signer.interval)
    }

    ghost function View(): State
      reads this, chain, signer
    {
      State(chain.View(), signer.View(), rows, written)
    }

    constructor (chain: ChainState, signer: ManifestSigner)
      ensures this.chain == chain && this.signer == signer
      ensures Valid() && rows == [] && written == 0
    {
      this.chain, this.signer := chain, signer;
      file, written, errors, rows := [], 0, 0, [];
    }

    /** The body of the worker's loop, for a writer that has both a chain and a signer. */
    method ProcessJob(job: Job)
      requires Valid() && Separate()
      modifies this, chain, signer
      ensures Valid()
      ensures View() == Process(SetupOf(), old(View()), job)
      ensures errors == old(errors) + (if Stampable(job) && job.wrote then 0 else 1)
      ensures written == old(written) + (if Stampable(job) && job.wrote then 1 else 0)
      ensures !Stampable(job) ==> chain.View() == old(chain.View())
      ensures !(Stampable(job) && job.wrote) ==> file == old(file) && signer.View() == old(signer.View())
      ensures Stampable(job) && job.wrote ==>
                file == old(file) + CanonicalJson(Obj(StampRow(chain.h, old(chain.View()).link, job.event.value.fields))) + [LINE_FEED]
    {
      hide CanonicalJson, StampRow, Stamped, Wrap64, NextManifest;
      ghost var s := View();
      var stamped := chain.StampJson(job.event, job.saved);
      if stamped.Failure? {
        errors := errors + 1;
        return;
      }
      if !job.wrote {
        errors := errors + 1;
        return;
      }
      ghost var row := Obj(StampRow(chain.h, s.keeper.link, job.event.value.fields));
      WriteLinesLast(rows, row);
      file := file + (stamped.value + [LINE_FEED]);
      assert file == old(file) + stamped.value + [LINE_FEED];
      rows := rows + [row];
      var due := signer.ShouldEmit(chain.HeadSeq());
      if due {
        var _ := signer.Emit(chain.HeadSeq(), chain.HeadHash(), job.at, job.persisted);
      }
      written := written + 1;
    }

    /** Draining the queue. */
    method RunWorker(jobs: seq<Job>)
      requires Valid() && Separate()
      modifies this, chain, signer
      ensures Valid()
      ensures View() == Run(SetupOf(), old(View()), jobs)
      ensures written + errors == old(written) + old(errors) + |jobs|
    {
      hide Process;
      var i := 0;
      assert jobs[..0] == [];
      while i < |jobs|
        invariant 0 <= i <= |jobs|
        invariant Valid()
        invariant View() == Run(SetupOf(), old(View()), jobs[..i])
        invariant written + errors == old(written) + old(errors) + i
      {
        assert jobs[..i + 1][..i] == jobs[..i];
        ProcessJob(jobs[i]);
        i := i + 1;
      }
      assert jobs[..|jobs|] == jobs;
    }
  }
}
