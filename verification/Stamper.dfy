/** The writer's side of the chain: stamping, the state file and restarts. */
module Stamper {
  import opened Wrappers
  import opened Utf8
  import opened Json
  import opened Canonical
  import opened Decimal
  import opened Chain
  import opened Verify
  import opened History

  const DEFAULT_SAVE_EVERY := 50

  datatype StampError = NotJson | NotAnObject

  /** The abstract value of the chain state: its link, the stamps since the last save, and the state file. */
  datatype Keeper = Keeper(link: Link, sinceSave: int, file: Option<Link>)

  /** A missing or corrupt file yields a fresh chain. */
  function Loaded(file: Option<Link>): Keeper {
    Keeper(if file.Some? then file.value else GENESIS, 0, file)
  }

  function Saved(k: Keeper, persistent: bool, written: bool): Keeper {
    if persistent && written then k.(file := Some(k.link)) else k
  }

  function Stamped(h: Digest, persistent: bool, saveEvery: int, k: Keeper, obj: Fields, written: bool): Keeper {
    var next := k.(link := Advance(h, k.link, obj), sinceSave := k.sinceSave + 1);
    if next.sinceSave >= saveEvery then Saved(next, persistent, written).(sinceSave := 0) else next
  }

  class ChainState {
    const h: Digest
    const persistent: bool
    const saveEvery: int
    var nextSeq: int
    var lastHash: Option<string>
    var stateFileAbsent: bool
    var eventsSinceSave: int
    var stateFile: Option<Link>

    ghost function View(): Keeper
      reads this
    {
      Keeper(Link(nextSeq, lastHash), eventsSinceSave, stateFile)
    }

    /** LoadChainState; `persistent` is false when no log directory is configured. */
    constructor (h: Digest, persistent: bool, stateFile: Option<Link>, saveEvery: int)
      ensures View() == Loaded(stateFile)
      ensures this.h == h && this.persistent == persistent
      ensures this.saveEvery == if saveEvery <= 0 then DEFAULT_SAVE_EVERY else saveEvery
      ensures stateFileAbsent <==> stateFile.None?
    {
      this.h, this.persistent, this.stateFile := h, persistent, stateFile;
      this.saveEvery := if saveEvery <= 0 then DEFAULT_SAVE_EVERY else saveEvery;
      nextSeq, lastHash, eventsSinceSave := 0, None, 0;
      stateFileAbsent := stateFile.None?;
      if stateFile.Some? {
        nextSeq := stateFile.value.nextSeq;
        lastHash := stateFile.value.lastHash;
      }
    }

    /** The atomic rewrite of the state file; `written` is the outcome of the file operations. */
    method Save(written: bool)
      modifies this`stateFile
      ensures View() == Saved(old(View()), persistent, written)
    {
      if !persistent {
        return;
      }
      if written {
        stateFile := Some(Link(nextSeq, lastHash));
      }
    }

    function HeadSeq(): int
      reads this
    {
      Wrap64(nextSeq - 1)
    }

    function HeadHash(): string
      reads this
    {
      if lastHash.None? then "" else lastHash.value
    }

    /**
     StampJSON on the decoded event (none when it is not JSON). The row's tree is
     updated in place: path made present, old block dropped, hash taken, new block put in.
     */
    method StampJson(event: Option<Json>, written: bool) returns (r: Result<Bytes, StampError>)
      modifies this`nextSeq, this`lastHash, this`eventsSinceSave, this`stateFile
      ensures event.None? ==> r == Failure(NotJson) && View() == old(View())
      ensures event.Some? && !event.value.Obj? ==> r == Failure(NotAnObject) && View() == old(View())
      ensures event.Some? && event.value.Obj? ==>
                && r == Success(CanonicalJson(Obj(StampRow(h, old(View()).link, event.value.fields))))
                && View() == Stamped(h, persistent, saveEvery, old(View()), event.value.fields, written)
    {
      hide HashEvent, CanonicalJson, Wrap64;
      if event.None? {
        return Failure(NotJson);
      }
      if !event.value.Obj? {
        return Failure(NotAnObject);
      }
      var obj := event.value.fields;
      var iamJit := MemberOrEmpty(MemberOrEmpty(obj, UNMAPPED), IAM_JIT);
      iamJit := iamJit - {CHAIN_FIELD};
      obj := WithIamJit(obj, iamJit);
      var hash := HashEvent(h, lastHash, nextSeq, Obj(obj));
      var block := Block(nextSeq, lastHash, hash);
      obj := WithBlock(obj, block);
      var out := CanonicalBytes(Obj(obj));
      lastHash := Some(hash);
      nextSeq := Wrap64(nextSeq + 1);
      eventsSinceSave := eventsSinceSave + 1;
      if eventsSinceSave >= saveEvery {
        Save(written);
        eventsSinceSave := 0;
      }
      return Success(out);
    }
  }

  // --------------------------------------------------------------------- runs

  /** One step in the life of a log: a stamp, a save, or a restart that loads the state file. */
  datatype Op = Stamp(obj: Fields, written: bool) | Save(written: bool) | Restart

  datatype Config = Config(h: Digest, persistent: bool, saveEvery: int)

  function Apply(c: Config, k: Keeper, op: Op): Keeper {
    match op
    case Stamp(obj, written) => Stamped(c.h, c.persistent, c.saveEvery, k, obj, written)
    case Save(written) => Saved(k, c.persistent, written)
    case Restart => Loaded(k.file)
  }

  function After(c: Config, ops: seq<Op>): Keeper {
    if ops == [] then Loaded(None) else Apply(c, After(c, ops[..|ops| - 1]), ops[|ops| - 1])
  }

  /** The rows on disk, in the order they were appended. */
  function RowsOf(c: Config, ops: seq<Op>): seq<Json> {
    if ops == [] then []
    else
      var op, before := ops[|ops| - 1], ops[..|ops| - 1];
      RowsOf(c, before) + (if op.Stamp? then [Obj(StampRow(c.h, After(c, before).link, op.obj))] else [])
  }

  function StampedEvents(ops: seq<Op>): seq<Fields> {
    if ops == [] then []
    else StampedEvents(ops[..|ops| - 1]) + (if ops[|ops| - 1].Stamp? then [ops[|ops| - 1].obj] else [])
  }

  /** Every restart directly follows a save that reached the disk. */
  ghost predicate CleanlyStopped(ops: seq<Op>) {
    forall i | 0 <= i < |ops| && ops[i].Restart? :: i > 0 && ops[i - 1] == Save(true)
  }

  lemma LinkAtPrefix(h: Digest, events: seq<Fields>, more: seq<Fields>, i: nat)
    requires i <= |events|
    ensures LinkAt(h, GENESIS, events + more, i) == LinkAt(h, GENESIS, events, i)
    decreases i
  {
    if i > 0 {
      LinkAtPrefix(h, events, more, i - 1);
      assert (events + more)[i - 1] == events[i - 1];
    }
  }

  /** With clean stops the state is that of one uninterrupted chain. */
  lemma {:induction false} CleanRunLink(c: Config, ops: seq<Op>)
    requires c.persistent && CleanlyStopped(ops)
    ensures After(c, ops).link == LinkAt(c.h, GENESIS, StampedEvents(ops), |StampedEvents(ops)|)
    decreases |ops|
  {
    if ops != [] {
      var n := |ops| - 1;
      var before, op := ops[..n], ops[n];
      assert CleanlyStopped(before) by {
        assert forall i | 0 <= i < n :: before[i] == ops[i];
      }
      CleanRunLink(c, before);
      match op
      case Stamp(obj, _) =>
        LinkAtPrefix(c.h, StampedEvents(before), [obj], |StampedEvents(before)|);
      case Save(_) =>
        assert StampedEvents(ops) == StampedEvents(before);
      case Restart =>
        assert StampedEvents(ops) == StampedEvents(before);
        assert before[n - 1] == Save(true);
        assert After(c, before).file == Some(After(c, before).link);
    }
  }

  /** Rows written across clean restarts are the rows of one uninterrupted chain. */
  lemma {:induction false} CleanRunRows(c: Config, ops: seq<Op>)
    requires c.persistent && CleanlyStopped(ops)
    ensures |RowsOf(c, ops)| == |StampedEvents(ops)|
    ensures forall i | 0 <= i < |StampedEvents(ops)| :: RowsOf(c, ops)[i] == RowAt(c.h, GENESIS, StampedEvents(ops), i)
    decreases |ops|
  {
    hide StampRow, LinkAt, After;
    if ops != [] {
      var n := |ops| - 1;
      var before, op := ops[..n], ops[n];
      assert CleanlyStopped(before) by {
        assert forall i | 0 <= i < n :: before[i] == ops[i];
      }
      CleanRunRows(c, before);
      CleanRunLink(c, before);
      var events := StampedEvents(before);
      if op.Stamp? {
        forall i | 0 <= i < |StampedEvents(ops)| ensures RowsOf(c, ops)[i] == RowAt(c.h, GENESIS, StampedEvents(ops), i) {
          LinkAtPrefix(c.h, events, [op.obj], if i < |events| then i else |events|);
        }
      } else {
        assert StampedEvents(ops) == events;
      }
    }
  }

  /**
   Completeness across rotation and clean restarts: any run of stamps, spread
   over any files and interrupted by any number of save-then-load restarts,
   verifies clean and ends at the writer's head.
   */
  lemma CleanRunVerifies(c: Config, ops: seq<Op>, files: seq<LogFile>)
    requires c.persistent && CleanlyStopped(ops)
    requires |LocateAll(files)| == |RowsOf(c, ops)|
    requires forall i | 0 <= i < |RowsOf(c, ops)| :: LocateAll(files)[i].line == Decoded(RowsOf(c, ops)[i])
    ensures var w := WalkAll(c.h, START, LocateAll(files));
            && w.findings == []
            && w.eventsChecked == |StampedEvents(ops)|
            && w.headHash == After(c, ops).link.lastHash
            && w.link == After(c, ops).link
            && w.headSeq == (if StampedEvents(ops) == [] then None else Some(Wrap64(|StampedEvents(ops)| - 1)))
  {
    hide LocateAll, WalkAll, RowAt, RowsOf, After, Wrap64;
    CleanRunRows(c, ops);
    CleanRunLink(c, ops);
    HonestLogIsClean(c.h, StampedEvents(ops), files);
  }
}
