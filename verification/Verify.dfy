/** The chain verifier: one walk over the rows of all files, resynchronising after each finding. */
module Verify {
  import opened Wrappers
  import opened Json
  import opened Decimal
  import opened Chain

  datatype Reason = HashMismatch | PrevHashMismatch | SeqGap | MissingChainBlock | BadJson | BadTypes

  datatype Finding = Finding(source: string, lineNo: nat, seqNo: Option<int>, reason: Reason)

  /** One line of a log file: blank, not JSON, or a decoded tree. */
  datatype Line = Blank | Garbled | Decoded(tree: Json)

  /** A file that cannot be opened is skipped. */
  datatype LogFile = Unreadable | LogFile(path: string, lines: seq<Line>)

  datatype VerifyResult = VerifyResult(
    filesChecked: nat,
    eventsChecked: nat,
    headSeq: Option<int>,
    headHash: Option<string>,
    findings: seq<Finding>,
    stateFileMissing: bool)
  {
    predicate Ok() {
      findings == []
    }
  }

  // ------------------------------------------------------------ specification

  /** A line together with its place. */
  datatype Entry = Entry(source: string, lineNo: nat, line: Line)

  /** What the walk carries from line to line. */
  datatype Walk = Walk(link: Link, eventsChecked: nat, headSeq: Option<int>, headHash: Option<string>, findings: seq<Finding>)

  const START := Walk(GENESIS, 0, None, None, [])

  /** What a line shows of the chain. */
  datatype Reading =
    | Skipped
    | Rejected(shown: Option<int>, reason: Reason)
    | Claim(seqNo: int, prev: Option<string>, hash: string, event: Json)

  function ReadLine(line: Line): Reading {
    if line.Blank? then Skipped
    else if line.Garbled? then Rejected(None, BadJson)
    else if !line.tree.Obj? then Rejected(None, MissingChainBlock)
    else
      var block := ExtractBlock(line.tree.fields);
      if block.None? then Rejected(None, MissingChainBlock)
      else
        var seqNo, prev, hash := BlockSeq(block.value), BlockPrev(block.value), BlockHash(block.value);
        if seqNo.None? || prev.None? || hash.None? then Rejected(seqNo, BadTypes)
        else Claim(seqNo.value, prev.value, hash.value, Obj(Strip(line.tree.fields)))
  }

  /** The findings at a row that claims `to`, when the rows before it lead to `from`. */
  function Break(e: Entry, from: Link, to: Link): (findings: seq<Finding>)
    ensures findings == [] <==> from == to
  {
    (if to.nextSeq != from.nextSeq then [Finding(e.source, e.lineNo, Some(to.nextSeq), SeqGap)] else [])
    + (if to.lastHash != from.lastHash then [Finding(e.source, e.lineNo, Some(to.nextSeq), PrevHashMismatch)] else [])
  }

  function HashCheck(h: Digest, e: Entry, r: Reading): seq<Finding>
    requires r.Claim?
  {
    if HashEvent(h, r.prev, r.seqNo, r.event) != r.hash
    then [Finding(e.source, e.lineNo, Some(r.seqNo), HashMismatch)]
    else []
  }

  function LineFindings(h: Digest, from: Link, e: Entry): seq<Finding> {
    match ReadLine(e.line)
    case Skipped => []
    case Rejected(seqNo, reason) => [Finding(e.source, e.lineNo, seqNo, reason)]
    case Claim(seqNo, prev, _, _) => Break(e, from, Link(seqNo, prev)) + HashCheck(h, e, ReadLine(e.line))
  }

  function Step(h: Digest, w: Walk, e: Entry): Walk {
    var r := ReadLine(e.line);
    var findings := w.findings + LineFindings(h, w.link, e);
    if r.Claim? then
      Walk(Link(Wrap64(r.seqNo + 1), Some(r.hash)), w.eventsChecked + 1, Some(r.seqNo), Some(r.hash), findings)
    else
      w.(findings := findings)
  }

  function WalkAll(h: Digest, w: Walk, entries: seq<Entry>): Walk
    decreases |entries|
  {
    if entries == [] then w else WalkAll(h, Step(h, w, entries[0]), entries[1..])
  }

  /** The lines of one file, numbered from `lineNo` + 1. */
  function Locate(path: string, lines: seq<Line>, lineNo: nat): (entries: seq<Entry>)
    ensures |entries| == |lines|
    ensures forall i | 0 <= i < |lines| :: entries[i] == Entry(path, lineNo + 1 + i, lines[i])
  {
    seq(|lines|, i requires 0 <= i < |lines| => Entry(path, lineNo + 1 + i, lines[i]))
  }

  function LocateAll(files: seq<LogFile>): seq<Entry> {
    if files == [] then []
    else if files[0].Unreadable? then LocateAll(files[1..])
    else Locate(files[0].path, files[0].lines, 0) + LocateAll(files[1..])
  }

  function Opened(files: seq<LogFile>): nat {
    if files == [] then 0
    else (if files[0].Unreadable? then 0 else 1) + Opened(files[1..])
  }

  lemma {:induction false} WalkConcat(h: Digest, w: Walk, a: seq<Entry>, b: seq<Entry>)
    ensures WalkAll(h, w, a + b) == WalkAll(h, WalkAll(h, w, a), b)
    decreases |a|
  {
    if a == [] {
      assert a + b == b;
    } else {
      assert (a + b)[1..] == a[1..] + b;
      WalkConcat(h, Step(h, w, a[0]), a[1..], b);
    }
  }

  lemma WalkLast(h: Digest, w: Walk, a: seq<Entry>, e: Entry)
    ensures WalkAll(h, w, a + [e]) == Step(h, WalkAll(h, w, a), e)
  {
    WalkConcat(h, w, a, [e]);
    assert [e][1..] == [];
    assert WalkAll(h, WalkAll(h, w, a), [e]) == WalkAll(h, Step(h, WalkAll(h, w, a), e), []);
  }

  /** Files are read one after the other: lines and counts of a list of files are those of its parts. */
  lemma {:induction false} FilesAddUp(a: seq<LogFile>, b: seq<LogFile>)
    ensures LocateAll(a + b) == LocateAll(a) + LocateAll(b)
    ensures Opened(a + b) == Opened(a) + Opened(b)
    decreases |a|
  {
    if a == [] {
      assert a + b == b;
    } else {
      assert (a + b)[1..] == a[1..] + b;
      FilesAddUp(a[1..], b);
    }
  }

  /** A file that cannot be opened adds nothing; any other counts once and adds its lines, numbered from 1. */
  lemma OneFile(f: LogFile)
    ensures f.Unreadable? ==> Opened([f]) == 0 && LocateAll([f]) == []
    ensures f.LogFile? ==> Opened([f]) == 1 && |LocateAll([f])| == |f.lines|
                           && forall i | 0 <= i < |f.lines| :: LocateAll([f])[i] == Entry(f.path, i + 1, f.lines[i])
  {
    assert [f][1..] == [];
  }

  // ------------------------------------------------------------------- method

  /** The verifier's two nested loops. */
  method VerifyChainFiles(h: Digest, files: seq<LogFile>, stateFileMissing: bool) returns (res: VerifyResult)
    ensures var w := WalkAll(h, START, LocateAll(files));
            res == VerifyResult(Opened(files), w.eventsChecked, w.headSeq, w.headHash, w.findings, stateFileMissing)
  {
    var prevHash: Option<string> := None;
    var expectedSeq := 0;
    res := VerifyResult(0, 0, None, None, [], stateFileMissing);
    ghost var w := START;
    var f := 0;
    while f < |files|
      invariant 0 <= f <= |files|
      invariant w == Walk(Link(expectedSeq, prevHash), res.eventsChecked, res.headSeq, res.headHash, res.findings)
      invariant res.stateFileMissing == stateFileMissing
      invariant WalkAll(h, w, LocateAll(files[f..])) == WalkAll(h, START, LocateAll(files))
      invariant res.filesChecked + Opened(files[f..]) == Opened(files)
    {
      var file := files[f];
      assert files[f..][1..] == files[f + 1..];
      f := f + 1;
      if file.Unreadable? {
        continue;
      }
      res := res.(filesChecked := res.filesChecked + 1);
      ghost var w0 := w;
      prevHash, expectedSeq, res, w := VerifyLines(h, file.path, file.lines, prevHash, expectedSeq, res);
      WalkConcat(h, w0, Locate(file.path, file.lines, 0), LocateAll(files[f..]));
    }
    assert files[f..] == [];
  }

  method VerifyLines(h: Digest, path: string, lines: seq<Line>, prev0: Option<string>, expected0: int, res0: VerifyResult)
    returns (prevHash: Option<string>, expectedSeq: int, res: VerifyResult, ghost w: Walk)
    ensures w == Walk(Link(expectedSeq, prevHash), res.eventsChecked, res.headSeq, res.headHash, res.findings)
    ensures w == WalkAll(h, Walk(Link(expected0, prev0), res0.eventsChecked, res0.headSeq, res0.headHash, res0.findings),
                         Locate(path, lines, 0))
    ensures res.filesChecked == res0.filesChecked && res.stateFileMissing == res0.stateFileMissing
  {
    prevHash, expectedSeq, res := prev0, expected0, res0;
    w := Walk(Link(expected0, prev0), res0.eventsChecked, res0.headSeq, res0.headHash, res0.findings);
    ghost var all := Locate(path, lines, 0);
    var lineNo := 0;
    while lineNo < |lines|
      invariant 0 <= lineNo <= |lines|
      invariant w == Walk(Link(expectedSeq, prevHash), res.eventsChecked, res.headSeq, res.headHash, res.findings)
      invariant w == WalkAll(h, Walk(Link(expected0, prev0), res0.eventsChecked, res0.headSeq, res0.headHash, res0.findings), all[..lineNo])
      invariant res.filesChecked == res0.filesChecked && res.stateFileMissing == res0.stateFileMissing
    {
      var line := lines[lineNo];
      ghost var e := all[lineNo];
      assert all[..lineNo + 1] == all[..lineNo] + [e];
      WalkLast(h, Walk(Link(expected0, prev0), res0.eventsChecked, res0.headSeq, res0.headHash, res0.findings), all[..lineNo], e);
      lineNo := lineNo + 1;
      prevHash, expectedSeq, res := VerifyLine(h, path, lineNo, line, prevHash, expectedSeq, res);
      w := Step(h, w, e);
    }
    assert all[..|lines|] == all;
  }

  /** The body of the scan loop. */
  method VerifyLine(h: Digest, path: string, lineNo: nat, line: Line, prev0: Option<string>, expected0: int, res0: VerifyResult)
    returns (prevHash: Option<string>, expectedSeq: int, res: VerifyResult)
    ensures Walk(Link(expectedSeq, prevHash), res.eventsChecked, res.headSeq, res.headHash, res.findings)
         == Step(h, Walk(Link(expected0, prev0), res0.eventsChecked, res0.headSeq, res0.headHash, res0.findings), Entry(path, lineNo, line))
    ensures res.filesChecked == res0.filesChecked && res.stateFileMissing == res0.stateFileMissing
  {
    prevHash, expectedSeq, res := prev0, expected0, res0;
    if line.Blank? {
      return;
    }
    if line.Garbled? {
      res := Report(res, Finding(path, lineNo, None, BadJson));
      return;
    }
    if !line.tree.Obj? {
      res := Report(res, Finding(path, lineNo, None, MissingChainBlock));
      return;
    }
    var obj := line.tree.fields;
    var block := ExtractBlock(obj);
    if block.None? {
      res := Report(res, Finding(path, lineNo, None, MissingChainBlock));
      return;
    }
    var seqNo := BlockSeq(block.value);
    var rowHash := BlockHash(block.value);
    var prev := BlockPrev(block.value);
    if seqNo.None? || rowHash.None? || prev.None? {
      res := Report(res, Finding(path, lineNo, seqNo, BadTypes));
      return;
    }
    prevHash, expectedSeq, res :=
      VerifyClaim(h, path, lineNo, line, seqNo.value, prev.value, rowHash.value, Obj(Strip(obj)), prev0, expected0, res0);
  }

  /** The body of the scan loop once the block has been read. */
  method VerifyClaim(h: Digest, path: string, lineNo: nat, ghost line: Line,
                     seqNo: int, prev: Option<string>, rowHash: string, event: Json,
                     prev0: Option<string>, expected0: int, res0: VerifyResult)
    returns (prevHash: Option<string>, expectedSeq: int, res: VerifyResult)
    requires ReadLine(line) == Claim(seqNo, prev, rowHash, event)
    ensures Walk(Link(expectedSeq, prevHash), res.eventsChecked, res.headSeq, res.headHash, res.findings)
         == Step(h, Walk(Link(expected0, prev0), res0.eventsChecked, res0.headSeq, res0.headHash, res0.findings), Entry(path, lineNo, line))
    ensures res.filesChecked == res0.filesChecked && res.stateFileMissing == res0.stateFileMissing
  {
    hide HashEvent, ReadLine, Wrap64;
    prevHash, expectedSeq, res := prev0, expected0, res0;
    ghost var e := Entry(path, lineNo, line);
    ghost var gap := if seqNo != expected0 then [Finding(path, lineNo, Some(seqNo), SeqGap)] else [];
    ghost var cut := if prev != prev0 then [Finding(path, lineNo, Some(seqNo), PrevHashMismatch)] else [];
    res := res.(eventsChecked := res.eventsChecked + 1);
    if seqNo != expectedSeq {
      res := Report(res, Finding(path, lineNo, Some(seqNo), SeqGap));
      expectedSeq := seqNo;
    }
    assert res.findings == res0.findings + gap;
    if prev != prevHash {
      res := Report(res, Finding(path, lineNo, Some(seqNo), PrevHashMismatch));
    }
    assert res.findings == res0.findings + gap + cut;
    var recomputed := HashEvent(h, prev, seqNo, event);
    if recomputed != rowHash {
      res := Report(res, Finding(path, lineNo, Some(seqNo), HashMismatch));
    }
    assert res.findings == res0.findings + gap + cut + HashCheck(h, e, ReadLine(line));
    Regroup(res0.findings, gap, cut, HashCheck(h, e, ReadLine(line)));
    prevHash := Some(rowHash);
    res := res.(headSeq := Some(seqNo), headHash := Some(rowHash));
    expectedSeq := Wrap64(seqNo + 1);
  }

  lemma Regroup(a: seq<Finding>, b: seq<Finding>, c: seq<Finding>, d: seq<Finding>)
    ensures a + b + c + d == a + (b + c + d)
  {
  }

  function Report(res: VerifyResult, f: Finding): VerifyResult {
    res.(findings := res.findings + [f])
  }
}
