/**
 What a line that is no sound row does to a report: which finding it adds, at
 which place, and that everything else of the report stays.
 */
module BadLines {
  import opened Wrappers
  import opened Json
  import opened Decimal
  import opened Chain
  import opened Verify
  import opened History

  // -------------------------------------------------------------- the shape of a line

  /** The object at unmapped.iam_jit.audit_chain is `block`. */
  predicate HoldsBlock(row: Fields, block: Fields) {
    && "unmapped" in row && row["unmapped"].Obj?
    && "iam_jit" in row["unmapped"].fields && row["unmapped"].fields["iam_jit"].Obj?
    && "audit_chain" in row["unmapped"].fields["iam_jit"].fields
    && row["unmapped"].fields["iam_jit"].fields["audit_chain"] == Obj(block)
  }

  /** An object or not, but without a block. */
  ghost predicate HasNoBlock(tree: Json) {
    tree.Obj? ==> forall block: Fields :: !HoldsBlock(tree.fields, block)
  }

  /** The sequence number is there as the text of a 64-bit integer. */
  predicate SeqReads(block: Fields) {
    "seq" in block && block["seq"].Num? && ParseInt64(block["seq"].text).Some?
  }

  predicate HashReads(block: Fields) {
    "hash" in block && block["hash"].Str?
  }

  /** A previous hash may be missing, null or a string. */
  predicate PrevReads(block: Fields) {
    "prev_hash" in block ==> block["prev_hash"].Null? || block["prev_hash"].Str?
  }

  /** The one finding a line gives on account of its shape alone. */
  ghost predicate Unsound(line: Line, seqNo: Option<int>, reason: Reason) {
    match line
    case Blank => false
    case Garbled => seqNo.None? && reason == BadJson
    case Decoded(tree) =>
      (HasNoBlock(tree) && seqNo.None? && reason == MissingChainBlock)
      || (tree.Obj? && reason == BadTypes
          && exists block: Fields :: HoldsBlock(tree.fields, block) && !(SeqReads(block) && HashReads(block) && PrevReads(block))
                             && seqNo == if SeqReads(block) then ParseInt64(block["seq"].text) else None)
  }

  lemma BlockFound(row: Fields, block: Fields)
    ensures HoldsBlock(row, block) <==> ExtractBlock(row) == Some(block)
  {
  }

  lemma UnsoundRejected(line: Line, seqNo: Option<int>, reason: Reason)
    requires Unsound(line, seqNo, reason)
    ensures ReadLine(line) == Rejected(seqNo, reason)
  {
    if line.Decoded? && line.tree.Obj? {
      var row := line.tree.fields;
      hide HoldsBlock, ExtractBlock;
      forall block ensures HoldsBlock(row, block) <==> ExtractBlock(row) == Some(block) {
        BlockFound(row, block);
      }
      if ExtractBlock(row).Some? {
        assert HoldsBlock(row, ExtractBlock(row).value);
      }
    }
  }

  // ----------------------------------------------------------------------- the report

  /** Findings made before a stretch of lines do not change what the stretch adds. */
  lemma {:induction false} EarlierFindings(h: Digest, w: Walk, entries: seq<Entry>)
    ensures WalkAll(h, w, entries)
         == WalkAll(h, w.(findings := []), entries).(findings := w.findings + WalkAll(h, w.(findings := []), entries).findings)
    decreases |entries|
  {
    hide Step, WalkAll;
    if entries == [] {
      WalkNone(h, w);
      WalkNone(h, w.(findings := []));
    } else {
      var n := |entries| - 1;
      assert entries == entries[..n] + [entries[n]];
      WalkLast(h, w, entries[..n], entries[n]);
      WalkLast(h, w.(findings := []), entries[..n], entries[n]);
      EarlierFindings(h, w, entries[..n]);
      EarlierStep(h, WalkAll(h, w.(findings := []), entries[..n]), w.findings, entries[n]);
    }
  }

  lemma EarlierStep(h: Digest, w: Walk, earlier: seq<Finding>, e: Entry)
    ensures Step(h, w.(findings := earlier + w.findings), e)
         == Step(h, w, e).(findings := earlier + Step(h, w, e).findings)
  {
    hide ReadLine, LineFindings;
    assert earlier + w.findings + LineFindings(h, w.link, e) == earlier + (w.findings + LineFindings(h, w.link, e));
  }

  /** `full` is `plain` with `extra` put in after the findings of `before`. */
  ghost predicate Inserted(full: Walk, plain: Walk, before: Walk, extra: seq<Finding>) {
    before.findings <= plain.findings
    && full == plain.(findings := before.findings + extra + plain.findings[|before.findings|..])
  }

  /** A line that only adds findings leaves the rest of the report and the head as they are without it. */
  lemma InsertedLine(h: Digest, a: seq<Entry>, e: Entry, b: seq<Entry>, extra: seq<Finding>)
    requires var w := WalkAll(h, START, a); Step(h, w, e) == w.(findings := w.findings + extra)
    ensures Inserted(WalkAll(h, START, a + [e] + b), WalkAll(h, START, a + b), WalkAll(h, START, a), extra)
  {
    hide Step, WalkAll;
    var w := WalkAll(h, START, a);
    var rest := WalkAll(h, w.(findings := []), b);
    WalkConcat(h, START, a, b);
    WalkConcat(h, START, a + [e], b);
    WalkLast(h, START, a, e);
    EarlierFindings(h, w, b);
    EarlierFindings(h, w.(findings := w.findings + extra), b);
    assert w.(findings := w.findings + extra).(findings := []) == w.(findings := []);
    assert (w.findings + rest.findings)[|w.findings|..] == rest.findings;
  }

  // ------------------------------------------------------------------------ main results

  /**
   A line that is not JSON, has no block, or has a block with a field of the wrong
   type gives exactly its own finding at its own place, wherever it stands; the
   rest of the report is that of the log without it.
   */
  lemma UnsoundLineReported(h: Digest, a: seq<Entry>, e: Entry, b: seq<Entry>, seqNo: Option<int>, reason: Reason)
    requires Unsound(e.line, seqNo, reason)
    ensures Inserted(WalkAll(h, START, a + [e] + b), WalkAll(h, START, a + b), WalkAll(h, START, a),
                     [Finding(e.source, e.lineNo, seqNo, reason)])
    ensures WalkAll(h, START, a + [e] + b).findings != []
  {
    hide WalkAll, ReadLine, Unsound;
    UnsoundRejected(e.line, seqNo, reason);
    InsertedLine(h, a, e, b, [Finding(e.source, e.lineNo, seqNo, reason)]);
  }

  /** A blank line changes nothing at all. */
  lemma BlankLineUnseen(h: Digest, a: seq<Entry>, e: Entry, b: seq<Entry>)
    requires e.line == Blank
    ensures WalkAll(h, START, a + [e] + b) == WalkAll(h, START, a + b)
  {
    hide WalkAll;
    var w := WalkAll(h, START, a);
    assert w.findings + [] == w.findings;
    InsertedLine(h, a, e, b, []);
    assert w.findings + [] + WalkAll(h, START, a + b).findings[|w.findings|..] == WalkAll(h, START, a + b).findings;
  }

  /** Every line is blank, unsound for one reason, or a row with a block that reads. */
  lemma EveryLine(line: Line)
    ensures line.Blank?
         || (exists seqNo, reason :: Unsound(line, seqNo, reason))
         || (line.Decoded? && line.tree.Obj?
             && exists block: Fields :: HoldsBlock(line.tree.fields, block) && SeqReads(block) && HashReads(block) && PrevReads(block))
  {
    hide HoldsBlock, SeqReads, HashReads, PrevReads;
    if line.Garbled? {
      assert Unsound(line, None, BadJson);
    } else if line.Decoded? {
      if HasNoBlock(line.tree) {
        assert Unsound(line, None, MissingChainBlock);
      } else {
        var block :| HoldsBlock(line.tree.fields, block);
        if !(SeqReads(block) && HashReads(block) && PrevReads(block)) {
          var seqNo := ShownSeq(block);
          assert Unsound(line, seqNo, BadTypes);
        }
      }
    }
  }

  lemma ShownSeq(block: Fields) returns (seqNo: Option<int>)
    ensures seqNo == if SeqReads(block) then ParseInt64(block["seq"].text) else None
  {
    seqNo := if SeqReads(block) then ParseInt64(block["seq"].text) else None;
  }

  /** A row with a sound block is counted, becomes the head, and is reported for exactly what does not fit. */
  lemma SoundRowReported(h: Digest, w: Walk, e: Entry, row: Fields, block: Fields)
    requires e.line == Decoded(Obj(row)) && HoldsBlock(row, block) && SeqReads(block) && HashReads(block) && PrevReads(block)
    ensures var seqNo := ParseInt64(block["seq"].text).value;
            var prev := if "prev_hash" in block && block["prev_hash"].Str? then Some(block["prev_hash"].s) else None;
            var hash, event := block["hash"].s, Obj(Unstamped(row));
            Step(h, w, e)
              == Walk(Link(Wrap64(seqNo + 1), Some(hash)), w.eventsChecked + 1, Some(seqNo), Some(hash),
                      w.findings
                      + (if seqNo != w.link.nextSeq then [Finding(e.source, e.lineNo, Some(seqNo), SeqGap)] else [])
                      + (if prev != w.link.lastHash then [Finding(e.source, e.lineNo, Some(seqNo), PrevHashMismatch)] else [])
                      + (if hash != HashEvent(h, prev, seqNo, event) then [Finding(e.source, e.lineNo, Some(seqNo), HashMismatch)] else []))
  {
    BlockFound(row, block);
    assert Strip(row) == Unstamped(row);
    hide HoldsBlock, HashEvent, Wrap64, ParseInt64, Unstamped;
    hide Strip, ExtractBlock;
    FindingsInOrder(h, w.link, e);
  }

  lemma FindingsInOrder(h: Digest, from: Link, e: Entry)
    requires ReadLine(e.line).Claim?
    ensures var r := ReadLine(e.line);
            forall earlier: seq<Finding> ::
              earlier + LineFindings(h, from, e)
              == earlier
                 + (if r.seqNo != from.nextSeq then [Finding(e.source, e.lineNo, Some(r.seqNo), SeqGap)] else [])
                 + (if r.prev != from.lastHash then [Finding(e.source, e.lineNo, Some(r.seqNo), PrevHashMismatch)] else [])
                 + (if r.hash != HashEvent(h, r.prev, r.seqNo, r.event) then [Finding(e.source, e.lineNo, Some(r.seqNo), HashMismatch)] else [])
  {
    hide ReadLine, HashEvent;
  }
}
