/** From the bytes the writer appends to the verifier's report. */
module EndToEnd {
  import opened Utf8
  import opened Json
  import opened Canonical
  import opened CanonicalForm
  import opened Parse
  import opened RoundTrip
  import opened Framing
  import opened Decimal
  import opened Chain
  import opened Verify
  import opened History
  import opened Damage
  import opened LogWriter
  import opened Checkpoints

  // ---------------------------------------------------------------------- a line

  /** unicode.IsSpace. */
  predicate IsSpace(c: char) {
    var r := c as int;
    0x09 <= r <= 0x0D || r == 0x20 || r == 0x85 || r == 0xA0 || r == 0x1680 || 0x2000 <= r <= 0x200A
    || r == 0x2028 || r == 0x2029 || r == 0x202F || r == 0x205F || r == 0x3000
  }

  /** bytes.TrimSpace leaves nothing. */
  predicate IsBlank(b: Bytes) {
    b == [] || (IsSpace(DecodeRune(b).ch) && IsBlank(b[DecodeRune(b).size..]))
  }

  /** What the verifier makes of a line: its first JSON value, whatever follows. */
  function DecodeLine(b: Bytes): Line {
    if IsBlank(b) then Blank
    else if ReadValue(b).Failed? then Garbled
    else Decoded(ReadValue(b).value)
  }

  /** The lines of a file, decoded. */
  function LinesOf(file: Bytes): (lines: seq<Line>)
    ensures |lines| == |ScanLines(file)|
    ensures forall i | 0 <= i < |lines| :: lines[i] == DecodeLine(ScanLines(file)[i])
  {
    seq(|ScanLines(file)|, i requires 0 <= i < |ScanLines(file)| => DecodeLine(ScanLines(file)[i]))
  }

  lemma OpensObject(t: Json, more: Bytes)
    requires t.Obj?
    ensures var b := CanonicalJson(t) + more;
            b != [] && b[0] == OPEN_OBJ && !IsBlank(b)
  {
    CanonicalIsAsciiEncode(t);
    hide CanonicalJson, EncodeFields;
    var b := CanonicalJson(t) + more;
    assert b[0] == Encode(t, AsciiOnly)[0] == OPEN_OBJ;
    assert DecodeRune(b).ch as int == OPEN_OBJ;
  }

  /** Bytes put after a row on its line are not seen: the line still reads as the row. */
  lemma TrailingBytesUnseen(t: Json, more: Bytes)
    requires t.Obj?
    ensures DecodeLine(CanonicalJson(t) + more) == Decoded(t)
  {
    OpensObject(t, more);
    CanonicalIsAsciiEncode(t);
    ReadEncodedObj(t, AsciiOnly, more);
  }

  // --------------------------------------------------------------------- the files

  predicate AllObjects(rows: seq<Json>) {
    forall i | 0 <= i < |rows| :: rows[i].Obj?
  }

  lemma LinesReadBack(rows: seq<Json>)
    requires AllObjects(rows)
    ensures |LinesOf(WriteLines(rows))| == |rows|
    ensures forall i | 0 <= i < |rows| :: LinesOf(WriteLines(rows))[i] == Decoded(rows[i])
  {
    FileSplits(rows);
    hide DecodeLine, CanonicalJson;
    forall i | 0 <= i < |rows| ensures DecodeLine(Texts(rows)[i]) == Decoded(rows[i]) {
      TrailingBytesUnseen(rows[i], []);
      assert CanonicalJson(rows[i]) + [] == CanonicalJson(rows[i]);
    }
  }

  /** A log kept in several files: the path of each and the rows in it. */
  datatype Part = Part(path: string, rows: seq<Json>)

  function FilesOf(parts: seq<Part>): seq<LogFile> {
    if parts == [] then []
    else [LogFile(parts[0].path, LinesOf(WriteLines(parts[0].rows)))] + FilesOf(parts[1..])
  }

  function RowsIn(parts: seq<Part>): seq<Json> {
    if parts == [] then [] else parts[0].rows + RowsIn(parts[1..])
  }

  lemma {:induction false} FilesReadBack(parts: seq<Part>)
    requires AllObjects(RowsIn(parts))
    ensures |LocateAll(FilesOf(parts))| == |RowsIn(parts)|
    ensures forall i | 0 <= i < |RowsIn(parts)| :: LocateAll(FilesOf(parts))[i].line == Decoded(RowsIn(parts)[i])
  {
    if parts != [] {
      hide LinesOf, WriteLines, LocateAll, FilesOf, RowsIn, AllObjects;
      var first, more := parts[0].rows, RowsIn(parts[1..]);
      var path, lines := parts[0].path, LinesOf(WriteLines(parts[0].rows));
      FirstFile(parts);
      LinesReadBack(first);
      FilesReadBack(parts[1..]);
      JoinLines(Locate(path, lines, 0), LocateAll(FilesOf(parts[1..])), first, more);
    }
  }

  lemma FirstFile(parts: seq<Part>)
    requires parts != []
    ensures RowsIn(parts) == parts[0].rows + RowsIn(parts[1..])
    ensures AllObjects(RowsIn(parts)) ==> AllObjects(parts[0].rows) && AllObjects(RowsIn(parts[1..]))
    ensures LocateAll(FilesOf(parts))
         == Locate(parts[0].path, LinesOf(WriteLines(parts[0].rows)), 0) + LocateAll(FilesOf(parts[1..]))
  {
    hide LinesOf, WriteLines, Locate;
    var first, more := parts[0].rows, RowsIn(parts[1..]);
    assert forall i | 0 <= i < |first| :: first[i] == RowsIn(parts)[i];
    assert forall i | 0 <= i < |more| :: more[i] == RowsIn(parts)[|first| + i];
    assert FilesOf(parts)[1..] == FilesOf(parts[1..]);
  }

  lemma JoinLines(a: seq<Entry>, b: seq<Entry>, first: seq<Json>, more: seq<Json>)
    requires |a| == |first| && forall i | 0 <= i < |a| :: a[i].line == Decoded(first[i])
    requires |b| == |more| && forall i | 0 <= i < |b| :: b[i].line == Decoded(more[i])
    ensures forall i | 0 <= i < |a + b| :: (a + b)[i].line == Decoded((first + more)[i])
  {
  }

  // ------------------------------------------------------------------------ the run

  lemma RunRowsAreObjects(u: Setup, jobs: seq<Job>)
    requires |Events(jobs)| < INT64_LIMIT
    ensures AllObjects(Run(u, FRESH, jobs).rows)
  {
    hide Run, Events, Written, LinkAt, StampRow, Pins;
    RunRecords(u, jobs);
  }

  /**
   End to end: the rows a writer's run put on disk, as bytes in any number of
   files, verify clean exactly when no row was written after a lost one; when
   every stamped row was written the verifier ends at the writer's own head.
   */
  lemma FilesVerify(u: Setup, jobs: seq<Job>, parts: seq<Part>)
    requires IsDigest(u.h) && |Events(jobs)| < INT64_LIMIT && RowsIn(parts) == Run(u, FRESH, jobs).rows
    ensures WalkAll(u.h, START, LocateAll(FilesOf(parts))).findings == []
       <==> forall k | 0 <= k < |Written(jobs)| :: Written(jobs)[k] == k
    ensures |RowsIn(parts)| == |Events(jobs)| && WalkAll(u.h, START, LocateAll(FilesOf(parts))).findings == [] ==>
              WalkAll(u.h, START, LocateAll(FilesOf(parts))).link == Run(u, FRESH, jobs).keeper.link
  {
    hide Run, Events, Written, WalkAll, RowsIn, FilesOf, LocateAll, IsDigest, LinkAt, RowAt, Pins, Gaps, SomeCollision;
    var entries := LocateAll(FilesOf(parts));
    RunRowsAreObjects(u, jobs);
    FilesReadBack(parts);
    LostRowsReport(u, jobs, entries);
    RunRecords(u, jobs);
    if |entries| == |Events(jobs)| && WalkAll(u.h, START, entries).findings == [] {
      RearrangedReport(u.h, Events(jobs), Written(jobs), entries);
      LinkFirst(u.h, GENESIS, Events(jobs));
      assert Follows(Written(jobs), |Written(jobs)|) == |Events(jobs)|;
    }
  }

  /** The same for a writer's one file, as it stands after its run. */
  lemma WriterFileVerifies(w: LogWriter, jobs: seq<Job>, path: string)
    requires w.Valid() && IsDigest(w.chain.h) && |Events(jobs)| < INT64_LIMIT
    requires w.View() == Run(w.SetupOf(), FRESH, jobs)
    ensures WalkAll(w.chain.h, START, LocateAll([LogFile(path, LinesOf(w.file))])).findings == []
       <==> forall k | 0 <= k < |Written(jobs)| :: Written(jobs)[k] == k
  {
    hide Run, Events, Written, WalkAll, LocateAll, IsDigest, LinesOf, WriteLines;
    var parts := [Part(path, w.rows)];
    assert parts[1..] == [];
    assert w.rows + [] == w.rows;
    assert RowsIn(parts) == w.rows;
    assert FilesOf(parts) == [LogFile(path, LinesOf(w.file))];
    FilesVerify(w.SetupOf(), jobs, parts);
  }
}
