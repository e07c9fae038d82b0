/** The verifier's verdict on logs that are not what the writer wrote. */
module Tamper {
  import opened Wrappers
  import opened Utf8
  import opened Json
  import opened Decimal
  import opened Chain
  import opened Verify
  import opened History

  // --------------------------------------------------------------- evidence

  /** What the non-blank lines claim, in order. */
  ghost function Claims(entries: seq<Entry>): seq<Reading> {
    if entries == [] then []
    else
      var r := ReadLine(entries[|entries| - 1].line);
      Claims(entries[..|entries| - 1]) + (if r.Skipped? then [] else [r])
  }

  /** What the first `n` stamped rows claim: sequence number, previous hash, hash and the hashed event. */
  ghost function HonestClaims(h: Digest, events: seq<Fields>, n: nat): seq<Reading>
    requires n <= |events|
  {
    if n == 0 then []
    else
      var s := LinkAt(h, GENESIS, events, n - 1);
      HonestClaims(h, events, n - 1)
      + [Claim(s.nextSeq, s.lastHash, LinkHash(h, s, events[n - 1]), Obj(Unstamped(events[n - 1])))]
  }

  /** A walk keeps its head and its link together; while clean, its hashes are digests. */
  lemma {:induction false} WalkHead(h: Digest, entries: seq<Entry>)
    ensures var w := WalkAll(h, START, entries);
            && w.headHash == w.link.lastHash
            && (w.headSeq.None? <==> w.headHash.None?)
            && (w.headSeq.Some? ==> w.link.nextSeq == Wrap64(w.headSeq.value + 1))
            && (IsDigest(h) && w.findings == [] ==> IsPrev(w.headHash))
    decreases |entries|
  {
    hide ReadLine, Wrap64, Preimage, IsHexDigest, WalkAll;
    if entries == [] {
      WalkNone(h, START);
    } else {
      var n := |entries| - 1;
      assert entries == entries[..n] + [entries[n]];
      WalkLast(h, START, entries[..n], entries[n]);
      WalkHead(h, entries[..n]);
    }
  }

  /** A clean last line is blank or a row that continues the walk with a hash of its own content. */
  lemma CleanLast(h: Digest, w: Walk, e: Entry)
    requires Step(h, w, e).findings == []
    ensures w.findings == []
    ensures var r := ReadLine(e.line);
            (r.Skipped? && Step(h, w, e) == w)
            || (r.Claim? && w.link == Link(r.seqNo, r.prev) && r.hash == HashEvent(h, r.prev, r.seqNo, r.event)
                && Step(h, w, e).headHash == Some(r.hash))
  {
    hide ReadLine, Wrap64, HashEvent;
  }

  /**
   Tamper evidence: a log that verifies clean and ends in the hash of an honest
   log is that honest log, row for row; otherwise two inputs with one digest
   have been found.
   */
  lemma {:induction false} TamperEvidence(h: Digest, events: seq<Fields>, n: nat, entries: seq<Entry>) returns (a: Bytes, b: Bytes)
    requires IsDigest(h) && n <= |events|
    requires WalkAll(h, START, entries).findings == []
    requires WalkAll(h, START, entries).headHash == LinkAt(h, GENESIS, events, n).lastHash
    ensures Claims(entries) == HonestClaims(h, events, n) || Collision(h, a, b)
    decreases |entries|
  {
    a, b := [], [];
    hide ReadLine, Step, LinkAt, LinkHash, Preimage, Unstamped, WalkAll, IsDigest, IsPrev;
    if n > 0 {
      LinkNext(h, GENESIS, events, n);
    } else {
      LinkFirst(h, GENESIS, events);
    }
    if entries == [] {
      WalkNone(h, START);
      return;
    }
    var k := |entries| - 1;
    var before := WalkAll(h, START, entries[..k]);
    assert entries == entries[..k] + [entries[k]];
    WalkLast(h, START, entries[..k], entries[k]);
    CleanLast(h, before, entries[k]);
    var r := ReadLine(entries[k].line);
    if r.Skipped? {
      a, b := TamperEvidence(h, events, n, entries[..k]);
    } else {
      var s, x := LinkAt(h, GENESIS, events, n - 1), Obj(Unstamped(events[n - 1]));
      WalkHead(h, entries[..k]);
      HashesAreHex(h, GENESIS, events, n - 1);
      a, b := Preimage(r.prev, r.seqNo, r.event), Preimage(s.lastHash, s.nextSeq, x);
      SameHash(h, r, s, events[n - 1]);
      if a == b {
        PreimageInjective(r.prev, r.seqNo, r.event, s.lastHash, s.nextSeq, x);
        a, b := TamperEvidence(h, events, n - 1, entries[..k]);
      }
    }
  }

  lemma SameHash(h: Digest, r: Reading, s: Link, obj: Fields)
    requires r.Claim? && HashEvent(h, r.prev, r.seqNo, r.event) == LinkHash(h, s, obj)
    ensures var a, b := Preimage(r.prev, r.seqNo, r.event), Preimage(s.lastHash, s.nextSeq, Obj(Unstamped(obj)));
            a == b || Collision(h, a, b)
  {
  }

  // ---------------------------------------------------------- what the rows still say

  /** The lines that are not blank, in order. */
  ghost function Rows(entries: seq<Entry>): seq<Entry> {
    if entries == [] then []
    else
      var e := entries[|entries| - 1];
      Rows(entries[..|entries| - 1]) + (if e.line.Blank? then [] else [e])
  }

  /** A row that claims the hashed tree of an event agrees with it on all but the block. */
  lemma ClaimedRowAgrees(line: Line, obj: Fields)
    requires ReadLine(line).Claim? && ReadLine(line).event == Obj(Unstamped(obj))
    ensures line.Decoded? && line.tree.Obj? && Agree(line.tree.fields, obj)
  {
    hide BlockSeq, BlockHash, BlockPrev, Agree;
    var row := line.tree.fields;
    assert IamJit(row).Some?;
    assert Strip(row) == Unstamped(row);
    SameTreeIffAgree(row, obj);
  }

  lemma SkippedIsBlank(line: Line)
    ensures ReadLine(line).Skipped? <==> line.Blank?
  {
  }

  /** Rows that make the claims of an honest log are as many and agree with its events, one by one. */
  lemma {:induction false} RowsAgree(h: Digest, events: seq<Fields>, n: nat, entries: seq<Entry>)
    requires n <= |events| && Claims(entries) == HonestClaims(h, events, n)
    ensures |Rows(entries)| == n
    ensures forall i | 0 <= i < n ::
              var line := Rows(entries)[i].line;
              line.Decoded? && line.tree.Obj? && Agree(line.tree.fields, events[i])
    decreases |entries|
  {
    hide ReadLine, Agree, Unstamped, LinkAt, LinkHash;
    if entries == [] {
      assert n == 0;
    } else {
      var k := |entries| - 1;
      SkippedIsBlank(entries[k].line);
      if entries[k].line.Blank? {
        assert Claims(entries) == Claims(entries[..k]);
        RowsAgree(h, events, n, entries[..k]);
      } else {
        assert Claims(entries) == Claims(entries[..k]) + [ReadLine(entries[k].line)];
        assert n > 0;
        LastClaim(Claims(entries[..k]), ReadLine(entries[k].line), h, events, n);
        RowsAgree(h, events, n - 1, entries[..k]);
        ClaimedRowAgrees(entries[k].line, events[n - 1]);
      }
    }
  }

  lemma LastClaim(before: seq<Reading>, last: Reading, h: Digest, events: seq<Fields>, n: nat)
    requires 0 < n <= |events| && before + [last] == HonestClaims(h, events, n)
    ensures before == HonestClaims(h, events, n - 1)
    ensures last.Claim? && last.event == Obj(Unstamped(events[n - 1]))
  {
    hide Unstamped, LinkAt, LinkHash;
    var all := before + [last];
    var honest := HonestClaims(h, events, n);
    var m := |honest| - 1;
    assert honest[..m] == HonestClaims(h, events, n - 1);
    assert all[..m] == before && all[m] == last;
  }
}
