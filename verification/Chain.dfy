/**
 One link of the audit chain: the hash of an event, the block a stamped row
 carries at unmapped.iam_jit.audit_chain, and taking that block off again.
 */
module Chain {
  import opened Wrappers
  import opened Utf8
  import opened Json
  import opened Canonical
  import opened CanonicalForm
  import opened Parse
  import opened RoundTrip
  import opened Decimal

  const UNMAPPED := "unmapped"
  const IAM_JIT := "iam_jit"
  const CHAIN_FIELD := "audit_chain"
  const SEQ_FIELD := "seq"
  const PREV_FIELD := "prev_hash"
  const HASH_FIELD := "hash"
  const EVENT_FIELD := "event"

  type Fields = map<string, Json>

  // --------------------------------------------------------------------- hash

  /** SHA-256 followed by hexadecimal encoding, as a parameter. */
  type Digest = Bytes -> string

  predicate IsHexDigest(s: string) {
    |s| == 64 && forall i | 0 <= i < |s| :: '0' <= s[i] <= '9' || 'a' <= s[i] <= 'f'
  }

  /** All that is assumed of the digest: its output format. */
  ghost predicate IsDigest(h: Digest) {
    forall b: Bytes :: IsHexDigest(h(b))
  }

  /** Two different inputs with one digest. */
  ghost predicate Collision(h: Digest, a: Bytes, b: Bytes) {
    a != b && h(a) == h(b)
  }

  function PrevBytes(prev: Option<string>): Bytes {
    if prev.None? then [] else Utf8Text(prev.value)
  }

  function PrevJson(prev: Option<string>): Json {
    if prev.None? then Null else Str(prev.value)
  }

  function HashPayload(prev: Option<string>, seqNo: int, event: Json): Json {
    Obj(map[SEQ_FIELD := Num(IntText(seqNo)), PREV_FIELD := PrevJson(prev), EVENT_FIELD := event])
  }

  function Preimage(prev: Option<string>, seqNo: int, event: Json): Bytes {
    PrevBytes(prev) + CanonicalJson(HashPayload(prev, seqNo, event))
  }

  function HashEvent(h: Digest, prev: Option<string>, seqNo: int, event: Json): string {
    h(Preimage(prev, seqNo, event))
  }

  predicate IsPrev(prev: Option<string>) {
    prev.Some? ==> IsHexDigest(prev.value)
  }

  lemma {:induction false} HexText(s: string)
    requires forall i | 0 <= i < |s| :: '0' <= s[i] <= '9' || 'a' <= s[i] <= 'f'
    ensures |Utf8Text(s)| == |s|
    ensures forall i | 0 <= i < |s| :: Utf8Text(s)[i] == s[i] as int
  {
    if s != "" {
      HexText(s[1..]);
    }
  }

  lemma PayloadStart(prev: Option<string>, seqNo: int, event: Json)
    ensures |CanonicalJson(HashPayload(prev, seqNo, event))| > 0
    ensures CanonicalJson(HashPayload(prev, seqNo, event))[0] == OPEN_OBJ
  {
    CanonicalIsAsciiEncode(HashPayload(prev, seqNo, event));
  }

  lemma PayloadInjective(prev: Option<string>, seqNo: int, event: Json, prev': Option<string>, seqNo': int, event': Json)
    requires HashPayload(prev, seqNo, event) == HashPayload(prev', seqNo', event')
    ensures prev == prev' && seqNo == seqNo' && event == event'
  {
    var f := HashPayload(prev, seqNo, event).fields;
    var f' := HashPayload(prev', seqNo', event').fields;
    assert f[SEQ_FIELD] == f'[SEQ_FIELD] && f[PREV_FIELD] == f'[PREV_FIELD] && f[EVENT_FIELD] == f'[EVENT_FIELD];
    IntTextInjective(seqNo, seqNo');
  }

  /** The length of the previous hash is readable off the preimage: '{' is no hex digit. */
  lemma PrevLength(prev: Option<string>, body: Bytes, prev': Option<string>, body': Bytes)
    requires IsPrev(prev) && IsPrev(prev')
    requires |body| > 0 && body[0] == OPEN_OBJ && |body'| > 0 && body'[0] == OPEN_OBJ
    requires PrevBytes(prev) + body == PrevBytes(prev') + body'
    ensures body == body'
  {
    var p, p' := PrevBytes(prev), PrevBytes(prev');
    if prev.Some? {
      HexText(prev.value);
      assert (p + body)[0] == p[0] == prev.value[0] as int;
    }
    if prev'.Some? {
      HexText(prev'.value);
      assert (p' + body')[0] == p'[0] == prev'.value[0] as int;
    }
    assert |p| == |p'|;
    assert body == (p + body)[|p|..];
    assert body' == (p' + body')[|p'|..];
  }

  /** The preimage determines what was hashed. */
  lemma PreimageInjective(prev: Option<string>, seqNo: int, event: Json, prev': Option<string>, seqNo': int, event': Json)
    requires IsPrev(prev) && IsPrev(prev')
    requires Preimage(prev, seqNo, event) == Preimage(prev', seqNo', event')
    ensures prev == prev' && seqNo == seqNo' && event == event'
  {
    var payload, payload' := HashPayload(prev, seqNo, event), HashPayload(prev', seqNo', event');
    PayloadStart(prev, seqNo, event);
    PayloadStart(prev', seqNo', event');
    PrevLength(prev, CanonicalJson(payload), prev', CanonicalJson(payload'));
    CanonicalInjective(payload, payload');
    PayloadInjective(prev, seqNo, event, prev', seqNo', event');
  }

  // ---------------------------------------------------------------- the block

  /** The member `key` when it is an object. */
  function Member(obj: Fields, key: string): Option<Fields> {
    if key in obj && obj[key].Obj? then Some(obj[key].fields) else None
  }

  function MemberOrEmpty(obj: Fields, key: string): Fields {
    if key in obj && obj[key].Obj? then obj[key].fields else map[]
  }

  function IamJit(obj: Fields): Option<Fields> {
    var unmapped := Member(obj, UNMAPPED);
    if unmapped.None? then None else Member(unmapped.value, IAM_JIT)
  }

  /** `obj` with `iamJit` at unmapped.iam_jit, the path created or overwritten where it is no object. */
  function WithIamJit(obj: Fields, iamJit: Fields): Fields {
    obj[UNMAPPED := Obj(MemberOrEmpty(obj, UNMAPPED)[IAM_JIT := Obj(iamJit)])]
  }

  /** What the stamper hashes: the path made present and any earlier block dropped. */
  function Unstamped(obj: Fields): Fields {
    WithIamJit(obj, MemberOrEmpty(MemberOrEmpty(obj, UNMAPPED), IAM_JIT) - {CHAIN_FIELD})
  }

  function Block(seqNo: int, prev: Option<string>, hash: string): Fields {
    map[SEQ_FIELD := Num(IntText(seqNo)), PREV_FIELD := PrevJson(prev), HASH_FIELD := Str(hash)]
  }

  function WithBlock(obj: Fields, block: Fields): Fields {
    WithIamJit(obj, MemberOrEmpty(MemberOrEmpty(obj, UNMAPPED), IAM_JIT)[CHAIN_FIELD := Obj(block)])
  }

  function ExtractBlock(obj: Fields): Option<Fields> {
    var iamJit := IamJit(obj);
    if iamJit.None? then None else Member(iamJit.value, CHAIN_FIELD)
  }

  /** What the verifier hashes: the row without its block, left alone where the path is missing. */
  function Strip(obj: Fields): Fields {
    var iamJit := IamJit(obj);
    if iamJit.None? then obj else WithIamJit(obj, iamJit.value - {CHAIN_FIELD})
  }

  function BlockSeq(block: Fields): Option<int> {
    if SEQ_FIELD in block && block[SEQ_FIELD].Num? then ParseInt64(block[SEQ_FIELD].text) else None
  }

  function BlockHash(block: Fields): Option<string> {
    if HASH_FIELD in block && block[HASH_FIELD].Str? then Some(block[HASH_FIELD].s) else None
  }

  /** A missing or null prev_hash reads as none; another type fails. */
  function BlockPrev(block: Fields): Option<Option<string>> {
    if PREV_FIELD !in block || block[PREV_FIELD].Null? then Some(None)
    else if block[PREV_FIELD].Str? then Some(Some(block[PREV_FIELD].s))
    else None
  }

  // ----------------------------------------------------------------- stamping

  /** The chain's state: the next sequence number and the hash of the last row. */
  datatype Link = Link(nextSeq: int, lastHash: Option<string>)

  const GENESIS := Link(0, None)

  function LinkHash(h: Digest, s: Link, obj: Fields): string {
    HashEvent(h, s.lastHash, s.nextSeq, Obj(Unstamped(obj)))
  }

  function StampRow(h: Digest, s: Link, obj: Fields): Fields {
    WithBlock(Unstamped(obj), Block(s.nextSeq, s.lastHash, LinkHash(h, s, obj)))
  }

  function Advance(h: Digest, s: Link, obj: Fields): Link {
    Link(Wrap64(s.nextSeq + 1), Some(LinkHash(h, s, obj)))
  }

  /** Taking the block off a stamped row gives exactly the tree that was hashed. */
  lemma StripUndoesBlock(obj: Fields, block: Fields)
    ensures Strip(WithBlock(Unstamped(obj), block)) == Unstamped(obj)
    ensures ExtractBlock(WithBlock(Unstamped(obj), block)) == Some(block)
  {
    var clean := MemberOrEmpty(MemberOrEmpty(obj, UNMAPPED), IAM_JIT) - {CHAIN_FIELD};
    var unmapped := MemberOrEmpty(obj, UNMAPPED);
    var bare := Unstamped(obj);
    assert MemberOrEmpty(bare, UNMAPPED) == unmapped[IAM_JIT := Obj(clean)];
    assert MemberOrEmpty(MemberOrEmpty(bare, UNMAPPED), IAM_JIT) == clean;
    var row := WithBlock(bare, block);
    var stamped := clean[CHAIN_FIELD := Obj(block)];
    assert Member(row, UNMAPPED) == Some(unmapped[IAM_JIT := Obj(clean)][IAM_JIT := Obj(stamped)]);
    assert IamJit(row) == Some(stamped);
    assert stamped - {CHAIN_FIELD} == clean;
    assert unmapped[IAM_JIT := Obj(clean)][IAM_JIT := Obj(stamped)][IAM_JIT := Obj(clean)] == unmapped[IAM_JIT := Obj(clean)];
    assert Strip(row) == bare;
  }

  /** The three fields of a block read back. */
  lemma BlockReadsBack(seqNo: int, prev: Option<string>, hash: string)
    requires IsInt64(seqNo)
    ensures BlockSeq(Block(seqNo, prev, hash)) == Some(seqNo)
    ensures BlockPrev(Block(seqNo, prev, hash)) == Some(prev)
    ensures BlockHash(Block(seqNo, prev, hash)) == Some(hash)
  {
    ParseIntText(seqNo);
  }

  /** Stamping a row a second time starts from the same tree. */
  lemma UnstampedOfStamped(obj: Fields, block: Fields)
    ensures Unstamped(WithBlock(Unstamped(obj), block)) == Unstamped(obj)
  {
    StripUndoesBlock(obj, block);
    var row := WithBlock(Unstamped(obj), block);
    assert IamJit(row).Some?;
    assert MemberOrEmpty(MemberOrEmpty(row, UNMAPPED), IAM_JIT) == IamJit(row).value;
    assert Unstamped(row) == Strip(row);
  }

  // ------------------------------------------------- what a row keeps of its event

  /** `a` and `b` hold the same members with the same values, `key` aside. */
  ghost predicate SameBut(a: Fields, b: Fields, key: string) {
    forall k | k != key :: (k in a <==> k in b) && (k in a ==> a[k] == b[k])
  }

  /** `after` has an object at `key` that keeps all of the object `before` has there, `within` aside. */
  ghost predicate Keeps(after: Fields, before: Fields, key: string, within: string) {
    key in after && after[key].Obj?
    && SameBut(after[key].fields, if key in before && before[key].Obj? then before[key].fields else map[], within)
  }

  /** The objects at unmapped and unmapped.iam_jit, empty where there is no such object. */
  function UnmappedOf(obj: Fields): Fields {
    if "unmapped" in obj && obj["unmapped"].Obj? then obj["unmapped"].fields else map[]
  }

  function IamJitOf(obj: Fields): Fields {
    if "iam_jit" in UnmappedOf(obj) && UnmappedOf(obj)["iam_jit"].Obj? then UnmappedOf(obj)["iam_jit"].fields else map[]
  }

  /** Nothing of an event is lost or altered in `row` but what is at unmapped.iam_jit.audit_chain. */
  ghost predicate KeepsEvent(row: Fields, event: Fields) {
    && SameBut(row, event, "unmapped")
    && Keeps(row, event, "unmapped", "iam_jit")
    && Keeps(UnmappedOf(row), UnmappedOf(event), "iam_jit", "audit_chain")
  }

  /** Two events agree on everything but what is at unmapped.iam_jit.audit_chain. */
  ghost predicate Agree(a: Fields, b: Fields) {
    && SameBut(a, b, "unmapped")
    && SameBut(UnmappedOf(a), UnmappedOf(b), "iam_jit")
    && SameBut(IamJitOf(a), IamJitOf(b), "audit_chain")
  }

  /** The tree that is hashed keeps the event and has no block. */
  lemma HashedTreeKeepsEvent(obj: Fields)
    ensures KeepsEvent(Unstamped(obj), obj)
    ensures "audit_chain" !in IamJitOf(Unstamped(obj))
  {
  }

  /** The row written keeps the event and carries the block with the link and its hash. */
  lemma RowKeepsEvent(h: Digest, s: Link, obj: Fields)
    ensures KeepsEvent(StampRow(h, s, obj), obj)
    ensures "audit_chain" in IamJitOf(StampRow(h, s, obj))
    ensures IamJitOf(StampRow(h, s, obj))["audit_chain"]
         == Obj(map["seq" := Num(IntText(s.nextSeq)),
                    "prev_hash" := if s.lastHash.Some? then Str(s.lastHash.value) else Null,
                    "hash" := Str(LinkHash(h, s, obj))])
  {
    hide LinkHash, IntText;
  }

  /** Two events have the same hashed tree exactly when they agree on all but the block. */
  lemma SameTreeIffAgree(a: Fields, b: Fields)
    ensures Unstamped(a) == Unstamped(b) <==> Agree(a, b)
  {
    if Unstamped(a) == Unstamped(b) {
      SameTreeAgree(a, b);
    }
    if Agree(a, b) {
      AgreeSameTree(a, b);
    }
  }

  lemma SameTreeAgree(a: Fields, b: Fields)
    requires Unstamped(a) == Unstamped(b)
    ensures Agree(a, b)
  {
    HashedTreeKeepsEvent(a);
    HashedTreeKeepsEvent(b);
    hide Unstamped;
  }

  lemma AgreeSameTree(a: Fields, b: Fields)
    requires Agree(a, b)
    ensures Unstamped(a) == Unstamped(b)
  {
    SameWithout(IamJitOf(a), IamJitOf(b), "audit_chain");
    var clean := Obj(IamJitOf(a) - {"audit_chain"});
    SameWith(UnmappedOf(a), UnmappedOf(b), "iam_jit", clean);
    SameWith(a, b, "unmapped", Obj(UnmappedOf(a)["iam_jit" := clean]));
  }

  lemma SameWithout(a: Fields, b: Fields, key: string)
    requires SameBut(a, b, key)
    ensures a - {key} == b - {key}
  {
  }

  lemma SameWith(a: Fields, b: Fields, key: string, value: Json)
    requires SameBut(a, b, key)
    ensures a[key := value] == b[key := value]
  {
  }

  /** Events stamped at one point with one hash agree on all but the block, or two inputs with one digest are known. */
  lemma EqualHashesAgree(h: Digest, s: Link, a: Fields, b: Fields)
    requires IsPrev(s.lastHash) && LinkHash(h, s, a) == LinkHash(h, s, b)
    ensures Agree(a, b)
         || Collision(h, Preimage(s.lastHash, s.nextSeq, Obj(Unstamped(a))), Preimage(s.lastHash, s.nextSeq, Obj(Unstamped(b))))
  {
    hide Preimage, Unstamped, Agree, IsPrev;
    var x, y := Obj(Unstamped(a)), Obj(Unstamped(b));
    if Preimage(s.lastHash, s.nextSeq, x) == Preimage(s.lastHash, s.nextSeq, y) {
      PreimageInjective(s.lastHash, s.nextSeq, x, s.lastHash, s.nextSeq, y);
      SameTreeIffAgree(a, b);
    }
  }

  /** What is hashed: the previous hash's text, then an object with exactly these three members. */
  lemma PreimageReads(prev: Option<string>, seqNo: int, event: Json)
    ensures |Utf8Text(if prev.Some? then prev.value else "")| <= |Preimage(prev, seqNo, event)|
    ensures var n := |Utf8Text(if prev.Some? then prev.value else "")|;
            && Preimage(prev, seqNo, event)[..n] == Utf8Text(if prev.Some? then prev.value else "")
            && ReadValue(Preimage(prev, seqNo, event)[n..])
                 == Parsed(Obj(map["seq" := Num(IntText(seqNo)),
                                   "prev_hash" := if prev.Some? then Str(prev.value) else Null,
                                   "event" := event]), [])
  {
    CanonicalReadsBack(HashPayload(prev, seqNo, event));
    hide CanonicalJson, ReadValue, IntText;
    var body := CanonicalJson(HashPayload(prev, seqNo, event));
    assert Preimage(prev, seqNo, event)[|PrevBytes(prev)|..] == body;
  }
}
