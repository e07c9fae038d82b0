/** Signed checkpoints of the chain head. */
module Manifest {
  import opened Wrappers
  import opened Utf8
  import opened Json
  import opened Canonical
  import opened Parse
  import opened RoundTrip
  import opened Decimal

  const SCHEMA_VERSION := 1

  datatype Manifest = Manifest(
    schemaVersion: int,
    seqStart: int,
    seqEnd: int,
    headHash: string,
    generatedAt: string,
    product: string,
    logDir: string,
    signature: string,
    publicKey: string)

  /** Ed25519 over base64 text, as parameters: one key pair and the verification of any key. */
  datatype Scheme = Scheme(sign: Bytes -> string, publicKey: string, check: (string, Bytes, string) -> bool)

  /** The one law used: a key accepts what its own private half signed. */
  ghost predicate Accepts(s: Scheme) {
    forall m: Bytes :: s.check(s.publicKey, m, s.sign(m))
  }

  function PayloadTree(m: Manifest): Json {
    Obj(map["schema_version" := Num(IntText(m.schemaVersion)),
            "seq_start" := Num(IntText(m.seqStart)),
            "seq_end" := Num(IntText(m.seqEnd)),
            "head_hash" := Str(m.headHash),
            "generated_at_iso" := Str(m.generatedAt),
            "bouncer_product" := Str(m.product),
            "log_dir" := Str(m.logDir)])
  }

  function SigningPayload(m: Manifest): Bytes {
    CanonicalJson(PayloadTree(m))
  }

  function VerifyManifest(s: Scheme, m: Manifest, pinnedKey: string): bool {
    s.check(if pinnedKey != "" then pinnedKey else m.publicKey, SigningPayload(m), m.signature)
  }

  /** The signature covers every field but the two base64 ones. */
  lemma PayloadDetermines(m: Manifest, m': Manifest)
    requires SigningPayload(m) == SigningPayload(m')
    ensures m == m'.(signature := m.signature, publicKey := m.publicKey)
  {
    hide PayloadTree, CanonicalJson;
    CanonicalInjective(PayloadTree(m), PayloadTree(m'));
    TreeDetermines(m, m');
  }

  lemma TreeDetermines(m: Manifest, m': Manifest)
    requires PayloadTree(m) == PayloadTree(m')
    ensures m == m'.(signature := m.signature, publicKey := m.publicKey)
  {
    hide IntText;
    var f, f' := PayloadTree(m).fields, PayloadTree(m').fields;
    assert f["schema_version"] == f'["schema_version"] && f["seq_start"] == f'["seq_start"] && f["seq_end"] == f'["seq_end"];
    assert f["head_hash"] == f'["head_hash"] && f["generated_at_iso"] == f'["generated_at_iso"];
    assert f["bouncer_product"] == f'["bouncer_product"] && f["log_dir"] == f'["log_dir"];
    IntTextInjective(m.schemaVersion, m'.schemaVersion);
    IntTextInjective(m.seqStart, m'.seqStart);
    IntTextInjective(m.seqEnd, m'.seqEnd);
  }

  /** The signed bytes read back as an object with exactly these seven members. */
  lemma PayloadReads(m: Manifest)
    ensures ReadValue(SigningPayload(m))
         == Parsed(Obj(map["schema_version" := Num(IntText(m.schemaVersion)), "seq_start" := Num(IntText(m.seqStart)),
                           "seq_end" := Num(IntText(m.seqEnd)), "head_hash" := Str(m.headHash),
                           "generated_at_iso" := Str(m.generatedAt), "bouncer_product" := Str(m.product),
                           "log_dir" := Str(m.logDir)]), [])
  {
    CanonicalReadsBack(PayloadTree(m));
    hide ReadValue, IntText, CanonicalJson;
  }

  // ------------------------------------------------------------------- signer

  /** The abstract value of a signer: the last covered sequence number, the counters and the manifest directory. */
  datatype Signing = Signing(last: Option<int>, emitted: nat, failed: nat, stored: seq<Manifest>)

  const UNUSED := Signing(None, 0, 0, [])

  predicate Due(interval: int, last: Option<int>, head: int) {
    head >= 0 && (if last.None? then head + 1 >= interval else head - last.value >= interval)
  }

  function NextManifest(s: Scheme, product: string, logDir: string, last: Option<int>, head: int, headHash: string, at: string): Manifest {
    var start := if last.None? then 0 else last.value + 1;
    var bare := Manifest(SCHEMA_VERSION, if start > head then head else start, head, headHash, at, product, logDir, "", s.publicKey);
    bare.(signature := s.sign(SigningPayload(bare)))
  }

  function Emitted(s: Scheme, product: string, logDir: string, g: Signing, head: int, headHash: string, at: string, persisted: bool): Signing {
    if head < 0 || headHash == "" then g
    else if !persisted then g.(failed := g.failed + 1)
    else
      Signing(Some(head), g.emitted + 1, g.failed, g.stored + [NextManifest(s, product, logDir, g.last, head, headHash, at)])
  }

  /** An emitted manifest passes verification, by its own key or by the same key pinned. */
  lemma EmittedVerifies(s: Scheme, product: string, logDir: string, last: Option<int>, head: int, headHash: string, at: string)
    requires Accepts(s)
    ensures var m := NextManifest(s, product, logDir, last, head, headHash, at);
            VerifyManifest(s, m, "") && VerifyManifest(s, m, s.publicKey)
  {
    var m := NextManifest(s, product, logDir, last, head, headHash, at);
    assert PayloadTree(m) == PayloadTree(m.(signature := ""));
    hide CanonicalJson, PayloadTree, IntText;
    assert m.signature == s.sign(SigningPayload(m));
  }

  lemma SameUnsigned(m: Manifest, signature: string)
    ensures SigningPayload(m.(signature := signature)) == SigningPayload(m)
  {
    assert PayloadTree(m.(signature := signature)) == PayloadTree(m);
  }

  class ManifestSigner {
    const scheme: Scheme
    const product: string
    const logDir: string
    const interval: int
    var lastEmittedSeq: Option<int>
    var manifestsEmitted: nat
    var manifestsFailed: nat
    var stored: seq<Manifest>

    ghost function View(): Signing
      reads this
    {
      Signing(lastEmittedSeq, manifestsEmitted, manifestsFailed, stored)
    }

    constructor (scheme: Scheme, product: string, logDir: string, interval: int)
      ensures View() == UNUSED
      ensures this.scheme == scheme && this.product == product && this.logDir == logDir
      ensures this.interval == if interval < 1 then 1 else interval
    {
      this.scheme, this.product, this.logDir := scheme, product, logDir;
      this.interval := if interval < 1 then 1 else interval;
      lastEmittedSeq, manifestsEmitted, manifestsFailed, stored := None, 0, 0, [];
    }

    method ShouldEmit(head: int) returns (due: bool)
      ensures due <==> Due(interval, lastEmittedSeq, head)
    {
      if head < 0 {
        return false;
      }
      if lastEmittedSeq.None? {
        return head + 1 >= interval;
      }
      return head - lastEmittedSeq.value >= interval;
    }

    /** `persisted` is the outcome of writing the manifest file. */
    method Emit(head: int, headHash: string, at: string, persisted: bool) returns (m: Option<Manifest>)
      modifies this
      ensures View() == Emitted(scheme, product, logDir, old(View()), head, headHash, at, persisted)
      ensures m == if head < 0 || headHash == "" || !persisted then None
                   else Some(NextManifest(scheme, product, logDir, old(lastEmittedSeq), head, headHash, at))
      ensures m.Some? ==>
                && m.value.schemaVersion == 1 && m.value.seqEnd == head && m.value.headHash == headHash
                && m.value.seqStart == (if old(lastEmittedSeq).None? then 0
                                        else if old(lastEmittedSeq).value + 1 > head then head
                                        else old(lastEmittedSeq).value + 1)
                && m.value.product == product && m.value.logDir == logDir && m.value.generatedAt == at
                && m.value.publicKey == scheme.publicKey
                && m.value.signature == scheme.sign(SigningPayload(m.value))
                && lastEmittedSeq == Some(head) && stored == old(stored) + [m.value]
                && manifestsEmitted == old(manifestsEmitted) + 1 && manifestsFailed == old(manifestsFailed)
    {
      hide CanonicalJson, PayloadTree;
      if head < 0 || headHash == "" {
        return None;
      }
      var seqStart := 0;
      if lastEmittedSeq.Some? {
        seqStart := lastEmittedSeq.value + 1;
      }
      var seqEnd := head;
      if seqStart > seqEnd {
        seqStart := seqEnd;
      }
      var bare := Manifest(SCHEMA_VERSION, seqStart, seqEnd, headHash, at, product, logDir, "", scheme.publicKey);
      var signed := bare.(signature := scheme.sign(SigningPayload(bare)));
      if !persisted {
        manifestsFailed := manifestsFailed + 1;
        return None;
      }
      SameUnsigned(bare, signed.signature);
      stored := stored + [signed];
      manifestsEmitted := manifestsEmitted + 1;
      lastEmittedSeq := Some(seqEnd);
      return Some(signed);
    }
  }
}
