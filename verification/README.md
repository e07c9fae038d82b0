# dbounce: the audit and anomaly core, modelled and proved in Dafny

dbounce writes an audit row for every database request it sees, links the rows
by hash, signs checkpoints of the chain, ships the rows to several sinks, and
scores requests against a learned baseline. This project models the parts of
that core which keep state and carry guarantees over whole runs. Verify it with
`dafny verify dfyconfig.toml`.

Where the program changes state in place, the model is a method or a class with
the program's fields. Each such method is proved against a function or a step
relation, and the guarantees are proved about that.

## The main results

* **Canonical text** (`Utf8`, `AsciiEscape`, `Json`, `Canonical`, `KeyOrder`,
  `CanonicalForm`, `Parse`, `RoundTrip`, `Framing`, `PythonText`). A row's text
  reads back as its tree, so the text determines the tree, and a file splits
  back into the rows that were appended to it. The text is the one Python writes
  if and only if the tree meets a condition on its strings and number literals.
* **The chain** (`Decimal`, `Chain`, `Verify`, `BadLines`, `History`, `Tamper`,
  `Damage`, `Stamper`, `Restarts`). A row keeps its event, and two events hash
  alike only if they agree on all but the block or the digest collides. A log
  that verifies clean and ends in an honest head hash *is* the honest log, or a
  concrete digest collision is produced. Any deletion, repetition, reordering,
  replacement or splice gets an exact report: which findings, on which rows. Any
  run of stamps, saves and restarts, with saves failing or not, gets one too: it
  verifies clean if and only if every restart that a later stamp follows found a
  state file that was not behind the rows.
* **Checkpoints** (`Manifest`, `LogWriter`, `Checkpoints`, `Coverage`,
  `EndToEnd`). What a run of the writer leaves behind, with every file operation
  free to fail. A truncated log is accepted if and only if it is empty or no
  manifest reaches beyond the cut; one restamped over other events, if and only
  if it is empty or every manifest ends before its head, or at it with its hash.
  The manifest ranges tile the log, and the bytes in the files lead to the
  reports proved.
* **Delivery** (`Webhook`, `WebhookProtocol`, `WebhookPusher`, `SecurityLake`,
  `ObjectStorage`). Conservation and order over every interleaving of producers,
  worker and flushes, and where the program loses something, exactly when.
* **Anomaly scoring** (`Stats`, `Baseline`, `KeyStore`, `BaselineStore`,
  `Detector`, `AnomalyHook`). The pruned, capped store answers as one that never
  prunes; the one-pass decayed statistics equal two-pass ones; the verdict has a
  description without scores; Decide and Run only ever tighten.
* **Matching, parsing, watchdog** (`Glob`, `MySqlAttrs`, `PgParams`,
  `Heartbeat`). Greedy matching decides the declared meaning of a pattern; the
  attribute parsers invert their encoders, also on truncated input; every gap
  alert is matched by a recovery or by the degraded state.

## Assumptions and modelling decisions

* SHA-256 (FIPS 180-4) with hexadecimal output is a parameter. Only its output
  format is assumed, 64 lower-case hexadecimal digits. No injectivity is
  assumed, because a function with finitely many outputs cannot have it: the
  theorems conclude "the same log, or these two inputs have one digest".
* Ed25519 (RFC 8032) over base64 text is a pair of parameters. The one law used
  is that a key accepts what its own private half signed.
* `math.Pow`, `math.Sqrt`, `math.Exp` and `unicode.ToLower` are parameters with
  the laws stated in `Stats` and `Detector`; so is the way Python writes a
  float. Floating-point numbers are exact reals.
* The verifier works on decoded lines (blank, not JSON, or a tree).
  `EndToEnd.FilesVerify` starts from the bytes instead.
* A sequence number is a 64-bit integer that wraps (`Decimal.Wrap64`). Theorems
  that speak of positions assume fewer than 2^63 events.
* Outcomes of file, network and upload operations, and all clock readings, are
  inputs. Where the program ranges over a map, the model takes any order.
* The baseline key, already canonicalised, and the agent name are given.

## Where the code and its description disagree

The model follows the code in each case.

* `canonicalJSON` says it writes exactly what Python's `json.dumps` writes
  (`internal/audit/chain.go:70-88`). It differs on U+007F, which Python escapes
  and Go does not, on `-0`, which Python reads as 0, and on float literals that
  are not in Python's own form, which Go keeps. `PythonText.MatchesPython` is
  the exact condition.
* `deliver` says that a batch which finally fails is dropped and counted. When
  `http.NewRequest` fails nothing is counted
  (`internal/audit/webhook.go:393-397`); the model calls this outcome
  `Forgotten`. `WebhookProtocol.PromisedBalance` shows that the promised balance
  holds if and only if this never happened.
* `recentRateWindowSecs` promises the last hour. With a window shorter than an
  hour the store has already pruned part of it (`KeyStore.RateExactIff`).
* A log emptied to zero rows is not checked against its manifests
  (`internal/audit/chain_verify.go:292`, `:306`), and a manifest that ends below
  the head is only checked for its signature. `Checkpoints.TruncationReport` and
  `Checkpoints.RestampedReport` show exactly what then passes.
* The verifier decodes the first JSON value of a line and ignores what follows
  it (`internal/audit/chain.go:154-162`), so bytes added after a row pass unseen
  (`EndToEnd.TrailingBytesUnseen`).
* Two overlapping Security Lake flushes of one class can remove a row that
  neither uploaded (`SecurityLake.OverlapLosesRow`); `SecurityLake.BalancedIff`
  says when a class has lost something.
* `ParsePGStartupParams` stops at the first empty value
  (`PgParams.ReadsAllIffNoEmptyValue`, `PgParams.MapHoldsAllIff`).
* A row that was stamped but not written, and a restart without a save, make the
  verifier report an honest writer (`Checkpoints.LostRowsReport`,
  `Restarts.CrashReport`).
## Model

| member | source | states |
|---|---|---|
| Utf8.DecodeEncode | internal/audit/chain.go:106-140 | the UTF-8 decoder the escaper uses undoes encoding for every code point, whatever bytes follow |
| Utf8.DecodeExactly | internal/audit/chain.go:106-140 | the decoder answers with a rune exactly when its encoding starts the bytes, and with U+FFFD and one byte when none does |
| AsciiEscape.EscapeLoop | internal/audit/chain.go:106-140 | the index loop with its pure-ASCII short cut computes, for all bytes valid or not, the rune-by-rune rewriting |
| AsciiEscape.IsAsciiLoop | internal/audit/chain.go:142-149 | answers whether every byte is below 0x80 |
| AsciiEscape.EscapeIsAscii | internal/audit/chain.go:106-140 | the output is pure ASCII for every input, invalid UTF-8 included |
| AsciiEscape.EscapeIdempotent | internal/audit/chain.go:106-140 | escaping twice changes nothing more |
| AsciiEscape.EscapeIsLowerHex | internal/audit/chain.go:126-137 | an escape is a backslash, a u and four lower-case hexadecimal digits |
| Json.SortedKeys | internal/audit/chain.go:70-88 | exactly the keys of the map, each before the next: a proper prefix of it, or with the smaller character where they first differ |
| KeyOrder.KeysOrderedAsBytes | internal/audit/chain.go:70-88 | the order of the sorter is the lexicographic order of the UTF-8 bytes, both ways |
| KeyOrder.TextInByteOrder | internal/audit/chain.go:89-99 | reading the canonical text of any object member by member meets every name once, in the order of UTF-8 bytes |
| Canonical.CanonicalBytes | internal/audit/chain.go:89-99 | encoding followed by the escaping loop yields the canonical text of the tree |
| CanonicalForm.AsciiCharForm | internal/audit/chain.go:89-99 | printable ASCII stands for itself, the HTML characters included; seven characters have their short escapes, other control characters \u00XX |
| CanonicalForm.OtherCharForm | internal/audit/chain.go:106-140 | beyond ASCII a character is one escape, above U+FFFF its surrogate pair |
| CanonicalForm.CanonicalIsAsciiEncode | internal/audit/chain.go:89-99 | encoding to UTF-8 and then rewriting equals encoding straight to ASCII, for every tree |
| RoundTrip.CanonicalReadsBack | internal/audit/chain.go:89-99 | a JSON reader applied to the canonical text gives back exactly the tree and leaves nothing over |
| RoundTrip.EscapeKeepsMeaning | internal/audit/chain.go:106-140 | escaped and unescaped text of a tree read as the same tree, surrogate pairs included |
| RoundTrip.CanonicalInjective | internal/audit/chain.go:89-99 | two trees with one canonical text are equal |
| Framing.FileReadsBack | internal/audit/chain_verify.go:353-377 | a file of canonical rows, each ended by a line feed, splits into as many lines, and line i reads back as row i |
| PythonText.IntegerKept | internal/audit/chain.go:70-88 | of the integer literals Python rewrites exactly -0; every other one comes back as it is written |
| PythonText.MatchesPython | internal/audit/chain.go:70-88 | for every tree and every way of writing floats: the canonical text is Python's if and only if no string and no member name holds U+007F and every number literal already has Python's form |
| PythonText.DiffersFromPython | internal/audit/chain.go:70-88 | three inputs on which the texts differ: a DEL character, the number -0, and 1e-7 as Python writes 1e-07 |
| EndToEnd.LinesReadBack | internal/audit/chain_verify.go:101-117 | the lines of a file of rows, decoded as the verifier decodes them, are those rows |
| EndToEnd.TrailingBytesUnseen | internal/audit/chain.go:154-162 | bytes put after a row on its line leave what is read of it unchanged, since only the first JSON value is decoded |
| Decimal.ParseIntText | internal/audit/chain_verify.go:397-407 | the decimal text of any 64-bit sequence number reads back as that number |
| Decimal.IntTextInjective | internal/audit/chain.go:195-197 | different integers have different texts |
| Chain.PreimageInjective | internal/audit/chain.go:174-191 | previous hash, sequence number and event are determined by the bytes that are hashed |
| Chain.PreimageReads | internal/audit/chain.go:174-191 | the hashed bytes are the previous hash's text and then an object with exactly the members seq, prev_hash and event |
| Chain.StripUndoesBlock | internal/audit/chain.go:276-344 | for every event, with unmapped.iam_jit missing, mistyped or already stamped, removing the block of the stamped row gives the very tree that was hashed, and the block is found |
| Chain.BlockReadsBack | internal/audit/chain_verify.go:397-425 | the verifier reads from a block the three values the stamper put there |
| Chain.UnstampedOfStamped | internal/audit/chain.go:288-291 | stamping an already stamped row starts from the same tree |
| Chain.RowKeepsEvent | internal/audit/chain.go:276-344 | the row written keeps every member of the event with its value, at the top, in unmapped and in iam_jit, but for the block, which holds seq, prev_hash and hash |
| Chain.HashedTreeKeepsEvent | internal/audit/chain.go:286-292 | the tree that is hashed keeps the same members and has no block |
| Chain.SameTreeIffAgree | internal/audit/chain.go:286-292 | two events have one hashed tree if and only if they agree on every member but the block |
| Chain.EqualHashesAgree | internal/audit/chain.go:174-191 | events stamped at one point with one hash agree on every member but the block, or two inputs with one digest are named |
| Stamper.ChainState.constructor | internal/audit/chain.go:365-386 | a missing or unreadable state file gives a fresh chain, otherwise the saved link; a non-positive interval becomes 50 |
| Stamper.ChainState.Save | internal/audit/chain.go:390-421 | the state file afterwards holds the current link exactly when a directory is configured and the write succeeded |
| Stamper.ChainState.StampJson | internal/audit/chain.go:276-328 | the row written, the new link and the periodic save, and the two error cases that leave the chain untouched |
| Verify.VerifyChainFiles | internal/audit/chain_verify.go:93-184 | the nested loops compute the declarative walk over all lines of all readable files: counts, head and findings |
| Verify.VerifyLines | internal/audit/chain_verify.go:102-180 | one file continues the walk from any state, its lines numbered from 1 |
| Verify.VerifyLine | internal/audit/chain_verify.go:102-180 | one line has the effect of one step of the walk, through every early exit |
| Verify.VerifyClaim | internal/audit/chain_verify.go:146-179 | a row with a readable block is reported in the order gap, broken link, wrong hash, and the walk resynchronises on it |
| Verify.FilesAddUp | internal/audit/chain_verify.go:96-101 | files are walked one after the other: lines and counts add up |
| Verify.OneFile | internal/audit/chain_verify.go:96-104 | an unreadable file adds nothing, any other counts once and adds its lines numbered from 1 |
| BadLines.UnsoundLineReported | internal/audit/chain_verify.go:104-142 | a line that is not JSON, has no block or has a field of the wrong type adds exactly its own finding at its place, with the seq shown if and only if it reads; the rest of the report is that of the log without it |
| BadLines.BlankLineUnseen | internal/audit/chain_verify.go:106-108 | a blank line changes nothing of the report |
| BadLines.EveryLine | internal/audit/chain_verify.go:104-142 | every line is blank, unsound in one of these ways, or a row with a sound block |
| BadLines.SoundRowReported | internal/audit/chain_verify.go:143-180 | a row with a sound block is counted and becomes the head, and is reported for exactly what differs: sequence number, previous hash, hash of the row without its block |
| History.StepStamped | internal/audit/chain_verify.go:146-179 | a stamped row moves the walk to the next link whatever came before, and is reported only for not joining up |
| History.Segment | internal/audit/chain_verify.go:93-184 | any stretch of honest rows after any walk is reported on its first row only, and the walk ends at the stretch's own link |
| History.HonestLogIsClean | internal/audit/chain_verify.go:93-184 | an honest log over any number of files has no finding, and head sequence, head hash and count are the writer's |
| History.Splice | internal/audit/chain_verify.go:146-179 | honest prefix, arbitrary foreign lines, honest suffix: beyond the foreign part only the first later row can be reported |
| History.LinksDiffer | internal/audit/chain.go:276-328 | two points of one log differ in sequence number, and in hash unless two named rows collide |
| Tamper.TamperEvidence | internal/audit/chain_verify.go:93-184 | a clean log ending in an honest head hash has the honest log's rows in number, order and content, or the lemma returns two different inputs with one digest |
| Tamper.RowsAgree | internal/audit/chain_verify.go:93-184 | a log that makes the claims of an honest log has as many rows, and each agrees with its event on every member but the block |
| Tamper.WalkHead | internal/audit/chain_verify.go:174-179 | throughout any walk the reported head and the carried link agree, and while clean its hashes have digest form |
| Damage.RearrangedReport | internal/audit/chain_verify.go:146-179 | for any deletion, repetition or reordering of honest rows the findings are exactly one gap and one broken link on each row that does not follow its predecessor |
| Damage.CleanIffPrefix | internal/audit/chain_verify.go:146-179 | a rearranged log is clean if and only if it is a prefix, with no assumption on collisions |
| Damage.DeletedBlock | internal/audit/chain_verify.go:146-179 | cutting a contiguous block gives exactly two findings, both on the first row after the cut |
| Damage.ReplacedRow | internal/audit/chain_verify.go:102-180 | any line in place of one row: which findings appear, on that row and on the next, and none elsewhere |
| Damage.EditedEvent | internal/audit/chain_verify.go:159-173 | an event edited under an untouched block gives exactly one finding, a hash mismatch on that row |
| Stamper.CleanRunRows | internal/audit/chain.go:365-421 | rows written across save-then-load restarts are those of one uninterrupted chain |
| Stamper.CleanRunVerifies | internal/audit/chain_verify.go:93-184 | any run of stamps with clean restarts, over any files, verifies clean and ends at the writer's head |
| Restarts.RunReport | internal/audit/chain.go:365-421 | exact findings of any run of stamps, saves and restarts, with any saves failing: per row, how the link it was stamped from differs from the one the previous row leads to; nothing is assumed of the digest |
| Restarts.CleanIffRestartsCurrent | internal/audit/chain.go:365-386 | any such run verifies clean if and only if every restart that a later stamp follows found a state file that was not behind the rows |
| Restarts.FileAfterStamps | internal/audit/chain.go:317-326 | whatever saves fail, the state file holds the link of the last periodic save that reached the disk |
| Restarts.CrashReport | internal/audit/chain.go:365-386 | one crash: clean if and only if nothing was stamped or the last stamp was saved; otherwise exactly one gap and one broken link on the first row after the restart |
| Manifest.PayloadDetermines | internal/audit/manifest.go:83-94 | the signed bytes determine every field except signature and public key |
| Manifest.PayloadReads | internal/audit/manifest.go:83-94 | the signed bytes read back as an object with exactly seven named members |
| Manifest.EmittedVerifies | internal/audit/manifest.go:335-359 | an emitted manifest verifies under its own key and under the same key pinned |
| Manifest.ManifestSigner.constructor | internal/audit/manifest.go:193-209 | a new signer has covered nothing, and an interval below 1 becomes 1 |
| Manifest.ManifestSigner.ShouldEmit | internal/audit/manifest.go:213-222 | due exactly when the rows after the last covered one number at least the interval |
| Manifest.ManifestSigner.Emit | internal/audit/manifest.go:227-269 | every field of the manifest, what its signature is over, its range, and that a failed write leaves the coverage and only counts the failure |
| LogWriter.LogWriter.ProcessJob | internal/audit/log.go:327-371 | one turn of the worker: what stamping, a failed write and a due manifest do to chain, file and signer; the file stays the text of its rows |
| LogWriter.LogWriter.RunWorker | internal/audit/log.go:316-389 | a whole queue has the effect of the run function the checkpoint theorems are about |
| LogWriter.RunCounts | internal/audit/log.go:356-370 | after any run the counters are the number of rows in the file and of manifests in the directory |
| Checkpoints.VerifyChainAndManifests | internal/audit/chain_verify.go:254-323 | the verdict is positive if and only if the chain is clean and every manifest loads, is signed and does not contradict the head; then each is signed under the pinned key, or under its own when none is pinned |
| Checkpoints.CheckManifest | internal/audit/chain_verify.go:267-320 | one manifest passes if and only if it loads, verifies, and covers rows before the head or agrees with it |
| Checkpoints.PassesIffSigned | internal/audit/chain_verify.go:267-320 | a manifest passes if and only if it is of this schema, signed under the pinned key or else its own, and ends before the head or at it with its hash |
| Checkpoints.PinnedIgnoresCarriedKeys | internal/audit/manifest.go:335-339 | with a key pinned, replacing the keys the manifests carry does not change the verdict |
| Checkpoints.ForeignKeyRefused | internal/audit/manifest.go:335-359 | a manifest the pinned key did not sign makes the verdict negative, whatever key it carries |
| Checkpoints.RunRecords | internal/audit/log.go:327-358 | after any run, with any failures, the rows are honest rows at known positions and every manifest pins the honest link at its seq_end |
| Checkpoints.LostRowsReport | internal/audit/log.go:344-348 | rows stamped but not written: the log is clean if and only if no row was written after a lost one; otherwise exactly two findings for each row after a gap |
| Checkpoints.TruncationReport | internal/audit/chain_verify.go:254-323 | every prefix passes the chain check alone; with the run's manifests it is accepted if and only if it is empty or no manifest reaches beyond the cut |
| Checkpoints.PinnedLogIsHonest | internal/audit/chain_verify.go:286-305 | a log of any content accepted with a genuine manifest at its head is the honest log up to there, or a collision is returned |
| Checkpoints.RestampedReport | internal/audit/chain_verify.go:288-319 | a log restamped from the beginning over any other events is accepted with a run's genuine manifests if and only if it is empty or each of them ends before its head, or at its head with its hash |
| Checkpoints.LongForgeryAccepted | internal/audit/chain_verify.go:288-319 | so any other history that is longer than every manifest reaches is accepted |
| EndToEnd.FilesVerify | internal/audit/log.go:340-348 | the bytes of a run, in any number of files, verify clean if and only if no row was written after a lost one, and then end at the writer's link if all were written |
| EndToEnd.WriterFileVerifies | internal/audit/log.go:340-348 | the same for the bytes in the file of the writer object |
| Coverage.RunTiles | internal/audit/manifest.go:213-269 | over any run the manifest ranges start at 0, follow one another without hole or overlap and span at least the interval; in an undisturbed run exactly the interval, with fewer than that many rows uncovered |
| Coverage.TilesPartition | internal/audit/manifest.go:227-269 | every covered row lies in exactly one range |
| Coverage.UnnoticedCutIsShort | internal/audit/chain_verify.go:254-323 | in an undisturbed run a cut that is accepted removed fewer rows than the interval, or all |
| Glob.Split | internal/audit/routes.go:700-701 | the pieces are star-free and joining them with stars gives the pattern back |
| Glob.LiteralPrefix | internal/audit/routes.go:703-707 | a star-free prefix of a pattern matches exactly itself at the start of the value |
| Glob.FloatsMeaning | internal/audit/routes.go:708-727 | after a star, the pattern means: the pieces occur in order, apart, and the last one ends the value |
| Glob.LeftmostIsBest | internal/audit/routes.go:708-718 | taking the leftmost occurrence of the next piece neither loses nor gains a match |
| Glob.GlobMatch | internal/audit/routes.go:696-727 | the greedy matcher is true if and only if the value has the shape the pattern denotes, for every pattern and value |
| Stats.SumBounds | internal/anomaly/baseline.go:373-387 | the weight sum is positive and at most the count, and the weighted hour sum at most 23 times it |
| Stats.DevExpands | internal/anomaly/baseline.go:398-406 | the one-pass sums determine the two-pass weighted deviation about any mean |
| Stats.DecayedVariance | internal/anomaly/baseline.go:373-409 | the one-pass variance is the two-pass one about its mean, hence never negative, and the mean hour lies in 0 to 23 |
| Stats.NoDecay | internal/anomaly/baseline.go:373-409 | with rate 1 the weighted sums are the plain ones |
| Stats.FadesByRate | internal/anomaly/baseline.go:377-382 | an event has weight 1 when it happens and with every decay period the rate times the weight before |
| Baseline.SummaryIsSound | internal/anomaly/baseline.go:324-419 | decayed total at most rolling count, decayed mean an hour of the day, decayed spread that of the two-pass variance |
| Baseline.NoDecayAgrees | internal/anomaly/baseline.go:373-409 | with rate 1 the decayed hour statistics equal those of meanStddev |
| Baseline.SummaryNumbers | internal/anomaly/baseline.go:324-419 | the means of a summary: counts divided by the hours of the window, one at least, their spreads the roots, and the mean hours of the plain and the decayed sums |
| Baseline.HourOf | internal/anomaly/baseline.go:222 | the hour h of the day with 3600 h <= ts mod 86400 < 3600 (h + 1) |
| Baseline.KeptTwice | internal/anomaly/baseline.go:236-245 | pruning and then asking a later window equals asking that window alone |
| Baseline.KeptExactly | internal/anomaly/baseline.go:236-245 | pruning keeps each observation not older than the cutoff as often as it was there, and no other |
| Baseline.NewestIsGreatest | internal/anomaly/baseline.go:246-248 | the last-seen time is the greatest of the times recorded |
| KeyStore.ObserveConsistent | internal/anomaly/baseline.go:209-249 | one Observe keeps the cap, created keys = live + dropped, the key sets, last-seen times and the agreement with the full history |
| KeyStore.RunConsistent | internal/anomaly/baseline.go:209-274 | the same over every run of Observe from the empty store, whatever the clock does |
| KeyStore.PruningIsInvisible | internal/anomaly/baseline.go:282-371 | at any time not before the last prune a summary sees what a store that never prunes sees, and so does the recent rate when the window is at least an hour |
| KeyStore.PositiveClockAligns | internal/anomaly/baseline.go:246-248 | in every run in which the clock reads positive, rolling and lastSeen have the same keys at every state |
| KeyStore.RateExactIff | internal/anomaly/baseline.go:282-306 | the recent rate equals that of the full history after every run, for every key and every later time, if and only if the window is at least an hour |
| KeyStore.ShortWindowLosesRate | internal/anomaly/baseline.go:282-306 | for every shorter window, a run of two Observe calls after which the rate counts one event of two |
| BaselineStore.PruneInPlace | internal/anomaly/baseline.go:236-245 | filtering the slice into its own front leaves exactly the observations inside the window, in order |
| BaselineStore.BaselineStore.constructor | internal/anomaly/baseline.go:176-194 | a new store is the empty one and consistent |
| BaselineStore.BaselineStore.OldestKey | internal/anomaly/baseline.go:254-274 | a key with the least last-seen time, in whatever order the map is walked |
| BaselineStore.BaselineStore.EvictForCap | internal/anomaly/baseline.go:254-274 | at the cap one least recently seen key goes from both maps and is counted, below it nothing changes |
| BaselineStore.BaselineStore.Observe | internal/anomaly/baseline.go:209-249 | the whole new state is one Observe step of the model, and the invariant is kept; an empty action changes nothing, a time that is not positive becomes the clock's |
| BaselineStore.BaselineStore.Record | internal/anomaly/baseline.go:226-248 | append, prune, note the time: the new state of the key, the others unchanged |
| BaselineStore.BaselineStore.RecentRate | internal/anomaly/baseline.go:282-306 | the number of events of the last hour, over the full history when the window reaches an hour |
| BaselineStore.BaselineStore.SummaryFor | internal/anomaly/baseline.go:324-419 | the summary of the window, equal to that of the full history |
| BaselineStore.MeanStddevLoop | internal/anomaly/baseline.go:479-497 | the two loops compute the mean and the population standard deviation |
| BaselineStore.DecayedSums | internal/anomaly/baseline.go:373-387 | the single pass that skips old events computes the three weighted sums of the events inside the window |
| Detector.PerDimensionZ | internal/anomaly/detector.go:140-175 | exactly the explainable dimensions are explained, in whatever order the map is walked |
| Detector.AggregateZ | internal/anomaly/detector.go:181-192 | the score reaches the band of a threshold if and only if some explanation reaches that threshold |
| Detector.ZScoreMeans | internal/anomaly/baseline.go:39-45 | the z-score times the spread, 1e-9 at least, is the distance from the mean |
| Detector.SigmaThreshold | internal/anomaly/config.go:167-172 | 3.0 for low, 1.5 for high, 2.0 otherwise |
| Detector.ContributesIffStrays | internal/anomaly/detector.go:140-175 | a dimension contributes if and only if its name and the input provide an observation that lies sigma spreads or more from the mean |
| Detector.ContainsMeans | internal/anomaly/detector.go:140-209 | the substring test is true if and only if the part stands at some position |
| Detector.ColdStartBackstop | internal/anomaly/detector.go:198-209 | fires if and only if it is switched on and a known adversarial verb occurs in the lower-cased action and resource |
| Detector.AnyCaseIsAdversarial | internal/anomaly/detector.go:198-209 | a known verb in any mixture of cases is adversarial on every resource |
| Detector.BackstopClearsBand | internal/anomaly/detector.go:213-253 | 0.9 exceeds the band of every preset |
| Detector.SigmoidOrder | internal/anomaly/detector.go:181-192 | the sigmoid orders as its argument does and stays strictly between 0 and 1 |
| Detector.ScoreAnomaly | internal/anomaly/detector.go:213-253 | the verdict, stated without scores or bands: warm, anomalous if and only if some provided observation lies sigma spreads or more from its mean; cold, anomalous if and only if the backstop fired, otherwise insufficient data; and the exact score |
| AnomalyHook.Hook.Decide | internal/anomaly/hook.go:291-348 | never looser than the floor, tightened if and only if an enforcing detector finds the request anomalous; nothing is learned; exact counters |
| AnomalyHook.Hook.ScoreLive | internal/anomaly/hook.go:354-367 | the verdict is that of the live rate, hour and summary of the store |
| AnomalyHook.Hook.Run | internal/anomaly/hook.go:172-250 | the decision passes through, the store learns exactly when enabled and recording, a request is scored exactly when surfaced, and the counters move by exactly that |
| AnomalyHook.Hook.Handle | internal/anomaly/hook.go:172-348 | Decide and Run around one request: scored exactly once when the detector is on and the request not denied anyway, in alert mode emitted exactly when anomalous, learned once, and when the request is denied |
| AnomalyHook.Hook.HandleAll | internal/anomaly/hook.go:172-348 | over any request sequence no decision is loosened and emitted <= flagged <= scored <= requests |
| Webhook.Deliver | internal/audit/webhook.go:366-468 | which attempt ends the delivery, how it ends in each case, that nothing is counted if and only if the first attempt not retried fails to build its request, and the exact sleeps |
| Webhook.BackoffDoubles | internal/audit/webhook.go:472-478 | the next sleep is the doubled one, capped |
| WebhookProtocol.AccountedStep | internal/audit/webhook.go:286-468 | every atomic step keeps both conservation equations, in-between states included |
| WebhookProtocol.OrderedStep | internal/audit/webhook.go:319-356 | every step keeps first-in-first-out order, batch sizes and channel capacity |
| WebhookProtocol.RunKeeps | internal/audit/webhook.go:286-587 | both hold in every state of every interleaving of producers and worker |
| WebhookProtocol.IdleBalances | internal/audit/webhook.go:286-468 | with the worker at rest: drops = announced + pending announcement, and delivered + dropped + forgotten + queued = offered + synthetic events |
| WebhookProtocol.ForgottenIff | internal/audit/webhook.go:393-397 | over every interleaving: nothing is forgotten if and only if no delivery failed to build its request |
| WebhookProtocol.PromisedBalance | internal/audit/webhook.go:286-468 | at rest delivered + dropped + queued = offered + synthetic events if and only if no delivery failed to build its request |
| WebhookProtocol.ForgottenExample | internal/audit/webhook.go:393-397 | a run of five steps after which the one accepted event is neither delivered nor counted as dropped |
| WebhookProtocol.ShutdownBalances | internal/audit/webhook.go:490-503 | after the worker exits every accepted event was handed to deliver once, in order, and the counters balance |
| WebhookProtocol.DrainTerminates | internal/audit/webhook.go:490-503 | after Shutdown each worker step lowers a measure that nothing raises |
| WebhookProtocol.WorkerProgress | internal/audit/webhook.go:319-356 | the worker always has a step unless it waits on an open, empty channel |
| WebhookPusher.WebhookPusher.Push | internal/audit/webhook.go:286-307 | accepting or dropping is exactly the corresponding protocol step or steps |
| WebhookPusher.WebhookPusher.TakeDroppedSince | internal/audit/webhook.go:581-587 | returns and zeroes the pending drops as one protocol step |
| WebhookPusher.WebhookPusher.SettleSynthetic | internal/audit/webhook.go:343-352 | the whole state after the delivery of a synthetic event is that of the protocol step for its outcome, and of the bump that follows a drop |
| WebhookPusher.WebhookPusher.SettleBatch | internal/audit/webhook.go:393-468 | the whole state after the delivery of a batch is that of the protocol step for its outcome, and of the bump that follows a drop |
| WebhookPusher.WebhookPusher.FillBuffer | internal/audit/webhook.go:324-341 | one event, then more until the batch is full or none is ready, as receive steps of the protocol |
| WebhookPusher.WebhookPusher.DeliverBuffer | internal/audit/webhook.go:343-355 | the announcement of pending drops and the delivery of the batch, or of the last one, as steps of the protocol |
| WebhookPusher.WebhookPusher.RunWorker | internal/audit/webhook.go:319-356 | the nested loops follow a sequence of the worker's protocol steps from the old state to the new, drain the channel, and exit exactly when it is closed |
| SecurityLake.PendingSplit | internal/audit/security_lake.go:366-369 | the pending total does not depend on the order in which classes are summed |
| SecurityLake.FinishBalanced | internal/audit/security_lake.go:506-513 | a successful flush keeps uploaded + pending = accepted for its class if and only if it held before and the snapshot is still the front of the batch |
| SecurityLake.BalancedIff | internal/audit/security_lake.go:355-519 | over every interleaving: a class has uploaded + pending = accepted, in order, if and only if every successful flush of it so far ended with its snapshot at the front of the batch; what is lost once stays lost |
| SecurityLake.NoOverlapIsBalanced | internal/audit/security_lake.go:476-519 | a class whose flushes never overlapped has lost nothing, uploads failing or not |
| SecurityLake.PendingCapped | internal/audit/security_lake.go:355-387 | the rows waiting in all batches together never exceed the cap, in any run |
| SecurityLake.WritesAccounted | internal/audit/security_lake.go:355-387 | in any run every write was accepted or is counted as dropped, and a batch has a first-seen time exactly while it holds rows |
| SecurityLake.OverlapLosesRow | internal/audit/security_lake.go:506-513 | for every cap of at least 2, a run in which two overlapping flushes upload one row twice and lose another |
| SecurityLake.SecurityLakeWriter.TotalPending | internal/audit/security_lake.go:366-369 | the loop over the map computes the pending total |
| SecurityLake.SecurityLakeWriter.Write | internal/audit/security_lake.go:355-387 | the locked section is the model's write step, and a flush is asked for exactly when the accepted row fills the batch |
| SecurityLake.SecurityLakeWriter.BeginFlush | internal/audit/security_lake.go:476-486 | the first locked section is the model's snapshot step |
| SecurityLake.SecurityLakeWriter.FinishFlush | internal/audit/security_lake.go:487-519 | the second locked section is the model's outcome step |
| ObjectStorage.SettleKeepsLines | internal/audit/object_storage.go:450-523 | giving any flush its fate moves no line and raises the total by the lines uploaded |
| ObjectStorage.ObjectStorageWriter.Write | internal/audit/object_storage.go:410-444 | a full buffer only counts the drop; otherwise the line is last; every accepted line is in exactly one flush or in the buffer |
| ObjectStorage.ObjectStorageWriter.Take | internal/audit/object_storage.go:450-469 | the flush takes the whole buffer at once and the invariant is kept |
| ObjectStorage.ObjectStorageWriter.Settle | internal/audit/object_storage.go:470-523 | any of several overlapping flushes ends, and the invariant is kept |
| MySqlAttrs.ReadInt | internal/audit/agent_context.go:629-660 | the length-encoded integer reader inverts the encoder for every value below 2^64 |
| MySqlAttrs.ReadIntIff | internal/audit/agent_context.go:629-660 | an integer is read if and only if its first byte names a width and that many bytes are there; 0xFB and 0xFF are refused |
| MySqlAttrs.ParseMySqlClientAttrs | internal/audit/agent_context.go:546-565 | the index loop builds the table of the pairs read before the first failure |
| MySqlAttrs.PairsRoundTrip | internal/audit/agent_context.go:546-618 | parsing an encoded block gives back exactly the pairs |
| MySqlAttrs.CutBlock | internal/audit/agent_context.go:546-618 | cutting an encoded block at any byte leaves a prefix of its pairs |
| MySqlAttrs.TableHoldsLast | internal/audit/agent_context.go:546-565 | the table holds each non-empty key with its last value and nothing else |
| PgParams.ParsePgStartupParams | internal/audit/agent_context.go:393-424 | the walk, the trimming and the pairing loop build the table of the declared pairs |
| PgParams.ParamsRoundTrip | internal/audit/agent_context.go:393-424 | of an encoded StartupMessage exactly the parameters before the first empty value are read |
| PgParams.TailIgnored | internal/audit/agent_context.go:393-412 | bytes after the last NUL of any body are not read |
| PgParams.OddNameIgnored | internal/audit/agent_context.go:417-423 | a last name without a value is not read |
| PgParams.ReadsAllIffNoEmptyValue | internal/audit/agent_context.go:405-408 | the list of all parameters is read if and only if no value is empty |
| PgParams.MapHoldsAllIff | internal/audit/agent_context.go:393-424 | the returned map is that of all parameters sent if and only if every parameter from the first empty value on only repeats what counts before it |
| PgParams.DistinctNamesIff | internal/audit/agent_context.go:393-424 | with distinct names, the map holds all parameters if and only if no value is empty |
| Heartbeat.TruncMonotone | internal/audit/heartbeat.go:378 | the number of missed ticks, divided with truncation as Go does, grows with the time elapsed |
| Heartbeat.NewConfig | internal/audit/heartbeat.go:170-182 | the default threshold is two and a half intervals, rounded down; a threshold that is given is kept |
| Heartbeat.StepBalanced | internal/audit/heartbeat.go:303-414 | every load, store, add and compare-and-swap keeps the alert balance and the missed-tick bound |
| Heartbeat.RunBalanced | internal/audit/heartbeat.go:303-414 | both hold in every state of every interleaving of ticks and checks |
| Heartbeat.DefaultWatchdog | internal/audit/heartbeat.go:359-378 | between checks alerts = recoveries + (1 if degraded), and three missed ticks at least stand for each alert |
| Heartbeat.ClearedBetween | internal/audit/heartbeat.go:368-378 | between two alerts of any run some tick cleared the first |
| Heartbeat.Heartbeater.EmitOneTick | internal/audit/heartbeat.go:303-323 | a tick is the three tick steps in order and counts a recovery exactly when it clears the flag |
| Heartbeat.Heartbeater.CheckGap | internal/audit/heartbeat.go:359-414 | alerts exactly when started, not degraded and late beyond interval plus threshold, and the counters it then changes |

## Left out

Contracts that say less than one might want:

- Tamper.TamperEvidence: compares what the verifier reads of each row, which includes the stripped event, so blank lines and fields beside the three block fields are free to differ.
- Damage.RearrangedReport: when a cut joins two points whose hashes happen to collide the broken-link finding is absent; the lemma then names the collision.
- Checkpoints.TruncationReport: is about one signer from its start; a signer recreated after a restart begins its ranges at 0 again.
- Checkpoints.RunRecords: concerns runs of fewer than 2^63 stamped events, since sequence numbers wrap beyond that.
- PythonText.MatchesPython: how Python writes a float is a parameter, so for float literals the condition is that Python's text is the literal itself.
- WebhookPusher.WebhookPusher.RunWorker: is one schedule, with no producer in between; WebhookProtocol.RunKeeps covers every interleaving.
- Detector.ScoreAnomaly: is over exact reals; the rounding of the reported score is not modelled.
- Glob.GlobMatch: compares characters, where the program compares bytes; for valid UTF-8 the two agree.
- Webhook.Deliver: backoff durations are unbounded integers, so a doubling that would overflow 64 bits is not modelled.
- LogWriter.LogWriter.ProcessJob: is for a writer with both a chain and a signer; the modes without them only encode and append.
- BaselineStore.BaselineStore.SummaryFor: the time is given, as it is for RecentRate; replacing a non-positive time by the store's clock is the caller's step.

Parts of the repository that are not part of this model:

- Cryptography internals, base64 and PEM key files.
- File, gzip, HTTP, S3, parquet and TLS operations, tickers and real clocks, beyond their outcomes.
- Reopening and rotating log files (`log.go`, `rotation.go`); the chain theorems hold for any split into files.
- A row written in part, and the scanner's line limit, beyond which the rest of a file is not read.
- The bounded queue in front of the log writer and its drop counter; the webhook's queue is the same pattern with more behind it.
- Reading of JSON with blanks between tokens, and refusing malformed number literals such as `01`; the reader in `Parse` takes the compact form the encoder writes, with any run of number characters as a number.
- Route selection around the glob (`walkPath`, `SelectRoutes`, the other operators, lower-casing before matching), route YAML, Slack and PagerDuty payloads: lookups and projections without state.
- `canonicalResourcePattern` and the trimming of agent names: the key is given.
- Size and age triggers of the object-storage buffer, `flushOverdue`, first-seen and byte counters, and the file and byte totals of both sinks: they decide when a flush begins, and the results hold for any time.
- Status surfaces: `last_error`, `consecutiveFailures`, health strings, explanation texts and the OCSF event.
- Mapping of client attributes to agent names, and the agent registry.
- `disk_pressure.go`, `recorder.go`, `retention.go`, `event.go`, `alerts.go`, `filter.go`, `presets.go`, `export_health.go`, `exporter.go` and the command line.
