# Bucephalus control plane and worker: a verified model

This project models the parts of the Bucephalus control plane and worker whose
correctness depends on more than one function, and proves what they are for.
It follows the TypeScript (and one Go) sources branch by branch; every module
names the function it models in its comments.

| modules | what they model |
| --- | --- |
| `RunState`, `RunEffects`, `RunLease`, `RunJournal`, `RunRepositories` | runs, attempts and run events: claims, renewable leases, fencing, cancellation, the sweeper, and the three ways of appending events |
| `WorkerLease` | the worker's renewal loop, alone and together with the lease in the database, with renewals that are lost or applied late |
| `EvidenceLines`, `EvidenceReader`, `EvidenceChunks` | tailing a growing event file in bounded reads: remainder, over-long lines, stubs, row numbers |
| `EvidenceDelivery`, `EvidenceRuns`, `EvidenceResults`, `EvidenceAttribution` | posting the rows in batches that may fail, time out, or be applied late; the identity rewind; the final drain |
| `Texts`, `Json`, `Canonical`, `CanonicalText`, `CanonicalSpelling` | canonical JSON: the value, its text unit by unit, and a parser for that text |
| `InMemory`, `Entities` | the values that canonicalization reads and builds, with their prototypes; canonical entities, whose objects are canonicalized twice |
| `Pointers`, `DraftDiff`, `DraftPatch`, `DraftTools`, `DraftOrder` | JSON pointers, the structural diff of two drafts, the patch it amounts to, and which changes it reports in which order |
| `SealedPackage`, `SealedAcceptance`, `SealedCoverage` | the integrity check of a sealed package, which packages it accepts, the package digest, and what the digest does not cover |
| `RateLimit` | the fixed-window rate limiter and its cleanup |
| `Glob`, `ArchivePreflight` | manifest patterns and the preflight of an authoring context archive |
| `Snapshot`, `SnapshotContent`, `SnapshotText`, `Utf8` | the runtime snapshot under its byte budget, what it holds, and the size of its JSON text |
| `Provisioning` | provision requests and the controller that reconciles a pool |
| `DockerStream`, `ShellQuote` | demultiplexing an exec stream; quoting shell arguments |
| `Outcomes`, `ByteStrings` | optional values, results, bytes |

Code that changes state in place (the repositories, the evidence pump, the rate
limiter, the snapshot budget, the change list of the diff) is written as classes
and loops, each proved against a function of its inputs or old state; the main
results are lemmas about those functions and about whole histories of steps.

## How the model reads the source

- Each SQL statement or transaction is one atomic step on a store of rows, with
  the clock reading as a parameter. A step that the source refuses with an error
  leaves the store as it was. Attempts, events and provision requests are named
  by their position in insertion order. The order in which an `update ...
  returning` reports its rows is taken to be insertion order.
- The worker and the database read one clock: the database in microseconds, the
  worker in whole milliseconds.
- JSON strings are sequences of UTF-16 code units; an object lists its own
  properties in enumeration order. `Canonical` and the modules above it take a
  value by its own properties; `InMemory` proves that the loop over values with
  prototypes computes the same on what `JSON.parse` returns. Which text a finite
  number prints as is not modelled: a number is its token.
- UTF-8 decoding followed by `trim` is a parameter of the evidence reader, a
  function from the bytes of a line to its text. Decoding a buffer and splitting
  it at newlines is taken to be the same as splitting the bytes and decoding each
  line.
- The hash functions, `JSON.parse`, the recognition of a content-addressed
  pointer file, and the further checks of the package report and of the staging
  manifest are parameters of the package check. Where a result needs the hash to
  tell texts or contents apart, it says so for the texts and contents of the two
  packages at hand (`SealedPackage.NoCollision`).

## Where the code does not do what it seems to promise

The model keeps the code as it is. Each point is a lemma below.

- The evidence pump says that rows sent before a trial's identity is known are
  upgraded in place. They are exactly when the known identity has the trial name
  as trial id, schedule index 0 and attempt 0, because those are part of the
  table's key; otherwise every such line stays stored twice
  (`RewindReplacesIffSameSlot`).
- A post that timed out and is applied after the rewind leaves the attribution
  alone unless it was sent before the identity was known, both identities name
  the same slot, and it writes a row below the cursor (`LateDeliveryIff`); then
  the old attribution is back (`OvertakenPostTakesBack`).
- The events of a run are appended by three statements. The one for access
  requests and read audits checks neither lease nor status and names the attempt
  that the request recorded, so an event of a superseded attempt can follow the
  events of its successor (`LateAccessEventBreaksBlocks`). The journal is in
  claim order exactly when no such insert names an attempt of another run, or
  one that an event of the run is already past (`JournalOfHistory`).
- Row numbers depend on how the file was cut into reads exactly when a finished
  line over the cap is blank (`NumberingChunkIndependentIff`).
- `valueAt` reads the pointer `/` as the root, so a change at an empty root key
  resolves to the wrong value (`EmptyRootKeyMisread`), and every change at `/`
  does (`DraftDiffPointersResolveIff`). A key such as `constructor` that only one
  of two objects has makes the diff fail wherever the diff descends into those
  two objects (`DraftDiffOkIff`).
- Canonical JSON has no property named `__proto__` (`ProtoPropertyVanishes`), so
  the package digest does not cover the checksum of a file of that name
  (`ProtoChecksumUncovered`). If the value of the property was an object or an
  array, it has become the prototype of the result, and the result cannot be
  canonicalized again (`CanonicalizeTwiceIff`, `ReplacedPrototypeFails`); so
  such an object has no canonical entity (`EntityOkIff`).
- A checksum key is trimmed and normalized before its file is read, but compared
  with the directory listing as it is; a file other than the manifest that no key
  leads to is accepted with any content (`UnreadFileUnchecked`,
  `LeadingSpaceLeadsElsewhere`), and there are accepted packages with such a file
  (`UncoveredFileAccepted`).
- `globSegmentMatch` finds literals leftmost, so `*a` rejects `aa`; it is exact
  for precisely the patterns without a star or with one at the end
  (`SegmentCompleteIff`). The shortcut for a final `/**` agrees with the general
  matcher exactly when the prefix has no star (`ShortcutExactIff`).
- The attempt of a cancelled run can keep its lease by renewing it for ever, but
  never completes or fails (`CancelledRunKeepsLease`, `CancelledRunNeverSettles`).
- The worker's deadline can fall up to 999 microseconds before the end of the
  lease it stands for, because its clock counts whole milliseconds
  (`DeadlineCoversGrants`, `GivesUpWhileLive`).

## Model

| member | source | states |
|---|---|---|
| RunLease.InvNext | bucephalus-cloud/src/packages/repository.ts:381-742 | every claim, heartbeat, event, completion, failure, cancellation, dead-letter, sweep, lifecycle insert and unguarded insert keeps the coupling of runs and attempts, the order of leases in time, and the numbering of events |
| RunLease.RunAttemptCoupling | bucephalus-cloud/src/packages/repository.ts:417-496 | after every history a running run has exactly one running attempt, a cancelled one at most one, any other none, and a run is completed exactly when exactly one of its attempts is |
| RunLease.TerminalForever | bucephalus-cloud/src/packages/repository.ts:571-710 | completed, failed and cancelled are never left, and a run in such a state gets no further attempt |
| RunLease.LapseIsFinal | bucephalus-cloud/src/packages/repository.ts:506-514 | an attempt that is not live at some moment is not live at any later moment, whatever happens in between |
| RunLease.LeasesDisjoint | bucephalus-cloud/src/packages/repository.ts:712-742 | of two attempts of one run the earlier has expired, and its lease ended before the later one started |
| RunLease.SupersededIsFenced | bucephalus-cloud/src/packages/repository.ts:501-649 | a superseded attempt changes nothing by heartbeat, event, completion or failure, at any later time |
| RunLease.CancelledRunKeepsLease | bucephalus-cloud/src/packages/repository.ts:501-522 | after any number of renewals, each at the end of the lease before, the attempt of a cancelled run is live and the run still cancelled |
| RunLease.CancelledRunNeverSettles | bucephalus-cloud/src/packages/repository.ts:567-649 | through any further history a cancelled run keeps its row, and no attempt of it that was running or expired completes or fails |
| RunLease.SweepRecovers | bucephalus-cloud/src/packages/repository.ts:712-742 | right after a sweep a run is running exactly when it has a live attempt and is not cancelled, and a run that lost its attempt can be claimed again |
| RunLease.EventsExactlyNumbered | bucephalus-cloud/src/packages/repository.ts:524-565 | the event numbers of each run are exactly 1 to n, in insertion order |
| RunLease.LifecycleNumbered | bucephalus-cloud/src/runners/repository.ts:837-859 | the lifecycle insert of a runner instance numbers its events as single appends would |
| RunJournal.JournalOfHistory | bucephalus-cloud/src/runtime/repository.ts:11916-11942 | after every history, over all three statements that append events, the events of a run are numbered 1 to n; those that name an attempt come in one block per attempt in claim order exactly when every unguarded insert named no attempt, or one of the run that no event was past |
| RunJournal.BlocksStep | bucephalus-cloud/src/runtime/repository.ts:11916-11942 | any other step keeps the blocks as they are, and blocks once broken stay broken |
| RunJournal.LateAccessEventBreaksBlocks | bucephalus-cloud/src/runtime/repository.ts:3705-3757 | an access request of the first attempt that is cancelled after the second one has appended an event breaks the claim order |
| RunRepositories.RunRepository.ClaimNextRun | bucephalus-cloud/src/packages/repository.ts:381-499 | claims the oldest queued run that matches and is not locked, or nothing when there is none; the new attempt belongs to that run and runner, bears the token hash, and is live exactly up to `leaseSeconds` from now |
| RunEffects.ClaimGrants | bucephalus-cloud/src/packages/repository.ts:464-490 | an accepted claim adds one attempt of that run, runner and token hash, live exactly up to `leaseSeconds` from now; the run is running, keeps its first start, and nothing else changes |
| RunEffects.HeartbeatRenews | bucephalus-cloud/src/packages/repository.ts:501-522 | a renewal makes the attempt live exactly up to `leaseSeconds` from now and changes nothing else but the heartbeat time |
| RunEffects.SettleCloses | bucephalus-cloud/src/packages/repository.ts:567-649 | completion and failure close the attempt and its run at the same time, with the message of a failure, and change nothing else |
| RunEffects.RunClosed | bucephalus-cloud/src/packages/repository.ts:668-710 | cancelling a run, and failing a queued one, close it with its message and touch no attempt |
| RunEffects.SweepEnds | bucephalus-cloud/src/packages/repository.ts:712-742 | a sweep ends exactly the running attempts whose lease is over, and requeues exactly the running runs that lose one, each with its message |
| RunEffects.RowsAdded | bucephalus-cloud/src/packages/repository.ts:524-565 | a created run is queued, owned and dated; an appended event bears the run, attempt and type it was given, and nothing else changes |
| RunEffects.LifecycleRows | bucephalus-cloud/src/runners/repository.ts:837-859 | the lifecycle insert adds exactly one event for each running attempt of the instance, in the order of the attempts |
| RunRepositories.RunRepository.HeartbeatAttempt | bucephalus-cloud/src/packages/repository.ts:501-522 | renews the lease of an attempt this runner still holds, and refuses otherwise |
| RunRepositories.RunRepository.AppendRunEvent | bucephalus-cloud/src/packages/repository.ts:524-565 | appends one event with the next number under the lease guard |
| RunRepositories.RunRepository.CompleteAttempt | bucephalus-cloud/src/packages/repository.ts:567-606 | completes attempt and run together, or puts the attempt back when the run is no longer running |
| RunRepositories.RunRepository.FailAttempt | bucephalus-cloud/src/packages/repository.ts:608-649 | the same for a failure with its message |
| RunRepositories.RunRepository.CancelRun | bucephalus-cloud/src/packages/repository.ts:668-710 | the four answers of a cancellation and the state each leaves |
| RunRepositories.RunRepository.FailQueuedRun | bucephalus-cloud/src/runners/repository.ts:767-782 | fails a run that is still queued, and reports whether it did |
| RunRepositories.RunRepository.ExpireLeases | bucephalus-cloud/src/packages/repository.ts:712-742 | expires all lapsed attempts, requeues each running run among theirs once, and reports exactly those runs |
| RunRepositories.RunRepository.AppendRunnerInstanceLifecycleEvent | bucephalus-cloud/src/runners/repository.ts:805-860 | inserts one event for each running attempt of the instance |
| RunRepositories.RunRepository.AppendAccessRequestEvent | bucephalus-cloud/src/runtime/repository.ts:11916-11942 | appends one event with the next number, for whatever attempt is named, and is refused only by a foreign key |
| RunRepositories.RunRepository.VerifyAttemptToken | bucephalus-cloud/src/packages/repository.ts:744-771 | a token is accepted exactly for a live attempt with that token hash and, when given, that runner and that package digest; the answer names the run, its owner and its digest |
| WorkerLease.HeartbeatLoop | bucephalus-cloud/src/worker.ts:221-289 | the loop ends with the deadline, failure count and flags that its calls lead to |
| WorkerLease.GivesUpIff | bucephalus-cloud/src/worker.ts:253-275 | the loop gives up its lease exactly at a failed call that ends, in whole milliseconds, a lease or more after the last renewal |
| WorkerLease.StopsWhenCancelled | bucephalus-cloud/src/worker.ts:221-252 | a running loop is stopped as cancelled exactly by a renewal that reports it, and its failure count is the number of calls missed since the last renewal |
| WorkerLease.CancellationReaches | bucephalus-cloud/src/worker.ts:236-252 | the answer to a renewal that was granted stops the worker as cancelled exactly when the run was cancelled at the time it was handled, and clears the failure count |
| WorkerLease.ClaimStartsFresh | bucephalus-cloud/src/worker.ts:218-221 | an accepted claim, however long its reply takes, leaves worker and database where the results about the lease start from |
| WorkerLease.DeadlineCoversGrants | bucephalus-cloud/src/worker.ts:218-242 | in every run, with renewals lost or late, the worker's deadline is at most 999 microseconds before the lease of the last grant it was told of |
| WorkerLease.LeaseLostIsLost | bucephalus-cloud/src/worker.ts:253-275 | when the worker gives up and no grant went unacknowledged, the lease in the database ends within 999 microseconds, and no later renewal, event, completion or failure takes effect |
| WorkerLease.GivesUpWhileLive | bucephalus-cloud/src/worker.ts:218-221 | those microseconds are real: a worker can give up while its attempt is live |
| EvidenceLines.JoinSplit | bucephalus-cloud/src/workerEvidence.ts:270-283 | splitting at newlines loses no byte |
| EvidenceLines.SplitJoin | bucephalus-cloud/src/workerEvidence.ts:270-283 | lines joined by newlines are found again |
| EvidenceReader.ReadRows | bucephalus-cloud/src/workerEvidence.ts:247-313 | one read: next cursor and consecutively numbered rows, skipping to the end of an over-long line and stubbing a new one |
| EvidenceReader.StubReported | bucephalus-cloud/src/workerEvidence.ts:284-302 | a read ends in a stub exactly when the line it leaves unfinished is over the cap and not skipped since before; the stub reports the bytes of the line read so far, and the cap |
| EvidenceChunks.ReadCounts | bucephalus-cloud/src/workerEvidence.ts:256-302 | a read emits one row per line it finishes that is not blank and one per line it begins to skip, and one too many where a skipped line turns out blank |
| EvidenceChunks.FeedPlace | bucephalus-cloud/src/workerEvidence.ts:294-312 | whatever the reads, the cursor stands at the end of the bytes read and remembers at most `maxLineBytes` of them |
| EvidenceChunks.NumberingChunkIndependentIff | bucephalus-cloud/src/workerEvidence.ts:247-313 | the number of rows is the same for every way of cutting the file exactly when no finished line over the cap is blank |
| EvidenceChunks.FeedTrue | bucephalus-cloud/src/workerEvidence.ts:247-313 | however the file is cut, row j is the text of its j-th line that is not blank, or a stub of that line when it is over the cap |
| EvidenceChunks.FeedExact | bucephalus-cloud/src/workerEvidence.ts:247-313 | without over-long lines the rows are exactly the finished lines that are not blank |
| EvidenceChunks.SnapshotAgrees | bucephalus-cloud/src/worker.ts:877-920 | the snapshot reader leaves out a file over 2 MiB; of any other it keeps the first live rows up to its line limit, after all of them at most one more for an unfinished last line, and reports whether it cut |
| EvidenceDelivery.EventTable.UpsertRows | bucephalus-cloud/src/runtime/repository.ts:1579-1612 | inserting rows one by one is the upsert under the primary key |
| EvidenceDelivery.EvidencePump.PostBatches | bucephalus-cloud/src/workerEvidence.ts:217-243 | posts batches in order up to the first that is not acknowledged; counts the batches and rows acknowledged, and one failure otherwise |
| EvidenceDelivery.EvidencePump.PumpTrial | bucephalus-cloud/src/workerEvidence.ts:179-245 | one pass over a trial: identity rewind, restart of a shrunk file, one read, the three counters, and a cursor that moves only when every batch is acknowledged |
| EvidenceDelivery.PostRowsAs | bucephalus-cloud/src/workerEvidence.ts:217-243 | with k posts acknowledged before the first that is not, exactly the first k times `maxBatchRows` rows are stored and counted in k batches; the next up to `maxBatchRows` rows are in flight if that post timed out; a read takes the rounded-up quotient of its rows and `maxBatchRows` |
| EvidenceResults.BeginsWhere | bucephalus-cloud/src/workerEvidence.ts:179-207 | a pass goes on from the saved cursor, except that it begins anew under the known identity once that appears, and under the cursor's identity when the file has become shorter |
| EvidenceResults.PassPosts | bucephalus-cloud/src/workerEvidence.ts:208-243 | the same for the rows a pass reads; the cursor moves, past the bytes and rows read, exactly when every post was acknowledged |
| EvidenceResults.BatchSizesAfter | bucephalus-cloud/src/workerEvidence.ts:217-220 | in every reachable state each batch in flight has one to `maxBatchRows` rows |
| EvidenceResults.TableIsTrue | bucephalus-cloud/src/workerEvidence.ts:179-245 | after every history of growth, failed, timed-out and late posts, the stored rows are true rows of the file and include every row below the saved cursor |
| EvidenceResults.CaughtUpExactly | bucephalus-cloud/src/workerEvidence.ts:208-216 | once the cursor is at the end of the file, exactly the file's rows are stored under its identity |
| EvidenceResults.CaughtUpMatchesSnapshot | bucephalus-cloud/src/worker.ts:877-920 | without over-long lines and with a finished last line, the rows the snapshot reader keeps are stored under their numbers, and nothing else is stored exactly when it was not cut |
| EvidenceResults.RewindReplacesIffSameSlot | bucephalus-cloud/src/workerEvidence.ts:183-192 | rows sent before the identity was known are replaced in place exactly when the known identity has the trial name as trial id, schedule index 0 and attempt 0 |
| EvidenceAttribution.FlightSingleAfter | bucephalus-cloud/src/workerEvidence.ts:179-245 | in every reachable state each batch in flight was sent for the trial under one of its two identities |
| EvidenceAttribution.LateDeliveryIff | bucephalus-cloud/src/workerEvidence.ts:219-242 | in every reachable state with the known identity and its rows so attributed, applying a batch in flight leaves them so exactly when it was sent under the known identity, or names another slot, or is numbered from the cursor on |
| EvidenceAttribution.AttributedAfter | bucephalus-cloud/src/workerEvidence.ts:183-192 | in every history in which no other batch is applied after the switch, the rows below the cursor are attributed to the known identity |
| EvidenceAttribution.OtherSlotTimely | bucephalus-cloud/src/workerEvidence.ts:183-192 | every history is of that kind when the two identities name different slots |
| EvidenceAttribution.OvertakenPostTakesBack | bucephalus-cloud/src/workerEvidence.ts:217-243 | when they name the same slot, the history of a first post that times out and is applied after the second pass puts the unknown identity back |
| EvidenceResults.DrainCatchesUpIff | bucephalus-cloud/src/workerEvidence.ts:107-116 | a number of clean passes, and so the final drain, catches up exactly when that many bounded reads cover what was left |
| InMemory.CanonicalizeJsonValue | bucephalus-cloud/src/primitives/canonicalization.ts:114-144 | the loop over sorted keys builds the canonical form with its prototypes, or reports a number JSON cannot carry or an object it does not accept |
| InMemory.CanonicalizesOwn | bucephalus-cloud/src/primitives/canonicalization.ts:114-144 | by own properties, and on values without replaced prototypes, that form is the canonical form the other results are about, errors included |
| InMemory.CanonicalizeValueOkIff | bucephalus-cloud/src/primitives/canonicalization.ts:166-172 | it succeeds exactly on values with finite numbers and without a replaced prototype, at any depth |
| Canonical.CanonicalizeOkIff | bucephalus-cloud/src/primitives/canonicalization.ts:121-129 | canonicalization fails exactly on NaN, infinities and negative zero, at any depth |
| Canonical.ErrorExplained | bucephalus-cloud/src/primitives/canonicalization.ts:121-129 | a refusal names a defect of a number that occurs in the value |
| Canonical.CanonicalObject | bucephalus-cloud/src/primitives/canonicalization.ts:133-138 | the names of a canonical object ascend, and its properties are those of the value but `__proto__`, canonicalized |
| Canonical.CanonicalEqualIffSame | bucephalus-cloud/src/primitives/canonicalization.ts:133-138 | canonical forms are equal exactly for values equal up to property order and `__proto__` |
| Canonical.CanonicalizeIdempotent | bucephalus-cloud/src/primitives/canonicalization.ts:114-144 | canonicalizing what a canonical text parses to changes nothing |
| InMemory.CanonicalizeTwiceIff | bucephalus-cloud/src/primitives/canonicalization.ts:63-70 | canonicalizing the result itself again succeeds, with the same own properties, exactly when no property named `__proto__` at any depth has an object or an array as its value; otherwise it is refused as an unsupported type |
| InMemory.ReplacedPrototypeFails | bucephalus-cloud/src/primitives/canonicalization.ts:133-138 | an object whose only property is `__proto__` with an empty object is such an input |
| Entities.EntityOkIff | bucephalus-cloud/src/primitives/canonicalization.ts:58-84 | an entity has a canonical form exactly for a known kind, a schema version that is not blank, and an object that can be canonicalized twice |
| Entities.EntityEqualIffSame | bucephalus-cloud/src/primitives/canonicalization.ts:58-84 | the digested texts of two entities are equal exactly for the same kind, schema version and object, up to property order and `__proto__` |
| Entities.EntityTextIs | bucephalus-cloud/src/primitives/canonicalization.ts:58-84 | the text that is digested is that of an object with the four named properties of the envelope, the canonical object among them |
| Canonical.ProtoPropertyVanishes | bucephalus-cloud/src/primitives/canonicalization.ts:134-137 | a property named `__proto__` becomes no own property of the canonical form, and so no part of its text |
| CanonicalText.StringifyInjective | bucephalus-cloud/src/primitives/canonicalization.ts:146-160 | printing is injective |
| CanonicalText.ParseCanonicalText | bucephalus-cloud/src/primitives/canonicalization.ts:86-88 | parsing the canonical text, with the escapes of section 7 of RFC 8259, gives back the canonical form |
| CanonicalSpelling.StringSpelled | bucephalus-cloud/src/primitives/canonicalization.ts:150-151 | the text of a string, unit by unit: seven two-unit escapes, `\u` with four lower-case digits for other control units and lone surrogates, everything else as itself |
| CanonicalSpelling.ValueSpelled | bucephalus-cloud/src/primitives/canonicalization.ts:146-160 | the text of every value: literals, number tokens, and the texts of items and properties between commas, colons and brackets, without space |
| CanonicalText.CanonicalJsonEqualIffSame | bucephalus-cloud/src/primitives/canonicalization.ts:86-88 | canonical texts are equal exactly for the same value: order independence and injectivity |
| Pointers.UnescapeEscape | bucephalus-cloud/src/drafts/primitives.ts:595-597 | an escaped segment holds no slash and unescapes to itself (RFC 6901, section 4) |
| Pointers.EscapeStep | bucephalus-cloud/src/drafts/primitives.ts:595-597 | escaping goes unit by unit: a tilde becomes `~0`, a slash `~1`, everything else stays |
| Pointers.PointerRoundTrip | bucephalus-cloud/src/drafts/primitives.ts:658-674 | splitting and unescaping a pointer gives back its path |
| Pointers.ValueAt | bucephalus-cloud/src/drafts/primitives.ts:658-674 | the loop reads what the pointer resolves to |
| Pointers.ResolvePointer | bucephalus-cloud/src/drafts/primitives.ts:658-674 | the pointer of a path reads the value at the path, except that `/` reads the root |
| Pointers.ParseIndexRead | bucephalus-cloud/src/drafts/primitives.ts:665-666 | a segment selects the array index that its leading digits stand for, after white space and a sign; none without digits, and none for a negative number |
| DraftTools.DiffDraftJson | bucephalus-cloud/src/drafts/primitives.ts:269-273 | the recursive collector pushes exactly the changes of the diff |
| DraftOrder.DraftDiffExact | bucephalus-cloud/src/drafts/primitives.ts:522-580 | the reported changes are exactly these: all along the path both sides are objects or both arrays, and at its end a value is on one side only, or two values that are not both objects or both arrays differ; in ascending order of keys and indices |
| DraftTools.DraftDiffRoundTrip | bucephalus-cloud/src/drafts/primitives.ts:522-597 | applying all reported changes to the left draft gives the right draft |
| DraftTools.DraftDiffEmptyIffCanonicalEqual | bucephalus-cloud/src/drafts/primitives.ts:568-576 | nothing is reported exactly when the canonical JSON of the drafts is equal |
| DraftTools.DraftDiffPointersApart | bucephalus-cloud/src/drafts/primitives.ts:549-571 | reported pointers are pairwise different and none lies below another |
| DraftTools.DraftDiffPointersResolveIff | bucephalus-cloud/src/drafts/primitives.ts:658-674 | a reported pointer reads its own left value in the left draft and its own right value in the right draft exactly unless it is `/` |
| DraftTools.EmptyRootKeyMisread | bucephalus-cloud/src/drafts/primitives.ts:658-661 | a draft whose only new key is the empty one reports the pointer `/`, which reads the root |
| DraftTools.DraftDiffOkIff | bucephalus-cloud/src/drafts/primitives.ts:522-580 | two drafts have a diff exactly when no two objects that it descends into differ in a name such as `constructor`, and the leaves it compares carry JSON numbers only |
| SealedPackage.VerifyChecksums | bucephalus-cloud/src/imports/sealedPackage.ts:335-362 | the loop over the checksums stops at the first entry that is no digest, leads nowhere, or does not match |
| SealedPackage.VerifyNoUnsealed | bucephalus-cloud/src/imports/sealedPackage.ts:745-783 | the loop over the listing stops at the first symlink, special file or unchecksummed file |
| SealedPackage.VerifyCasPointers | bucephalus-cloud/src/imports/sealedPackage.ts:798-846 | the loop over the listing stops at the first pointer whose blob is missing or differs |
| SealedPackage.VerifyIntegrity | bucephalus-cloud/src/imports/sealedPackage.ts:309-447 | the whole check, in the source's order of refusals |
| SealedAcceptance.AcceptedIff | bucephalus-cloud/src/imports/sealedPackage.ts:309-447 | a package is accepted exactly when it has no symlink or special file, every file is metadata or checksummed, every checksum is a digest its file has, both required files are checksummed, every pointer has a checksummed blob of its size and digest, the digest is as declared, and lock, report, experiment and staging manifest agree |
| SealedAcceptance.RefusalExplained | bucephalus-cloud/src/imports/sealedPackage.ts:309-447 | a refusal names an entry that has that very defect |
| SealedPackage.PackagePathIs | bucephalus-cloud/src/imports/sealedPackage.ts:712-743 | a path is refused exactly when, trimmed, it is empty, holds a backslash, begins with a slash or has a part `..`; any other keeps its parts in order, except the empty ones and single dots |
| SealedPackage.AcceptedIsSealed | bucephalus-cloud/src/imports/sealedPackage.ts:745-783 | in an accepted package every file is metadata or checksummed, nothing is a symlink, and every checksummed path leads to a file with that digest |
| SealedPackage.DigestDeterminesPayload | bucephalus-cloud/src/imports/sealedPackage.ts:378-387 | two accepted packages with one digest have the same bytes at every file that is not metadata and whose path stands for itself |
| SealedPackage.DigestDeterminesExperiment | bucephalus-cloud/src/imports/sealedPackage.ts:425-438 | and the same resolved experiment |
| SealedPackage.PointersLeadToBlobs | bucephalus-cloud/src/imports/sealedPackage.ts:798-846 | every pointer of an accepted package has its checksummed blob of that size and digest |
| SealedCoverage.UnreadFileUnchecked | bucephalus-cloud/src/imports/sealedPackage.ts:712-743 | a file other than the manifest that no checksummed path leads to may have any content that is no pointer |
| SealedCoverage.UncoveredFileAccepted | bucephalus-cloud/src/imports/sealedPackage.ts:335-362 | a package with the files `x` and ` x`, both under the checksum of `x`, is accepted whatever the second one holds |
| SealedCoverage.ProtoChecksumUncovered | bucephalus-cloud/src/imports/sealedPackage.ts:378-387 | changing only the file `__proto__` and its checksum keeps the text that is digested, and the acceptance |
| SealedCoverage.LeadingSpaceLeadsElsewhere | bucephalus-cloud/src/imports/sealedPackage.ts:727-743 | a name with leading white space is checked as the name without it |
| RateLimit.InMemoryRateLimiter.Check | bucephalus-cloud/src/rateLimit.ts:31-52 | one request: cleanup, both consumptions, and the decision |
| RateLimit.InMemoryRateLimiter.ConsumeBucket | bucephalus-cloud/src/rateLimit.ts:54-79 | one consumption of one bucket |
| RateLimit.InMemoryRateLimiter.CleanUp | bucephalus-cloud/src/rateLimit.ts:81-91 | deletes exactly the buckets whose window is over, once a window has passed |
| RateLimit.CleanupInvisible | bucephalus-cloud/src/rateLimit.ts:54-91 | every sequence of requests gets the decisions of a limiter that deletes nothing |
| RateLimit.RetentionBounded | bucephalus-cloud/src/rateLimit.ts:81-91 | every bucket kept started within the last two windows |
| RateLimit.AllowedIff | bucephalus-cloud/src/rateLimit.ts:38-52 | a request is allowed exactly when every bucket it touches grants it |
| RateLimit.DecisionExact | bucephalus-cloud/src/rateLimit.ts:54-79 | the decision after any consumptions of a bucket: the end of its window, whether the limit was reached in it, and how many more it grants |
| RateLimit.ReportedBucket | bucephalus-cloud/src/rateLimit.ts:38-52 | the answer reports a limited bucket, the address first, and otherwise the one that grants less |
| RateLimit.BucketRateBound | bucephalus-cloud/src/rateLimit.ts:54-79 | at most twice the limit less one grants of a bucket in any interval as long as a window |
| RateLimit.RateBound | bucephalus-cloud/src/rateLimit.ts:31-79 | at most twice the limit less one allowed requests of one address or credential in any such interval |
| RateLimit.RateBoundTight | bucephalus-cloud/src/rateLimit.ts:54-79 | that bound is reached for every limit |
| RateLimit.RetryAfterExact | bucephalus-cloud/src/rateLimit.ts:61-69 | once a consumption is limited, every further one before the reset time is limited with the same reset time, however many there are, and the next is granted exactly from the reset time on |
| Glob.MatchSegment | bucephalus-cloud/src/imports/authoringContext.ts:582-609 | the loop that finds parts leftmost computes the segment match |
| Glob.SegmentMatchIff | bucephalus-cloud/src/imports/authoringContext.ts:582-609 | a segment is accepted exactly when it matches and, for a pattern that ends in a literal, no proper prefix of it matches |
| Glob.SegmentCompleteIff | bucephalus-cloud/src/imports/authoringContext.ts:582-609 | the matcher is exact for precisely the patterns without a star or with one at the end |
| Glob.SegmentsMatchIff | bucephalus-cloud/src/imports/authoringContext.ts:568-580 | the recursion accepts exactly the paths that can be cut into stretches that fit the pattern |
| Glob.ShortcutExactIff | bucephalus-cloud/src/imports/authoringContext.ts:561-564 | comparing the prefix literally agrees with the general matcher exactly when the prefix has no star |
| Glob.PatternMeaning | bucephalus-cloud/src/imports/authoringContext.ts:557-566 | what a whole pattern accepts |
| ArchivePreflight.Preflight | bucephalus-cloud/src/imports/authoringContext.ts:349-421 | the callback over the entries keeps the first violation or the totals |
| ArchivePreflight.ParentFileIff | bucephalus-cloud/src/imports/authoringContext.ts:423-432 | the loop over ancestors finds a file exactly when the path lies under one |
| ArchivePreflight.PreflightIff | bucephalus-cloud/src/imports/authoringContext.ts:349-421 | an archive is accepted exactly when its entries are safe, pairwise compatible and within both limits |
| ArchivePreflight.AcceptedIsTree | bucephalus-cloud/src/imports/authoringContext.ts:381-407 | an accepted archive is a file tree with directories before their contents |
| ArchivePreflight.RefusalExplained | bucephalus-cloud/src/imports/authoringContext.ts:360-414 | a refusal names the first entry that makes the archive unacceptable, and the first of the checks in the source's order that it fails |
| Snapshot.RuntimeSnapshotBudget.TryAdd | bucephalus-cloud/src/worker.ts:857-875 | charges a value exactly when it fits |
| Snapshot.RuntimeSnapshotBudget.AddTrial | bucephalus-cloud/src/worker.ts:801-850 | one trial: which parts are included and which paths reported |
| Snapshot.CollectRuntimeSnapshot | bucephalus-cloud/src/worker.ts:706-776 | the collectors together compute the snapshot |
| SnapshotContent.SnapshotHolds | bucephalus-cloud/src/worker.ts:706-850 | the items stand for a subsequence of the first 200 trials in order; each runtime value stands under the key of its file; whatever was read or left out and is not included has its path reported when that fits |
| SnapshotContent.TrialOutcomeIs | bucephalus-cloud/src/worker.ts:801-850 | the item of a trial holds its own id and summary, its trace and its events under their names, the last two exactly when they were read and the candidate fits; otherwise the paths reported |
| SnapshotContent.RuntimeNamed | bucephalus-cloud/src/worker.ts:720-737 | where each of the three runtime files is looked for, and under which name its value stands |
| Snapshot.RecordsMaximal | bucephalus-cloud/src/worker.ts:749-756 | the evidence records kept are the longest run from the first on that fits |
| Snapshot.CollectCharges | bucephalus-cloud/src/worker.ts:706-776 | every included value and path is charged within the budget |
| SnapshotText.PayloadBytes | bucephalus-cloud/src/worker.ts:763-775 | the payload text is what was charged, twice the run id, and at most 1820 bytes more |
| SnapshotText.PayloadFields | bucephalus-cloud/src/worker.ts:763-775 | the payload has each part of the snapshot under its own name, and no other property |
| SnapshotText.BudgetFields | bucephalus-cloud/src/worker.ts:771-775 | the budget it reports: the limit, what was charged, and what is kept for the envelope |
| Utf8.SizeIsUtf8 | bucephalus-cloud/src/worker.ts:877-879 | the size charged for a value is the number of bytes of its JSON text in UTF-8 |
| SnapshotText.SnapshotWithinLimit | bucephalus-cloud/src/worker.ts:706-776 | the JSON text of every snapshot is within the payload limit if twice the run id and 1820 bytes fit the envelope |
| SnapshotText.EveryPayloadWithinLimit | bucephalus-cloud/src/worker.ts:706-776 | for every run directory whose name a file system can resolve, at most 4096 bytes of the allowed characters, the payload text is within the limit |
| Provisioning.RunnerRepository.SetProvisioning | bucephalus-cloud/src/runners/repository.ts:715-740 | an open request becomes provisioning, an active one stays active, any other is refused |
| Provisioning.RunnerRepository.FailProvisionRequest | bucephalus-cloud/src/runners/repository.ts:742-765 | fails a request unless it is active, and refuses a reaped one |
| Provisioning.RunnerRepository.RegisterInstance | bucephalus-cloud/src/runners/repository.ts:280-328 | an open request of the pool becomes active with its instance, or one of two refusals |
| Provisioning.StatementWrites | bucephalus-cloud/src/runners/repository.ts:665-802 | each statement writes exactly the rows it concerns whose status it starts from, and only their status, time and what it reports: a reported provider replaces the recorded one, a registering instance fills in what is not recorded |
| Provisioning.RequestsOnlyProgress | bucephalus-cloud/src/runners/repository.ts:665-802 | in every history active is never demoted to failed, reaped is final, a closed request never reopens, and an instance is assigned at most once |
| Provisioning.AtMostOneOpenRequest | bucephalus-cloud/src/poolController.ts:194-247 | with one controller per pool, among any statements of other actors, each run of the pool has at most one open request in every reachable state |
| Provisioning.ReconcileDemand | bucephalus-cloud/src/poolController.ts:203-247 | a pass adds exactly one request for each eligible run without an open one whose row is not refused, as the provider's answer leaves it, and dead-letters the run rows of the permanent failures |
| Provisioning.DeadLettersLeaveQueue | bucephalus-cloud/src/poolController.ts:346-362 | after the pass the queued runs whose provisioning failed permanently have failed with the provider's message, and every other run is as it was |
| DockerStream.DemuxDockerExecOutput | bucephalus-cloud/src/worker.ts:2311-2342 | the loop over frames computes both streams |
| DockerStream.HeaderIs | bucephalus-cloud/src/worker.ts:2316-2324 | a frame is a stream number, three bytes, a big-endian length of four bytes and that many bytes of payload |
| DockerStream.PayloadsAppend | bucephalus-cloud/src/worker.ts:2325-2331 | one more frame appends its payload to the error stream if its number is 2, and to standard output otherwise |
| DockerStream.DemuxRoundTrip | bucephalus-cloud/src/worker.ts:2311-2342 | the payloads of any frames come back, separated by stream |
| DockerStream.DemuxIff | bucephalus-cloud/src/worker.ts:2332-2341 | a buffer is taken apart exactly when it is a sequence of frames; any other comes back whole |
| DockerStream.PayloadsConserve | bucephalus-cloud/src/worker.ts:2316-2331 | the outputs hold every byte but the headers |
| ShellQuote.QuoteRoundTrip | modal-launcher/main.go:980-985 | a shell reads a quoted value as exactly one word, the value, exactly when it holds no NUL |
| ShellQuote.QuoteEmbedded | modal-launcher/main.go:980-985 | also between other words |
| ShellQuote.ArgumentsRoundTrip | modal-launcher/main.go:980-985 | a shell reads back any list of quoted arguments without NUL |

## Left out

- HTTP routes, authentication, OAuth and secret resolution, object storage, Docker and Modal calls, child processes, timers and signals.
- Validation of draft, package and manifest contents, redaction, capability matching and presentation; where a step needs such an answer it is a parameter.
- Isolation inside the database: a claim that skips locked rows is one step with the locked runs as a parameter, and a constraint that refuses a row is a parameter of the step.
- The deletion of runs and of accounts, which takes their attempts and events with it.
- Drafts with a property named `__proto__`, which no canonical draft has: what reading that name on the other side gives is not modelled.
- Token hashing and the identifiers of rows; the statuses of runner instances and pools other than where a request or a lifecycle event depends on them.
- `announceCoreRuns` and the order in which the evidence pump visits trials; two trials whose identities name the same slot of one core run share keys, and only one trial's keys are followed.
- A file that is rewritten in place: the pump restarts on a shorter file in the model as in the source, but the results are for files that only grow.
- The stored columns of an event row that are derived from its parsed payload; a row is its text or its stub.
- The JSON pointers inside canonicalization errors, and the significance the diff attaches to a change.
- Paths through symbolic links in a sealed package: a path is looked up in the listing, and any link refuses the package in the end.
- The details of `validatePackageChecks` beyond schema and digest, and of `validateRuntimeStagingManifest`.
- `containsBlockedContextPath` and the other checks of a single archive entry: an entry is safe or not.
- Expansion, operators and patterns of the shell: a text that needs them is read as no word list at all.
- Provision request metadata, reaping candidates and idle detection; a sweep may reap any request the statement accepts.
- WorkerLease.LeaseLostIsLost: says nothing when a grant went unacknowledged, because then the lease in the database may be later than the worker knows.
- EvidenceResults.CaughtUpExactly: stated for files without a blank line over the cap, because with one the row numbers depend on the reads.
- Provisioning.ReconcileDemand: describes a pass without other actors in between; what holds with them is Provisioning.AtMostOneOpenRequest.
