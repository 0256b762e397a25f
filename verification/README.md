# SecureStore: a verified model

SecureStore keeps files encrypted, with versions, sharing, a trash with retention and legal
holds, and an audit chain that shows tampering. This project models the parts whose rules span
many operations and proves them over whole runs:

- **Protected store** (`Envelope`, `Store*`, `MemoryStore`): envelopes, versions, restores, key
  rotation and rewrap, trash, retention, holds, purge and grants, as one state machine. A run is
  any sequence of nineteen kinds of step, crashes and ambiguous commits included.
  `StoreInvariant` and `StoreSteps` say what every step keeps; `StoreContent`, `StoreHistory`,
  `StorePurge`, `StoreAccess`, `StoreRegistration`, `StoreWorker` and `StoreDeletions` draw the
  run theorems from it, and `StoreExample` follows files through good and bad lives;
  `MemoryStore`, `StoreProtect` and `StoreService` are the repository and the service in place,
  proved to take those steps.
- **Audit** (`Framing`, `Encodings`, `Audit*`): byte encodings with parsers that undo them, the
  MAC chain across key rotations, and at-least-once delivery made exactly-once by event ID.
- **Ingestion** (`Ingest*`): one task per upload, one effect at a time, with a crash or an
  ambiguous write between any two, and start-up recovery; `IngestEndings` says where it ends.
- **Capacity and quota** (`Capacity*`, `Stream*`, `Mixed*`, `Sums`): what reservations, running
  streams and sizes add up to, each kind by itself and both in one process with its database.
- **Rate limiter**, **orphan journal**, **one-time codes** (`RateLimiter*`, `Orphan*`, `Mfa*`).

Cryptography is symbolic: a sealed value opens only under the key, nonce and bound fields it was
sealed with, and a wrapped key only under its key-encryption key, ID and version. The MAC is a
parameter; tamper evidence is stated as "equal, or these two events collide". Fresh random IDs are
"not used before".

Where the code and its promise differ, the model follows the code, shows a case and states the
condition under which the promise holds:

- an insert that takes effect and reports an error makes the service remove the object of a
  committed version: a listed file that does not open (`ContentPreserved`, `MissingIffLost`,
  `ListedAndLost`), a row that says stored over no object (`ObjectMissingIff`,
  `StoredWithoutObject`), and a restore whose retry moves the file to a lost version
  (`RetryMovesToLost`);
- a restore under way when its file is purged keeps its key (`PurgeSpares`,
  `PurgeLeavesRestore`);
- a purge that failed once is answered with an empty success ever after (`SqlPurgesIff`,
  `StuckForEver`, `OneFailureSticks`), and one whose commit was in doubt forgets its result
  (`RetryForgotten`);
- a restore between a crash and the recovery of its upload makes the upload fail although its
  file exists (`RegisterRefusedIff`, `FailedFileIff`, `FailedWithFile`); the in-memory repository makes a second
  file instead (`RegisterDuplicatesIff`, `RegisteredTwice`), and its second copy of each row
  undoes restores (`TrashKeepsCurrentIff`);
- IDs that sanitise to one lose evidence (`EvidenceLostIff`, `LeadingBlankLoses`);
- a key rotation that fails can leave its event in the chain under the new key
  (`FailedRotationIff`, `RotationInDoubt`), and a flush can mark one row more than it reports
  (`FlushedIsRun`);
- a size committed after its reservation expired exceeds the capacity (`CapacityConserved`,
  `ExpiredBeforeCommit`) and, with it, the quota; declared sizes and streams together reach twice
  the quota without it and three times with it, and a restart or a repeated key can bring back
  what memory had given up or dropped (`TwiceTheQuota`, `OneKindIff`, `QuotaTwice`,
  `QuotaThrice`, `RevivedTwice`, `RetriedTwice`), in the latter case with nobody working on it
  (`StuckIff`, `ShownAndForgotten`);
- a failure recorded after a removal counts (`FirstRecordedCounts`), an object may be removed
  under an operation that has ended (`RemovalOpenIff`, `StaleRemoval`), codes repeat before the
  thirtieth second of 1970 (`RepeatedIff`), and a clock that runs backwards lets more than
  the limit through (`KeepsLimitIff`, `BackwardsClock`).

Everything is in one directory; `dafny verify dfyconfig.toml` checks it.

## Model

| member | source | states |
|---|---|---|
| Framing.Int64RoundTrip | internal/protectedstore/service.go:303 | A signed 64-bit number written as eight big-endian bytes is read back unchanged. |
| Framing.ReadFieldsRoundTrip | internal/audit/service.go:530-533 | Any number of length-prefixed fields shorter than 2^32 bytes, followed by anything, is read back field by field, with the rest left over. |
| Framing.WriteFields | internal/protectedstore/service.go:299-302 | The loop that writes length and bytes of each field produces the framing the parsers undo. |
| Framing.LabelsSeparate | internal/audit/service.go:493-528 | Two byte strings that begin with two different framed labels differ, whatever follows. |
| Encodings.EventDecodes | internal/audit/service.go:503-515 | A parser recovers all thirteen fields of an event and the optional fourteenth from its canonical bytes, so the encoding is injective for events whose every field is shorter than 2^32 bytes. |
| Encodings.EventFieldOrder | internal/audit/service.go:503-515 | Read field by field, an event's bytes are its thirteen fields in the source's order, and after them the network fingerprint if there is one. |
| Encodings.WriteCanonicalEvent | internal/audit/service.go:503-515 | Filling the buffer field by field yields exactly the canonical event bytes, with the network fingerprint only when it is not empty. |
| Encodings.FrameDecodes | internal/audit/service.go:493-501 | A parser recovers sequence, previous MAC, key version and event from the bytes under the MAC. |
| Encodings.FrameOrder | internal/audit/service.go:493-501 | The bytes under the MAC are the chain's label, eight bytes of sequence, the previous MAC and the event, in that order. |
| Encodings.NetworkFrameOrder | internal/audit/service.go:517-525 | Those under a network fingerprint are its own label and the address. |
| Encodings.FrameInjective | internal/audit/service.go:493-501 | Equal MAC frames come from equal sequence numbers, previous MACs and events. |
| Encodings.FingerprintNeverForgesEvent | internal/audit/service.go:517-528 | The bytes digested for a network fingerprint are never the bytes digested for an event. |
| Encodings.AADDecodes | internal/protectedstore/service.go:297-305 | A parser recovers all eleven fields, each shorter than 2^32 bytes, and the size from the additional authenticated data of an envelope. |
| Encodings.AADFieldOrder | internal/protectedstore/service.go:297-305 | Read field by field, the additional data are eleven fields in the source's order, and eight bytes of size. |
| Encodings.WriteCanonicalAAD | internal/protectedstore/service.go:297-305 | The loop over the fields writes exactly the canonical additional data. |
| Encodings.AnchorReceiptDecodes | internal/audit/remote_anchor.go:193-203 | A parser recovers every field of an anchor record, each shorter than 2^32 bytes, from the signed receipt bytes. |
| Encodings.ReceiptFieldOrder | internal/audit/remote_anchor.go:193-203 | A receipt is its label and the chain's ID, eight bytes of sequence, and four fields in the source's order. |
| Encodings.WriteAnchorReceipt | internal/audit/remote_anchor.go:193-203 | The receipt buffer is filled with exactly the canonical receipt bytes. |
| AuditChain.CanonicalSuiteIsCanonical | internal/audit/service.go:493-501 | The suite in use frames sequence, previous MAC and event canonically, so the theorems about canonical suites apply to it. |
| AuditChain.IndexOfAbsent | internal/audit/memory_repository.go:21-40 | The search by event ID finds nothing exactly when no event carries the ID. |
| AuditChain.Verify | internal/audit/service.go:419-453 | The loop reports valid exactly when the chain verifies, and otherwise the first event at fault, with the first of the four checks that it fails: sequence, previous MAC, key, own MAC; or the checkpoint. |
| AuditChain.VerifiesIff | internal/audit/service.go:419-453 | A chain verifies exactly when every event counts on from its predecessor, chains to its MAC, has its key in the ring and carries the MAC of its own frame, and the checkpoint has the count and the last MAC. |
| AuditChain.ExtendVerifies | internal/audit/memory_repository.go:21-40 | An appended event extends a verifying chain to a verifying chain, under whatever key version it is written. |
| AuditChain.EqualMACsEqualEvents | internal/audit/service.go:493-501 | Two fault-free events with equal MACs at one position are equal and chained to equal MACs, or they collide there: different messages, one MAC, each under the ring's key for its own event. |
| AuditChain.EqualHeadsEqualChains | internal/audit/service.go:419-453 | Two linked chains of equal length and equal last MAC are equal event for event, or collide at some position. |
| AuditChain.TamperEvidence | internal/audit/service.go:419-453 | If an arbitrary stored event list verifies against the genuine checkpoint, it is the genuine list in content, order, length and fingerprints, or at some position the stored and the genuine event carry one MAC over two different messages under the ring's keys; collision-freeness is a conclusion's alternative, not an assumption. |
| AuditChain.NoCollisionNoTampering | internal/audit/service.go:419-453 | With a MAC free of collisions under the ring's keys, a stored chain with the genuine checkpoint verifies exactly when its events are the genuine ones. |
| AuditDelivery.SafeEmptyIffBlank | internal/audit/service.go:534-539 | A sanitised value is empty exactly when the original is blank. |
| AuditDelivery.SafeIs | internal/audit/service.go:534-539 | A sanitised value is the original without the white space around it, cut to 160 bytes. |
| AuditDelivery.ValidIff | internal/auditoutbox/outbox.go:27-37 | An intent is accepted exactly when its event ID, actor type, action, resource type and outcome are not blank and its instant is set. |
| AuditDelivery.SafeNotIdempotent | internal/audit/service.go:534-539 | Sanitising twice can differ from sanitising once: a value whose cut at the limit ends in a space. |
| AuditDelivery.RotatedSound | internal/audit/service.go:176-192 | A key rotation, answered or in doubt, leaves a sound ledger, chained across the two keys. |
| AuditDelivery.FailedRotationIff | internal/audit/service.go:185-190 | A rotation answered with an error restores the previous write version; it leaves the chain unchanged exactly when there was nothing to rotate to or its append had no effect, and otherwise the chain ends with an event that says who rotated what, from which version to which, and the next process writes under the new version. |
| AuditDelivery.RotationInDoubt | internal/audit/postgres_repository.go:76-80 | From an empty ledger: the chain records the move to the new key, the write version is the old one, and the next event is written under it; the chain verifies all the same. |
| AuditDelivery.StepStaysInStep | internal/audit/service.go:185-190 | While the last event is under the write version and rotation IDs are new, a step separates the two exactly when it is a rotation in doubt. |
| AuditDelivery.StaysInStep | internal/audit/service.go:165-172 | So without one, chain and write version agree after every run, through any number of restarts. |
| AuditDelivery.StepSound | internal/audit/service.go:263-311 | Every step, among enqueue, append, rotation, rotation in doubt, restart, delivery, acknowledgement and failure, keeps the ledger sound: the chain verifies, IDs are unique, and dispatched rows name their own event. |
| AuditDelivery.EveryRunSound | internal/audit/service.go:176-311 | After every run, over any mix of key versions, rotations in doubt and restarts included, the chain verifies through its last event. |
| AuditDelivery.ResumesUnder | internal/audit/service.go:146-174 | A new process writes under the checkpoint's version once anything was recorded and under the configured one before that, and does not start without either key. |
| AuditDelivery.RunContinues | internal/audit/memory_repository.go:21-40 | The chain only grows at its end, committed intents never change or vanish, and dispatched rows stay as they are. |
| AuditDelivery.UniqueOccurs | internal/audit/memory_repository.go:24-28 | In a chain of unique IDs a nonempty ID occurs exactly once if recorded and never otherwise. |
| AuditDelivery.ExactlyOnce | internal/audit/service.go:285-311 | A committed intent is in the outbox for ever, as first committed under its ID, in the chain at most once, and exactly once at its recorded sequence when marked dispatched, whatever failures and crashes lie between append and acknowledgement. |
| AuditDelivery.DispatchedMarks | internal/audit/postgres_repository.go:100-103 | Delivering and acknowledging a pending row records its ID in the chain and changes that row only; a repeated append changes nothing. |
| AuditDelivery.EvidenceLostIff | internal/audit/service.go:285-311 | For any set of intents: some run that commits only these, and records nothing else under their IDs, ends with one marked dispatched while the chain tells another story, exactly when two of them have different IDs that sanitise to one and different things to say. |
| AuditDelivery.ClashLoses | internal/audit/service.go:285-311 | For any two such intents, committing and delivering both from an empty ledger marks both dispatched and leaves one event, the first one's. |
| AuditDelivery.RunTold | internal/audit/service.go:285-311 | Without two such intents every recorded row's event equals its row's intent in each of the twelve fields, sanitised but for the instant, and has no network source, after every run that commits only these. |
| AuditDelivery.LeadingBlankClashes | internal/auditoutbox/outbox.go:27-37 | An input: two IDs that differ in a leading blank, both accepted by `Intent.Validate`, clash under the sanitiser in use. |
| AuditDelivery.LeadingBlankLoses | internal/audit/service.go:285-311 | So six steps from an empty ledger end with a purge marked dispatched whose event is nowhere in the chain. |
| AuditDelivery.EvidenceIsTheIntents | internal/audit/service.go:249-311 | While sanitised IDs stay apart from each other and from everything else recorded, every recorded row's event has the event ID, instant, actor type and ID, action, resource type and ID, outcome, reason, correlation ID and both states of that row's intent, each sanitised but the instant, and no network source, after every run. |
| AuditService.Service.constructor | internal/audit/service.go:146-174 | A service takes over the stored chain and rows as they are, resumes the key version of a nonempty checkpoint and otherwise uses the configured one; on an empty chain without rows its ledger is sound. |
| AuditService.Service.AppendEvent | internal/audit/postgres_repository.go:43-81 | Appends or finds the event by ID in place, as the ledger's append step does, whenever the append takes effect, and succeeds exactly when it is answered; a refused append changes nothing. |
| AuditService.Service.RotateTo | internal/audit/service.go:176-192 | Rotates in place, for each of the three answers of the append: a failed one restores the previous write version, and whether the chain stays as it was is the row of `FailedRotationIff`; an answered one returns the chain's new last event, which says from and to which version the system's key manager rotated, and when. |
| AuditService.Service.PendingOutbox | internal/audit/postgres_repository.go:83-98 | Returns undispatched rows, once each, oldest first, up to the limit; rows of equal time in any order. |
| AuditService.Service.MarkOutboxDispatched | internal/audit/postgres_repository.go:100-103 | An undispatched row gets instant, sequence and one more attempt, and loses its failure; any other stays as it is. |
| AuditService.Service.MarkOutboxFailure | internal/audit/postgres_repository.go:105-112 | An undispatched row gets a failure and one more attempt; any other stays as it is. |
| AuditService.Service.DeliverAll | internal/audit/service.go:285-311 | Each row of the page is appended and acknowledged in turn, with every combination of answers to the two, and the loop stops at the first that is not answered. |
| AuditService.Service.FlushOutbox | internal/audit/service.go:285-311 | A flush takes its page and ends as the loop's specification says for the answers it gets; every event it appends equals the intent of a row of its page field by field, sanitised but for the instant, and is written under the service's own key version. |
| AuditService.Service.DeliverMutationIntent | internal/audit/service.go:249-261 | With a durable outbox the call reports success and flushes a page; without one it appends an event equal to the intent field by field, unsanitised, under the current key version, and succeeds exactly when that is answered. |
| AuditService.FlushedIsRun | internal/audit/service.go:285-311 | However a flush ends it is a run of ledger steps; it stops early exactly when some answer is missing; and what stopped being pending is what it reports as delivered, and one row more exactly when it stopped at an acknowledgement that took effect and was answered with an error. |
| AuditService.FlushEmptiesBacklog | internal/audit/service.go:285-311 | A failure-free flush whose limit covers the backlog leaves nothing pending. |
| AuditService.FlushedTells | internal/audit/service.go:285-311 | However the loop ends, it appends nothing but such events. |
| AuditService.TurnRow | internal/audit/postgres_repository.go:100-119 | One turn writes into its own row and no other: dispatched at the sequence of the event under its ID, or one more failure, or nothing; the first two count as an attempt. |
| AuditService.PageIs | internal/audit/postgres_repository.go:83-98 | A page holds undispatched rows only, each once and the oldest first, all of them when it is not full, and none younger than one it leaves out. |
| Envelope.OpensIffIntact | internal/protectedstore/service.go:245-278 | Opening succeeds exactly when the envelope is well formed, its object is in place under the same bound fields, and its wrapper unwraps; it then yields what was sealed. |
| Envelope.OpensIff | internal/protectedstore/service.go:245-295 | What each of these means, field by field: an envelope out of order is refused as invalid; one in order opens exactly when its data key is wrapped under a held version of its own key and the object agrees with it in data key, nonce, each of twelve bound fields, size and digest; anything else fails the integrity check. |
| Envelope.SameFoldIff | internal/protectedstore/service.go:155-157 | Two digests are taken for equal exactly when they have one length and agree character by character up to the case of a letter. |
| Envelope.RequestAcceptedIff | internal/protectedstore/service.go:147-157 | A request with a field out of order is invalid; one whose bytes differ from the declared size, or from the declared digest in more than case, fails the integrity check; every other is accepted. |
| Envelope.RecordedFields | internal/protectedstore/service.go:162-170 | What is recorded of an accepted request: each field under its name, the ring's key and version twice, the wrapped data key, and a digest that is exactly that of the bytes wherever digests are in lower-case hexadecimal. |
| Envelope.ProtectThenOpen | internal/protectedstore/service.go:141-233 | Whatever protection accepts it can open again, to the same bytes. |
| Envelope.IntactUnderGrowth | internal/protectedstore/local_key.go:67-85 | A grown keyring unwraps every envelope it did before, and an intact version whose object stays is intact under it. |
| Envelope.RewrapKeepsIntact | internal/protectedstore/rewrap.go:61-98 | Replacing the wrapper by one under the current key keeps the envelope usable, and intact if it was. |
| StoreInvariant.WriteKeeps | internal/protectedstore/service.go:141-226 | Writing an object under a fresh version keeps the store's invariant. |
| StoreInvariant.StartRestoreKeeps | internal/protectedstore/catalog.go:101-124 | Authenticating a source and protecting its bytes again keeps the invariant. |
| StoreInvariant.CommitProtectKeeps | internal/protectedstore/service.go:224-232 | A metadata commit that is answered, first or repeated, keeps the invariant; a repeated one removes only its own object. |
| StoreInvariant.CommitDoubtedKeeps | internal/protectedstore/postgres_repository.go:155-171 | A metadata commit that takes effect and is answered with an error keeps the invariant. |
| StoreInvariant.CleanUpKeeps | internal/protectedstore/service.go:224-227 | Removing the object after such an answer keeps it too: it costs that version alone. |
| StoreInvariant.RewrapKeeps | internal/protectedstore/memory_repository.go:141-152 | A compare-and-swap rewrap with any candidate, however stale, keeps the invariant. |
| StoreInvariant.SmallSteps | internal/protectedstore/service.go:216-232 | What the small steps do besides: a doubtful commit is in the tables and its object is removed once; a crash forgets what was under way; giving up removes one's own object; a new key becomes the current one and none loses its value; and an object goes exactly if no live envelope and nothing under way names it. |
| StoreSteps.RegisterKeeps | internal/protectedstore/postgres_repository.go:246-282 | Registration, of a new upload or again of a catalogued one, keeps the invariant. |
| StoreSteps.CommitRestoredKeeps | internal/protectedstore/postgres_repository.go:343-399 | Committing a restore keeps histories, lineage of bytes, lifecycle and grants. |
| StoreSteps.PurgeKeeps | internal/protectedstore/memory_repository.go:433-481 | A purge keeps the invariant: keys exist exactly for files that are not purged. |
| StoreSteps.OperationHome | internal/protectedstore/migrations/002_file_catalog.sql:36-48 | No operation appears in the histories of two files. |
| StoreSteps.StepKeeps | internal/protectedstore/memory_repository.go:77-508 | Each of the nineteen kinds of step keeps the invariant, with no premise about callers. |
| StoreSteps.RunKeeps | internal/protectedstore/memory_repository.go:77-508 | The invariant holds after every run from an empty store: every existing key unwraps, and where its object is in place the version opens to the bytes it was sealed from; restores were sealed from their source's bytes; histories are well formed; one unrevoked grant per file and recipient, on active files only. |
| StoreContent.StepNames | internal/protectedstore/service.go:141-233 | A step either leaves what an upload's version was sealed from as it is, or wrote that version from the bytes it was given. |
| StoreContent.RecordedIsUploaded | internal/protectedstore/service.go:141-233 | After any run an upload's version was sealed from the bytes of the step that wrote it. |
| StoreContent.MissingIffLost | internal/protectedstore/service.go:224-227 | After any run the object of a version whose key exists is missing exactly when its commit took effect but was answered with an error and, before any crash, the object was removed. |
| StoreContent.ContentPreserved | internal/protectedstore/catalog.go:101-133 | After any interleaving of uploads, restores, key rotations, rewraps, crashes, removals and lifecycle steps, opening a version of a file that was not purged returns exactly the bytes first uploaded for that file, except when that version was lost in the way of the row above; then, and only then, it fails the integrity check. |
| StoreHistory.EveryHistory | internal/protectedstore/memory_repository.go:225-258 | In every reachable state version numbers run n down to 1, exactly the head is current and is the file's current version, the first version was an upload, and every other names a source with a smaller number in the same file. |
| StoreHistory.RunGrows | internal/protectedstore/memory_repository.go:225-258 | History is append-only: records keep identity, operation, source and number for ever, and files their owner. |
| StoreHistory.RestoreRetry | internal/protectedstore/postgres_repository.go:343-366 | Retrying a committed restore at any later time changes nothing and names the same version. |
| StoreHistory.DestroyedForEver | internal/protectedstore/memory_repository.go:141-152 | A destroyed key never comes back, not even by a rewrap whose candidate was read before the purge. |
| StoreHistory.PurgedRowStays | internal/protectedstore/memory_repository.go:392-508 | A purged file's row and history never change again. |
| StoreHistory.PurgedUnreadable | internal/protectedstore/memory_repository.go:196-224 | After a purge no version lookup and no authorized read returns the file, to anyone, at any later time, and no envelope in its history opens. |
| StoreHistory.PurgeSpares | internal/protectedstore/memory_repository.go:455-468 | After any run, an envelope that descends from a purged file never opens if it is in the file's history; a restore of the file that never got there keeps its key and opens to the file's first bytes, unless its own object was lost. |
| StoreHistory.SparedWereUnderway | internal/protectedstore/postgres_repository.go:365 | Those restores were all protected or in flight when the purge went through; none starts later, and none enters the history. |
| StorePurge.PurgeAllowedIff | internal/protectedstore/memory_repository.go:442-454 | A purge is allowed exactly when, by a log kept from the events alone, the purger registered the file, it has been in the trash for 2,592,000 seconds with neither a return nor a purge since, every retention deadline ever accepted has passed and no hold is in force; what a move, a deadline or a hold does to the log depends on the log and not on the rows. |
| StorePurge.OnlyPurgeDestroys | internal/protectedstore/memory_repository.go:433-481 | If a step makes a key disappear it is a purge that goes through, of the file the key belongs to. |
| StorePurge.PurgeSafety | internal/protectedstore/lifecycle.go:140-208 | In every run a key disappears only by a purge of its own file for which the log says all of that. |
| StorePurge.PurgeExact | internal/protectedstore/memory_repository.go:455-479 | A purge destroys one key per version, reports that count and exactly those versions' objects, and leaves every other envelope and file as it was. |
| StorePurge.PurgeRetry | internal/protectedstore/memory_repository.go:436-441 | A retry with the same operation ID, after anything else, returns the first result and changes nothing. |
| StorePurge.PurgedOnce | internal/protectedstore/memory_repository.go:442-445 | Any other operation ID on a purged file finds nothing to purge, for ever. |
| StoreAccess.OneGrantDecides | internal/protectedstore/memory_repository.go:315-331 | At most one grant can allow a recipient, so the search in map order is deterministic. |
| StoreAccess.ListingAgrees | internal/protectedstore/memory_repository.go:355-369 | The shared listing shows exactly the files the authorization rule lets the recipient read as a recipient, once each, with the permission that rule finds. |
| StoreAccess.DownloadImpliesRead | internal/protectedstore/memory_repository.go:315-331 | Whoever may download may read. |
| StoreAccess.AuthorizedIff | internal/protectedstore/memory_repository.go:315-331 | Someone else than the owner may use a capability exactly when the file is active and an unrevoked, unexpired grant names them, for downloading if they want to download, whatever its permission if they want to read. |
| StoreAccess.AccessIff | internal/protectedstore/memory_repository.go:262-331 | After every run, read off the event log: exactly when the file is active and the owner's last share of it with them is for that, or wider, and not past its expiry, and neither a revocation nor a move to the trash has withdrawn it since. |
| StoreAccess.TrashEndsAccess | internal/protectedstore/memory_repository.go:392-432 | Once a file is in the trash no recipient reads it again unless the owner later shares it anew with that recipient while it is active. |
| StoreRegistration.RegisteredOnce | internal/protectedstore/postgres_repository.go:246-282 | Registering a catalogued upload again changes nothing, and succeeds exactly while that upload is its file's current version and the file is active. |
| StoreRegistration.RegisteredNew | internal/protectedstore/postgres_repository.go:246-282 | Any upload that no history and no file holds gets a file of its own, active, with one version of the protected size and type, and nothing else changes. |
| StoreRegistration.RegisterDuplicatesIff | internal/protectedstore/memory_repository.go:164-181 | In the in-memory form, registering a catalogued upload again makes a second file of it exactly when its file has moved on to another version. |
| StoreRegistration.RegisteredTwice | internal/protectedstore/memory_repository.go:164-181 | A concrete trace of the in-memory form, register, restore, register, that ends with two files of one upload. |
| StoreWorker.EligibleIffPurges | internal/protectedstore/memory_repository.go:546-560 | A file is eligible exactly when a purge by its owner, under any key, would go through at that instant. |
| StoreWorker.SummaryIsEligible | internal/protectedstore/postgres_repository.go:855-864 | In every reachable state the summary, whose query does not ask whether a file is in the trash, counts exactly the eligible files, those in the trash past their deadline that no retention or hold keeps; so it shows none exactly when the worker's page is empty. |
| StoreWorker.RunCompletes | internal/protectedstore/lifecycle.go:280-310 | One uninterrupted run over the in-memory purge purges every file it examined when its turn comes, and exactly those leave the eligible set. |
| StoreWorker.BacklogIsQueue | internal/protectedstore/lifecycle.go:280-310 | However the runs of the worker are spaced, the backlog after each is that of a queue: files that fall due join it and each run takes its limit. |
| StoreWorker.QueueAtMost | internal/protectedstore/lifecycle.go:280-310 | No more than x files wait after the last run exactly when, for every stretch of runs up to it, what fell due since the run before is no more than those runs take, and x. |
| StoreWorker.VisitsDrainIff | internal/protectedstore/lifecycle.go:280-310 | So nothing waits after the last run exactly when every such stretch could take what fell due. |
| StoreWorker.RoundsLeft | internal/protectedstore/lifecycle.go:280-310 | When nothing falls due in between, k runs with limit L leave max(0, n - kL) of n eligible files. |
| StoreWorker.RoundsDrain | internal/protectedstore/lifecycle.go:280-310 | And then they are gone exactly from the ceil(n / L)-th run on. |
| StoreDeletions.SqlPurgesIff | internal/protectedstore/postgres_repository.go:700-714 | Over the SQL tables a purge of an eligible file answers with success either way, and takes the file off the list exactly when no unfinished operation row stands under its key. |
| StoreDeletions.SqlRunTakes | internal/protectedstore/lifecycle.go:280-310 | One worker run, whatever the database does: exactly the files whose transaction goes through, answered or not, and under whose key no unfinished row stands leave the list, and what is counted as completed is every file for which no error was told. |
| StoreDeletions.RetryForgotten | internal/protectedstore/postgres_repository.go:929-949 | A purge that took effect answers a retry with its first result exactly when no failure was recorded for it; one whose commit was answered with an error is recorded as failed and answers with nothing. Only the first answer lists the objects. |
| StoreDeletions.SqlDrainsIff | internal/protectedstore/lifecycle.go:280-310 | With a covering page and no failure the backlog is gone after a run exactly when no eligible file is stuck behind such a row; what is left is the stuck files. |
| StoreDeletions.StuckForEver | internal/protectedstore/postgres_repository.go:929-949 | A stuck file stays as it is, eligible and stuck, through any number of later runs at any instants, failing or not. |
| StoreDeletions.StuckKeepsKeys | internal/protectedstore/postgres_repository.go:750 | So none of its keys is ever destroyed by the worker. |
| StoreDeletions.StuckPageStarves | internal/protectedstore/lifecycle.go:280-310 | A page of stuck files changes nothing, so the next run may meet the same page and no other file gets its turn. |
| StoreRewrap.RewrapOne | internal/protectedstore/rewrap.go:61-98 | A current candidate unwraps, its commit matches, only its wrapper changes, and it leaves the pending set. |
| StoreRewrap.StaleIff | internal/protectedstore/rewrap.go:61-68 | A version is to be rewrapped exactly when its recorded wrapping, or where none was recorded its own key, is not the ring's key in its current version. |
| StoreRewrap.BatchIs | internal/protectedstore/memory_repository.go:125-139 | A batch holds stored, live and stale versions, and all of them when it is not full. |
| StoreRewrap.BatchMoves | internal/protectedstore/rewrap.go:61-98 | Within a batch the next candidate still unwraps and commits, and the batch moves on by exactly one. |
| StoreTwoCopies.SecondCopyIsStale | internal/protectedstore/memory_repository.go:225-258 | With two row copies, as the in-memory code keeps them, the second copy names the registered version for ever. |
| StoreTwoCopies.TrashKeepsCurrentIff | internal/protectedstore/memory_repository.go:392-432 | So moving to or from the trash keeps the current version exactly when it is the registered one. |
| StoreTwoCopies.RestoreIsLost | internal/protectedstore/memory_repository.go:392-432 | A trace in which a restore is undone by a move to the trash and back. |
| MemoryStore.MemoryRepository.constructor | internal/protectedstore/memory_repository.go:26-28 | A new repository is empty. |
| MemoryStore.MemoryRepository.Create | internal/protectedstore/memory_repository.go:77-85 | The first envelope committed for an operation wins; a later one is answered with it. |
| MemoryStore.MemoryRepository.RegisterInitial | internal/protectedstore/postgres_repository.go:246-282 | Recognises the upload by owner and current version, and fails if that file is trashed or purged; refuses a version or operation that some history holds; otherwise adds a file with one version. |
| MemoryStore.MemoryRepository.FindVersion | internal/protectedstore/memory_repository.go:206-224 | The nested search finds metadata exactly for a version of an active file of that owner. |
| MemoryStore.MemoryRepository.CommitRestore | internal/protectedstore/postgres_repository.go:343-399 | Recognises a known operation, refuses a lost file or source, or adds the restored version in front with all others superseded. |
| MemoryStore.MemoryRepository.CreateGrant | internal/protectedstore/postgres_repository.go:411-449 | Updates the recipient's unrevoked grant if there is one and otherwise adds one, on active files only. |
| MemoryStore.MemoryRepository.RevokeGrant | internal/protectedstore/memory_repository.go:302-313 | Revokes exactly the owner's unrevoked grant. |
| MemoryStore.MemoryRepository.Authorize | internal/protectedstore/memory_repository.go:315-331 | The search in map order finds access exactly when the file is neither in the trash nor purged and the requester owns it or has a grant on it, unrevoked and unexpired, that is for downloading if that is what is asked. |
| MemoryStore.MemoryRepository.ListSharedFiles | internal/protectedstore/memory_repository.go:355-369 | The loop's listing agrees with the authorization rule: same files, once each, same permission. |
| MemoryStore.MemoryRepository.MoveToTrash | internal/protectedstore/memory_repository.go:392-419 | Guards in order, then the row and every grant of the file are changed; a file already there is left alone. |
| MemoryStore.MemoryRepository.RestoreFromTrash | internal/protectedstore/memory_repository.go:420-432 | Takes a trashed file back, and nothing else. |
| MemoryStore.MemoryRepository.Erase | internal/protectedstore/memory_repository.go:455-468 | The nested loop destroys exactly the existing keys of the file's versions, and counts and lists them. |
| MemoryStore.MemoryRepository.Purge | internal/protectedstore/memory_repository.go:433-481 | Answers a known operation with its first result; otherwise guards, erases, marks, revokes and records. |
| MemoryStore.MemoryRepository.SetRetention | internal/protectedstore/memory_repository.go:482-495 | Deadlines only move forward while one is set. |
| MemoryStore.MemoryRepository.SetLegalHold | internal/protectedstore/memory_repository.go:496-509 | Sets or lifts a hold on a file that is not purged. |
| MemoryStore.MemoryRepository.LifecycleSummary | internal/protectedstore/memory_repository.go:510-535 | The loop's counts are those of the rows that are active, in the trash, retained, held, purged and eligible; every row is one of active, trashed and purged. |
| MemoryStore.MemoryRepository.EligibleForPurge | internal/protectedstore/memory_repository.go:546-560 | Collects, sorts and cuts off: files in the trash whose grace period and retention are over and which no hold keeps, once each, with deadlines that never decrease, up to the limit. |
| MemoryStore.MemoryRepository.ListDEKRewrapCandidates | internal/protectedstore/memory_repository.go:125-139 | Collects stale live versions up to the limit, and all of them when below it. |
| MemoryStore.MemoryRepository.CommitDEKRewrap | internal/protectedstore/memory_repository.go:141-152 | Replaces the wrapper only if it is still the one that was read. |
| MemoryStore.SortByDeadline | internal/protectedstore/memory_repository.go:555 | Orders rows by deadline, keeping each row once. |
| StoreService.RewrapDEKs | internal/protectedstore/rewrap.go:53-105 | A limit outside 1 to 100 is refused; an uninterrupted batch completes every candidate, fails and skips none, takes exactly the batch from the pending set, and changes envelopes in their wrappers only. |
| StoreService.ProcessDuePurges | internal/protectedstore/lifecycle.go:280-310 | One run over the in-memory purge completes exactly the files of its page whose generated key has eight to 128 characters, which are then purged, counts the others as failed, and changes no other file. |
| StoreProtect.ProtectedStore.Protect | internal/protectedstore/service.go:141-233 | A known operation of the same owner returns the committed version and changes nothing; a request that fails its checks changes nothing; otherwise the store ends as the specification says for each answer of the database and each outcome of the removal, and the call succeeds exactly when the insert is answered. A new operation is refused as invalid or for its integrity exactly when a field is out of order, or the bytes differ from the declared size, or from the digest in more than case, and then nothing changes; what it returns carries the request's fields, this draw's version and instant, and the digest of the bytes. |
| StoreProtect.ProtectedStore.WriteAndInsert | internal/protectedstore/service.go:216-232 | Writes the object, inserts its metadata and, whenever that reports an error or finds the operation known, removes the object again, in that order. |
| StoreProtect.EndedKeeps | internal/protectedstore/service.go:216-232 | However the insert ends and whether or not the removal succeeds, the invariant holds and nothing is left in flight. |
| StoreProtect.EndedOpens | internal/protectedstore/service.go:216-232 | A refused insert leaves no envelope; any other leaves one that opens to the source, unless the insert was doubtful and its object removed. |
| StoreProtect.ProtectedStore.OpenCurrent | internal/protectedstore/catalog.go:81-92 | Opens exactly the active files of the owner whose current version's object is in place, to the bytes that version was sealed from. |
| StoreProtect.ProtectedStore.Restore | internal/protectedstore/catalog.go:101-133 | The file moves exactly when the source is found with its object in place, the key is valid, the insert is answered or an earlier attempt's version is taken over, and the last commit takes effect, and the call succeeds exactly when that is answered too; what becomes current opens to the source's bytes unless its own object is missing, which only happens with a version taken over. |
| StoreProtect.EarlierAttemptOpens | internal/protectedstore/catalog.go:117-124 | What an earlier attempt at the same restore protected opens to the source's bytes exactly while its own object is in place. |
| StoreExample.UploadedFileOpens | internal/ingest/manager.go:1001-1034 | Any accepted upload, protected, committed and registered, becomes a file that opens to its bytes. |
| StoreExample.TrashedFileIsPurged | internal/protectedstore/memory_repository.go:433-481 | Such a file in the trash is refused one microsecond before 2,592,000 seconds are over, and at their end its one key is destroyed with its one object named. |
| StoreExample.ReadIsNotDownload | internal/protectedstore/access.go:117-135 | A file shared for reading is read and not downloaded by its recipient; shared again for downloading it is downloaded; from its expiry on it is neither. |
| StoreExample.InvariantAlong | internal/protectedstore/memory_repository.go:392-481 | The invariant holds in each world of that life, so the premises of the purge theorems are met. |
| StoreExample.PurgeLeavesRestore | internal/protectedstore/catalog.go:117-132 | A life in which a restore is protected, its file trashed and purged before the restore is committed: the restore's envelope still opens to the file's bytes. |
| StoreExample.ListedAndLost | internal/protectedstore/service.go:224-227 | A life in which the first commit is doubtful and cleaned up: the upload becomes a listed file that fails its integrity check. |
| StoreExample.RetryMovesToLost | internal/protectedstore/catalog.go:117-132 | A restore whose insert was doubtful and cleaned up, tried again: it succeeds and makes the lost version current, while its source still opens. |
| StoreExample.OneFailureSticks | internal/protectedstore/postgres_repository.go:929-949 | A due file whose purge the database failed once: every later run, at any instant, counts it as completed, and its key is never destroyed. |
| IngestSafety.ActKeeps | internal/ingest/manager.go:907-1118 | Every effect of every task, whatever the environment answers, keeps ingestion's invariant. |
| IngestSafety.RecoverKeeps | internal/ingest/manager.go:411-444 | Recovering a row keeps the invariant. |
| IngestSafety.CrashKeeps | internal/ingest/manager.go:397-453 | A crash between any two effects keeps the invariant. |
| IngestSafety.StepKeeps | internal/ingest/manager.go:397-453 | Every event does: an admission, a repeated key, an effect, a crash, a recovery, a restore of a file at any time, and its trashing or return. |
| IngestSafety.RunKeeps | internal/ingest/manager.go:397-453 | The invariant holds after every run with any number of crashes, ambiguous writes and failures, with no premise about users. |
| IngestRuns.CrashSafe | internal/ingest/manager.go:987-1050 | In every state of every run an upload has at most one logical file; a row persisted as stored has committed metadata and exactly one file, registered with that version; and the version was written for this upload. Whether its object is in place is the row two below. |
| IngestRuns.ProtectedOnlyIfAccepted | internal/ingest/manager.go:943-973 | Committed metadata implies an earlier event that is the scanner's answer about this very upload, taken while its task was to scan, with an acceptance, and after that a state whose row was persisted as accepted. |
| IngestRuns.PersistedOnlyIfScanned | internal/ingest/manager.go:930-967 | So does any acceptance that was ever persisted: no other answer of the scanner, and no missing one, leads there. |
| IngestRuns.OtherVerdictEnds | internal/ingest/manager.go:943-986 | A scan answered in any other way ends, without a crash, as rejected for the upload's readers if it was answered and the verdict was persisted, and as failed otherwise, with no metadata and no acceptance from that task. |
| IngestEndings.SmoothStores | internal/ingest/manager.go:907-1050 | An admitted upload whose every effect succeeds ends as stored, in its row and for its readers, under the received size, with its version's object in place, exactly one file, listed and at that version, and no plaintext. |
| IngestEndings.RefusedEnds | internal/ingest/manager.go:1053-1127 | From the first refused effect on, whichever it is, with everything later answered: an upload being received leaves nothing; one being inspected or protected ends as failed in its row and for its readers, without its plaintext, with the metadata and files there were. |
| IngestEndings.EmptyOrUncommittedEnds | internal/ingest/manager.go:644-656 | An empty body leaves nothing either, and a refused commit takes its own object, and no other, with it. |
| IngestEndings.RowIsWritten | internal/ingest/manager.go:907-1118 | One effect changes the row only by persisting that task's own status with the received size, or by removing the row, and only if it takes effect; the plaintext goes only by an answered removal. |
| IngestRuns.CommittedAfterWrite | internal/protectedstore/service.go:220-232 | Committed metadata names a version whose object was in place at the very step that committed it. |
| IngestRuns.OneVersion | internal/protectedstore/memory_repository.go:77-85 | Once committed, an upload's metadata names the same version in every later state. |
| IngestRuns.TaskEnds | internal/ingest/manager.go:907-1118 | Without a crash every task ends within 22 effects, whatever the answers, and readers then see a final status or nothing, unless the upload had no task to begin with, its row having come back with a repeated key. |
| IngestRuns.StuckIff | internal/ingest/manager.go:519-534 | After every run, readers see an upload that is not finished and that nobody works on exactly when its key was repeated after memory had dropped it and the repository had not, and the process has run on since. |
| IngestRuns.ShownAndForgotten | internal/ingest/manager.go:519-534 | Such a state is reached: the quarantine object cannot be created, the row cannot be removed, and the owner tries again. |
| IngestRuns.ObjectMissingIff | internal/protectedstore/service.go:224-227 | After every run, the object of an upload's committed version is missing exactly when the commit took effect but was answered with an error and the removal that follows succeeded; a row that says stored is no exception. |
| IngestRuns.StoredWithoutObject | internal/protectedstore/service.go:224-227 | A reachable state with a row persisted as stored, its metadata and listed file, no object and no plaintext: doubtful commit, removal, crash, recovery. |
| IngestRuns.FileIff | internal/protectedstore/postgres_repository.go:246-282 | After every run an upload has a file, and exactly one, exactly when a registration of it took effect, whatever its answer and whatever its row says. |
| IngestRuns.FailedFileIff | internal/ingest/manager.go:1029-1032 | So a row that says failed has a file exactly then. |
| IngestRuns.RegisteredFailsIff | internal/ingest/manager.go:1029-1049 | Without a crash an upload whose registration takes effect goes on to fail exactly when the answer is an error, or its file has moved on or is no longer listed, or the row that says stored cannot be persisted. |
| IngestRuns.RegisterRefusedIff | internal/protectedstore/postgres_repository.go:246-282 | When protection registers an upload and the database answers, the upload goes on to fail exactly when its file is there already and has moved off the committed version or is no longer listed; either way it has exactly one file. |
| IngestRuns.FailedWithFile | internal/ingest/manager.go:1029-1032 | A reachable state with a row persisted as failed whose listed file exists, the plaintext being gone: register, crash, restore, recover. |
| IngestManager.Manager.RecoverOne | internal/ingest/manager.go:411-442 | One row of the start-up loop: failed if reception was incomplete or its bytes are gone, left if final, and put back to work otherwise, at inspection or at protection by what its row says. |
| IngestManager.Manager.Restart | internal/ingest/manager.go:410-452 | The start-up loop keeps the invariant; when it gets through, every persisted upload is in memory and each unfinished one has its bytes and a task. |
| Capacity.StepCovered | internal/ingest/repository.go:78-179 | Every step of sized uploads keeps reservations attached to rows whose size they cover. |
| Capacity.ChargesAre | internal/ingest/repository.go:130-144 | An upload is charged its reservation's bytes, to that owner, while it holds one, and otherwise its row's size unless it was rejected or has failed. |
| Capacity.RowIff | internal/ingest/repository.go:78-111 | In any run a row is there exactly from its creation to its deletion, whatever happens to its reservation. |
| Capacity.OtherStepsCharge | internal/ingest/repository.go:78-111 | Nothing but a granted reservation, and a size committed after its reservation is gone, raises any total. |
| Capacity.ReserveCharges | internal/ingest/repository.go:113-157 | A reservation keeps everyone's and its owner's total within what its request allows, or within what it was, and no other owner's total grows. |
| Capacity.CapacityConserved | internal/ingest/repository.go:113-157 | In any run of reservations, size commits, status changes, releases, expiries and deletions of sized uploads the total charged exceeds capacity minus reserve by no more than what was committed after its reservation had expired. |
| Capacity.QuotaConserved | internal/ingest/repository.go:145-147 | Likewise one owner's charges and the largest quota its requests were made with, up to what that owner committed late. |
| Capacity.LateCommit | internal/ingest/manager.go:657-672 | A size committed after its reservation is gone raises the total by the whole size: the bound survives exactly when there was room. |
| Capacity.ExpiredBeforeCommit | internal/ingest/repository.go:119-123 | A run of five events that doubles the capacity that way. |
| CapacityBook.MemoryRepository.constructor | internal/ingest/repository.go:64-66 | A new book is empty. |
| CapacityBook.MemoryRepository.Create | internal/ingest/repository.go:78-88 | A retry with the owner's key finds the first row; otherwise a quarantined row of size zero is added and indexed, so an owner has one row per key. |
| CapacityBook.MemoryRepository.Update | internal/ingest/repository.go:90-98 | Replaces an existing row's size and status. |
| CapacityBook.MemoryRepository.Delete | internal/ingest/repository.go:100-111 | Drops the row, its reservation and its index entry, so the key is free again. |
| CapacityBook.MemoryRepository.Sweep | internal/ingest/repository.go:119-123 | The loop drops exactly the expired reservations. |
| CapacityBook.MemoryRepository.Usage | internal/ingest/repository.go:130-144 | The two loops of 64-bit additions come to one owner's and everyone's charges, without wrap-around when the total fits. |
| CapacityBook.MemoryRepository.ReserveCapacity | internal/ingest/repository.go:113-157 | Refuses an unreasonable request without a change, a known upload with other terms, one beyond its owner's quota, and one beyond the capacity, in that order, and grants every other; expired reservations go, and no other changes; with 64-bit sums that do not wrap around under the capacity bound. |
| CapacityBook.MemoryRepository.ReleaseCapacity | internal/ingest/repository.go:159-164 | Drops the reservation. |
| CapacityBook.MemoryRepository.CapacityReservationSummary | internal/ingest/repository.go:166-179 | Counts and adds up the reservations that have not expired. |
| StreamQuota.StepKeeps | internal/ingest/manager.go:588-614 | Each step keeps every owner's reservation equal to what its running streams hold, and, while quotas are not lowered, leaves the quota exactly when a row that comes back with a repeated key does not fit. |
| StreamQuota.CompleteKeeps | internal/ingest/manager.go:657-664 | Completion moves bytes from held to finished without changing their sum. |
| StreamQuota.BytesFreed | internal/ingest/manager.go:681-689 | Dropping a finished upload, or rejecting or failing it, gives its owner exactly its bytes back; any other change of status gives nothing back. |
| StreamQuota.QuotaIsLast | internal/ingest/manager.go:691-746 | An owner's quota is the last one set for that owner since the last reset, or the default; nothing else changes it. |
| StreamQuota.QuotaUnderInterleaving | internal/ingest/manager.go:519-664 | However the chunks of different uploads interleave, an owner's reservation is exactly the bytes its running streams hold; and while quotas are not lowered, finished and held bytes are within the quota in every state exactly when every row that comes back with a repeated key finds room. |
| MixedQuota.StepTables | internal/ingest/manager.go:474-680 | Every step of one process and its database, with admissions, repeated keys, chunks, completions, commits that are answered, refused or in doubt, failing clean-ups, status changes, expiries and restarts, keeps rows and memory together: an open upload's row is as created, later both have one size, and a reservation belongs to a declared size. |
| MixedQuota.StepStreams | internal/ingest/manager.go:519-614 | One step of an owner's streams, finished and held: a restart makes them what the rows say, a repeated key adds the row it brings back, and no other takes them beyond both what they used and the quota. |
| MixedQuota.AdmittedLeaves | internal/ingest/manager.go:535-567 | What an admission leaves in memory and in the tables, for each size declared and each answer: a refused one nothing in memory, its row only if that was not removed again, and a reservation only if the request took effect unheard and the row stayed. |
| MixedQuota.ForgottenLeaves | internal/ingest/manager.go:553-567 | What an undone upload leaves: nothing in memory, its row unless that was removed, and its reservation unless that was released or went with the row. |
| MixedQuota.PersistedLeaves | internal/ingest/manager.go:665-680 | What a commit leaves: answered, the received size in its row; with an error, an undone upload, whose row, if it stays, has the size when the commit took effect. |
| MixedQuota.RestartedLeaves | internal/ingest/manager.go:397-453 | What a restart leaves: memory is the rows, an incomplete one and an unfinished one without its plaintext as failed; no streams; and the reservations but for those of incomplete rows that were released. |
| MixedQuota.SmallSteps | internal/ingest/manager.go:691-746 | Giving up a running upload undoes it and leaves any other alone; a reservation is released unless its upload is open, and swept once its time is over; a quota is what it was last set to, or the default again. |
| MixedQuota.RetryFits | internal/ingest/manager.go:519-534 | A repeated key whose upload only the repository knows adds its whole row to what the owner's streams use, with no admission. |
| MixedQuota.RestartFits | internal/ingest/manager.go:397-453 | After a restart they use what the rows say that count. |
| MixedBounds.StepSized | internal/ingest/repository.go:113-157 | A step takes an owner's declared sizes beyond what was charged or the quota exactly by a size committed without its reservation. |
| MixedBounds.TwiceTheQuota | internal/ingest/manager.go:535-548 | After every run: streams stay within the largest quota the owner had, but for what restarts and repeated keys bring back; declared sizes within it, but for what was committed after its reservation had gone; so both together within twice that quota and those two. |
| MixedBounds.SizedWithinIff | internal/ingest/manager.go:657-672 | Declared sizes are within the largest quota so far in every state of a run exactly when every size committed without its reservation found room. |
| MixedBounds.StreamsWithinIff | internal/ingest/manager.go:411-534 | Streams are within the largest quota so far in every state exactly when at every restart the rows that will count fit, and at every repeated key the row that comes back. |
| MixedBounds.OneKindIff | internal/ingest/manager.go:588-614 | With only one kind of upload, everything the owner has is within the largest quota so far in every state exactly when that kind's condition holds. |
| MixedBounds.LateAfterExpiry | internal/ingest/repository.go:119-123 | A size is late only if, after its admission, the repository looked for expired reservations a whole lifetime later; one committed before that never is. |
| MixedBounds.QuotaTwice | internal/ingest/manager.go:597-603 | Twice the quota is reached, by streaming it and then reserving it. |
| MixedBounds.QuotaThrice | internal/ingest/repository.go:119-123 | Three times, when a reservation expires while its upload still streams, another upload takes its place, and the first commits. |
| MixedBounds.RevivedTwice | internal/ingest/manager.go:1099-1118 | Twice by streams alone over a restart: an upload is persisted as stored, memory is told otherwise and gives it up, another is received, and the database brings the first back. |
| MixedBounds.RetriedTwice | internal/ingest/manager.go:519-534 | Twice by streams alone in one process: a commit in doubt leaves a row that memory drops, another upload is received, and the first key is repeated. |
| StreamManager.QuotaManager.Reuse | internal/ingest/manager.go:519-534 | A row that only the repository knows is taken over as it is. |
| StreamManager.QuotaManager.OwnerQuotaUsage | internal/ingest/manager.go:681-689 | The loop adds up the owner's finished bytes that count. |
| StreamManager.QuotaManager.Receive | internal/ingest/manager.go:597-612 | A chunk is held exactly if finished and held bytes leave room for it within the owner's quota; otherwise the upload is undone and forgotten. |
| StreamManager.QuotaManager.Undo | internal/ingest/manager.go:553-567 | Cleanup returns what the stream holds and forgets the upload. |
| StreamManager.QuotaManager.Return | internal/ingest/manager.go:557-562 | Subtracts, and drops the owner's entry when nothing is left. |
| StreamManager.QuotaManager.End | internal/ingest/manager.go:644-664 | Hands the held bytes over as the upload's size; an empty body is no upload. |
| RateLimiter.RecentTwice | internal/api/rate_limiter.go:33-37 | Dropping old attempts now never changes what counts later. |
| RateLimiter.SameDecision | internal/api/rate_limiter.go:24-43 | With a clock that does not run backwards an attempt is let through exactly when fewer than the limit of all ever accepted for its key lie after the start of its window. |
| RateLimiter.LimitHolds | internal/api/rate_limiter.go:38-42 | Over the full history no window of the configured length holds more accepted attempts than the limit. |
| RateLimiter.LimiterLimits | internal/api/rate_limiter.go:24-43 | So what the compacting limiter lets through never exceeds the limit in any half-open window, per key. |
| RateLimiter.KeepsLimitIff | internal/api/rate_limiter.go:24-43 | Over every run whose clock is never more than a given step behind an earlier reading, no window of any key exceeds the limit, exactly when that step is zero, or the limit is at most one, or the window is empty. |
| RateLimiter.BackwardsClock | internal/api/rate_limiter.go:31-37 | An input for every limit above one and every window: one microsecond back, after a compaction, lets one more than the limit into a window. |
| RateLimiterLog.AttemptLog.Compact | internal/api/rate_limiter.go:31-37 | The log is filtered inside its own array. |
| RateLimiterLog.AttemptLog.Append | internal/api/rate_limiter.go:42 | One more instant at the end, in place or in a larger array. |
| RateLimiterLog.AllowIn | internal/api/rate_limiter.go:31-42 | One key's decision, made in place: let through exactly when fewer than the limit lie in the window; the log then holds those, in order, and the attempt if it was let through. |
| RateLimiterLog.Limiter.Allow | internal/api/rate_limiter.go:24-43 | Over the map of all keys: the key's own log is decided on, compacted and extended in place, one that was never seen is made, and no other changes, although all are arrays behind references. |
| Orphan.TokensStayUnique | internal/protectedstore/memory_repository.go:29-39 | One operation per token, in every run. |
| Orphan.EndsOnce | internal/protectedstore/memory_repository.go:41-52 | However many workers resume it and however often the process stops, an operation's end is recorded at most once and then never changes. |
| Orphan.RemovesOnlyAuthorized | internal/orphan/objects.go:119-147 | Resuming removes an object exactly when it is untracked and still the regular file, of that size and time, that an operation in the worker's own listing was authorized for. |
| Orphan.RunListings | cmd/server/main.go:368-384 | In every run, however old the listings, each listed operation is in the journal with the same object. |
| Orphan.ListedIff | cmd/server/main.go:366-384 | In every run a worker will resume an operation exactly if its last reading asked for it and found it open, and it has not resumed it since and the process has not stopped. |
| Orphan.RemovalOpenIff | cmd/server/main.go:368-405 | From reading an open operation until resuming it, the operation is still open exactly when no one has recorded its end meanwhile; so a removal needs no open operation, and lacks one exactly when another worker was quicker. |
| Orphan.StaleRemoval | internal/api/server.go:1176-1215 | An input: one worker records a failure because the object is tracked, the metadata goes, and another, with an older listing, removes the object under the failed operation. |
| Orphan.CompletedIff | internal/orphan/objects.go:119-147 | The answer is completed exactly when the object is untracked and gone, before or by this call. |
| Orphan.RemovalIsCompleted | cmd/server/main.go:366-408 | After a removal and any crashes the operation never ends as failed, and the next time anyone reads, resumes and completes it, it is completed, as long as the name is not used again and no failure for it was recorded or waiting. |
| Orphan.FirstRecordedCounts | internal/protectedstore/memory_repository.go:41-52 | An operation ends as failed, for ever, exactly when the first outcome recorded for it is a failure. |
| Orphan.StaleFailure | cmd/server/main.go:381-405 | Without that premise: a worker that looked while the object was tracked records a failure after another has removed it. |
| OrphanJournal.Journal.Authorize | internal/protectedstore/memory_repository.go:29-39 | The loop finds the operation of a token already authorized, or adds one. |
| OrphanJournal.Journal.Complete | internal/protectedstore/memory_repository.go:41-52 | Ends an operation that is still authorized, and no other. |
| OrphanJournal.Directory.List | internal/orphan/objects.go:37-76 | The scan yields exactly the untracked regular files of the zone, each once with its age verdict, the oldest first. |
| OrphanJournal.Directory.ResumeOperation | internal/orphan/objects.go:119-147 | Checks name, tracking, presence and attributes in that order, each failure with its own reason, and removes the object in place exactly when all hold. |
| Mfa.Truncate | internal/authn/mfa.go:258-266 | The code stays below one million and the four bytes are read inside the digest. |
| Mfa.TruncationMatches | internal/authn/mfa.go:258-266 | The code is the dynamic truncation of section 5.3 of RFC 4226: four bytes from where the low four bits of the last byte point, as one number without its top bit, and its last six digits. |
| Mfa.TotpCodeIs | internal/authn/mfa.go:258-266 | The code of a counter is that of the digest, under the secret, of eight bytes that give the counter back. |
| Mfa.TrimmedSays | internal/authn/mfa.go:240-248 | What a submitted code says is read off it: white space around six characters that are six digits, or a sign and five. |
| Mfa.MatchedIff | internal/authn/mfa.go:240-257 | A code is accepted for a counter exactly when it says the code of the thirty-second step of the instant, or else of the step before, or else of the step after. |
| Mfa.ChosenInTime | internal/authn/mfa.go:249-251 | So at n seconds it is accepted only for a counter c with 30 c - 30 <= n < 30 c + 60, whose code it says. |
| Mfa.LoginByCode | internal/authn/mfa.go:112-188 | A login by a code needs an open challenge and such a code, newer than the user's last counter, which it becomes; and the code of the instant's own step, if newer, always gets in, as an enrolment exactly when the challenge has a pending secret. |
| Mfa.StepUpByCode | internal/authn/step_up.go:46-66 | A step-up by a code likewise; a refused one changes nothing. |
| Mfa.RecoveryCodesWork | internal/authn/mfa.go:146-154 | After an enrolment each recovery code is unused and gets a login by its normal form, after which it alone is used. |
| Mfa.CountersIncrease | internal/authn/mfa.go:155-178 | From the thirtieth second of 1970 on, each user's accepted counters strictly increase over any run of logins and step-ups. |
| Mfa.RepeatedIff | internal/authn/mfa.go:170-178 | Of two open challenges of one user an acceptable code opens the first; it opens the second too exactly when the step it matches is negative, which takes an instant before the thirtieth second of 1970. |
| Mfa.RepeatedAtTheEpoch | internal/authn/mfa.go:170-178 | An input: at instant zero a user enrols and opens two challenges, all with one code, so that one counter is accepted three times. |
| Mfa.ChallengesOnce | internal/authn/memory_repository.go:316-325 | A challenge token succeeds at most as often as it was issued. |
| Mfa.RecoveryOnce | internal/authn/memory_repository.go:353-364 | Each recovery code of a user gets one login at most. |
| MfaRepository.ValidateTOTP | internal/authn/mfa.go:240-257 | The loop over the current step and its neighbours accepts exactly the counters of the row of `MatchedIff`: at n seconds only c with 30 c - 30 <= n < 30 c + 60, and always the instant's own step if the code is its. |
| MfaRepository.Repository.ConsumeMFAChallenge | internal/authn/memory_repository.go:316-325 | Hands out an unexpired challenge once. |
| MfaRepository.Repository.ConfirmMFA | internal/authn/memory_repository.go:326-338 | Enrols a user who has no configuration, with unused recovery codes. |
| MfaRepository.Repository.AdvanceMFACounter | internal/authn/memory_repository.go:339-352 | Moves a user's counter forward only. |
| MfaRepository.Repository.ConsumeMFARecoveryCode | internal/authn/memory_repository.go:353-364 | Uses an unused code once. |
| MfaRepository.Repository.CompletePrivilegedLogin | internal/authn/mfa.go:112-188 | The second step of a login, in place: what it accepts a code for, when, and under which secret is as in the row of `LoginByCode`, and the code of the instant's own step, if newer than the last, gets in. |
| MfaRepository.Repository.CreateStepUpProof | internal/authn/step_up.go:46-66 | The code check of a step-up, in place, with the bounds in seconds of the row of `StepUpByCode`. |

## Left out

- Inputs from outside are parameters: clocks, random IDs, keys and nonces, the scanner's verdict, and the success or failure of each write.
- One row per file, as in the SQL repository; the in-memory form with two copies is kept apart in `StoreTwoCopies`.
- `CommitRestore`, `CreateGrant` and `RegisterInitial` carry the SQL repository's checks and unique columns, which the in-memory forms lack (`StoreRegistration` keeps the in-memory registration apart); `Purge` follows the in-memory form, and `StoreDeletions` the SQL form with its operation rows.
- Digests of owner, file, source and key, of orphan attributes and of limiter keys are taken to determine them; an owner, file or key text containing a NUL byte is not considered.
- RFC 3339 formatting is an injective function on instants with a parser; it is not spelled out.
- Unicode white space: trimming covers ASCII white space only, and trimming of idempotency keys and hold reasons before their length check is not modelled.
- The objects a purge reports are a set, since their order is a map order; best-effort removal of the files afterwards is a separate step that touches untracked objects only.
- Library sorts: ties keep no particular order, the listing of shared files and of pending orphan operations is not sorted.
- AuditService.Service.PendingOutbox: rows of equal time follow the database's collation of their IDs, which is left open.
- MemoryStore.MemoryRepository.ListDEKRewrapCandidates: which stale versions come first when the limit cuts off is left open, because the source takes them in map order.
- StoreService.RewrapDEKs: the count of remaining versions is the in-memory posture, which also counts destroyed keys under old wrappers; audit intents and concurrent changes between listing and commit are not part of this method (stale candidates are covered by `StoreInvariant.RewrapKeeps`).
- StoreDeletions.StuckForEver: runs of the worker only; a move out of the trash and back gives the file a new deadline and so a new key, and its owner may purge it under a key of their own.
- StoreDeletions.SqlRunTakes: nobody changes the files while a run is under way.
- StoreWorker.BacklogIsQueue: nothing but the worker changes files between its runs.
- Capacity.ReserveCharges: a refused request sweeps expired reservations, as in memory; in SQL that is rolled back and the summary deletes nothing, which `MixedQuota` covers with its refused answers.
- StoreProtect.ProtectedStore.Protect: the staging file, its rename and failures of the file system other than that of the removal are not modelled; an interrupted protection is in `StoreModel` as a step that crashes or aborts.
- StoreProtect.ProtectedStore.Restore: concurrent changes of the file between its steps are covered by the runs in `StoreModel`.
- IngestRuns.ObjectMissingIff: the objects of versions that restores made are not followed there; `StoreContent.MissingIffLost` covers them.
- Which key belongs to which upload (a repeated key is a step about its upload), upload names and media types, scanner time limits and the digest computed while streaming; the tasks `inspect` and `protect` are steps of a state machine rather than methods, since a crash may fall between any two of their effects.
- A quarantine object left behind by a crash after its row was stored is not claimed to be removed.
- Capacity.CapacityConserved: covers uploads that declare their size; uploads without one are accounted for in `StreamQuota`, and `MixedBounds` has both, one owner's bytes under one process.
- StreamManager.QuotaManager.OwnerQuotaUsage: sums are unbounded integers there; 64-bit additions are modelled in `CapacityBook`.
- OrphanJournal.Directory.ResumeOperation: looking and removing are one step, since the race with a writer rests on the one-hour age rule; names are accepted when they contain no slash and are not `.` or `..`.
- Orphan deletion straight from a preview token (`Delete` in `internal/orphan/objects.go`), without the journal.
- MixedBounds.TwiceTheQuota: tasks are there only as the status changes they make, which never lead back to a status that counts; other processes that share the database are not.
- Mfa.CountersIncrease: passwords, account locks, failure counters, sessions and step-up proofs themselves are left out; a recovery code is its normal form rather than a salted digest.
- Remote anchors, key brokers, mailers, HTTP, telemetry, migrations and all listing, searching and posture reports.
