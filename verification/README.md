# SkillMap core, modelled and proved

Dafny models of the parts of SkillMap that finite tests cannot settle: protocols that
crash and interleave, codecs that must be unambiguous, and optimised code that must
equal its plain meaning. Run `dafny verify dfyconfig.toml` in this directory.

## What is modelled

**Local quarantine** (`QuarantineModel`, `QuarantineSafety`, `QuarantineTheorems`,
`QuarantineMoves`, `QuarantineRounds`, `QuarantineFirstCall`). Any
number of executors of one operation step through reads, the exclusive intent write,
the atomic no-replace move and the exclusive receipt write. They interleave freely,
crash anywhere and fail on any read. The environment may also edit the tree inside the
moved object.

**Job ledger** (`JobModel`, `JobHistory`, `JobStates`, `JobLedger`, `JobAdmission`,
`JobCrashes`).
`JobModel` names each single write, rename and unlink under the ledger lock, with a
crash possible between any two; a record is replaced by a temporary file and a rename.
`JobHistory` proves what holds over every history of them. The class `JobLedger` is the
code: its methods carry a ghost history of their writes and prove it to be one of those
histories. `JobCrashes` gives histories in which crashes do lasting harm.

**Credential helper** (`Utf8`, `Tlv`, `CredentialCodec`, `CredentialSizes`,
`CredentialIds`, `CredentialStore`, `CredentialRuns`, `CredentialCommits`). The nested field codec, the class `Helper` over the stored bytes, and
the abstract refresh machine that the class refines through the codec. Every call may
find the keychain unreadable or unwritable.

**Policy and routing** (`PolicyModel`, `PolicyMigration`, `PolicyDecision`,
`PolicyValidity`, `PolicyStoreModel`, `PolicyStore`, `PolicyText`, `PolicyRoundTrip`,
`PolicyExact`, `PolicyEffects`, `PolicyCanonical`, `RankerModel`, `PhraseSearch`,
`Ranker`, `RankPrompt`, `RankerTheorems`, `RankerScores`,
`RankerChanges`, `RankerHook`). Migration and duplicate
decisions with the effective registry, the write-once artifacts with their active
pointer, the printed policy, and the ranker with its index, bounded selection and
bounded logs.

**Canonical encodings** (`CanonicalJson`, `JsonMeaning`, `ManifestModel`, `ManifestTheorems`,
`ManifestCanonical`, `ManifestMeaning`, `ManifestOrder`, `ManifestWitness`,
`ContentDigest`, `ContentMeaning`, `TreeRevision`, `Der`, `DerReading`,
`DerAccepts`, `MoveFrame`, `MoveMeaning`,
`Crc32`, `ChecksumDetects`, `Png`, `PngMeaning`). JavaScript strings are sequences of UTF-16 units throughout, so lone surrogates
are part of the inputs (`Utf16`, `TextEncoding`).

**Identity history** (`IdentityModel`, `IdentityScan`, `IdentityHistory`,
`IdentityOpen`, `IdentityMeaning`). One scan as code, and any sequence of scans, receipts, approvals and
re-adoptions.

`Common`, `Bytes`, `Sequences`, `Sorting`, `Lexical`, `Decimals` and `PathParts` are
shared support.

A digest is the hashed value under a constructor, or the value of a function parameter;
then a theorem that needs it asks that the hash does not collide on the byte strings at
hand. Character classes,
NFC, case folding, collation and the validity rules of single fields are function
parameters, with no law but those a theorem names in its `requires`.

## What the code does beyond its documentation

These are facts about the code, each proved by the named lemma.

- A full ledger that holds an anchor without an embedded job (the older form) whose
  record is gone refuses every new job: nothing repairs it (`JobAdmission.AdmissionOutcome`).
- A crash between the write and the rename of a record replacement leaves a temporary
  file that nothing removes and the scan cap counts. After 33 of them a full ledger
  refuses listing, cancellation and admission for good (`JobCrashes.JammedForGood`,
  `JobCrashes.JamHappens`, `JobLedger.NothingToClean`).
- A finished job can be queued again after a crash between the two removals of its
  eviction (`JobCrashes.RevivalHappens`), and in no other way
  (`JobHistory.RevivedOnlyByRepair`).
- The credential record decoder ignores its field count (`CredentialCodec.CountNotChecked`).
- The pattern of the public ids lets a line terminator at the end through, because `$`
  also matches in front of it; the id is then silently dropped when the record is
  written (`CredentialIds.LineEndDropsId`, `CredentialIds.ValidReturnsIff`).
- A replayed refresh commit is recognised by generation and token alone, so it can be
  accepted without the record it carries being stored
  (`CredentialRuns.AcceptedNotStoredHappens`; exactly when, `CredentialRuns.AcceptedIsStored`).
- An empty tier passes the validation of a version 1 policy and migrates into a version 2
  policy that its own validation refuses; so does a blank name that several skills bear
  (`PolicyValidity.FailingMigration`, `PolicyValidity.MigratedValidIff`).
- Rollback restores the source of the pointer it is given, which need not be the newest
  migration (`PolicyStoreModel.RollbackFollowsPointer`).
- `derToP1363` accepts trailing bytes inside the sequence (`Der.SignatureReturns`), an s
  that ends before its declared length (`DerReading.TruncatedAccepted`), negative
  integers (`DerReading.NegativeAccepted`), and an s of up to 64 bytes, which overwrites
  r (`Der.LongIntegerAccepted`). `DerReading.AgreesIff` says exactly when the result
  still denotes what the string encodes.
- Lone surrogates collapse to U+FFFD in the manifest, the digests and the move request
  (`TextEncoding.SurvivesIff`). Files whose paths differ only in them are accepted side
  by side and keep their input order, so the order shows in bytes and digests
  (`ManifestWitness.FailingInputExists`, `ContentDigest.FailingInputExists`; exactly
  when, `ManifestOrder.OrderForgottenIff`, `ContentDigest.OrderForgottenIff`).
- The helper of the move splits paths at characters, the encoder at units
  (`MoveFrame.RelativePathsAccepted`).
- The set of exact manifest paths never decides anything: folded paths decide alone
  (`ManifestCanonical.ParseFiles`).
- Path normalisation is not idempotent: a Kelvin sign becomes a drive letter
  (`TreeRevision.KelvinDrive`).
- A number sign in a policy value cuts the value when it is read again
  (`PolicyExact.CommentSignCuts`); what comes back unchanged is exactly
  `PolicyExact.PrintedParsesIff`.
- An issue is closed by an approval, by an adoption of it or, if it is a pending move, by
  its receipt, and by nothing else while its target is there under a name and a revision
  (`IdentityOpen.OpenIff`). An adoption closes an ambiguous issue too
  (`IdentityOpen.AdoptionCloses`).

## Model

| member | source | states |
|---|---|---|
| QuarantineSafety.NextKeepsInv | src/core/quarantine-execution.ts:528-679 | Every step of every executor, and every outside event, keeps: a receipt implies an owner whose object has landed; places differ from the start by at most the one move; what each executor has learnt so far is still true of the shared files |
| QuarantineSafety.RunKeepsInv | src/core/quarantine-execution.ts:528-679 | The same over any interleaving of any number of executors with crashes at any step |
| QuarantineSafety.Stable | src/core/quarantine-execution.ts:343-384 | What an executor knows about intent, receipt and places survives every step another executor may take |
| QuarantineTheorems.Conservation | src/core/quarantine-execution.ts:578-641 | No object is lost, duplicated or invented; at most one object ever moves, from the source of its preflight to its destination |
| QuarantineTheorems.ExactlyOnePlace | src/core/quarantine-execution.ts:578-641 | In every reachable state the object is in exactly one of source and destination, and nowhere else, if it began at the source with the destination free and the owners of the intent have the same preflight |
| QuarantineTheorems.NoMoveWithoutIntent | src/core/quarantine-execution.ts:583-624 | A step that moves the object is taken by an executor for which a durable intent carries its own authorization and preflight, snapshot and destination digests |
| QuarantineMoves.GoesOnIff | src/core/quarantine-execution.ts:168-213 | A call that begins, or is rechecked before the move, goes on if and only if its authorization binds its own preflight field by field and the clock is before its expiry; otherwise it fails for the first of the two reasons and changes nothing |
| QuarantineMoves.ExpiredMovesNothing | src/core/quarantine-execution.ts:205-213 | A call that begins or is rechecked at or after expiry fails for good, whatever happens next, and takes no further step |
| QuarantineMoves.MovesAreChecked | src/core/quarantine-execution.ts:583-624 | Before a call moves the object it has, in this order and each time under its own durable intent, found the source as in the snapshot, its tree unchanged, the destination free, its bound consent in force at that moment, the same object at the source and the destination still free |
| QuarantineMoves.MoveSays | src/core/quarantine-execution.ts:626-641 | The move takes the object of the snapshot, whole, from the path of the snapshot below the source root to the reserved path below the quarantine root, where nothing was, and touches nothing else |
| QuarantineMoves.ReceiptsAreChecked | src/core/quarantine-execution.ts:641-679 | Before a call writes the receipt it has found the tree of the snapshot at the destination and then the very object |
| QuarantineMoves.IntentSays | src/core/quarantine-execution.ts:578-590 | The durable intent records the digests of some call and a time, not in the future, at which that call's bound consent was in force |
| QuarantineMoves.ReceiptSays | src/core/quarantine-execution.ts:308-341 | The receipt says, field by field, the authorization, preflight, snapshot, tree and object of one call whose object has landed, the time of the intent, and a restore expiry 2592000000 ms later |
| QuarantineRounds.TenLooks | src/core/quarantine-execution.ts:343-384 | A call that waits for a concurrent move goes on until its tenth look and gives up exactly then; before that only a foreign object at the destination ends it |
| QuarantineFirstCall.FirstCallSucceeds | src/core/quarantine-execution.ts:528-679 | With the source as in the snapshot, the destination free, nobody else's intent, a bound consent that does not run out, no fault and no interference, a call returns a receipt of its landed object within 18 of its own steps, and until then never fails |
| QuarantineTheorems.ReceiptMeansLanded | src/core/quarantine-execution.ts:643-679 | A committed receipt is the one its intent determines, the source is empty and the destination holds the object of the snapshot |
| QuarantineTheorems.OneReceipt | src/core/quarantine-execution.ts:291-341 | Any two executors that return a receipt, at any two times, return the same one and hold the same authorization |
| QuarantineTheorems.ConflictOnlyForOthers | src/core/quarantine-execution.ts:291-306 | The idempotency conflict never reaches an executor whose authorization and preflight are those of the durable intent |
| QuarantineTheorems.RecoveryStep | src/core/quarantine-execution.ts:549-576 | After the move, a fault-free step of an executor within its consent brings it strictly nearer to the receipt and never to an error |
| QuarantineTheorems.RecoveryUndisturbed | src/core/quarantine-execution.ts:343-384 | Steps and crashes of other executors do not disturb such a recovery |
| QuarantineTheorems.RecoveryCompletes | src/core/quarantine-execution.ts:549-576 | After a crash between move and receipt, any later call before expiry returns the receipt of the stored intent within ten of its own steps, under any interleaving |
| JobHistory.NextKeepsInv | src/core/jobs.ts:105-147 | Each single write, temporary write, rename or unlink under the ledger lock, and a crash, keeps the ledger invariant |
| JobHistory.HistoryKeepsInv | src/core/jobs.ts:105-147 | In every state of every history there are at most 128 anchors, one for each job; records and cancellations belong to anchored jobs; each record has the identity its anchor embeds |
| JobHistory.AnchorsStay | src/core/jobs.ts:115-135 | An anchor never changes while it exists, so a repeated key always finds the same job and request digest |
| JobHistory.EvictsOldestTerminal | src/core/jobs.ts:510-532 | An anchor disappears only at the end of an eviction that began in a full ledger that could be scanned, with every job recorded, at a terminal job that was completed before every other, the least id among equal times; queued and running jobs are never evicted |
| JobHistory.CompletedFirst | src/core/jobs.ts:519-526 | The terminal job picked for eviction was completed no later than any other, each of which has a completion time, and among equal times it has the least id |
| JobStates.RecordsAreSound | src/core/jobs.ts:183-215 | In every state of every history a record is filed under its id, has the key and the digest of its own request, and has a start if running, a completion time if finished and an error if failed |
| JobStates.StatesChange | src/core/jobs.ts:326-329 | One write changes a record only from queued to running or cancelled, or from running to an end, and never what was asked and when |
| JobStates.FinishedStays | src/core/jobs.ts:326-329 | A finished job stays as it is while its record is there, and a running one is never queued again |
| JobStates.TransitionStamps | src/core/jobs.ts:183-215 | A transition stamps the start once and the completion when the job ends, takes a receipt for success and cancellation and an error for failure, and leaves everything else |
| JobStates.NewJobsAreQueued | src/core/jobs.ts:115-135 | A new job is queued with the time of its creation, its request and the digest of it, and its anchor, named by the digest of the key, embeds it |
| JobHistory.PruneBegan | src/core/jobs.ts:566-573 | Every pruning in progress goes back to one admission step on that very entry, with no other write in between |
| JobHistory.RecordsAppearQueued | src/core/jobs.ts:723-748 | A record appears only as exactly the queued job that its anchor embeds |
| JobHistory.RecordsVanishTerminal | src/core/jobs.ts:566-573 | A record disappears only in the eviction of its terminal job |
| JobHistory.RecordsMoveOnward | src/core/jobs.ts:326-329 | Between any two moments of a record its identity is fixed, each change of state is legal, and a terminal job never changes |
| JobHistory.RevivedOnlyByRepair | src/core/jobs.ts:566-573 | A finished job is unfinished again only if a crash cut its eviction between record and anchor, and then as the exact queued snapshot |
| JobLedger.RepairUnique | src/core/jobs.ts:482-486 | Repair of the records has one possible outcome, whatever order the anchors are visited in |
| JobLedger.RepairKeepsInv | src/core/jobs.ts:723-748 | Repair keeps the ledger invariant |
| JobLedger.SideBounds | src/core/jobs.ts:544-564 | Records and cancellations never outgrow the anchors |
| JobLedger.NothingToClean | src/core/jobs.ts:544-564 | In a sound ledger the cleanup removes nothing, and it succeeds if and only if records and temporary files together are at most 160 |
| JobLedger.JobLedger.AtomicReplace | src/core/jobs.ts:804-815 | A record is replaced by an exclusive write of a temporary file and a rename of it, two writes of the history |
| JobLedger.FirstIsOldest | src/core/jobs.ts:519-530 | The head of the sorted terminal jobs was completed no later than any other terminal job of the ledger, the least id among equal times; the list is empty exactly if none is terminal |
| JobLedger.AdmissionRetires | src/core/jobs.ts:510-532 | An admission that evicts takes exactly one job, terminal and completed no later than any other terminal job, the least id among equal times, with its cancellation, record and anchor |
| JobLedger.JobLedger.EnsureRecord | src/core/jobs.ts:723-748 | A missing record is written from the anchor, a present one must have the same identity, and nothing else changes |
| JobLedger.JobLedger.Reconcile | src/core/jobs.ts:482-486 | Afterwards exactly the missing repairable records are back, or the first mismatch is reported |
| JobLedger.JobLedger.ReadAnchors | src/core/jobs.ts:467-480 | The anchors as an index by job id, complete and without invention, in any directory order |
| JobLedger.JobLedger.Cleanup | src/core/jobs.ts:544-564 | Exactly the records and cancellations without an anchor go, and no temporary file does; it fails exactly on a directory over the scan cap or a cancellation that names another job |
| JobLedger.JobLedger.ReadAnchored | src/core/jobs.ts:534-542 | Lists exactly the records of the anchored jobs; in a sound ledger it fails exactly if one is missing |
| JobLedger.JobLedger.Prune | src/core/jobs.ts:566-573 | Cancellation, record and, last, anchor of one entry go; every other file stays |
| JobLedger.JobLedger.MakeRoom | src/core/jobs.ts:519-531 | Of a full ledger exactly the terminal job that JobHistory.CompletedFirst describes goes, or capacity is refused because no job is terminal |
| JobLedger.JobLedger.Retain | src/core/jobs.ts:514-531 | Cleanup followed by that retention |
| JobLedger.JobLedger.Admit | src/core/jobs.ts:510-532 | Below 128 entries nothing happens; at 128 the records are repaired, one of the four outcomes of AdmissionOutcome follows, and a job that goes is the terminal job completed first |
| JobLedger.JobLedger.CreateJob | src/core/jobs.ts:105-147 | A known key returns its job or the request conflict; a new one adds anchor and then record, after admission; the noted history of writes is a legal history throughout |
| JobLedger.JobLedger.FindIdempotentJob | src/core/jobs.ts:154-164 | Finds the job of a key, repairing its record first |
| JobLedger.JobLedger.Transition | src/core/jobs.ts:183-215 | The record moves along a legal transition with its fields replaced as stated, through a temporary file and a rename, or the error says why and nothing changes |
| JobLedger.JobLedger.RequestCancellation | src/core/jobs.ts:223-254 | One durable cancellation for each job: repeated with the same key it is returned, with another refused; terminal jobs get none; the scan cap refuses it as it refuses a listing |
| JobLedger.JobLedger.ListAllJobs | src/core/jobs.ts:488-508 | Every anchor that embeds a job has its record again, and the listing is exactly the records, newest first, or the refusal of the scan cap if and only if records and temporary files are more than 160 |
| JobAdmission.AdmissionOutcome | src/core/jobs.ts:510-532 | A full ledger refuses for the scan cap exactly if records and temporary files are more than 160; else for a missing record exactly if an anchor without an embedded job lost its record; for capacity exactly if at most 32 temporary files lie beside 128 records of which none is terminal; otherwise it evicts exactly one, the terminal job completed first |
| JobAdmission.RecordedUnlessLegacy | src/core/jobs.ts:723-733 | After repair every anchored job has a record if and only if every anchor without an embedded job still had its own |
| JobAdmission.EvictsOne | src/core/jobs.ts:566-573 | Eviction lowers the count by one and leaves the anchor and record of every other job as they were |
| JobAdmission.RepeatedRequest | src/core/jobs.ts:105-147 | From creation until eviction, whatever writes or crashes lie between, the same key and request returns the same job and creates nothing; another request under the key is refused |
| JobCrashes.StraysStay | src/core/jobs.ts:544-564 | No write ever removes a temporary file that a crash left behind |
| JobCrashes.JammedForGood | src/core/jobs.ts:489-494 | A full ledger with every job recorded and more than 32 such files keeps the same anchors in every later state: no job is added or evicted again |
| JobCrashes.JammedRefuses | src/core/jobs.ts:510-532 | Every admission into such a ledger is refused for the scan cap, even if a job is terminal |
| JobCrashes.JamHappens | src/core/jobs.ts:804-815 | Such a ledger is reached: 128 creations and 33 replacements that crash before their rename |
| JobCrashes.RevivalHappens | src/core/jobs.ts:566-573 | A history in which a succeeded job is queued again |
| Tlv.Bijection | native/macos-keychain-helper/main.swift:45-55 | Parsing succeeds with given fields if and only if they rise strictly from 1, fit, and their encoding is the data within the limit |
| Tlv.ParseTLV | native/macos-keychain-helper/main.swift:45-55 | The parser loop, over offsets |
| Tlv.EncodeTLV | native/macos-keychain-helper/main.swift:105-107 | The encoder loop |
| CredentialCodec.PendingRoundTrip | native/macos-keychain-helper/main.swift:157-165 | Every pending refresh that can be written reads back as itself |
| CredentialCodec.ScopesRoundTrip | native/macos-keychain-helper/main.swift:166-185 | The counted scope list of a record reads back as itself |
| CredentialCodec.DecodeScopes | native/macos-keychain-helper/main.swift:177-185 | The scope loop of the decoder: exactly the counted scopes and nothing behind them |
| CredentialCodec.RecordRoundTrip | native/macos-keychain-helper/main.swift:166-185 | A written record reads back in its own namespace, up to parts the writer omits, and in no other namespace |
| CredentialCodec.RecordExact | native/macos-keychain-helper/main.swift:166-185 | It reads back as the very record if and only if its public ids have the one width and its embedded pending can be written |
| CredentialCodec.CountNotChecked | native/macos-keychain-helper/main.swift:177-185 | The record decoder ignores the field count in the header: every value of that byte is accepted alike |
| CredentialCodec.MetadataRoundTrip | native/macos-keychain-helper/main.swift:139-156 | Metadata reads back as itself if and only if it is valid |
| CredentialCodec.EnvelopeRoundTrip | native/macos-keychain-helper/main.swift:186-228 | Every envelope that can be written fits 4096 bytes and reads back, a null pending as absent |
| CredentialSizes.RecordWrittenIff | native/macos-keychain-helper/main.swift:166-176 | A record is written if and only if its parts have their widths and its size, given as a sum, is at most 4096 |
| CredentialSizes.EnvelopeWrittenIff | native/macos-keychain-helper/main.swift:186-211 | An envelope is written if and only if some part is there, every part is valid with its widths, and the size of the whole, given as a sum, is at most 4096 |
| CredentialIds.ValidReturnsIff | native/macos-keychain-helper/main.swift:339-366 | A written valid record reads back unchanged if and only if neither public id ends with a line terminator |
| CredentialIds.LineEndDropsId | native/macos-keychain-helper/main.swift:358-363 | A valid record stays valid with a line terminator behind its device id, is written, and reads back without the id |
| CredentialStore.Helper.LoadEnvelope | native/macos-keychain-helper/main.swift:315-326 | The byte store refines the abstract envelope: absent, corrupt, invalid and unreadable items are told apart as the operations do |
| CredentialStore.Helper.SaveEnvelope | native/macos-keychain-helper/main.swift:327-338 | The item becomes the whole encoding of the envelope, or stays as it was |
| CredentialStore.Helper.CredentialLoad | native/macos-keychain-helper/main.swift:462-472 | Refines the abstract load through the codec |
| CredentialStore.Helper.CredentialCommitExchange | native/macos-keychain-helper/main.swift:473-484 | Refines the abstract exchange; a refusal leaves the bytes untouched |
| CredentialStore.Helper.CredentialMarkRefreshPending | native/macos-keychain-helper/main.swift:485-502 | Refines the abstract mark; a refusal leaves the bytes untouched |
| CredentialStore.Helper.CredentialCommitRefresh | native/macos-keychain-helper/main.swift:503-524 | Refines the abstract commit; a refusal, or the trap at the largest generation, leaves the bytes untouched |
| CredentialStore.Helper.CredentialDelete | native/macos-keychain-helper/main.swift:525-539 | Refines the abstract delete, which keeps metadata |
| CredentialStore.Helper.MetadataLoad | native/macos-keychain-helper/main.swift:540-548 | Refines the abstract metadata load |
| CredentialStore.Helper.MetadataSave | native/macos-keychain-helper/main.swift:549-559 | Refines the abstract metadata save |
| CredentialStore.Helper.MetadataDelete | native/macos-keychain-helper/main.swift:560-575 | Refines the abstract metadata delete, which keeps record and pending |
| CredentialRuns.StepKeepsInv | native/macos-keychain-helper/main.swift:462-575 | After every call, failed writes included, the item is absent or a valid canonical envelope in which a pending refresh has a record of exactly its expected generation |
| CredentialRuns.RunKeepsInv | native/macos-keychain-helper/main.swift:462-575 | The same after any sequence of calls |
| CredentialRuns.CorruptStays | native/macos-keychain-helper/main.swift:315-326 | An item that does not decode is never changed, and every call on it is refused |
| CredentialRuns.RefusedChangesNothing | native/macos-keychain-helper/main.swift:462-575 | A refused call changes nothing |
| CredentialRuns.PartsApart | native/macos-keychain-helper/main.swift:525-575 | Metadata calls never touch record or pending, and credential calls never touch metadata |
| CredentialRuns.GenerationCountsRotations | native/macos-keychain-helper/main.swift:503-524 | Between exchanges and deletes the generation rises by exactly the number of committed refreshes, the family expiry is constant, and the token changes only with the generation |
| CredentialRuns.RefreshLeaves | native/macos-keychain-helper/main.swift:503-524 | An accepted refresh leaves the generation and token of the request and no pending refresh |
| CredentialCommits.MarkAcceptedIff | native/macos-keychain-helper/main.swift:485-502 | A mark is accepted if and only if it is valid, names the stored generation of a readable item, and is the pending refresh already or the first one and can be stored |
| CredentialCommits.CommitAcceptedIff | native/macos-keychain-helper/main.swift:503-524 | A commit is accepted if and only if it repeats the stored generation and token with nothing pending, or commits the very pending refresh with a valid record of the next generation and the stored family expiry that fits and can be written |
| CredentialCommits.ExchangeAcceptedIff | native/macos-keychain-helper/main.swift:473-484 | An exchange is accepted if and only if its record is valid and can be stored beside the metadata |
| CredentialCommits.StoredIsProper | native/macos-keychain-helper/main.swift:339-385 | Whatever calls were made, a stored record is of this helper, with ids and token of the right form and a positive family expiry, a stored refresh is proper and of the generation of its record, and stored metadata is valid |
| CredentialCommits.ImproperRefusedIff | native/macos-keychain-helper/main.swift:473-509 | A record or refresh is refused as invalid if and only if it is not so formed, whatever is stored |
| CredentialCommits.TrappedIff | native/macos-keychain-helper/main.swift:503-512 | A commit traps if and only if its parts are valid, the item is readable and holds a record, and the refresh names the largest generation |
| CredentialCommits.OthersAcceptedIff | native/macos-keychain-helper/main.swift:525-575 | Loads are accepted if and only if the item is readable, deletes if also what stays can be stored or the item removed, and a save of metadata if it is valid and fits beside the rest |
| CredentialCommits.AcceptedLeaves | native/macos-keychain-helper/main.swift:462-575 | Each accepted call changes exactly its own parts of the envelope, to what it was given |
| CredentialCommits.MarkedCommits | native/macos-keychain-helper/main.swift:485-524 | After an accepted mark and any loads and metadata calls, the commit of that refresh with a valid next record is accepted and stored, if the item can be written |
| CredentialCommits.PendingIsLastMarked | native/macos-keychain-helper/main.swift:485-539 | After any calls the pending refresh is the one marked last, unless an exchange, a delete or a rotation came behind it |
| CredentialCommits.RotationsCommitTheMark | native/macos-keychain-helper/main.swift:503-524 | Every rotation in every run commits exactly the refresh marked last, on the generation it was marked for |
| CredentialRuns.OneTokenPerGeneration | native/macos-keychain-helper/main.swift:503-524 | Two commits for one generation cannot both be accepted with different tokens, however many calls and faults lie between |
| CredentialRuns.RefreshRepeats | native/macos-keychain-helper/main.swift:503-524 | An accepted refresh repeated after loads and metadata calls is accepted again and changes nothing, even if the item cannot be written |
| CredentialRuns.MarkRepeats | native/macos-keychain-helper/main.swift:485-502 | An accepted mark can be repeated likewise |
| CredentialRuns.AcceptedIsStored | native/macos-keychain-helper/main.swift:503-524 | An accepted refresh is what is stored if and only if it rotated a pending refresh or the record was stored already: the replay compares generation and token only |
| CredentialRuns.AcceptedNotStored | native/macos-keychain-helper/main.swift:503-524 | After any exchange that went through, a commit of the stored generation and token with another time is accepted and its record is not stored |
| CredentialRuns.AcceptedNotStoredHappens | native/macos-keychain-helper/main.swift:503-524 | Such accepted calls exist |
| PhraseSearch.BoundedPhraseIncludes | src/contracts/route-ranking.ts:271-284 | True if and only if the phrase is not empty and occurs somewhere with no word character before or behind it, reading surrogate pairs as one |
| RankerScores.IncludesIff | src/contracts/route-ranking.ts:271-284 | A phrase counts as included if and only if it occurs with no letter or number touching it |
| RankerScores.MatchesIff | src/contracts/route-ranking.ts:250-259 | A phrase matches if and only if it is included or all of its parts are tokens of the prompt, and it is no weak single term unless those count |
| RankerScores.NothingScoresNothing | src/contracts/route-ranking.ts:228-248 | A skill that shares nothing with the prompt scores zero |
| RankerScores.AliasAdds | src/contracts/route-ranking.ts:228-248 | One more alias adds 5 if it matches and is no weak single term, else nothing |
| RankerScores.PreferredAdds | src/contracts/route-ranking.ts:228-248 | One more preferred phrase adds 6 under the same condition |
| RankerScores.AvoidTakes | src/contracts/route-ranking.ts:228-248 | One more phrase to avoid takes 8 if it matches, weak single terms included |
| RankerScores.NameTokenAdds | src/contracts/route-ranking.ts:228-248 | One more name token adds 2 if the prompt has it |
| RankerScores.DescriptionTokenAdds | src/contracts/route-ranking.ts:228-248 | One more description token adds 1 if the prompt has it |
| RankerScores.MentionsAdd | src/contracts/route-ranking.ts:228-248 | The name in the prompt adds 10, the family 4, a qualified mention 100 |
| RankerScores.TierAdjusts | src/contracts/route-ranking.ts:244-247 | Only a positive score is adjusted: 5 for a default, 1 for a specialist, less 1 for scripts |
| RankerScores.ReasonsSay | src/contracts/route-ranking.ts:228-248 | The reasons name exactly the matched phrases and tokens, each under its own kind |
| RankerScores.OtherReasonsSay | src/contracts/route-ranking.ts:228-248 | And the qualified id, the name in the prompt, and the adjustments of a positive score, each exactly if it counted |
| RankerScores.CandidateIff | src/contracts/route-ranking.ts:141-157 | A skill becomes a candidate if and only if it is neither blocked nor archived, may route, is named in the prompt if its tier asks for that, and scores at least 5; it carries the fields of the skill |
| RankerScores.ExclusionSays | src/contracts/route-ranking.ts:141-154 | A skill passed over is logged for the first reason that applies |
| RankerScores.RecommendedInOrder | src/contracts/route-ranking.ts:181-203 | Recommendations come by falling score, then by the collation of name, then of id, and are at most as many as asked |
| RankerScores.TwelveReported | src/contracts/route-ranking.ts:131-139 | Exactly the first twelve entries of the exclusion log are reported |
| RankerScores.LimitIff | src/contracts/route-ranking.ts:205-211 | A limit is accepted if and only if it is finite and its integral part lies between 1 and 10 |
| RankerScores.QualifiedSays | src/contracts/route-ranking.ts:112-124 | A qualified id recommends its first skill alone, with no exclusions, if the skill is neither blocked nor archived and may be named; otherwise nothing, with the one reason |
| RankerChanges.MoreEvidenceStays | src/contracts/route-ranking.ts:141-199 | More evidence for a skill never takes it out of the recommendations |
| RankerChanges.AvoidNeverBringsIn | src/contracts/route-ranking.ts:141-199 | A matching phrase to avoid never brings a skill into the recommendations |
| RankerChanges.PreferredNeverTakesOut | src/contracts/route-ranking.ts:141-199 | A matching preferred phrase never takes one out |
| Ranker.MatchPhrase | src/contracts/route-ranking.ts:250-259 | Refines the phrase rule |
| Ranker.ScorePrepared | src/contracts/route-ranking.ts:228-248 | The running score equals the sum of the named contributions, with reasons in order |
| Ranker.ExclusionLog.Add | src/contracts/route-ranking.ts:131-139 | The bounded logs always are the first 12 exclusions and the first 2 supersessions of the complete log |
| Ranker.HookNeedsTwo | src/contracts/route-ranking.ts:213-226 | The hook text from the bounded log equals the hook text from the complete one |
| RankerHook.HookSays | src/contracts/route-ranking.ts:213-226 | The hook text shows every recommended skill in order, by its name if that is code-like and else by its id, then the ids of the first two superseded skills, and is cut at 500 units |
| Ranker.InsertKeepsBest | src/contracts/route-ranking.ts:189-199 | Bounded insertion into the best m equals the best m of unbounded insertion |
| Ranker.SelectTop | src/contracts/route-ranking.ts:189-199 | The selection loop returns the head of the complete stable sort |
| RankPrompt.Scan | src/contracts/route-ranking.ts:141-165 | The first loop finds exactly the passing candidates, the full exclusion log and an index of just the wanted names |
| RankPrompt.Supersede | src/contracts/route-ranking.ts:167-179 | The indexed supersession loops remove exactly what the unindexed claims remove and log it in the same order |
| RankPrompt.RankPrepared | src/contracts/route-ranking.ts:100-187 | The optimised ranker equals the specification by lists, for all skills, prompts, limits and qualified ids, errors included |
| RankPrompt.RankUnqualified | src/contracts/route-ranking.ts:125-187 | The same for prompts without a qualified id |
| RankerTheorems.SortIsStable | src/contracts/route-ranking.ts:189-203 | The insertion is a stable sort by score descending, name and id |
| RankerTheorems.OneStableSort | src/contracts/route-ranking.ts:201-203 | A list has one stable sort, so the above determines the result |
| RankerTheorems.SurvivorsAreUnsuperseded | src/contracts/route-ranking.ts:167-181 | With unique ids the survivors are the candidates whose name no candidate supersedes |
| RankerTheorems.RankingIsStableSort | src/contracts/route-ranking.ts:141-187 | The recommendations are the first max of any stable sort of the unsuperseded candidates scoring at least 5 |
| RankerTheorems.OrderDoesNotMatter | src/contracts/route-ranking.ts:141-187 | Permuting the skills does not change the recommendations if different ids collate differently |
| RankerTheorems.TiesFollowOrder | src/contracts/route-ranking.ts:201-203 | Candidates that compare equal keep their input order, so the proviso of OrderDoesNotMatter is needed |
| RankerTheorems.RemovedAreLoggedOnce | src/contracts/route-ranking.ts:167-179 | Every removed id is logged exactly once and nothing else is, however many candidates claim its name |
| PolicyMigration.GroupByName | src/core/policy-state.ts:425-429 | Each name maps to all skills of that name in inventory order |
| PolicyMigration.Distribute | src/core/policy-state.ts:147-155 | Every entry goes to the one skill of its name, or stays unresolved; nothing is lost or invented |
| PolicyMigration.SortedNames | src/core/policy-state.ts:156-159 | Strictly ascending, each unresolved name once |
| PolicyMigration.BuildMigration | src/core/policy-state.ts:127-187 | Succeeds exactly for a v1 policy on a qualified inventory, and then the result stands in the migration relation to it |
| PolicyMigration.SoleUnchanged | src/core/policy.ts:113-174 | A skill with a name of its own is effectively the same under both policies |
| PolicyMigration.DuplicateUnrouted | src/core/policy.ts:113-174 | Skills of a duplicated name route under neither policy |
| PolicyEffects.ListsDecide | src/core/policy.ts:124-161 | Under both versions each list of the entry that applies decides the list of that name in the registry, and nothing else; a missing list is empty |
| PolicyEffects.FamilyDecides | src/core/policy.ts:124-161 | The family of the entry is taken over; overlaps and notes change nothing |
| PolicyEffects.TierDecides | src/core/policy.ts:127-146 | The tier is taken over, specialist for none; together with the scan it decides who may be used and who may route |
| PolicyEffects.NoEntryDecides | src/core/policy.ts:124-161 | Without an entry a skill has the defaults and may not be used; what the scan found is taken over with or without one |
| PolicyEffects.VariantSays | src/core/policy.ts:128-136 | A skill is sole if and only if no other has its name; under version 1 any other is unresolved |
| PolicyEffects.PhrasesReachReasons | src/core/policy.ts:140-174 | A phrase the entry says to avoid, or to prefer, is a reason of that kind in the ranking whenever it matches |
| PolicyCanonical.CanonicalIff | src/core/policy.ts:116-136 | Of several skills of one name a skill is canonical if and only if the policy names it canonical and a well-made decision selects it among exactly the present ids and revisions; then the others are shadowed, and otherwise all are unresolved |
| PolicyCanonical.WellMadeIff | src/core/policy-state.ts:346-365 | A decision is valid if and only if it bears its own digest and name, an actor and a trimmed reason of twelve characters, a time, and at least two well-formed skills in the order of their ids, each once, the selected one among them |
| PolicyCanonical.SpaceIff | src/core/policy-state.ts:346-365 | White space is that of ECMAScript, exactly |
| PolicyCanonical.UnopposedIff | src/core/policy-state.ts:189-227 | Nothing is held against a decision if and only if every skill of the scan is well formed with an id of its own, at least two bear the name, the selected one does, an actor is given and the trimmed reason has twelve characters |
| PolicyCanonical.TrimMeans | src/core/policy-state.ts:346-365 | Trimming cuts the white space at either end and nothing else |
| PolicyCanonical.RegistrySays | src/core/policy.ts:113-171 | The effective registry fails if and only if a decided duplicated name has a skill without a well-formed id or revision; otherwise it holds every skill in the order of the scan |
| PolicyMigration.MigrationPreservesRouting | src/core/policy-state.ts:127-187 | For every qualified inventory, v1 policy, unqualified prompt and limit: same recommendations, same hook text, and the same skills excluded in the same order |
| PolicyMigration.PermissionOnlyNarrows | src/core/policy.ts:140-174 | Permission by qualified id after migration holds if and only if it held before and the name is not duplicated |
| PolicyValidity.MigratedValidIff | src/core/policy-state.ts:88-126 | A migrated policy passes the validation of version 2 if and only if no tier of the old policy is the empty text and no blank name is borne by several skills |
| PolicyValidity.FailingMigration | src/core/policy.ts:45 | A valid policy of version 1 whose migration its own validation refuses |
| PolicyDecision.CreateDecision | src/core/policy-state.ts:189-227 | Refuses with exactly the first objection, the validation of the given policy last; otherwise the new policy and receipt are those of the decision, the old entry cleared |
| PolicyDecision.FreshDecisionValid | src/core/policy-state.ts:346-365 | A decision as it is made passes its own validation |
| PolicyValidity.DecidedValidIff | src/core/policy-state.ts:189-227 | A decision leaves the policy valid if and only if the name is not blank and the time is given |
| PolicyDecision.DecisionHoldsIff | src/core/policy-state.ts:229-249 | A decision holds for a later inventory if and only if the name has the same multiset of ids and revisions |
| PolicyDecision.DecisionIsLocal | src/core/policy.ts:113-174 | A decision on one name changes no skill of another name |
| PolicyDecision.DecisionRoutesSelected | src/core/policy.ts:113-174 | Of the decided name the selected skill is canonical and routes on its own entry, all others are shadowed and do not route |
| PolicyStoreModel.RunKeeps | src/core/policy-state.ts:251-332 | Over every run with crashes between writes artifacts are write-once, every pointer ever active names existing artifacts, and its rollback artifact hashes to its source digest |
| PolicyStoreModel.AlwaysReadable | src/core/policy-state.ts:458-464 | Once a policy is active, its file exists in every later state |
| PolicyStoreModel.LineageKeepsSource | src/core/policy-state.ts:283-300 | Revisions and rollbacks derived from a pointer keep its source digest and rollback artifact |
| PolicyStoreModel.RollbackRestores | src/core/policy-state.ts:311-332 | After any revisions and rollbacks derived from a migration, and any other writes, rolling back is possible and makes exactly the migrated bytes active, under a version 1 pointer with the same source |
| PolicyStoreModel.RollbackFollowsPointer | src/core/policy-state.ts:311-332 | A rollback restores the source of the pointer it is given, even if a newer migration is active |
| PolicyStore.PolicyFiles.WriteExclusive | src/core/policy-state.ts:470-479 | Writes once; an existing artifact must be identical, otherwise nothing changes |
| PolicyStore.PolicyFiles.PersistMigration | src/core/policy-state.ts:251-281 | Succeeds exactly if all three artifacts fit; on failure the pointer stays and only a prefix of the writes happened |
| PolicyStore.PolicyFiles.PersistRevision | src/core/policy-state.ts:283-300 | Succeeds exactly if the artifact fits; the new pointer keeps migration lineage |
| PolicyStore.PolicyFiles.Rollback | src/core/policy-state.ts:311-332 | From any pointer ever active only an occupied receipt path can stop it; then exactly the migrated source is active |
| PolicyText.ParsePolicy | src/core/policy.ts:55-92 | The line loop of the parser, over its current skill and list |
| PolicyExact.FieldReturnsIff | src/core/policy.ts:62-90 | The printed line of a field gives its value back if and only if the value is one line without a number sign, trimmed and not quoted |
| PolicyExact.ItemReturnsIff | src/core/policy.ts:62-90 | The same for the items of lists |
| PolicyExact.HeadReturnsIff | src/core/policy.ts:62-72 | The printed line of a name without line feeds gives it back if and only if it is not empty, is trimmed, has no colon after its first character and no number sign that starts a comment |
| PolicyExact.PrintedParsesIff | src/core/policy.ts:55-111 | A printed policy parses back to the same map if and only if every name and value is given back by its line, no text that is there is empty and no list is empty |
| PolicyExact.ParsedIsRead | src/core/policy.ts:55-92 | Whatever the text, the parser gives only trimmed names without inner colons, and values of one line |
| PolicyRoundTrip.PrintedReads | src/core/policy.ts:55-111 | Where every name is given back and every value is one line, each entry comes back as its values up to the number sign, trimmed and without quotes, and without its empty texts and lists |
| PolicyExact.CommentSignCuts | src/core/policy.ts:62-66 | From a number sign on, a value of one line is lost, and the parse succeeds |
| PolicyExact.FailingPolicy | src/core/policy.ts:62-66 | A concrete policy that comes back with a shorter value |
| PolicyRoundTrip.EntryLeads | src/core/policy.ts:94-111 | From any reachable parser state inside an entry, the printed lines build exactly that entry and touch no other |
| PolicyRoundTrip.SplitJoined | src/core/policy.ts:60-61 | Joined lines without line ends split into exactly those lines |
| Der.EncodeIntegerBytes | src/contracts/device-auth.ts:231-248 | The stripping loop, padding included |
| Der.ContentDenotes | src/contracts/device-auth.ts:231-248 | The written octets are minimal, not negative, and denote the same integer |
| Der.MinimalUnique | src/contracts/device-auth.ts:231-248 | Two minimal encodings of one positive integer are equal |
| Der.ReadDerLength | src/contracts/device-auth.ts:250-259 | Short and long forms as read, doubles and missing bytes included |
| Der.ReadIntegers | src/contracts/device-auth.ts:261-272 | The header and length checks, in order, and the two clamped subarrays |
| Der.DerToBuffer | src/contracts/device-auth.ts:261-282 | The decoder with its clamped subarrays, overlapping writes and error conditions |
| DerAccepts.AcceptedIff | src/contracts/device-auth.ts:250-282 | A string is accepted, with a given result, if and only if its sequence takes the whole string, two integers stand in it under lengths read as they stand, s is cut off at the end, at most 32 and 64 octets remain, and the buffer laid out from them holds two scalars in range |
| DerAccepts.OrderIs | src/contracts/device-auth.ts:11 | The constant is the order of the base point as SEC 2 states it in powers of two |
| Der.SignatureReturns | src/contracts/device-auth.ts:261-282 | Every valid signature comes back, whatever bytes follow s inside the sequence |
| Der.RoundTrip | src/contracts/device-auth.ts:218-282 | For every 64-byte signature with both scalars in [1, n-1] the DER is canonical and converts back to it |
| Der.CanonicalIff | src/contracts/device-auth.ts:218-282 | A DER string survives the way to the fixed form and back if and only if it is the distinguished encoding of two scalars in range |
| DerReading.AgreesIff | src/contracts/device-auth.ts:250-282 | For an accepted string the result denotes the two signed integers of its encoding if and only if both integers have content that ends inside the string and begins with a clear bit, the second ends the sequence, and the overwritten bytes are zero |
| DerReading.SignatureReads | src/contracts/device-auth.ts:250-272 | The independent reading by the encoding rules finds the two integers of the decoder if and only if lengths and content are in order |
| DerReading.TruncatedAccepted | src/contracts/device-auth.ts:261-272 | A concrete accepted string whose s declares 127 bytes and has one |
| DerReading.NegativeAccepted | src/contracts/device-auth.ts:261-282 | A concrete accepted string whose r is negative |
| Der.LongIntegerAccepted | src/contracts/device-auth.ts:272-281 | Such a lossy string is accepted: a concrete one |
| MoveFrame.DecodeField | scripts/m4-13-atomic-rename.swift:11-24 | The advancing decoder, bounds and UTF-8 failure included |
| MoveFrame.FramesIff | scripts/m4-13-atomic-rename.swift:118-132 | A request is read as given fields if and only if it is exactly their frame |
| MoveFrame.IdentityReturns | scripts/m4-13-atomic-rename.swift:26-32 | Every safe integer printed as a decimal identity is read back as itself |
| MoveFrame.EveryRequestIsRead | src/core/quarantine-execution.ts:442-483 | Every request the encoder emits is consumed exactly and yields the same fields, paths as their scalar values |
| MoveMeaning.WrittenIff | src/core/quarantine-execution.ts:442-483 | A request is written if and only if its paths resolve to the binding, both relative paths are in normal form with only proper parts and no backslash, both roots are absolute, the six identities are safe integers, and each path takes 1 to 32768 bytes without a zero byte |
| MoveMeaning.WrittenSays | src/core/quarantine-execution.ts:462-483 | The eleven fields in the order of the wire |
| MoveMeaning.IdentityIff | scripts/m4-13-atomic-rename.swift:26-32 | An identity is read if and only if it consists of digits and fits 64 bits |
| MoveMeaning.HelperTakesIff | scripts/m4-13-atomic-rename.swift:34-50 | Where every slash and backslash is a character of its own, the helper takes exactly the paths with only proper parts and no backslash |
| MoveFrame.PathArrivesIff | src/core/quarantine-execution.ts:442-483 | A path arrives as it was if and only if it has no lone surrogate |
| MoveFrame.SplitsAgree | scripts/m4-13-atomic-rename.swift:34-50 | Splitting at characters gives no more parts than splitting at units, and the same parts if and only if every slash is a character of its own |
| MoveFrame.RelativePathsAccepted | scripts/m4-13-atomic-rename.swift:34-50 | Every relative path the encoder accepts is accepted by the helper; the components agree if and only if every slash is a character of its own |
| TextEncoding.SurvivesIff | src/core/managed-manifest.ts:143-145 | The UTF-8 bytes of a JavaScript string decode to that string if and only if it has no lone surrogate |
| CanonicalJson.DocReturns | src/core/managed-manifest.ts:483-573 | Every serialised value, in front of anything, is read back by a reader of the sublanguage of RFC 8259 that the writer uses: no white space, its own escapes only |
| JsonMeaning.WriteSays | src/core/managed-manifest.ts:483-573 | The written text, by a grammar of its own: no space, commas and colons between the parts, numbers without a leading zero, and strings in which only quotes, backslashes and control characters are escaped, those with a letter by it |
| CanonicalJson.WriteInjective | src/core/managed-manifest.ts:483-573 | Different documents have different bytes |
| CanonicalJson.SerializeString | src/core/managed-manifest.ts:552-573 | The escaping loop |
| CanonicalJson.SerializeDoc | src/core/managed-manifest.ts:483-540 | The recursive serialiser with its part loops |
| ManifestTheorems.BytesTell | src/core/managed-manifest.ts:390-478 | Every manifest has canonical bytes, and two manifests have equal bytes if and only if they agree up to lone surrogates |
| ManifestCanonical.ParseFiles | src/core/managed-manifest.ts:298-312 | The file loop with its two seen sets accepts exactly the lists of valid files with pairwise different folded paths |
| ManifestMeaning.CanonicalMeans | src/core/managed-manifest.ts:390-478 | The canonical form of accepted input is that of a manifest the input says: every field is the member of its own name, checked and in normal form, the files are the listed ones by rising path bytes, the bytes write its members by rising keys at every level, are at most 262144, and give the digest, which a claimed digest must equal |
| ManifestMeaning.RefusedMeans | src/core/managed-manifest.ts:390-478 | Input that says a manifest is refused only because its bytes are too many or its claimed digest is another |
| ManifestMeaning.ReadMeans | src/core/managed-manifest.ts:314-388 | What is read of the input says so member by member |
| ManifestMeaning.SaidIsRead | src/core/managed-manifest.ts:314-388 | Input that says a manifest member by member is read as it, with its files sorted |
| ManifestMeaning.DocStands | src/core/managed-manifest.ts:483-540 | A value is written if and only if it has no null, no odd number and at most ten levels, and then as the same values with keys rising by their bytes |
| Lexical.BelowIff | src/core/managed-manifest.ts:479-481 | The byte order: the first difference decides, and a proper prefix comes first |
| ManifestCanonical.SecondSortIdle | src/core/managed-manifest.ts:483-540 | The second sort of the files changes nothing |
| ManifestCanonical.Idempotent | src/core/managed-manifest.ts:390-478 | Accepted output is accepted again with the same bytes and digest |
| ManifestCanonical.TopOrder | src/core/managed-manifest.ts:390-478 | Any order of the top-level members is one of the reorderings OrderDoesNotMatter covers |
| ManifestCanonical.OrderDoesNotMatter | src/core/managed-manifest.ts:390-478 | The result depends on neither file order nor member order, if no two paths have the same UTF-8 bytes |
| ManifestOrder.OrderForgottenIff | src/core/managed-manifest.ts:390-478 | For accepted input every reordering gives the same result if and only if no two paths have the same UTF-8 bytes |
| ManifestOrder.OrderShows | src/core/managed-manifest.ts:483-540 | If two accepted paths have the same bytes, there is a reordering of the files whose result differs |
| ManifestWitness.FailingInput | src/core/managed-manifest.ts:390-478 | Two accepted orders of one manifest with different bytes, for any rules that accept its parts |
| ManifestWitness.FailingInputExists | src/core/managed-manifest.ts:390-478 | Such accepted input exists |
| ManifestCanonical.WellFormedApart | src/core/managed-manifest.ts:298-312 | Distinct paths without lone surrogates have different bytes |
| ManifestCanonical.DigestTellsManifests | src/core/managed-manifest.ts:390-478 | For well-formed text equal digests mean equal manifests, unless the digests of the two byte strings collide |
| ContentDigest.EnvelopeUnambiguous | src/core/immutable-content-digest.ts:186-205 | Equal envelopes hold the same manifest digest and the same list of path, size and digest |
| ContentDigest.CollectEntries | src/core/immutable-content-digest.ts:111-164 | The first loop succeeds exactly if every file is faultless, no two paths fold alike and the total is within bounds |
| ContentMeaning.AcceptableIff | src/core/immutable-content-digest.ts:91-164 | Files are acceptable if and only if they are at most 2048 with different folded paths and at most 64 MiB in all, each with an allowed path, at most 16 MiB and no false claim of size or digest |
| ContentMeaning.TotalMeans | src/core/immutable-content-digest.ts:111-148 | The total counts the bytes of every file once |
| ContentMeaning.EnvelopeSays | src/core/immutable-content-digest.ts:186-205 | The envelope is the two head tags, the manifest digest, the number of files in four bytes and then, by rising path bytes, tag, path length, path, eight bytes of size, tag and digest of each file |
| ContentDigest.EncodeContentDigest | src/core/immutable-content-digest.ts:91-205 | Succeeds exactly if the claimed manifest digest is true and the files are acceptable; the result is the envelope of the files in byte order |
| ContentDigest.EnvelopeTellsFiles | src/core/immutable-content-digest.ts:166-205 | Equal envelopes come from the same bytes at the same paths, up to lone surrogates, unless the hash collides on two of the files |
| ContentDigest.OrderDoesNotMatter | src/core/immutable-content-digest.ts:111-205 | File order affects neither acceptance nor, if files whose paths have the same bytes have the same contents, the envelope |
| ContentDigest.OrderForgottenIff | src/core/immutable-content-digest.ts:111-205 | For accepted files every order gives the same envelope if and only if files whose paths have the same bytes have the same contents |
| ContentDigest.OrderShows | src/core/immutable-content-digest.ts:166-205 | Otherwise there is an order that gives another envelope |
| ContentDigest.FailingInputExists | src/core/immutable-content-digest.ts:111-205 | Such accepted files exist |
| TreeRevision.StreamTree | src/core/identity.ts:161-171 | The framing of path, mode and content, file by file |
| TreeRevision.TreeUnambiguous | src/core/identity.ts:161-171 | Equal streams come from trees with the same paths, modes and bytes, although the stream carries no count |
| TreeRevision.NormalizingTwice | src/core/identity.ts:110-123 | A normalised path normalises to itself, unless it now looks absolute, when it is refused |
| TreeRevision.KelvinDrive | src/core/identity.ts:110-123 | A concrete path whose normal form is refused: the Kelvin sign becomes a drive letter |
| Crc32.GeneratorConstant | src/core/import-secret-blocker.ts:480-487 | The constant of the program lists the coefficients of the polynomial of ISO 3309 |
| Crc32.ShiftsDivide | src/core/import-secret-blocker.ts:480-487 | The bit loop is polynomial division: n shifts of the register stand for n more leading coefficients |
| Crc32.ByteDivides | src/core/import-secret-blocker.ts:480-487 | One byte and eight shifts divide by eight more coefficients of the input |
| Crc32.Checksum | src/core/import-secret-blocker.ts:480-487 | The register loop computes the complemented remainder of the polynomial division in section 5.5 of the PNG specification |
| ChecksumDetects.BurstShows | src/core/import-secret-blocker.ts:480-487 | Two inputs that differ only within four consecutive bytes have different checksums, whatever surrounds them |
| ChecksumDetects.KnownChecksums | src/core/import-secret-blocker.ts:480-487 | Two known checksums, which fix the order of the bits and both inversions |
| Png.WalkIsGrammar | src/core/import-secret-blocker.ts:164-204 | The chunk walk accepts exactly the strings of the chunk grammar |
| PngMeaning.LettersIff | src/core/import-secret-blocker.ts:456-458 | A chunk type is made of ASCII letters, exactly |
| PngMeaning.AcceptedSays | src/core/import-secret-blocker.ts:164-215 | Byte by byte: an accepted image begins with the signature and a 13-byte header chunk with a width, a height and one of the 15 formats, has the start of a data chunk behind it, and ends with an empty end chunk |
| PngMeaning.AssembledAccepted | src/core/import-secret-blocker.ts:164-215 | An image of any size in any of these formats with any image data is accepted when put together with lengths and checksums |
| Png.ReadChunk | src/core/import-secret-blocker.ts:171-185 | The chunk at an offset with length, type and checksum checks, every read in bounds |
| Png.IsStructurallyValid | src/core/import-secret-blocker.ts:164-204 | The loop terminates and answers true exactly for signature, IHDR first and once with valid fields, at least one IDAT, and an empty IEND that ends the input |
| IdentityScan.Bury | src/core/identity-migrations.ts:91-112 | The tombstones kept are exactly one for each id buried before or newly gone, unless present again or the source of a receipt; by time of removal, then id |
| IdentityScan.Reconcile | src/core/identity-migrations.ts:50-153 | The written registry and returned issues, for comparable scans; for the first scan nothing changes |
| IdentityMeaning.ComparedIff | src/core/identity-migrations.ts:50-57 | Scans are compared if and only if the last one has qualified identities and both or neither have fixtures |
| IdentityMeaning.CarriedMeans | src/core/identity-migrations.ts:65-89 | An open issue is dropped if its target is gone, approved as it is or, for a move, confirmed as it is; otherwise it keeps kind and target and follows name, revision, root and path of the target |
| IdentityMeaning.SuspectsMean | src/core/identity-migrations.ts:114-128 | A new skill is taken to come from its only twin in name and content, else from any namesake, else from anything with its content, else from the only other one gone |
| IdentityMeaning.MoveFound | src/core/identity-migrations.ts:140-150 | A new skill with one suspect is reported as moved from there, with both roots and paths, unless that move is confirmed |
| IdentityMeaning.ChainFound | src/core/identity-migrations.ts:140-150 | If an open move leads into the suspect, the move is reported from where that one started |
| IdentityMeaning.AmbiguityFound | src/core/identity-migrations.ts:129-139 | A new skill with several suspects is reported with the ids, roots and paths of exactly them and itself, in order |
| IdentityMeaning.NothingFound | src/core/identity-migrations.ts:114-128 | Nothing is reported of a skill that is approved or has no suspect |
| IdentityMeaning.OneIssueEach | src/core/identity-migrations.ts:151-152 | Of the issues gathered one is kept for each kind, target and revision |
| IdentityMeaning.MovedSkillIsReported | src/core/identity-migrations.ts:50-153 | A skill that left one place and turned up in another under the same name with the same content is among the reported moves, unless the owner has decided |
| IdentityHistory.NothingForgotten | src/core/identity-migrations.ts:50-153 | In every world of every run no identity is forgotten, none is buried twice, and none is buried while present or after a receipted move |
| IdentityHistory.StepKeepsInv | src/core/identity-migrations.ts:50-182 | Scans, receipts, approvals and re-adoptions keep that |
| IdentityHistory.ScanKeepsOpen | src/core/identity-migrations.ts:65-153 | An undecided issue is among those the scan returns |
| IdentityHistory.OnePerKeyKeeps | src/core/identity-migrations.ts:151-152 | Removing duplicates loses no issue key and invents none |
| IdentityHistory.OpenUntilDecided | src/core/identity-migrations.ts:50-153 | Through any sequence of scans, adoptions and approvals that leave it undecided and its target present, an issue stays open |
| IdentityOpen.OpenIff | src/commands/identity.ts:65-113 | For a target present before, after one scan, adoption or approval an issue is open if and only if it was open and the action leaves it undecided; no action opens one |
| IdentityOpen.OpenThroughout | src/core/identity-migrations.ts:50-153 | Over a run with the target present throughout, an issue is open if and only if it was at the start and every action left it undecided |
| IdentityOpen.AdoptionCloses | src/commands/identity.ts:65-113 | Adopting a recorded ambiguous issue closes it, and it stays closed after the next scan |
| IdentityOpen.MovesChain | src/core/identity-migrations.ts:114-150 | If an undecided move from A to B loses B in a scan whose one candidate for an added C is the tombstone of B, the scan returns the move from A to C |
| IdentityOpen.StepKeepsTidy | src/core/identity-migrations.ts:50-182 | Every inventory holds at most one issue for each kind and target |

## Left out

- Real I/O: every read, exclusive write, rename and unlink is one atomic step; torn records and temporary files, fsync, retries and delays are not modelled.
- Symbolic links, path containment checks, Windows error branches, timeouts and process liveness.
- Reclaiming the job lock and execution claims from dead owners; the ledger lock is taken as an atomic section.
- `executeQuarantine` as one imperative method: its steps are a transition function, because executors interleave between any two of them.
- The parity receipt issue; the authorization, with its expiry, is an input of the quarantine protocol, and the clock only moves forward.
- Key creation, signing and the wire frame of the credential helper; only its stored records and operations are modelled.
- The text of job errors, privacy filtering of job receipts and the validity rules of job fields beyond those the ledger relies on.
- Which error code a manifest is refused with: acceptance and the accepted result are modelled.
- Identity scans of legacy inventories and across the fixture boundary issue nothing and change nothing; histories are sequences of comparable scans.
- Lock files and the write of the inventory itself in identity commands.
- Effective reasons, the graph and timestamps of the effective registry.
- Structural checks of GIF, WebP and JPEG images, and the secret patterns.
- Limits on the number and depth of files in tree collection, and the second collection that detects changes.
- CLI, dashboard, exports, hooks, reports, web application and workspace revisions: plumbing or easy properties.
- PolicyMigration.MigrationPreservesRouting: states which skills are excluded, in order, and every supersession entry whole, but not the other reason texts, because a duplicated name is refused for another cause once its entry is unresolved.
- RankerTheorems.OrderDoesNotMatter: asks that different ids collate differently, because ties keep their input order (TiesFollowOrder).
- ManifestCanonical.OrderDoesNotMatter: asks that no two paths have the same UTF-8 bytes, which is exactly when it holds of accepted input (ManifestOrder.OrderForgottenIff).
- ContentDigest.OrderDoesNotMatter: asks that files under paths of the same bytes have the same contents, which is exactly when it holds of accepted files (OrderForgottenIff).
- ManifestCanonical.DigestTellsManifests: asks that the hash does not collide on the two byte strings; ContentDigest asks the same of its files.
- QuarantineFirstCall.FirstCallSucceeds: supposes that other calls write nothing meanwhile; what happens with interference is the matter of MovesAreChecked, OneReceipt and RecoveryCompletes.
- QuarantineTheorems.RecoveryCompletes: supposes no failing read in the recovering call and no edit of the moved tree, either of which ends the call with a reconciliation error.
- PolicyExact.PrintedParsesIff: the printed order of names is arbitrary instead of that of `localeCompare`.
- PolicyStore.PolicyFiles.PersistMigration: the digest of the source is taken of the bytes that are written, where the code receives both; its one caller computes them from the same bytes (src/commands/policy.ts:69).
- PolicyStoreModel.AlwaysReadable: says that the active file exists, not that it passes its validation, which PolicyValidity.MigratedValidIff and DecidedValidIff are about.
- PolicyValidity.MigratedValidIff: family, notes and lists are of the right type by construction, as they are when they come from the policy text.
- QuarantineTheorems.ExactlyOnePlace: supposes that the owners of the intent share one preflight; executors with other preflights may own another object.
- CanonicalJson.DocReturns: the reader covers what the writer can write, not white space, other escapes or upper-case digits of RFC 8259.
- Crc32.Checksum: the register is a list of 32 bits; that `>>>` and `^` act so on 32-bit numbers is read off, not proved.
- CredentialIds.ValidReturnsIff: only the patterns of the public ids are spelled out, `$` as the ICU regular expressions define it; the other rules stay parameters.
