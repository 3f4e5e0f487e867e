# Verified model of the e-signing core

This project models, in Dafny, the parts of the e-signing service on which its promises rest, and proves
properties of them for every input, every run and every interleaving. It is laid out as one module per file;
`dafny verify dfyconfig.toml` checks all of it.

## What is modelled

**The envelope protocol.** `Lifecycle`, `Routing` and `Envelope` hold the states, the transition tables and the
guarded row updates of the repositories. `UnitsOfWork` says what each use case writes in its one transaction;
a transaction is all-or-nothing, as the database runs it. `Protocol` turns one envelope into a step system: a
Load action puts what a request read into a pool, and a later action runs the unit of work on whatever the
tables hold by then. Anything may happen in between, reads are never discarded, and every choice of the
environment (ids, tokens, clocks, lease owners, digests, which worker runs) is a parameter of an action.
`Invariants` states what every reachable state satisfies and, as a relation between two states, what every step
keeps; a read is *faithful* as long as the tables only advance. `StepLemmas` treats one unit of work at a time,
`Safety` every action, `Evolution` whole stretches of runs, and `Theorems` states the results in the terms of
the product. `OwnerEffects`, `SessionEffects`, `SignerEffects` and `WorkerEffects` say of each request, from any
reachable state and for reads of any age, exactly when it goes through and every row it writes, without the
functions that compute them; `Completion` says what that makes of the fields over whole runs. Three promises are not kept in every run. `Replacements` says exactly when fields are replaced after
sending and what that leaves of the drawn fields, `Standstill` when a document that everybody signed is stuck for
good, and `Limits` has a concrete run from the empty state for each broken promise, with the exact condition under
which a commit keeps it.

**The stores.** `Searching` finds a row, `Records` is the array every repository keeps, searched by organization and id, and its view of
one document. `Stores` has the repositories as classes whose methods scan and overwrite their array.
`Transactions` runs the units of work on those classes in the order of the source, with the loops over sessions
and fields and with rollback, and proves each equal to the step of the protocol on its own document and
invisible to every other document and organization.

**The audit log.** `Texts` has UTF-16 strings and the orders on object keys, `CanonicalJson` and `Canonicalizer`
the canonical form of a value, `JsonText` the printer and a reader that undoes it, `AuditPayload` the payload
policy, `AuditChain` the hashed text and hash chains, `AuditWriter` the appending writer, `Checkpoints` the
checkpoint store, `AuditVerifier` the verifier, `AuditFindings` exactly what it reports, and `AuditRuns` whole histories of verifications that may overlap:
each compares with the checkpoints at one moment and anchors at a later one. SHA-256 and the
printing of instants are parameters. Where it matters, the hash is assumed to have no collision among the texts
that are actually hashed; nothing is assumed about other texts.

**The outbox.** `Outbox` has the claimer over its two arrays, `OutboxRuns` any number of workers with one claim
each, `OutboxEffects` what each step writes, `OutboxTheorems` the results, `Backoff` the retry delays, `OutboxProgress` that events end and how long
their retries wait, and `Processor` one turn of a worker.

**Smaller pieces.** `RateLimiter`, `PdfStructure`, `ObjectKeys` and `OrphanSweep`.

## Where the code and its documentation differ

- `docs/architecture/document-lifecycle.md:71` has an expiry job move overdue documents to `expired` and revoke
  their sessions. No code does; `Theorems.StateFollowsTheTable` includes that no run reaches the state. Overdue
  sessions do expire, when they are next presented.
- `docs/architecture/document-lifecycle.md:52` has an expired lease lead to `finalization_failed`. In the code a
  lapsed lease is taken over by the next claim instead, and only a failed attempt moves the document.
- A finalized document need not show every field: the first job to run after everybody signed finalizes with
  its own signer's fields (`Limits.FinalizedWithUndrawnFields`).
- A document whose signers all signed need not be completed, then or ever (`Limits.AllSignedButInProgress`).
- Fields are not frozen by sending: a replacement that read the document while it was prepared writes no version
  when it finds the document prepared, and can land on any later state (`Limits.FieldsReplacedAfterDrawing`).
- Two verifications that overlap can report histories as ok that contradict each other
  (`AuditRuns.OverlappingReportsDisagree`).

## Model

| member | source | states |
|---|---|---|
| `Theorems.StateFollowsTheTable` | packages/domain/src/document-lifecycle.ts:12-24 | in every run of every interleaving, each change of document state is an edge of the transition table, and one of the seventeen written out; completed never jumps to finalized, and no document ever expires |
| `Theorems.EndStatesAreFinal` | packages/domain/src/document-lifecycle.ts:20-23 | voided, declined and finalized are never left, however a run goes on |
| `Theorems.VersionNamesTheRow` | packages/application/src/documents/memory-adapters.ts:268-289 | over any stretch of any run the document row is the same exactly when its version is, which is what optimistic locking relies on |
| `Theorems.ArtifactExactlyWhenFinalized` | packages/application/src/documents/flatten-signature.ts:206-248 | in every reachable state there is at most one artifact, there is one exactly when the document is finalized, and its digest is that of the current revision |
| `Theorems.FinalizedIsFrozen` | packages/application/src/documents/flatten-signature.ts:206-248 | once finalized, the document row, its artifact and the revision behind it never change again |
| `Theorems.FinishedMeansEverybodySigned` | packages/application/src/signing/complete-signing.ts:189-234 | a document that is completed, finalizing, finalization_failed or finalized has signers and every one of them signed, even when rosters were read before other commits |
| `Theorems.SigningOnlyWhileOut` | packages/application/src/documents/memory-adapters.ts:941-962 | a signer turns from pending to signed only by its own commit, while the document is sent or in_progress and the session it came with is active |
| `Theorems.NobodySignsAfterTheEnd` | packages/application/src/documents/void-document.ts:80-100 | after a void, a decline or a finalization no signer answers any more, because the ending commit closed the sessions a late signing commit needs |
| `Theorems.SignedInRoutingOrder` | packages/domain/src/signing-mode.ts:49-65 | in ordered mode, in every reachable state after sending, the signed signers are exactly those with orders 1 to k for some k |
| `Theorems.RoutingOfRows` | packages/domain/src/signing-mode.ts:19-47 | the check over a listing of the signers and the routing rule over the stored rows agree |
| `Theorems.OneWayIn` | packages/domain/src/document-lifecycle.ts:26-34 | in every run each signer has at most one open session and every session moves along the session table, although the store alone would also complete an issued session |
| `Theorems.ClosedStaysClosed` | packages/domain/src/document-lifecycle.ts:31-33 | a completed, expired or revoked session keeps its status over every continuation of a run |
| `Theorems.TokensExchangedOnce` | packages/application/src/signing/exchange-signing-token.ts:33-70 | no invitation token is exchanged twice in any run, and an exchanged token belongs to no session |
| `Theorems.DrawnExactlyOnce` | packages/application/src/documents/flatten-signature.ts:137-205 | no flatten work is repeated: the current revision draws a field at most once, a stored field is marked flattened exactly when it is drawn, and every marked field belongs to a signer who signed |
| `Theorems.DrawnIsNeverLost` | packages/application/src/documents/flatten-signature.ts:157-216 | no flatten work is lost: every later current revision draws what an earlier one drew, in the same order, and the mark of a field never changes as long as the field is stored |
| `Theorems.CommitDrawsTheSigner` | packages/application/src/documents/flatten-signature.ts:127-205 | after a successful commit every stored field of the worker's signer is drawn exactly if the commit drew something or nothing was left to draw |
| `Theorems.CommitSucceedsExactly` | packages/application/src/documents/memory-adapters.ts:201-225 | a flatten commit goes through exactly when the document row is still the one its claim wrote, that row is being finalized if the commit finalizes, and what it drew is still stored |
| `Theorems.CommitFollowsItsClaim` | packages/application/src/documents/memory-adapters.ts:165-225 | fencing: behind every successful commit there is the owner's own claim that produced exactly the version committed on, and nobody wrote the document in between |
| `Completion.CompletedFieldsAreSigned` | packages/application/src/signing/complete-signing.ts:196-212 | in every reachable state a completed field belongs to a signer who signed |
| `Completion.CompletionStays` | packages/application/src/documents/memory-adapters.ts:761-779 | over any stretch of any run a completed field that is still stored is still completed |
| `Completion.RequiredFieldsGetCompleted` | packages/application/src/signing/complete-signing.ts:290-306 | in every run in which no replacement of the fields lands after sending, every required field of a signer who signed is completed |
| `SignerEffects.Signing` | packages/application/src/signing/complete-signing.ts:189-262 | for a read of any age: exactly when a signature goes through, and then each selected field is its old row, completed, and every other field its old row; signer, session, flatten job and document row are given in full; otherwise nothing changes |
| `SignerEffects.LoadingForSigning` | packages/application/src/signing/complete-signing.ts:72-120 | exactly who is let in to sign: an exchanged, active session that is not overdue, a document out for signing, a pending signer whose turn it is, and a selection with every required field and no foreign one; an overdue session expires |
| `SignerEffects.TheNextMayAct` | packages/domain/src/signing-mode.ts:49-65 | in ordered mode, when a signer may act exactly the signers with lower orders have signed |
| `SignerEffects.LoadingForDecline` | packages/application/src/signing/signer-mutations.ts:194-227 | exactly who is let in to decline, or whose overdue session expires |
| `SignerEffects.Declining` | packages/application/src/signing/signer-mutations.ts:230-254 | a decline goes through exactly on the document row that was read and for a pending signer at the version read; it writes those two rows and revokes what was open |
| `WorkerEffects.LoadingForFlatten` | packages/application/src/documents/flatten-signature.ts:322-415 | what a worker finds: the unmarked fields of its signer, once each, and whether everybody has signed; a finalized document with its artifact gives no work |
| `WorkerEffects.Claiming` | packages/application/src/documents/memory-adapters.ts:165-200 | a claim goes through exactly when the row is still the one read, its state can be flattened, and there is no lease, the lease ended before now, or it is the owner's; the row it writes in full |
| `WorkerEffects.UnlapsedLeasesHold` | packages/application/src/documents/memory-adapters.ts:165-200 | no step of any run replaces an unlapsed lease by another owner's: whoever is leased the document next claimed after the end of the lease |
| `WorkerEffects.Committing` | packages/application/src/documents/flatten-signature.ts:173-248 | for a lease of any age: exactly when a commit goes through, and every row it writes; with something drawn the new revision and the artifact carry the digest of the new output, otherwise that of the old one |
| `WorkerEffects.Failing` | packages/application/src/documents/memory-adapters.ts:226-246 | failing moves any document that is being finalized, gives back the owner's own lease otherwise, and does nothing else |
| `WorkerEffects.Releasing` | packages/application/src/documents/memory-adapters.ts:247-264 | releasing gives back the owner's own lease and does nothing otherwise |
| `OwnerEffects.AttachingASource` | packages/application/src/documents/complete-source-upload.ts:92-161 | an upload goes through exactly for a draft without one whose row is still the one read |
| `OwnerEffects.RecordingAnInspection` | packages/application/src/documents/inspect-document.ts:47-109 | an inspection is recorded exactly once, on the row that was read, and changes nothing but its outcome |
| `OwnerEffects.ReplacingSigners` | packages/application/src/documents/replace-preparation.ts:79-115 | the signers are replaced exactly when the new orders are well routed and the row is the one read; the last entry for a signer counts, the fields of those who stay are kept and no others, and the state follows completeness |
| `OwnerEffects.ReplacingFields` | packages/application/src/documents/replace-preparation.ts:222-238 | the fields are replaced exactly when no change of state is due or the row is the one read; one new uncompleted field for each entry, and every signer has one |
| `OwnerEffects.LoadingForSend` | packages/application/src/documents/send-document.ts:90-113 | an envelope may be sent exactly when it is in preparation with an accepted upload, a well-routed roster and a field for everybody |
| `OwnerEffects.Sending` | packages/application/src/documents/send-document.ts:118-178 | sending goes through exactly on the row read; it fixes the signed revision and issues one session for each signer and no other |
| `OwnerEffects.Voiding` | packages/application/src/documents/void-document.ts:77-100 | voiding goes through exactly on the row read, in preparation or out for signing; it revokes what was open and leaves every other session alone |
| `SessionEffects.Rotating` | packages/application/src/documents/signing-sessions.ts:79-124 | the signer gets one issued session with the new token and expiry, what it had open is revoked, and all other sessions, those of other signers included, stay |
| `SessionEffects.RotatedIsTheOnlyWayIn` | packages/application/src/documents/signing-sessions.ts:79-124 | afterwards the new session is the only open one of its signer |
| `SessionEffects.Resolving` | packages/application/src/documents/signing-sessions.ts:253-284 | expires an overdue session, presents an issued one, and writes nothing else |
| `SessionEffects.LoadingForExchange` | packages/application/src/signing/load-signer-session.ts:59-93 | an invitation may be exchanged exactly while its session is open, not overdue and not exchanged, and the document is out for signing |
| `SessionEffects.Exchanging` | packages/application/src/signing/exchange-signing-token.ts:45-53 | the exchange goes through exactly for an open session, not yet exchanged, at the version read; the invitation token gives way to the new one |
| `SessionEffects.RecordingAView` | packages/application/src/signing/signer-mutations.ts:64-80 | recording a view writes nothing but the expiry of an overdue session |
| `Replacements.LandsExactly` | packages/application/src/documents/replace-preparation.ts:224-238 | a replacement of the fields read during preparation lands on a document that is no longer in preparation exactly when the state that was read needed no change, so that no version was written or checked |
| `Replacements.OnlyReplacementsLand` | packages/application/src/documents/replace-preparation.ts:160-254 | after sending nothing else adds or removes a field, and a replacement that lands leaves the document row as it was |
| `Replacements.FieldsStayExactly` | packages/application/src/documents/memory-adapters.ts:747-760 | from any moment after sending the stored fields stay exactly as long as no replacement lands; one that does leaves none of them |
| `Replacements.DrawnIsStoredExactly` | packages/application/src/documents/flatten-signature.ts:157-216 | everything the current revision draws is still a stored, marked field exactly as long as no replacement has landed on a document with something drawn |
| `Replacements.UndisturbedCommitDraws` | packages/application/src/documents/flatten-signature.ts:127-205 | where no replacement has landed, every commit that goes through leaves all fields of its signer drawn |
| `Standstill.CompletesLaterExactly` | packages/application/src/signing/complete-signing.ts:189-234 | once everybody has signed, a document in progress can still become completed exactly when a signing request is under way that would complete it at once; nothing that happens later brings one about |
| `Standstill.StandsStill` | packages/application/src/signing/complete-signing.ts:94-110 | without such a request the document stays in progress for ever, unless it is voided |
| `Limits.CompletesExactlyOnFreshRoster` | packages/application/src/signing/complete-signing.ts:215-234 | after a signature, a document whose signers all signed is no longer out for signing exactly when the roster that was read had caught up: the last signature was decided on a roster showing everybody else signed |
| `Limits.AllSignedButInProgress` | packages/application/src/signing/complete-signing.ts:215-234 | a run after which everybody has signed, the document is in_progress, and no continuation whatever completes it |
| `Limits.FinalizesEverythingExactly` | packages/application/src/documents/flatten-signature.ts:127-157 | a commit leaves every stored field drawn exactly when the fields of the other signers were drawn before it, and its own signer's too unless it draws something itself |
| `Limits.FinalizedWithUndrawnFields` | packages/application/src/documents/flatten-signature.ts:354-356 | a run that ends finalized with required fields that are not drawn |
| `Limits.FieldsReplacedAfterDrawing` | packages/application/src/documents/replace-preparation.ts:224-238 | a run in which a replacement of the fields lands after a field was signed and drawn: the drawn field is gone from the table, and a worker's commit for its signer goes through without drawing the new one |
| `Safety.PersistMissingIsGood` | packages/application/src/documents/flatten-signature.ts:574-640 | the repair path for a finalized document without an artifact is never taken |
| `Safety.InvStep` | packages/database/src/infrastructure/prisma-unit-of-work.ts:7-20 | every action of every actor, replacements of signers and fields included, on reads of any age, keeps the invariant and only lets the tables advance |
| `Safety.InvAlways` | packages/application/src/signing/load-signer-session.ts:46-115 | the invariant (consistent tables, faithful reads, single-use tokens) holds after every sequence of actions from the empty state |
| `Invariants.FaithfulSurvives` | packages/application/src/signing/load-signer-session.ts:84-115 | what a request read stays true enough for its later commit, whatever commits in between |
| `Evolution.RunsEvolve` | packages/application/src/documents/memory-adapters.ts:201-264 | what any two moments of a run have in common: versions grow, end states, answers, closed sessions and revisions stay, a field that is gone never comes back and one that stays keeps its mark |
| `StepLemmas.SigningIsTimely` | packages/application/src/signing/complete-signing.ts:208-214 | a signing commit that succeeds either finds the signer signed already or finds the document out for signing and the session active |
| `StepLemmas.SendKeeps` | packages/application/src/documents/send-document.ts:118-194 | sending an envelope read at the current version leaves consistent tables with one issued session per signer |
| `StepLemmas.CompleteSigningKeeps` | packages/application/src/signing/complete-signing.ts:189-262 | a signing commit decided on a stale roster still keeps every invariant of the tables |
| `StepLemmas.CommitFlattenKeeps` | packages/application/src/documents/flatten-signature.ts:173-259 | a flatten commit on a stale read either fails or keeps drawn fields, marks and artifact in step |
| `StepLemmas.DeclineKeeps` | packages/application/src/signing/signer-mutations.ts:230-254 | a decline keeps the invariant and closes every session |
| `StepLemmas.RotateKeeps` | packages/application/src/documents/signing-sessions.ts:79-124 | rotating leaves at most one open session per signer |
| `Routing.AssertSignerRouting` | packages/domain/src/signing-mode.ts:19-47 | accepts exactly the parallel lists that are all 1 and the ordered lists that are an arrangement of 1..n; says which lists are empty or carry an order below 1 |
| `Stores.DocumentStore.BumpDocument` | packages/application/src/documents/memory-adapters.ts:268-289 | changes the found row only at the expected version and raises the version; every other record stays |
| `Stores.DocumentStore.SetPreparationState` | packages/application/src/documents/memory-adapters.ts:114-119 | stores draft or prepared at the version read, without looking at the state |
| `Stores.DocumentStore.MarkSent` | packages/application/src/documents/memory-adapters.ts:120-127 | stores the sent row of the document of that organization, or nothing |
| `Stores.DocumentStore.MarkDeclined` | packages/application/src/documents/memory-adapters.ts:128-135 | declines a document that is out for signing, refuses any other |
| `Stores.DocumentStore.MarkVoided` | packages/application/src/documents/memory-adapters.ts:136-148 | voids a document that is in preparation or out for signing, refuses any other |
| `Stores.DocumentStore.MarkInProgress` | packages/application/src/documents/memory-adapters.ts:149-156 | moves a document that is out for signing, refuses any other |
| `Stores.DocumentStore.MarkCompleted` | packages/application/src/documents/memory-adapters.ts:157-164 | completes a document that is out for signing, refuses any other |
| `Stores.DocumentStore.ClaimProcessingLease` | packages/application/src/documents/memory-adapters.ts:165-200 | leases a flattenable document whose lease is free, lapsed or the owner's; `WorkerEffects.Claiming` spells the condition out |
| `Stores.DocumentStore.CommitFlattenedRevision` | packages/application/src/documents/memory-adapters.ts:201-225 | replaces the current revision for the lease owner only, finalizing only what is being finalized or completed |
| `Stores.DocumentStore.MarkFinalizationFailed` | packages/application/src/documents/memory-adapters.ts:226-246 | fails a document under finalization for any owner, and gives a lease back for its own |
| `Stores.DocumentStore.ReleaseProcessingLease` | packages/application/src/documents/memory-adapters.ts:247-264 | gives the lease back for its owner and does nothing otherwise |
| `Stores.SignerStore.MarkDeclined` | packages/application/src/documents/memory-adapters.ts:681-700 | declines a pending signer at the version read |
| `Stores.SignerStore.MarkSigned` | packages/application/src/documents/memory-adapters.ts:701-723 | signs a pending signer at the version read and leaves a signed one alone |
| `Stores.SessionStore.Create` | packages/application/src/documents/memory-adapters.ts:843-855 | adds a session unless the signer has an open one anywhere in the organization |
| `Stores.SessionStore.Revoke` | packages/application/src/documents/memory-adapters.ts:856-874 | revokes an open session only |
| `Stores.SessionStore.MarkPresented` | packages/application/src/documents/memory-adapters.ts:875-898 | activates an issued session and accepts an active one |
| `Stores.SessionStore.MarkExpired` | packages/application/src/documents/memory-adapters.ts:899-913 | expires an open session only |
| `Stores.SessionStore.ConsumeAndRotate` | packages/application/src/documents/memory-adapters.ts:914-940 | exchanges an unconsumed open session at the version read |
| `Stores.SessionStore.MarkCompleted` | packages/application/src/documents/memory-adapters.ts:941-962 | completes an open session, an issued one too, and leaves a completed one alone |
| `Stores.FieldStore.Complete` | packages/application/src/documents/memory-adapters.ts:761-779 | marks the found field completed and touches no other |
| `Stores.FieldStore.MarkFlattened` | packages/application/src/documents/memory-adapters.ts:780-794 | marks the found field with the revision and touches no other |
| `Stores.FieldStore.ReplaceAll` | packages/application/src/documents/memory-adapters.ts:747-760 | keeps the rows of all other documents in their order and puts the new rows behind them |
| `Stores.ArtifactStore.Create` | packages/application/src/documents/memory-adapters.ts:1028-1040 | adds an artifact unless the document has one |
| `Records.FindRecord` | packages/application/src/documents/memory-adapters.ts:273-275 | returns the first record of the organization with the id, or -1 |
| `Records.ListByDocument` | packages/application/src/documents/memory-adapters.ts:830-834 | lists every row of the document once, as it is stored |
| `Records.OverwrittenView` | packages/application/src/documents/memory-adapters.ts:283-288 | overwriting a row shows in the view of its own document and in no other document or organization |
| `Records.PushedView` | packages/application/src/documents/memory-adapters.ts:853-854 | adding a row with a new id shows in the view of its own document only |
| `Records.ReplacedView` | packages/application/src/documents/memory-adapters.ts:747-760 | replacing all rows of a document shows as the new rows in its own view and not at all in any other |
| `Transactions.UnitOfWork.VoidDocument` | packages/application/src/documents/void-document.ts:80-100 | run on the stores, with its loop over the sessions, it has exactly the effect of the step on its document and none elsewhere |
| `Transactions.UnitOfWork.Decline` | packages/application/src/signing/signer-mutations.ts:230-254 | the same for a decline, rolled back when the document refuses |
| `Transactions.UnitOfWork.Rotate` | packages/application/src/documents/signing-sessions.ts:79-124 | the same for a rotation, with its loop over the signer's open sessions |
| `Transactions.UnitOfWork.Send` | packages/application/src/documents/send-document.ts:118-178 | the same for sending, with its loop over the signers; one signer with an open session undoes it all |
| `Transactions.UnitOfWork.ReplaceFields` | packages/application/src/documents/replace-preparation.ts:224-238 | the same for a replacement of the fields: the new rows and the state of the document as it was read, or nothing |
| `Transactions.UnitOfWork.MaybeMarkPrepared` | packages/application/src/documents/replace-preparation.ts:279-304 | writes the document only when the state that was read has to change |
| `Transactions.UnitOfWork.CompleteSigning` | packages/application/src/signing/complete-signing.ts:189-262 | the same for a completed signing: fields, signer, session, document and flatten job, or nothing |
| `Transactions.UnitOfWork.CommitFlatten` | packages/application/src/documents/flatten-signature.ts:173-248 | the same for a flatten commit: revision, marks, document and artifact, or nothing |
| `CanonicalJson.CanonGivesCanonical` | packages/domain/src/audit/canonical.ts:49-91 | what canonicalizing yields is canonical at every depth: ordered keys, nothing undefined, no prototype key |
| `CanonicalJson.CanonKeepsCanonical` | packages/domain/src/audit/canonical.ts:49-91 | canonicalizing a canonical value changes nothing |
| `Canonicalizer.Canonicalize` | packages/domain/src/audit/canonical.ts:49-91 | the loop over sorted keys that fills a fresh object computes the specified canonical value or fails exactly when that is undefined |
| `Canonicalizer.CanonIsMeaning` | packages/domain/src/audit/canonical.ts:44-48 | two values have the same canonical form exactly when they are equal up to member order, undefined members and prototype members, at every depth |
| `Texts.SameValueSameDigits` | packages/domain/src/audit/canonical.ts:79-87 | array-index keys are told apart by their value, so the order of an object's keys is total |
| `JsonText.ReadEmitted` | packages/domain/src/audit/canonical.ts:93-95 | a reader recovers any printable value from its text in front of any other text |
| `JsonText.ReadUndoesSerialize` | packages/domain/src/audit/canonical.ts:93-95 | reading the serialized text gives back the canonical value |
| `JsonText.SameTextSameMeaning` | packages/domain/src/audit/canonical.ts:93-95 | equal texts exactly for equal meanings and exactly for equal canonical values; insertion order never shows |
| `JsonText.SerializeAgain` | packages/domain/src/audit/canonical.ts:93-95 | serializing a canonical value again changes nothing |
| `JsonText.ProtoMemberLeavesNoTrace` | packages/domain/src/audit/canonical.ts:86 | a member named __proto__ leaves no trace in the text |
| `JsonText.ValuesPrint` | packages/domain/src/audit/canonical.ts:93-95 | null, true and false; items between brackets, members between braces as quoted key, colon and value, with a comma between each two |
| `JsonText.StringsPrint` | packages/domain/src/audit/canonical.ts:93-95 | a string prints between quotes, surrogate pairs as they are and every other unit by itself |
| `JsonText.MembersInOrder` | packages/domain/src/audit/canonical.ts:79-87 | in the order of printing, keys that are how a number below 2^32 - 1 prints come first and go up, and of two other keys the first is a beginning of the second or lower where they first differ |
| `JsonText.IndexKeysPrint` | packages/domain/src/audit/canonical.ts:79-87 | a key counts as an array index exactly when it is how a number below 2^32 - 1 prints |
| `JsonText.PlainUnits` | packages/domain/src/audit/canonical.ts:93-95 | a code unit is printed as itself exactly unless it is a control, a quote, a backslash or half a surrogate pair |
| `JsonText.EscapedUnits` | packages/domain/src/audit/canonical.ts:93-95 | the five short escapes, and the four lower-case hexadecimal digits of every other unit that is escaped |
| `JsonText.NumbersPrint` | packages/domain/src/audit/canonical.ts:93-95 | a number prints as its decimal digits with no leading zero, behind a minus sign when negative |
| `AuditPayload.ApprovedCarriesNothingForbidden` | packages/domain/src/audit/payload.ts:57-125 | an approved value carries no forbidden key at any depth |
| `AuditPayload.ApprovedMembersCanonicalize` | packages/domain/src/audit/payload.ts:104-125 | an approved payload can always be canonicalized |
| `AuditPayload.ApprovedExactly` | packages/domain/src/audit/payload.ts:57-96 | a value is approved exactly when nothing is wrong with anything that lies inside it: not too deep, too long or too large, no forbidden key, no unsupported kind |
| `AuditPayload.ApprovedPayloadExactly` | packages/domain/src/audit/payload.ts:104-125 | the same for a whole payload |
| `AuditPayload.ForbiddenParts` | packages/domain/src/audit/payload.ts:49-55 | a forbidden part anywhere in the folded key forbids it |
| `AuditChain.EventTextIsPrint` | packages/domain/src/audit/canonical.ts:97-129 | the event document is canonical as it stands, so the hashed text is its print |
| `AuditChain.HashedTextReads` | packages/domain/src/audit/canonical.ts:97-129 | read back, the hashed text is an object with exactly eight members: actorId, actorType, occurredAt, payload, previousEventHash, schemaVersion, sequence and type, each with the value of the event, the payload in canonical form |
| `AuditChain.SameTextSameEvent` | packages/domain/src/audit/canonical.ts:97-129 | two events have the same hashed text exactly when they agree on every hashed member |
| `AuditChain.SameHashSamePast` | packages/application/src/audit/verify-audit-chain.ts:186-226 | two chains with one hash in common agree on every hashed member up to there, unless the hash collides on their texts |
| `AuditChain.SameHeadSameChain` | packages/application/src/audit/verify-audit-chain.ts:168-230 | two chains with the same head hash have the same length and agree everywhere, unless the hash collides on their texts |
| `AuditVerifier.VerifyAuditChain` | packages/application/src/audit/verify-audit-chain.ts:124-295 | the report and the checkpoints left behind are the specified ones, conflicts included |
| `AuditVerifier.OkExactlyWhenValid` | packages/application/src/audit/verify-audit-chain.ts:168-272 | no failure is reported exactly for lists that are valid chains as stated without sorting or deduplication |
| `AuditFindings.SortingSorts` | packages/application/src/audit/verify-audit-chain.ts:169 | the sorted list is ascending, has the same events as often, and keeps the order of those with the same number |
| `AuditFindings.ReorderedChain` | packages/application/src/audit/verify-audit-chain.ts:168-184 | a sound chain listed in any other order gives exactly one finding, the reordering at the event listed first, and its head is still the last event of the chain |
| `AuditFindings.FindingsAreExactly` | packages/application/src/audit/verify-audit-chain.ts:168-257 | a finding is made exactly when it is called for, with the condition of each of the ten codes spelled out |
| `AuditFindings.HeadIsHighest` | packages/application/src/audit/verify-audit-chain.ts:259 | the head of a report is the last listed event with the highest number |
| `AuditFindings.ReportIsExact` | packages/application/src/audit/verify-audit-chain.ts:259-272 | the report has exactly the findings that are called for, each once |
| `AuditFindings.ReportRest` | packages/application/src/audit/verify-audit-chain.ts:232-291 | ok is having no finding; the only warnings are that nothing is anchored and that an ok head contradicts a stored checkpoint |
| `AuditVerifier.DedupeFindings` | packages/application/src/audit/verify-audit-chain.ts:348-360 | the loop keeps the first finding of each kind |
| `AuditVerifier.DedupeLosesNoKind` | packages/application/src/audit/verify-audit-chain.ts:348-360 | no kind of finding is lost and none is made up |
| `AuditVerifier.DedupeKeepsOne` | packages/application/src/audit/verify-audit-chain.ts:348-360 | no kind of finding is kept twice |
| `AuditVerifier.CheckLinks` | packages/application/src/audit/verify-audit-chain.ts:186-230 | the loop over the sorted events finds what is specified for each event, in order |
| `Checkpoints.CheckpointStore.PutIfAbsent` | packages/application/src/audit/memory-checkpoint-store.ts:18-36 | stores for a free position only, and tells a repeated checkpoint from a conflicting one |
| `Checkpoints.CheckpointStore.GetLatest` | packages/application/src/audit/memory-checkpoint-store.ts:47-55 | returns the document's checkpoint with the highest sequence |
| `Checkpoints.PutExactly` | packages/application/src/audit/memory-checkpoint-store.ts:18-36 | with one checkpoint for each position, putting conflicts exactly with another hash at the same position of the document |
| `AuditWriter.AuditLog.Append` | packages/application/src/documents/memory-adapters.ts:538-575 | stores the next link of the draft's own document, or nothing |
| `AuditWriter.AuditLog.FindLatest` | packages/application/src/documents/memory-adapters.ts:515-523 | returns the first event of the document with the highest sequence |
| `AuditWriter.AppendedEvent` | packages/application/src/documents/memory-adapters.ts:538-575 | in a log of chains an append stores the draft as it is, numbered by how many events the document has, linked to the hash of the last or to sixty-four zeros, and hashed; nothing else changes |
| `AuditWriter.LatestIsFirstHighest` | packages/application/src/documents/memory-adapters.ts:515-523 | the latest event is the first of those with the highest number |
| `AuditWriter.WrittenLogsAreChains` | packages/application/src/documents/memory-adapters.ts:480-577 | any interleaving of appends to any number of documents leaves every document with a chain |
| `AuditWriter.ApprovedIsStored` | packages/application/src/documents/memory-adapters.ts:538-575 | a draft is stored exactly when its payload is approved |
| `AuditRuns.OkReportsOnlyGrow` | packages/application/src/audit/verify-audit-chain.ts:232-291 | with verifications overlapping in any way and arbitrary rewrites in between: of any two ok reports on a document the earlier chain is a prefix of the later one on every hashed member exactly when every ok report would still have passed its comparison at the moment it anchored |
| `AuditRuns.AnchoringNeverConflicts` | packages/application/src/audit/verify-audit-chain.ts:274-291 | anchoring such a report never conflicts with a stored checkpoint and makes its head the latest one |
| `AuditRuns.UndisturbedIsConfirmed` | packages/application/src/audit/verify-audit-chain.ts:240-244 | a report would still pass when it anchors if the checkpoint it read is the latest one by then |
| `AuditRuns.OneAtATime` | packages/application/src/audit/verify-audit-chain.ts:124-295 | verifications that do not overlap all would |
| `AuditRuns.OverlappingReportsDisagree` | packages/application/src/audit/verify-audit-chain.ts:240-280 | two overlapping verifications that both saw no checkpoint report different histories of one document as ok |
| `AuditRuns.HonestDocumentsAreOk` | packages/application/src/audit/verify-audit-chain.ts:124-295 | with only appends and verifications, overlapping in any way, a document with events is ok exactly when its artifact matches its finalized events |
| `AuditRuns.HonestHeadsNeverConflict` | packages/application/src/audit/verify-audit-chain.ts:274-291 | in such a system nothing that was reported ok ever conflicts when it is anchored, however late |
| `Outbox.OutboxClaimer.ClaimNextByType` | packages/application/src/jobs/memory-claimer.ts:69-110 | claims the first event that has the type, is due, and is pending or lapsed, in both tables, with a job row made if there is none; or there is none such and nothing changes |
| `Outbox.OutboxClaimer.MarkProcessed` | packages/application/src/jobs/memory-claimer.ts:111-151 | ends the attempt in both tables for the lease owner, and changes nothing otherwise |
| `Outbox.OutboxClaimer.ApplyOutcome` | packages/application/src/jobs/memory-claimer.ts:165-220 | a retry or a dead letter in both tables for the lease owner, and nothing otherwise |
| `OutboxRuns.InvAlways` | packages/application/src/jobs/memory-claimer.ts:69-220 | in every reachable state an event and its job agree on status, owner, lease end, attempts and due time |
| `OutboxTheorems.MemoryEndsAsDatabase` | packages/database/src/infrastructure/prisma-outbox-claimer.ts:110-209 | in every reachable state the memory claimer's weaker job guard makes the same updates as the guarded database updates |
| `OutboxTheorems.OutcomeNeedsTheLease` | packages/application/src/jobs/memory-claimer.ts:113-123 | an outcome changes something exactly when its owner still holds the lease |
| `OutboxTheorems.LeaseIsRespected` | packages/application/src/jobs/memory-claimer.ts:71-79 | a leased event is touched only by a claim after the lapse or by the outcome of the claim that leased it |
| `OutboxTheorems.ClosedEventsStay` | packages/application/src/jobs/memory-claimer.ts:111-163 | processed and failed are absorbing, and no event disappears |
| `OutboxTheorems.AttemptsCountClaims` | packages/application/src/jobs/memory-claimer.ts:85-92 | the attempt count of an event is the number of its claims in the run |
| `OutboxTheorems.PendingAlwaysHasAttempts` | packages/application/src/jobs/process-outbox.ts:106-142 | every pending event has attempts left |
| `OutboxTheorems.LapseFreeRunsEnd` | packages/application/src/jobs/process-outbox.ts:60-158 | without lapses an event is claimed at most as often as its job allows and its row changes at most twice that often plus once |
| `OutboxProgress.OrderlyRunsCloseEvents` | packages/application/src/jobs/process-outbox.ts:60-158 | without crashes and lapses an event is processed or failed exactly when no further step changes its row |
| `OutboxProgress.OnlyClosedEventsRest` | packages/application/src/jobs/memory-claimer.ts:69-92 | in any run, crashes included, an event that is not closed can still be claimed |
| `OutboxTheorems.LastFailureIsFinal` | packages/application/src/jobs/process-outbox.ts:106-135 | when the attempts are used up, a failure of the holder ends in failed |
| `OutboxTheorems.SuccessProcesses` | packages/application/src/jobs/process-outbox.ts:85-103 | a success of the holder ends in processed |
| `OutboxEffects.Claiming` | packages/application/src/jobs/memory-claimer.ts:69-110 | in any run: a claim changes the queue exactly when its owner holds nothing and the event is of the type, due, and pending or lapsed; every row it writes in both tables |
| `OutboxEffects.ClaimsAreDue` | packages/application/src/jobs/memory-claimer.ts:71-79 | in any run a claim that changes an event finds it of the type asked for, due, and pending or lapsed |
| `OutboxEffects.RetriesWait` | packages/application/src/jobs/process-outbox.ts:137-150 | between a failure and the next claim of the event at least half the capped exponential of the failed attempt passes, rounded down |
| `OutboxEffects.Succeeding` | packages/application/src/jobs/memory-claimer.ts:111-151 | in any run: a success ends event and job exactly while the claim still stands, and does nothing otherwise |
| `OutboxEffects.Failing` | packages/application/src/jobs/process-outbox.ts:106-150 | in any run: a failure while the claim stands is retried exactly when it may help and attempts are left, and is final otherwise; both rows in full |
| `Processor.ProcessNext` | packages/application/src/jobs/process-outbox.ts:60-158 | one turn is a claim and the outcome the failure rule prescribes, or idle without any change |
| `Processor.TurnIsTwoSteps` | packages/application/src/jobs/process-outbox.ts:60-158 | a turn is two steps of the run system and always gives back the lease it took |
| `Processor.TurnsAreSteps` | packages/application/src/jobs/process-outbox.ts:60-158 | what a turn leaves behind is what the run system reaches by the claim and then a success, when the handler finishes, or a failure that backs off; the outcome names how the event then stands |
| `Backoff.BackoffBounds` | packages/domain/src/jobs/backoff.ts:8-33 | the delay lies between half the capped exponential, rounded down, and the whole of it, below it when positive |
| `Backoff.ExponentialGrows` | packages/domain/src/jobs/backoff.ts:13-17 | later attempts never wait for less before the jitter, and never for more than the cap |
| `Backoff.ExponentialDoubles` | packages/domain/src/jobs/backoff.ts:13-17 | the first attempt waits for the base and each later one twice as long as the one before, up to the cap |
| `Backoff.DrawPlacesTheDelay` | packages/domain/src/jobs/backoff.ts:18-33 | the draw places the delay between half and the whole in proportion, rounded down; how draws outside the unit interval count |
| `OutboxProgress.WaitsAddUp` | packages/application/src/jobs/process-outbox.ts:106-158 | in any run the retries of an event are at most one for each attempt, and together they wait less than the capped exponentials of those attempts add up to |
| `OutboxProgress.RetryIsDueInTime` | packages/application/src/jobs/process-outbox.ts:137-150 | a retried event is due between half the capped exponential of its attempt and the whole of it after the failure |
| `OutboxProgress.LapseFreeWait` | packages/application/src/jobs/process-outbox.ts:60-158 | without lapses an event is retried at most once less than its job allows attempts, and waits less than those exponentials, which the cap bounds |
| `RateLimiter.MemoryRateLimiter.Consume` | packages/application/src/auth/memory-rate-limiter.ts:11-27 | decides by the key's own bucket; a refusal changes nothing and other keys are untouched |
| `RateLimiter.SlidingWindowBound` | packages/application/src/auth/memory-rate-limiter.ts:11-27 | for any trace with a clock that does not run back, no interval of the window's length holds two full quotas of allowed requests of a key |
| `RateLimiter.BoundIsReached` | packages/application/src/auth/memory-rate-limiter.ts:14-26 | a trace that reaches two quotas less one |
| `RateLimiter.WaitingHelps` | packages/application/src/auth/memory-rate-limiter.ts:18-24 | a refused caller that waits as told, alone on its key, is allowed |
| `RateLimiter.WaitingLessDoesNot` | packages/application/src/auth/memory-rate-limiter.ts:18-24 | a second less is not enough |
| `RateLimiter.RefusalsAreEarned` | packages/application/src/auth/memory-rate-limiter.ts:11-27 | for any trace, a refused request falls into an interval of the window's length that already has a full quota of allowed ones |
| `PdfStructure.IncludesPdfName` | packages/application/src/documents/structural-pdf-inspector.ts:129-158 | for names without a slash, true exactly when some occurrence of the token is followed by a terminator or the end |
| `PdfStructure.ScanIsExact` | packages/application/src/documents/structural-pdf-inspector.ts:132-156 | skipping a whole token after a miss loses no match |
| `PdfStructure.SlashesMayHideAName` | packages/application/src/documents/structural-pdf-inspector.ts:132-156 | with a slash inside the name a match can be skipped |
| `PdfStructure.FindPdfMagicOffset` | packages/application/src/documents/structural-pdf-inspector.ts:93-109 | finds the header exactly where it stands after at most 1024 white-space bytes |
| `PdfStructure.InspectPdfStructure` | packages/application/src/documents/structural-pdf-inspector.ts:160-181 | accepts exactly the bodies with header, end marker and no forbidden name, and otherwise gives the first reason |
| `PdfStructure.AcceptedExactly` | packages/application/src/documents/structural-pdf-inspector.ts:12-181 | a body is accepted exactly when %PDF- stands behind at most 1024 white-space bytes, %%EOF in the last 2048, no name of the table stands anywhere behind a slash and in front of the end or of a unit that ends a name, and no escaped spelling occurs |
| `PdfStructure.ForbiddenNamesNeverPass` | packages/application/src/documents/structural-pdf-inspector.ts:12-64 | a body with any forbidden name, ended by the end of input, a blank, a control or one of the ten delimiters, is never accepted |
| `PdfStructure.ScriptsNeverPass` | packages/application/src/documents/structural-pdf-inspector.ts:16-23 | in particular none with /JS before a string, a dictionary, another name, a blank or the end |
| `PdfStructure.NameEnds` | packages/application/src/documents/structural-pdf-inspector.ts:137-152 | which units end a name |
| `PdfStructure.HeaderAndMarker` | packages/application/src/documents/structural-pdf-inspector.ts:93-115 | the header is %PDF- behind at most 1024 white-space bytes; %%EOF is looked for in the last 2048 bytes |
| `ObjectKeys.TenantKeysAreStable` | packages/domain/src/object-keys.ts:33-53 | a key made for a tenant passes the tenant's check and is made from itself |
| `ObjectKeys.TenantsShareNoKey` | packages/domain/src/object-keys.ts:6-8 | no key belongs to two organizations |
| `ObjectKeys.SafeExactly` | packages/domain/src/object-keys.ts:16-31 | a key is safe exactly when, but for one slash at its end, it is a path of segments that are neither empty nor a dot nor two dots, without backslash or zero |
| `ObjectKeys.JoinUndoesSplit` | packages/domain/src/object-keys.ts:24 | splitting at slashes and joining gives the key back |
| `ObjectKeys.OwnKeys` | packages/domain/src/object-keys.ts:33-44 | a safe key that names no organization is put under the tenant's own |
| `ObjectKeys.ForeignKeys` | packages/domain/src/object-keys.ts:37-42 | a key under an organization is kept for it and refused for any other |
| `OrphanSweep.ObjectStorage.PutObject` | packages/application/src/ports/memory-object-storage.ts:19-45 | stored content never changes: the same content again is fine, other content under a used key is refused |
| `OrphanSweep.ObjectStorage.ListKeys` | packages/application/src/ports/memory-object-storage.ts:66-75 | lists exactly the keys of old enough objects under the tenant's prefix, each once |
| `OrphanSweep.CleanupOrphanedObjects` | packages/application/src/documents/cleanup-orphaned-objects.ts:16-57 | run alone, deletes exactly the old unreferenced objects under the prefixes and returns their number; when a prefix is refused it has deleted nothing else |
| `OrphanSweep.SweepSparesTheRest` | packages/application/src/documents/cleanup-orphaned-objects.ts:27-54 | referenced objects, newer objects and objects of other organizations are kept |
| `OrphanSweep.SweptExactly` | packages/application/src/documents/cleanup-orphaned-objects.ts:16-57 | an object is deleted exactly when its key is under one of the tenant's prefixes, it is old enough, and no row of the revisions, of the artifacts or of the completed fields names it |

## Left out

- One envelope at a time in the protocol: documents share no rows, which `Transactions` proves for the stores.
- The reads of one load happen at one moment; several reads spread over a load are not interleaved with commits.
- Standstill.CompletesLaterExactly: counts the requests that have finished their load; one that is still between its
  reads of the signer and of the roster is not modelled.
- Guards that only refuse and write nothing of their own are not part of the steps: authorization, account
  authentication, consent, ink and PNG checks, idempotency records. Leaving them out adds runs, never hides one.
- `SignerStore` has no replaceAll, and uploading, inspection, mode changes and replacing signers are modelled on
  rows only; these members would add branches of the same kind.
- Generated ids are new: no session, revision or field gets an id that was given out before.
- The PDF content of a revision is the list of fields drawn on it; rendering, PNG decoding and storage of bytes
  during flattening are foreign code, and a worker's failure may come at any time.
- The document guards are those of the memory repository. The database repository is stricter about who may fail a
  finalization and in which state, and does not look at the state in a flatten commit.
- Emitted audit events, notifications, metrics, logging, HTTP, cookies and configuration.
- Numbers in payloads are integers of a size JavaScript prints in full; dates, sparse arrays, typed arrays as whole
  payloads, negative zero and cyclic values inside payloads are not modelled.
- Which of several reasons canonicalization fails for first; the model has one failure.
- AuditVerifier.VerifyAuditChain: is one uninterrupted call (`AuditRuns` has the overlapping ones); it takes the artifact
  row and the hash of its stored bytes as evidence; the two lookups in object storage, authorization and alerts are not
  modelled, and an unavailable checkpoint store is not either.
- The checkpoint store kept in object storage, which writes a timestamp into its body.
- Members of audit events that are not hashed (request id, creation time), except the id.
- Row versions and timestamps of jobs; picking by due time, as the database does, is covered because the step system
  may claim any claimable event.
- Backoff.BackoffBounds: is about exact arithmetic; rounding of doubles is not modelled.
- Processor.ProcessNext: nobody else touches the queue while the handler runs; the interleaved case is `OutboxTheorems`.
- OrphanSweep.CleanupOrphanedObjects: is a single uninterrupted call; an upload of the same bytes during the sweep is not modelled.
- OrphanSweep.ObjectStorage.PutObject: does not model the size limit and the bytes, only their digest.
- Prisma, SQL, S3 and filesystem drivers beyond their atomicity; the web application.
