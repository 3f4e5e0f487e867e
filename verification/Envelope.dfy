/** The rows of one envelope (a document with its signers, sessions, fields, revisions and artifact)
    and the guarded row updates of the stores. Identifiers, tokens and digests are opaque numbers,
    instants are milliseconds. */
module Envelope {
  import opened Results
  import opened Lifecycle

  type Id = nat

  datatype Document = Document(
    state: DocumentState,
    signingMode: SigningMode,
    inspection: InspectionStatus,
    currentRevisionId: Option<Id>,
    signingRevisionId: Option<Id>,
    expiresAt: Option<int>,
    version: nat,
    leaseOwner: Option<Id>,
    leaseUntil: Option<int>,
    finalizationAttemptCount: nat)

  datatype Signer = Signer(routingOrder: int, status: SignerStatus, version: nat)

  /** `consumed` says that the invitation token has been exchanged (consumedAt is set). */
  datatype Session = Session(signerId: Id, status: SessionStatus, token: Id, consumed: bool, expiresAt: int, version: nat)

  datatype Field = Field(signerId: Id, required: bool, completed: bool, flattenedRevisionId: Option<Id>)

  /** `drawn` stands for the page content: the fields whose appearance the PDF shows, in drawing order. */
  datatype Revision = Revision(digest: Id, drawn: seq<Id>)

  datatype Artifact = Artifact(digest: Id)

  const BLANK_DOCUMENT := Document(Draft, Ordered, InspectionPending, None, None, None, 1, None, None, 0)

  /* ---- documents ---- */

  /** The optimistic check every versioned update goes through; `updated` is the row the caller built,
      or the conflict its state guard raised. */
  function Bump(current: Document, expectedVersion: nat, updated: Result<Document>): (r: Result<Document>)
    ensures r.Ok? ==> r.value.version == current.version + 1 && current.version == expectedVersion
  {
    if current.version != expectedVersion then Err(DocumentVersionConflict)
    else
      var next :- updated;
      Ok(next.(version := current.version + 1))
  }

  function GuardState(current: Document, allowed: bool, next: DocumentState): Result<Document> {
    if allowed then Ok(current.(state := next)) else Err(DocumentStateConflict)
  }

  function AttachSourceRevision(d: Document, expectedVersion: nat, revisionId: Id): Result<Document> {
    Bump(d, expectedVersion, Ok(d.(currentRevisionId := Some(revisionId))))
  }

  function SetInspectionStatus(d: Document, expectedVersion: nat, status: InspectionStatus): Result<Document> {
    Bump(d, expectedVersion, Ok(d.(inspection := status)))
  }

  function SetSigningMode(d: Document, expectedVersion: nat, mode: SigningMode): Result<Document> {
    Bump(d, expectedVersion, Ok(d.(signingMode := mode)))
  }

  /** No state guard of its own: the use cases only ask for draft or prepared. */
  function SetPreparationState(d: Document, expectedVersion: nat, state: DocumentState): Result<Document> {
    Bump(d, expectedVersion, Ok(d.(state := state)))
  }

  /** No state guard of its own: the send use case checks the copy it read. */
  function MarkSent(d: Document, expectedVersion: nat, signingRevisionId: Id, expiresAt: Option<int>): Result<Document> {
    Bump(d, expectedVersion, Ok(d.(state := Sent, signingRevisionId := Some(signingRevisionId), expiresAt := expiresAt)))
  }

  function MarkDocumentDeclined(d: Document, expectedVersion: nat): Result<Document> {
    Bump(d, expectedVersion, GuardState(d, IsOutForSigning(d.state), Declined))
  }

  function MarkVoided(d: Document, expectedVersion: nat): Result<Document> {
    Bump(d, expectedVersion, GuardState(d, IsPreparation(d.state) || IsOutForSigning(d.state), Voided))
  }

  function MarkInProgress(d: Document, expectedVersion: nat): Result<Document> {
    Bump(d, expectedVersion, GuardState(d, IsOutForSigning(d.state), InProgress))
  }

  function MarkCompleted(d: Document, expectedVersion: nat): Result<Document> {
    Bump(d, expectedVersion, GuardState(d, IsOutForSigning(d.state), Completed))
  }

  predicate LeasedToAnother(d: Document, owner: Id, now: int) {
    d.leaseUntil.Some? && d.leaseUntil.value >= now && d.leaseOwner != Some(owner)
  }

  predicate IsFlattenable(state: DocumentState) {
    IsOutForSigning(state) || state == Completed || state == FinalizationFailed || state == Finalizing
  }

  function StateAfterClaim(state: DocumentState): DocumentState {
    match state
    case Completed => Finalizing
    case FinalizationFailed => Finalizing
    case Sent => InProgress
    case _ => state
  }

  function ClaimProcessingLease(d: Document, expectedVersion: nat, owner: Id, leaseUntil: int, now: int): Result<Document> {
    var next := StateAfterClaim(d.state);
    Bump(d, expectedVersion,
         if LeasedToAnother(d, owner, now) then Err(DocumentLeaseConflict)
         else if !IsFlattenable(d.state) then Err(DocumentStateConflict)
         else Ok(d.(state := next,
                    leaseOwner := Some(owner),
                    leaseUntil := Some(leaseUntil),
                    finalizationAttemptCount := d.finalizationAttemptCount + if next == Finalizing then 1 else 0)))
  }

  function CommitFlattenedRevision(d: Document, expectedVersion: nat, owner: Id, revisionId: Id, finalize: bool): Result<Document> {
    var released := d.(currentRevisionId := Some(revisionId), leaseOwner := None, leaseUntil := None);
    Bump(d, expectedVersion,
         if d.leaseOwner != Some(owner) then Err(DocumentLeaseConflict)
         else if !finalize then Ok(released)
         else if d.state != Finalizing && d.state != Completed then Err(DocumentStateConflict)
         else Ok(released.(state := Finalized)))
  }

  /** Checks the owner and the state more loosely than the commit does: any owner may fail a document
      that is being finalized, and there is no version check. */
  function MarkFinalizationFailed(d: Document, owner: Id): Document {
    if d.leaseOwner != Some(owner) && d.state != Finalizing then d
    else d.(state := if d.state == Finalizing then FinalizationFailed else d.state,
            leaseOwner := None, leaseUntil := None, version := d.version + 1)
  }

  function ReleaseProcessingLease(d: Document, owner: Id): Document {
    if d.leaseOwner != Some(owner) then d
    else d.(leaseOwner := None, leaseUntil := None, version := d.version + 1)
  }

  predicate IsAvailableForSigning(d: Document) {
    d.inspection == InspectionAccepted && IsOutForSigning(d.state)
  }

  /* ---- signers ---- */

  function MarkSigned(row: Signer, expectedVersion: nat): Result<Signer> {
    if row.status == Signed then Ok(row)
    else if row.version != expectedVersion || row.status != Pending then Err(SignerVersionConflict)
    else Ok(row.(status := Signed, version := row.version + 1))
  }

  function MarkSignerDeclined(row: Signer, expectedVersion: nat): Result<Signer> {
    if row.version != expectedVersion || row.status != Pending then Err(SignerVersionConflict)
    else Ok(row.(status := SignerDeclined, version := row.version + 1))
  }

  predicate AllSigned(roster: map<Id, Signer>) {
    forall id :: id in roster ==> roster[id].status == Signed
  }

  /** Whose turn it is: the actor is pending and, in ordered mode, holds the smallest pending order. */
  predicate CanSignerActNow(mode: SigningMode, actor: Signer, roster: map<Id, Signer>) {
    && actor.status == Pending
    && (mode == Ordered ==>
          && (exists id :: id in roster && roster[id].status == Pending && roster[id].routingOrder == actor.routingOrder)
          && (forall id :: id in roster && roster[id].status == Pending ==> actor.routingOrder <= roster[id].routingOrder))
  }

  /** The routing rule read off the stored rows. `RoutingOfRows` ties it to the check over the listing. */
  predicate RoutedRows(mode: SigningMode, roster: map<Id, Signer>) {
    && roster != map[]
    && match mode
       case Parallel => forall id :: id in roster ==> roster[id].routingOrder == 1
       case Ordered =>
         && (forall a, b :: a in roster && b in roster && a != b ==> roster[a].routingOrder != roster[b].routingOrder)
         && (forall a :: a in roster ==> 1 <= roster[a].routingOrder <= |roster.Keys|)
  }

  /* ---- sessions ---- */

  function RevokeSession(row: Session): Result<Session> {
    if IsOpen(row.status) then Ok(row.(status := Revoked)) else Err(SessionNotOpen)
  }

  function ExpireSession(row: Session): Result<Session> {
    if IsOpen(row.status) then Ok(row.(status := SessionExpired)) else Err(SessionNotOpen)
  }

  function PresentSession(row: Session): Result<Session> {
    if row.status == Active then Ok(row)
    else if row.status != Issued then Err(SessionNotOpen)
    else Ok(row.(status := Active))
  }

  function ConsumeAndRotate(row: Session, expectedVersion: nat, token: Id): Result<Session> {
    if row.version != expectedVersion || row.consumed || !IsOpen(row.status) then Err(SessionNotExchangeable)
    else Ok(row.(token := token, consumed := true, status := Active, version := row.version + 1))
  }

  /** Accepts an issued session too; only the use cases above it keep that from happening. */
  function CompleteSession(row: Session): Result<Session> {
    if row.status == SessionCompleted then Ok(row)
    else if !IsOpen(row.status) then Err(SessionNotCompletable)
    else Ok(row.(status := SessionCompleted))
  }

  predicate HasOpenSession(sessions: map<Id, Session>, signerId: Id) {
    exists id :: id in sessions && sessions[id].signerId == signerId && IsOpen(sessions[id].status)
  }

  function CreateSession(sessions: map<Id, Session>, id: Id, row: Session): Result<map<Id, Session>> {
    if HasOpenSession(sessions, row.signerId) then Err(DuplicateOpenSession) else Ok(sessions[id := row])
  }

  /** The loop of the void and decline commits over the sessions of the document. */
  function RevokeAllOpen(sessions: map<Id, Session>): map<Id, Session> {
    map id | id in sessions :: if IsOpen(sessions[id].status) then sessions[id].(status := Revoked) else sessions[id]
  }

  /** The loop of the rotate commit over the open sessions of one signer. */
  function RevokeOpenOf(sessions: map<Id, Session>, signerId: Id): map<Id, Session> {
    map id | id in sessions ::
      if sessions[id].signerId == signerId && IsOpen(sessions[id].status) then sessions[id].(status := Revoked) else sessions[id]
  }

  /* ---- fields and artifacts ---- */

  function CompleteFields(fields: map<Id, Field>, selected: set<Id>): Result<map<Id, Field>> {
    if selected <= fields.Keys
    then Ok(map id | id in fields :: if id in selected then fields[id].(completed := true) else fields[id])
    else Err(NotFound)
  }

  function MarkFlattened(fields: map<Id, Field>, flattened: seq<Id>, revisionId: Id): Result<map<Id, Field>> {
    if forall id :: id in flattened ==> id in fields
    then Ok(map id | id in fields :: if id in flattened then fields[id].(flattenedRevisionId := Some(revisionId)) else fields[id])
    else Err(NotFound)
  }

  function CreateArtifact(artifacts: seq<Artifact>, row: Artifact): Result<seq<Artifact>> {
    if artifacts != [] then Err(ArtifactExists) else Ok(artifacts + [row])
  }
}
