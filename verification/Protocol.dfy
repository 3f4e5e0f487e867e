/** The envelope as a concurrent step system. A request first reads (a Load action puts what it read
    into `pool`) and later runs its unit of work on whatever the tables hold by then; any other action
    may come between. An action whose guard fails changes nothing. The pool is never emptied, so a
    request may also be resubmitted or delivered twice. Every choice the environment makes (ids,
    tokens, clocks, owners, digests) is a parameter of the action. */
module Protocol {
  import opened Results
  import opened Lifecycle
  import opened Routing
  import opened Envelope
  import opened UnitsOfWork

  datatype Snapshot =
    | DocumentRead(document: Document)
    | FieldsRead(document: Document, roster: map<Id, Signer>)
    | SendRead(document: Document, signers: map<Id, Signer>)
    | RotateRead(signerId: Id)
    | ExchangeRead(sessionId: Id, version: nat)
    | SignRead(read: SigningRead)
    | DeclineRead(sessionId: Id, signerId: Id, document: Document, signer: Signer)
    | FlattenRead(signerId: Id, document: Document, pending: seq<Id>, allSigned: bool)
    | Leased(lease: Lease)

  /** `tokens` are the tokens ever generated, `exchanged` the invitation tokens in the order they were exchanged. */
  datatype State = State(db: Tables, pool: set<Snapshot>, tokens: set<Id>, exchanged: seq<Id>)

  const INITIAL := State(Tables(BLANK_DOCUMENT, map[], map[], map[], map[], [], {}, {}), {}, {}, [])

  datatype OwnerAction =
    | LoadDocument
    | DoAttachSource(read: Document, revisionId: Id, digest: Id)
    | DoRecordInspection(read: Document, accepted: bool)
    | DoReplaceSigners(read: Document, mode: SigningMode, entries: seq<SignerEntry>)
    | LoadForFields
    | DoReplaceFields(read: Document, roster: map<Id, Signer>, newFields: map<Id, FieldEntry>)
    | LoadForSend
    | DoSend(read: Document, sendTo: map<Id, Signer>, invitations: map<Id, Invitation>, sessionsExpireAt: int, expiresAt: Option<int>)
    | DoVoid(read: Document)

  datatype SessionAction =
    | LoadForRotate(signerId: Id)
    | DoRotate(signerId: Id, sessionId: Id, token: Id, sessionExpiresAt: int)
    | DoRevoke(sessionId: Id)
    | DoResolve(sessionId: Id, now: int)
    | LoadForExchange(sessionId: Id, now: int)
    | DoExchange(sessionId: Id, readVersion: nat, token: Id)
    | DoRecordViewed(sessionId: Id, now: int)

  datatype SignerAction =
    | LoadForSigning(sessionId: Id, selected: set<Id>, now: int)
    | DoCompleteSigning(signing: SigningRead)
    | LoadForDecline(sessionId: Id, now: int)
    | DoDecline(declining: Snapshot)

  datatype WorkerAction =
    | LoadForFlatten(signerId: Id, pending: seq<Id>)
    | DoClaim(flatten: Snapshot, owner: Id, leaseUntil: int, now: int)
    | DoPersistMissing(flatten: Snapshot, artifactDigest: Id)
    | DoCommitFlatten(lease: Lease, newRevisionId: Id, newDigest: Id)
    | DoFailFinalization(lease: Lease)
    | DoReleaseLease(lease: Lease)

  datatype Action =
    | ByOwner(owner: OwnerAction)
    | OnSession(session: SessionAction)
    | BySigner(signer: SignerAction)
    | ByWorker(worker: WorkerAction)

  function Remember(s: State, snapshot: Snapshot): State {
    s.(pool := s.pool + {snapshot})
  }

  /** The unit of work as a transaction. */
  function Commit(s: State, result: Result<Tables>): State {
    if result.Ok? then s.(db := result.value) else s
  }

  /* ---- the load step of every signer action ---- */

  datatype Admission = Admitted | Refused | RefusedAndExpired

  /** The guard ladder of loadSignerSession up to the document check. */
  function Admit(row: Session, requireExchanged: bool, allowCompleted: bool, now: int): Admission {
    if row.status == Revoked || row.status == SessionExpired then Refused
    else if row.status == SessionCompleted && !allowCompleted then Refused
    else if row.expiresAt <= now then (if IsOpen(row.status) then RefusedAndExpired else Refused)
    else if requireExchanged != row.consumed then Refused
    else Admitted
  }

  /** A token resolves to the session that stores its hash, so the model names the session. */
  function SessionAdmission(s: State, sessionId: Id, requireExchanged: bool, allowCompleted: bool, now: int): Admission {
    if sessionId !in s.db.sessions then Refused
    else
      var row := s.db.sessions[sessionId];
      var admission := Admit(row, requireExchanged, allowCompleted, now);
      if admission != Admitted then admission
      else if row.status != SessionCompleted && !IsAvailableForSigning(s.db.document) then Refused
      else if row.signerId !in s.db.signers then Refused
      else Admitted
  }

  /** Refusing an overdue open session marks it expired on the way. */
  function AfterRefusal(s: State, sessionId: Id, admission: Admission): State {
    if admission == RefusedAndExpired then Commit(s, Expire(s.db, sessionId)) else s
  }

  /** selectFields: only the signer's own fields, and all of its required ones. */
  predicate SelectsFields(fields: map<Id, Field>, signerId: Id, selected: set<Id>) {
    && (forall f :: f in selected ==> f in fields && fields[f].signerId == signerId)
    && (forall f :: f in fields && fields[f].signerId == signerId && fields[f].required ==> f in selected)
  }

  /** The fields of a signer that are not flattened yet, listed once each. */
  predicate ListsPending(fields: map<Id, Field>, signerId: Id, pending: seq<Id>) {
    && (forall i, j :: 0 <= i < j < |pending| ==> pending[i] != pending[j])
    && (forall f :: f in pending ==> f in fields)
    && (forall f :: f in fields ==> (f in pending <==> fields[f].signerId == signerId && fields[f].flattenedRevisionId == None))
  }

  /** One invitation per signer, with new session ids and new tokens. */
  predicate InvitesEachOnce(s: State, signers: map<Id, Signer>, invitations: map<Id, Invitation>) {
    && invitations.Keys !! s.db.sessions.Keys
    && (forall i :: i in invitations ==> invitations[i].signerId in signers && invitations[i].token !in s.tokens)
    && (forall i, j :: i in invitations && j in invitations && i != j ==>
          invitations[i].signerId != invitations[j].signerId && invitations[i].token != invitations[j].token)
    && (forall id :: id in signers ==> exists i :: i in invitations && invitations[i].signerId == id)
  }

  function InvitationTokens(invitations: map<Id, Invitation>): set<Id> {
    set i | i in invitations :: invitations[i].token
  }

  /* ---- the actions ---- */

  function AttachSourceStep(s: State, read: Document, revisionId: Id, digest: Id): State {
    if DocumentRead(read) in s.pool && read.state == Draft && read.currentRevisionId == None && revisionId !in s.db.revisions
    then Commit(s, AttachSource(s.db, read, revisionId, digest))
    else s
  }

  function InspectionStep(s: State, read: Document, accepted: bool): State {
    if DocumentRead(read) in s.pool && read.inspection == InspectionPending && read.currentRevisionId.Some?
    then Commit(s, RecordInspection(s.db, read, accepted))
    else s
  }

  ghost function ReplaceSignersStep(s: State, read: Document, mode: SigningMode, entries: seq<SignerEntry>): State {
    if && DocumentRead(read) in s.pool
       && IsPreparation(read.state)
       && WellRouted(mode, seq(|entries|, i requires 0 <= i < |entries| => entries[i].routingOrder))
    then Commit(s, ReplaceSigners(s.db, read, mode, entries))
    else s
  }

  function LoadForFieldsStep(s: State): State {
    if IsPreparation(s.db.document.state) && s.db.document.currentRevisionId.Some? && s.db.signers != map[]
    then Remember(s, FieldsRead(s.db.document, s.db.signers))
    else s
  }

  /** New ids for fields of the signers that were read, with at least one for each of them. */
  predicate FieldsFit(t: Tables, roster: map<Id, Signer>, entries: map<Id, FieldEntry>) {
    && entries.Keys !! t.fieldIds
    && (forall f :: f in entries ==> entries[f].signerId in roster)
    && (forall id :: id in roster ==> exists f :: f in entries && entries[f].signerId == id)
  }

  function ReplaceFieldsStep(s: State, read: Document, roster: map<Id, Signer>, entries: map<Id, FieldEntry>): State {
    if FieldsRead(read, roster) in s.pool && FieldsFit(s.db, roster, entries)
    then Commit(s, ReplaceFields(s.db, read, roster, entries))
    else s
  }

  predicate MaySend(t: Tables) {
    && IsPreparation(t.document.state)
    && EnvelopeIsPrepared(t.document, t.signers.Keys, RoutedRows(t.document.signingMode, t.signers), t.fields)
  }

  function LoadForSendStep(s: State): State {
    if MaySend(s.db) then Remember(s, SendRead(s.db.document, s.db.signers)) else s
  }

  function SendStep(s: State, read: Document, sendTo: map<Id, Signer>, invitations: map<Id, Invitation>,
                    sessionsExpireAt: int, expiresAt: Option<int>): State {
    if SendRead(read, sendTo) in s.pool && InvitesEachOnce(s, sendTo, invitations)
    then Commit(s, Send(s.db, read, invitations, sessionsExpireAt, expiresAt)).(tokens := s.tokens + InvitationTokens(invitations))
    else s
  }

  function VoidStep(s: State, read: Document): State {
    if DocumentRead(read) in s.pool && CanTransitionDocument(read.state, Voided) then Commit(s, VoidDocument(s.db, read)) else s
  }

  function LoadForRotateStep(s: State, signerId: Id): State {
    if IsAvailableForSigning(s.db.document) && signerId in s.db.signers then Remember(s, RotateRead(signerId)) else s
  }

  function RotateStep(s: State, signerId: Id, sessionId: Id, token: Id, expiresAt: int): State {
    if RotateRead(signerId) in s.pool && sessionId !in s.db.sessions && token !in s.tokens
    then Commit(s, Rotate(s.db, signerId, sessionId, token, expiresAt)).(tokens := s.tokens + {token})
    else s
  }

  /** resolveSigningSession presents an issued session, and expires an overdue one. */
  function ResolveStep(s: State, sessionId: Id, now: int): State {
    if sessionId !in s.db.sessions || !IsOpen(s.db.sessions[sessionId].status) then s
    else if s.db.sessions[sessionId].expiresAt <= now then Commit(s, Expire(s.db, sessionId))
    else Commit(s, Present(s.db, sessionId))
  }

  function LoadForExchangeStep(s: State, sessionId: Id, now: int): State {
    var admission := SessionAdmission(s, sessionId, false, false, now);
    if admission == Admitted then Remember(s, ExchangeRead(sessionId, s.db.sessions[sessionId].version))
    else AfterRefusal(s, sessionId, admission)
  }

  function ExchangeStep(s: State, sessionId: Id, readVersion: nat, token: Id): State {
    if ExchangeRead(sessionId, readVersion) in s.pool && token !in s.tokens then
      var result := Exchange(s.db, sessionId, readVersion, token);
      if result.Ok?
      then s.(db := result.value, tokens := s.tokens + {token}, exchanged := s.exchanged + [s.db.sessions[sessionId].token])
      else s
    else s
  }

  function RecordViewedStep(s: State, sessionId: Id, now: int): State {
    var admission := SessionAdmission(s, sessionId, true, false, now);
    if admission == Admitted then Commit(s, Present(s.db, sessionId)) else AfterRefusal(s, sessionId, admission)
  }

  function SigningReadOf(t: Tables, sessionId: Id, selected: set<Id>): SigningRead
    requires sessionId in t.sessions && t.sessions[sessionId].signerId in t.signers
  {
    var signerId := t.sessions[sessionId].signerId;
    SigningRead(sessionId, signerId, t.document, t.signers[signerId], t.signers, selected)
  }

  function LoadForSigningStep(s: State, sessionId: Id, selected: set<Id>, now: int): State {
    var admission := SessionAdmission(s, sessionId, true, true, now);
    if admission != Admitted then AfterRefusal(s, sessionId, admission)
    else
      var read := SigningReadOf(s.db, sessionId, selected);
      if && read.signer.status != Signed
         && CanSignerActNow(read.document.signingMode, read.signer, read.roster)
         && SelectsFields(s.db.fields, read.signerId, selected)
      then Remember(s, SignRead(read))
      else s
  }

  function LoadForDeclineStep(s: State, sessionId: Id, now: int): State {
    var admission := SessionAdmission(s, sessionId, true, false, now);
    if admission != Admitted then AfterRefusal(s, sessionId, admission)
    else
      var read := SigningReadOf(s.db, sessionId, {});
      if && CanSignerActNow(read.document.signingMode, read.signer, read.roster)
         && CanTransitionDocument(read.document.state, Declined)
      then Remember(s, DeclineRead(sessionId, read.signerId, read.document, read.signer))
      else s
  }

  function DeclineStep(s: State, read: Snapshot): State {
    if read.DeclineRead? && read in s.pool then Commit(s, Decline(s.db, read.signerId, read.signer, read.document)) else s
  }

  function CompleteSigningStep(s: State, read: SigningRead): State {
    if SignRead(read) in s.pool then Commit(s, CompleteSigning(s.db, read)) else s
  }

  /** loadAuthorizedWork; a finalized document that has its artifact is a no-op. */
  function LoadForFlattenStep(s: State, signerId: Id, pending: seq<Id>): State {
    if && signerId in s.db.flattenJobs
       && !(s.db.document.state == Finalized && s.db.artifacts != [])
       && s.db.document.currentRevisionId.Some?
       && (exists f :: f in s.db.fields && s.db.fields[f].signerId == signerId)
       && ListsPending(s.db.fields, signerId, pending)
    then Remember(s, FlattenRead(signerId, s.db.document, pending, AllSigned(s.db.signers)))
    else s
  }

  function ClaimStep(s: State, read: Snapshot, owner: Id, leaseUntil: int, now: int): State {
    if read.FlattenRead? && read in s.pool && read.document.state != Finalized then
      var result := ClaimProcessingLease(s.db.document, read.document.version, owner, leaseUntil, now);
      if result.Ok?
      then Remember(s.(db := s.db.(document := result.value)),
                    Leased(Lease(read.signerId, owner, result.value, read.pending, read.allSigned)))
      else s
    else s
  }

  function PersistMissingStep(s: State, read: Snapshot, digest: Id): State {
    if read.FlattenRead? && read in s.pool && read.document.state == Finalized
    then Commit(s, PersistMissingArtifact(s.db, digest))
    else s
  }

  function CommitFlattenStep(s: State, lease: Lease, newRevisionId: Id, digest: Id): State {
    if Leased(lease) in s.pool && newRevisionId !in s.db.revisions
    then Commit(s, CommitFlatten(s.db, lease, newRevisionId, digest))
    else s
  }

  function FailFinalizationStep(s: State, lease: Lease): State {
    if Leased(lease) in s.pool then s.(db := s.db.(document := MarkFinalizationFailed(s.db.document, lease.owner))) else s
  }

  function ReleaseLeaseStep(s: State, lease: Lease): State {
    if Leased(lease) in s.pool then s.(db := s.db.(document := ReleaseProcessingLease(s.db.document, lease.owner))) else s
  }

  ghost function OwnerNext(s: State, a: OwnerAction): State {
    match a
    case LoadDocument => Remember(s, DocumentRead(s.db.document))
    case DoAttachSource(read, revisionId, digest) => AttachSourceStep(s, read, revisionId, digest)
    case DoRecordInspection(read, accepted) => InspectionStep(s, read, accepted)
    case DoReplaceSigners(read, mode, entries) => ReplaceSignersStep(s, read, mode, entries)
    case LoadForFields => LoadForFieldsStep(s)
    case DoReplaceFields(read, roster, entries) => ReplaceFieldsStep(s, read, roster, entries)
    case LoadForSend => LoadForSendStep(s)
    case DoSend(read, sendTo, invitations, until, expiresAt) => SendStep(s, read, sendTo, invitations, until, expiresAt)
    case DoVoid(read) => VoidStep(s, read)
  }

  function SessionNext(s: State, a: SessionAction): State {
    match a
    case LoadForRotate(signerId) => LoadForRotateStep(s, signerId)
    case DoRotate(signerId, sessionId, token, until) => RotateStep(s, signerId, sessionId, token, until)
    case DoRevoke(sessionId) => Commit(s, Revoke(s.db, sessionId))
    case DoResolve(sessionId, now) => ResolveStep(s, sessionId, now)
    case LoadForExchange(sessionId, now) => LoadForExchangeStep(s, sessionId, now)
    case DoExchange(sessionId, version, token) => ExchangeStep(s, sessionId, version, token)
    case DoRecordViewed(sessionId, now) => RecordViewedStep(s, sessionId, now)
  }

  function SignerNext(s: State, a: SignerAction): State {
    match a
    case LoadForSigning(sessionId, selected, now) => LoadForSigningStep(s, sessionId, selected, now)
    case DoCompleteSigning(read) => CompleteSigningStep(s, read)
    case LoadForDecline(sessionId, now) => LoadForDeclineStep(s, sessionId, now)
    case DoDecline(read) => DeclineStep(s, read)
  }

  function WorkerNext(s: State, a: WorkerAction): State {
    match a
    case LoadForFlatten(signerId, pending) => LoadForFlattenStep(s, signerId, pending)
    case DoClaim(read, owner, until, now) => ClaimStep(s, read, owner, until, now)
    case DoPersistMissing(read, digest) => PersistMissingStep(s, read, digest)
    case DoCommitFlatten(lease, revisionId, digest) => CommitFlattenStep(s, lease, revisionId, digest)
    case DoFailFinalization(lease) => FailFinalizationStep(s, lease)
    case DoReleaseLease(lease) => ReleaseLeaseStep(s, lease)
  }

  ghost function Next(s: State, a: Action): State {
    match a
    case ByOwner(o) => OwnerNext(s, o)
    case OnSession(x) => SessionNext(s, x)
    case BySigner(x) => SignerNext(s, x)
    case ByWorker(w) => WorkerNext(s, w)
  }

  ghost function Run(s: State, actions: seq<Action>): State {
    if actions == [] then s else Next(Run(s, actions[..|actions| - 1]), actions[|actions| - 1])
  }

  /** The tables after a run from the empty state. */
  ghost function After(actions: seq<Action>): Tables {
    Run(INITIAL, actions).db
  }

  ghost predicate Reachable(s: State) {
    exists actions :: s == Run(INITIAL, actions)
  }
}
