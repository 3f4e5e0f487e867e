/** What each use case writes in its one unit of work. A unit of work is all-or-nothing: an `Err`
    leaves the tables as they were. The snapshot argument is what the request read before it started
    the unit of work; the tables are what the unit of work finds. */
module UnitsOfWork {
  import opened Results
  import opened Lifecycle
  import opened Envelope

  datatype Tables = Tables(
    document: Document,
    signers: map<Id, Signer>,
    sessions: map<Id, Session>,
    fields: map<Id, Field>,
    revisions: map<Id, Revision>,
    artifacts: seq<Artifact>,
    flattenJobs: set<Id>,  // signers for whom a flatten job has been published
    fieldIds: set<Id>)     // every id a field has ever been given

  datatype SignerEntry = SignerEntry(signerId: Id, routingOrder: int)

  datatype FieldEntry = FieldEntry(signerId: Id, required: bool)

  datatype Invitation = Invitation(signerId: Id, token: Id)

  /* ---- preparation ---- */

  predicate EachSignerHasField(signerIds: set<Id>, fields: map<Id, Field>) {
    forall id :: id in signerIds ==> exists f :: f in fields && fields[f].signerId == id
  }

  /** envelopeIsPrepared, with the verdict on the routing orders passed in. */
  predicate EnvelopeIsPrepared(document: Document, signerIds: set<Id>, routed: bool, fields: map<Id, Field>) {
    && document.inspection == InspectionAccepted
    && document.currentRevisionId.Some?
    && signerIds != {}
    && fields != map[]
    && routed
    && EachSignerHasField(signerIds, fields)
  }

  /** Decided on the document that was read; no version is written, and so none is checked, when its
      state is right already. */
  function MaybeMarkPrepared(d: Document, read: Document, prepared: bool): Result<Document> {
    var next := if prepared then Prepared else Draft;
    if read.state == next || !CanTransitionDocument(read.state, next) then Ok(d) else SetPreparationState(d, read.version, next)
  }

  /** Later entries overwrite earlier ones with the same id, as the store does. */
  function StoreSigners(entries: seq<SignerEntry>): (rows: map<Id, Signer>)
    ensures forall id :: id in rows ==> rows[id].status == Pending
  {
    if entries == [] then map[]
    else
      var last := entries[|entries| - 1];
      StoreSigners(entries[..|entries| - 1])[last.signerId := Signer(last.routingOrder, Pending, 1)]
  }

  /** `routed` is the verdict of assertSignerRouting over the submitted entries. */
  function ReplaceSigners(t: Tables, read: Document, mode: SigningMode, entries: seq<SignerEntry>): Result<Tables> {
    var signers := StoreSigners(entries);
    var fields := map f | f in t.fields && t.fields[f].signerId in signers :: t.fields[f];
    var moded :- SetSigningMode(t.document, read.version, mode);
    var document :- MaybeMarkPrepared(moded, moded, EnvelopeIsPrepared(moded, signers.Keys, true, fields));
    Ok(t.(document := document, signers := signers, fields := fields))
  }

  function NewFields(entries: map<Id, FieldEntry>): map<Id, Field> {
    map f | f in entries :: Field(entries[f].signerId, entries[f].required, false, None)
  }

  /** Whether the envelope is prepared with the new fields, judged by the document and roster that were read. */
  predicate PreparedWith(read: Document, roster: map<Id, Signer>, entries: map<Id, FieldEntry>) {
    EnvelopeIsPrepared(read, roster.Keys, RoutedRows(read.signingMode, roster), NewFields(entries))
  }

  /** The rows go in without any check of the document as it is now. */
  function ReplaceFields(t: Tables, read: Document, roster: map<Id, Signer>, entries: map<Id, FieldEntry>): Result<Tables> {
    var document :- MaybeMarkPrepared(t.document, read, PreparedWith(read, roster, entries));
    Ok(t.(document := document, fields := NewFields(entries), fieldIds := t.fieldIds + entries.Keys))
  }

  function AttachSource(t: Tables, read: Document, revisionId: Id, digest: Id): Result<Tables> {
    var document :- AttachSourceRevision(t.document, read.version, revisionId);
    Ok(t.(document := document, revisions := t.revisions[revisionId := Revision(digest, [])]))
  }

  function RecordInspection(t: Tables, read: Document, accepted: bool): Result<Tables> {
    var document :- SetInspectionStatus(t.document, read.version, if accepted then InspectionAccepted else InspectionRejected);
    Ok(t.(document := document))
  }

  /* ---- sending and ending ---- */

  function Issue(sessions: map<Id, Session>, invitations: map<Id, Invitation>, expiresAt: int): Result<map<Id, Session>> {
    if exists s :: s in invitations && HasOpenSession(sessions, invitations[s].signerId) then Err(DuplicateOpenSession)
    else Ok(sessions + NewSessions(invitations, expiresAt))
  }

  function NewSessions(invitations: map<Id, Invitation>, expiresAt: int): map<Id, Session> {
    map s | s in invitations :: Session(invitations[s].signerId, Issued, invitations[s].token, false, expiresAt, 1)
  }

  function Send(t: Tables, read: Document, invitations: map<Id, Invitation>, sessionsExpireAt: int, expiresAt: Option<int>): Result<Tables> {
    if read.currentRevisionId == None then Err(NotFound)
    else
      var document :- MarkSent(t.document, read.version, read.currentRevisionId.value, expiresAt);
      var sessions :- Issue(t.sessions, invitations, sessionsExpireAt);
      Ok(t.(document := document, sessions := sessions))
  }

  function VoidDocument(t: Tables, read: Document): Result<Tables> {
    var document :- MarkVoided(t.document, read.version);
    Ok(t.(document := document, sessions := RevokeAllOpen(t.sessions)))
  }

  /* ---- sessions ---- */

  function Rotate(t: Tables, signerId: Id, sessionId: Id, token: Id, expiresAt: int): Result<Tables> {
    var sessions :- CreateSession(RevokeOpenOf(t.sessions, signerId), sessionId,
                                  Session(signerId, Issued, token, false, expiresAt, 1));
    Ok(t.(sessions := sessions))
  }

  function UpdateSession(t: Tables, sessionId: Id, updated: Result<Session>): Result<Tables> {
    var row :- updated;
    Ok(t.(sessions := t.sessions[sessionId := row]))
  }

  function Revoke(t: Tables, sessionId: Id): Result<Tables> {
    var row :- Lookup(t.sessions, sessionId);
    UpdateSession(t, sessionId, RevokeSession(row))
  }

  function Expire(t: Tables, sessionId: Id): Result<Tables> {
    var row :- Lookup(t.sessions, sessionId);
    UpdateSession(t, sessionId, ExpireSession(row))
  }

  function Present(t: Tables, sessionId: Id): Result<Tables> {
    var row :- Lookup(t.sessions, sessionId);
    UpdateSession(t, sessionId, PresentSession(row))
  }

  function Exchange(t: Tables, sessionId: Id, readVersion: nat, token: Id): Result<Tables> {
    var row :- Lookup(t.sessions, sessionId);
    UpdateSession(t, sessionId, ConsumeAndRotate(row, readVersion, token))
  }

  /* ---- signing ---- */

  /** What a completing signer read: its session, the document, itself, the roster, and the fields it selected. */
  datatype SigningRead = SigningRead(
    sessionId: Id, signerId: Id, document: Document, signer: Signer, roster: map<Id, Signer>, selected: set<Id>)

  function CompleteSigning(t: Tables, read: SigningRead): Result<Tables> {
    var fields :- CompleteFields(t.fields, read.selected);
    var signerRow :- Lookup(t.signers, read.signerId);
    var signer :- MarkSigned(signerRow, read.signer.version);
    var sessionRow :- Lookup(t.sessions, read.sessionId);
    var session :- CompleteSession(sessionRow);
    var document :-
      if CompletesDocument(read) then MarkCompleted(t.document, read.document.version)
      else if read.document.state == Sent then MarkInProgress(t.document, read.document.version)
      else Ok(t.document);
    Ok(t.(fields := fields,
          signers := t.signers[read.signerId := signer],
          sessions := t.sessions[read.sessionId := session],
          document := document,
          flattenJobs := t.flattenJobs + {read.signerId}))
  }

  /** Decided from the roster that was read, with the actor's own row taken as signed. */
  predicate CompletesDocument(read: SigningRead) {
    forall id :: id in read.roster && id != read.signerId ==> read.roster[id].status == Signed
  }

  function Decline(t: Tables, signerId: Id, read: Signer, readDocument: Document): Result<Tables> {
    var row :- Lookup(t.signers, signerId);
    var signer :- MarkSignerDeclined(row, read.version);
    var document :- MarkDocumentDeclined(t.document, readDocument.version);
    Ok(t.(signers := t.signers[signerId := signer], document := document, sessions := RevokeAllOpen(t.sessions)))
  }

  /* ---- flattening ---- */

  /** What a worker holds after its claim: the leased row as the claim returned it, and what it read before. */
  datatype Lease = Lease(signerId: Id, owner: Id, leased: Document, pending: seq<Id>, finalize: bool)

  /** The flattened output: a new revision that draws the pending fields over the current one, or the
      current revision itself when nothing is pending. */
  function FlattenOutput(base: Revision, lease: Lease, digest: Id): Revision {
    if lease.pending == [] then base else Revision(digest, base.drawn + lease.pending)
  }

  function CommitFlatten(t: Tables, lease: Lease, newRevisionId: Id, digest: Id): Result<Tables> {
    if lease.leased.currentRevisionId == None then Err(NotFound)
    else
      var baseId := lease.leased.currentRevisionId.value;
      var base :- Lookup(t.revisions, baseId);
      var output := FlattenOutput(base, lease, digest);
      var revisionId := if lease.pending == [] then baseId else newRevisionId;
      var fields :- MarkFlattened(t.fields, lease.pending, revisionId);
      var document :- CommitFlattenedRevision(t.document, lease.leased.version, lease.owner, revisionId, lease.finalize);
      var artifacts :-
        if lease.finalize && t.artifacts == [] then CreateArtifact(t.artifacts, Artifact(output.digest)) else Ok(t.artifacts);
      Ok(t.(document := document, fields := fields, revisions := t.revisions[revisionId := output], artifacts := artifacts))
  }

  /** The repair path for a finalized document whose artifact row is missing. */
  function PersistMissingArtifact(t: Tables, digest: Id): Result<Tables> {
    if t.artifacts != [] then Ok(t)
    else
      var artifacts :- CreateArtifact(t.artifacts, Artifact(digest));
      Ok(t.(artifacts := artifacts))
  }
}
