/** The invariant holds in every reachable state, whatever the interleaving. */
module Safety {
  import opened Results
  import opened Lifecycle
  import opened Envelope
  import opened UnitsOfWork
  import opened Protocol
  import opened Invariants
  import opened StepLemmas

  /** What one step owes: the tables advance and stay consistent, new reads are faithful, tokens stay single-use. */
  ghost predicate Good(s: State, s': State) {
    && Advances(s.db, s'.db)
    && Consistent(s'.db)
    && s.pool <= s'.pool
    && (forall q :: q in s'.pool && q !in s.pool ==> Faithful(q, s'.db))
    && TokensAreSingleUse(s')
  }

  ghost predicate SameTokens(a: map<Id, Session>, b: map<Id, Session>) {
    b.Keys == a.Keys && forall i :: i in a ==> b[i].token == a[i].token
  }

  lemma StandStill(s: State)
    requires Inv(s)
    ensures Good(s, s)
  {
  }

  lemma CommitIsGood(s: State, r: Result<Tables>)
    requires Inv(s) && Keeps(s.db, r)
    requires r.Ok? ==> SameTokens(s.db.sessions, r.value.sessions)
    ensures Good(s, Commit(s, r))
  {
    StandStill(s);
  }

  lemma RememberIsGood(s: State, q: Snapshot)
    requires Inv(s) && Faithful(q, s.db)
    ensures Good(s, Remember(s, q))
  {
    StandStill(s);
  }

  /* ---- the owner's actions ---- */

  lemma AttachSourceIsGood(s: State, read: Document, id: Id, digest: Id)
    requires Inv(s)
    ensures Good(s, AttachSourceStep(s, read, id, digest))
  {
    StandStill(s);
    if DocumentRead(read) in s.pool && read.state == Draft && read.currentRevisionId == None && id !in s.db.revisions {
      assert Faithful(DocumentRead(read), s.db);
      AttachSourceKeeps(s.db, read, id, digest);
      CommitIsGood(s, AttachSource(s.db, read, id, digest));
    }
  }

  lemma InspectionIsGood(s: State, read: Document, accepted: bool)
    requires Inv(s)
    ensures Good(s, InspectionStep(s, read, accepted))
  {
    StandStill(s);
    if DocumentRead(read) in s.pool && read.inspection == InspectionPending {
      assert Faithful(DocumentRead(read), s.db);
      RecordInspectionKeeps(s.db, read, accepted);
      CommitIsGood(s, RecordInspection(s.db, read, accepted));
    }
  }

  lemma VoidIsGood(s: State, read: Document)
    requires Inv(s)
    ensures Good(s, VoidStep(s, read))
  {
    StandStill(s);
    VoidKeeps(s.db, read);
    CommitIsGood(s, VoidDocument(s.db, read));
  }

  lemma ReplaceSignersIsGood(s: State, read: Document, mode: SigningMode, entries: seq<SignerEntry>)
    requires Inv(s)
    ensures Good(s, ReplaceSignersStep(s, read, mode, entries))
  {
    StandStill(s);
    if DocumentRead(read) in s.pool && IsPreparation(read.state) {
      assert Faithful(DocumentRead(read), s.db);
      ReplaceSignersKeeps(s.db, read, mode, entries);
      CommitIsGood(s, ReplaceSigners(s.db, read, mode, entries));
    }
  }

  lemma LoadForFieldsIsGood(s: State)
    requires Inv(s)
    ensures Good(s, LoadForFieldsStep(s))
  {
    StandStill(s);
    if LoadForFieldsStep(s) != s {
      RememberIsGood(s, FieldsRead(s.db.document, s.db.signers));
    }
  }

  lemma ReplaceFieldsIsGood(s: State, read: Document, roster: map<Id, Signer>, newFields: map<Id, FieldEntry>)
    requires Inv(s)
    ensures Good(s, ReplaceFieldsStep(s, read, roster, newFields))
  {
    StandStill(s);
    if FieldsRead(read, roster) in s.pool && FieldsFit(s.db, roster, newFields) {
      assert Faithful(FieldsRead(read, roster), s.db);
      ReplaceFieldsKeeps(s.db, read, roster, newFields);
      CommitIsGood(s, ReplaceFields(s.db, read, roster, newFields));
    }
  }

  lemma LoadForSendIsGood(s: State)
    requires Inv(s)
    ensures Good(s, LoadForSendStep(s))
  {
    StandStill(s);
    if MaySend(s.db) {
      RememberIsGood(s, SendRead(s.db.document, s.db.signers));
    }
  }

  lemma SendIsGood(s: State, read: Document, sendTo: map<Id, Signer>, invitations: map<Id, Invitation>, until: int, expiresAt: Option<int>)
    requires Inv(s)
    ensures Good(s, SendStep(s, read, sendTo, invitations, until, expiresAt))
  {
    StandStill(s);
    if SendRead(read, sendTo) in s.pool && InvitesEachOnce(s, sendTo, invitations) {
      SendKeeps(s, read, sendTo, invitations, until, expiresAt);
      SendTokens(s, read, sendTo, invitations, until, expiresAt);
    }
  }

  lemma SendTokens(s: State, read: Document, sendTo: map<Id, Signer>, invitations: map<Id, Invitation>, until: int, expiresAt: Option<int>)
    requires TokensAreSingleUse(s) && SendRead(read, sendTo) in s.pool && InvitesEachOnce(s, sendTo, invitations)
    ensures TokensAreSingleUse(SendStep(s, read, sendTo, invitations, until, expiresAt))
  {
    NewTokens(s, sendTo, invitations, until);
  }

  /** The new sessions carry new tokens, each another one. */
  lemma NewTokens(s: State, sendTo: map<Id, Signer>, invitations: map<Id, Invitation>, until: int)
    requires TokensAreSingleUse(s) && InvitesEachOnce(s, sendTo, invitations)
    ensures SingleUse(s.db.sessions, s.tokens + InvitationTokens(invitations), s.exchanged)
    ensures SingleUse(s.db.sessions + NewSessions(invitations, until), s.tokens + InvitationTokens(invitations), s.exchanged)
  {
    NewSessionTokens(invitations, until);
    var issued := NewSessions(invitations, until);
    assert forall i :: i in issued ==> issued[i].token !in s.tokens;
    MoreTokens(s.db.sessions, issued, s.tokens, InvitationTokens(invitations), s.exchanged);
  }

  lemma NewSessionTokens(invitations: map<Id, Invitation>, until: int)
    ensures forall i :: i in invitations ==> NewSessions(invitations, until)[i].token == invitations[i].token
    ensures forall i :: i in invitations ==> invitations[i].token in InvitationTokens(invitations)
  {
  }

  lemma MoreTokens(sessions: map<Id, Session>, issued: map<Id, Session>, tokens: set<Id>, added: set<Id>, exchanged: seq<Id>)
    requires SingleUse(sessions, tokens, exchanged)
    requires forall i :: i in issued ==> issued[i].token in added && issued[i].token !in tokens
    requires forall i, j :: i in issued && j in issued && i != j ==> issued[i].token != issued[j].token
    ensures SingleUse(sessions, tokens + added, exchanged) && SingleUse(sessions + issued, tokens + added, exchanged)
  {
  }

  /* ---- session actions ---- */

  lemma LoadForRotateIsGood(s: State, signerId: Id)
    requires Inv(s)
    ensures Good(s, LoadForRotateStep(s, signerId))
  {
    StandStill(s);
    if IsAvailableForSigning(s.db.document) && signerId in s.db.signers {
      RememberIsGood(s, RotateRead(signerId));
    }
  }

  lemma RotateIsGood(s: State, signerId: Id, sessionId: Id, token: Id, until: int)
    requires Inv(s)
    ensures Good(s, RotateStep(s, signerId, sessionId, token, until))
  {
    StandStill(s);
    if RotateRead(signerId) in s.pool && sessionId !in s.db.sessions && token !in s.tokens {
      RotateKeeps(s.db, signerId, sessionId, token, until);
      RotateTokens(s, signerId, sessionId, token, until);
    }
  }

  lemma RotateTokens(s: State, signerId: Id, sessionId: Id, token: Id, until: int)
    requires TokensAreSingleUse(s) && sessionId !in s.db.sessions && token !in s.tokens
    ensures TokensAreSingleUse(RotateStep(s, signerId, sessionId, token, until))
  {
  }

  /** Frame: one session row is replaced by one with the same token. */
  lemma SessionRowIsGood(s: State, sessionId: Id, updated: Result<Session>)
    requires Inv(s) && sessionId in s.db.sessions
    requires updated.Ok? ==> updated.value.token == s.db.sessions[sessionId].token
    requires Keeps(s.db, UpdateSession(s.db, sessionId, updated))
    ensures Good(s, Commit(s, UpdateSession(s.db, sessionId, updated)))
  {
    CommitIsGood(s, UpdateSession(s.db, sessionId, updated));
  }

  lemma RevokeIsGood(s: State, sessionId: Id)
    requires Inv(s)
    ensures Good(s, Commit(s, Revoke(s.db, sessionId)))
  {
    if sessionId in s.db.sessions {
      SessionUpdateKeeps(s.db, sessionId);
      SessionRowIsGood(s, sessionId, RevokeSession(s.db.sessions[sessionId]));
    } else {
      StandStill(s);
    }
  }

  lemma ExpireIsGood(s: State, sessionId: Id)
    requires Inv(s)
    ensures Good(s, Commit(s, Expire(s.db, sessionId)))
  {
    if sessionId in s.db.sessions {
      SessionUpdateKeeps(s.db, sessionId);
      SessionRowIsGood(s, sessionId, ExpireSession(s.db.sessions[sessionId]));
    } else {
      StandStill(s);
    }
  }

  lemma PresentIsGood(s: State, sessionId: Id)
    requires Inv(s)
    ensures Good(s, Commit(s, Present(s.db, sessionId)))
  {
    if sessionId in s.db.sessions {
      SessionUpdateKeeps(s.db, sessionId);
      SessionRowIsGood(s, sessionId, PresentSession(s.db.sessions[sessionId]));
    } else {
      StandStill(s);
    }
  }

  lemma RefusalIsGood(s: State, sessionId: Id, admission: Admission)
    requires Inv(s)
    ensures Good(s, AfterRefusal(s, sessionId, admission))
  {
    StandStill(s);
    ExpireIsGood(s, sessionId);
  }

  lemma ResolveIsGood(s: State, sessionId: Id, now: int)
    requires Inv(s)
    ensures Good(s, ResolveStep(s, sessionId, now))
  {
    StandStill(s);
    ExpireIsGood(s, sessionId);
    PresentIsGood(s, sessionId);
  }

  lemma RecordViewedIsGood(s: State, sessionId: Id, now: int)
    requires Inv(s)
    ensures Good(s, RecordViewedStep(s, sessionId, now))
  {
    RefusalIsGood(s, sessionId, SessionAdmission(s, sessionId, true, false, now));
    PresentIsGood(s, sessionId);
  }

  lemma LoadForExchangeIsGood(s: State, sessionId: Id, now: int)
    requires Inv(s)
    ensures Good(s, LoadForExchangeStep(s, sessionId, now))
  {
    var admission := SessionAdmission(s, sessionId, false, false, now);
    RefusalIsGood(s, sessionId, admission);
    if admission == Admitted {
      RememberIsGood(s, ExchangeRead(sessionId, s.db.sessions[sessionId].version));
    }
  }

  lemma ExchangeIsGood(s: State, sessionId: Id, readVersion: nat, token: Id)
    requires Inv(s)
    ensures Good(s, ExchangeStep(s, sessionId, readVersion, token))
  {
    StandStill(s);
    ExchangeKeeps(s.db, sessionId, readVersion, token);
    ExchangeTokens(s, sessionId, readVersion, token);
  }

  lemma ExchangeTokens(s: State, sessionId: Id, readVersion: nat, token: Id)
    requires TokensAreSingleUse(s)
    ensures TokensAreSingleUse(ExchangeStep(s, sessionId, readVersion, token))
  {
  }

  /* ---- signer actions ---- */

  lemma LoadForSigningIsGood(s: State, sessionId: Id, selected: set<Id>, now: int)
    requires Inv(s)
    ensures Good(s, LoadForSigningStep(s, sessionId, selected, now))
  {
    var admission := SessionAdmission(s, sessionId, true, true, now);
    if admission != Admitted {
      RefusalIsGood(s, sessionId, admission);
    } else {
      StandStill(s);
      var read := SigningReadOf(s.db, sessionId, selected);
      if CanSignerActNow(read.document.signingMode, read.signer, read.roster) && SelectsFields(s.db.fields, read.signerId, selected) {
        SigningReadIsFaithful(s.db, sessionId, selected);
        RememberIsGood(s, SignRead(read));
      }
    }
  }

  lemma SigningReadIsFaithful(t: Tables, sessionId: Id, selected: set<Id>)
    requires Consistent(t) && sessionId in t.sessions && t.sessions[sessionId].consumed
    requires t.sessions[sessionId].status == SessionCompleted || IsAvailableForSigning(t.document)
    requires SelectsFields(t.fields, t.sessions[sessionId].signerId, selected)
    requires var read := SigningReadOf(t, sessionId, selected); CanSignerActNow(read.document.signingMode, read.signer, read.roster)
    ensures SigningFaithful(SigningReadOf(t, sessionId, selected), t)
  {
  }

  lemma LoadForDeclineIsGood(s: State, sessionId: Id, now: int)
    requires Inv(s)
    ensures Good(s, LoadForDeclineStep(s, sessionId, now))
  {
    var admission := SessionAdmission(s, sessionId, true, false, now);
    if admission != Admitted {
      RefusalIsGood(s, sessionId, admission);
    } else {
      StandStill(s);
      var read := SigningReadOf(s.db, sessionId, {});
      RememberIsGood(s, DeclineRead(sessionId, read.signerId, read.document, read.signer));
    }
  }

  lemma CompleteSigningIsGood(s: State, read: SigningRead)
    requires Inv(s)
    ensures Good(s, CompleteSigningStep(s, read))
  {
    StandStill(s);
    if SignRead(read) in s.pool {
      assert Faithful(SignRead(read), s.db);
      CompleteSigningKeeps(s.db, read);
      CompleteSigningKeepsTokens(s.db, read);
      CommitIsGood(s, CompleteSigning(s.db, read));
    }
  }

  lemma CompleteSigningKeepsTokens(t: Tables, read: SigningRead)
    ensures CompleteSigning(t, read).Ok? ==> SameTokens(t.sessions, CompleteSigning(t, read).value.sessions)
  {
  }

  lemma DeclineIsGood(s: State, read: Snapshot)
    requires Inv(s)
    ensures Good(s, DeclineStep(s, read))
  {
    StandStill(s);
    if read.DeclineRead? && read in s.pool {
      DeclineKeeps(s.db, read);
      DeclineKeepsTokens(s.db, read.signerId, read.signer, read.document);
      CommitIsGood(s, Decline(s.db, read.signerId, read.signer, read.document));
    }
  }

  lemma DeclineKeepsTokens(t: Tables, signerId: Id, read: Signer, readDocument: Document)
    ensures Decline(t, signerId, read, readDocument).Ok? ==> SameTokens(t.sessions, Decline(t, signerId, read, readDocument).value.sessions)
  {
  }

  /* ---- worker actions ---- */

  lemma LoadForFlattenIsGood(s: State, signerId: Id, pending: seq<Id>)
    requires Inv(s)
    ensures Good(s, LoadForFlattenStep(s, signerId, pending))
  {
    StandStill(s);
    if LoadForFlattenStep(s, signerId, pending) != s {
      RememberIsGood(s, FlattenRead(signerId, s.db.document, pending, AllSigned(s.db.signers)));
    }
  }

  lemma ClaimIsGood(s: State, read: Snapshot, owner: Id, until: int, now: int)
    requires Inv(s)
    ensures Good(s, ClaimStep(s, read, owner, until, now))
  {
    StandStill(s);
    if read.FlattenRead? && read in s.pool {
      ClaimKeeps(s.db, read, owner, until, now);
    }
  }

  /** The repair path is never taken: no read ever shows a finalized document without its artifact. */
  lemma PersistMissingIsGood(s: State, read: Snapshot, digest: Id)
    requires Inv(s)
    ensures PersistMissingStep(s, read, digest) == s && Good(s, s)
  {
    StandStill(s);
    if read.FlattenRead? && read in s.pool {
      assert Faithful(read, s.db);
    }
  }

  lemma CommitFlattenIsGood(s: State, lease: Lease, newRevisionId: Id, digest: Id)
    requires Inv(s)
    ensures Good(s, CommitFlattenStep(s, lease, newRevisionId, digest))
  {
    StandStill(s);
    if Leased(lease) in s.pool && newRevisionId !in s.db.revisions {
      CommitFlattenKeeps(s.db, lease, newRevisionId, digest);
      CommitFlattenLeavesSessions(s.db, lease, newRevisionId, digest);
      CommitIsGood(s, CommitFlatten(s.db, lease, newRevisionId, digest));
    }
  }

  lemma CommitFlattenLeavesSessions(t: Tables, lease: Lease, newRevisionId: Id, digest: Id)
    ensures CommitFlatten(t, lease, newRevisionId, digest).Ok? ==> CommitFlatten(t, lease, newRevisionId, digest).value.sessions == t.sessions
  {
  }

  lemma LettingGoIsGood(s: State, lease: Lease)
    requires Inv(s)
    ensures Good(s, FailFinalizationStep(s, lease))
    ensures Good(s, ReleaseLeaseStep(s, lease))
  {
    StandStill(s);
    if Leased(lease) in s.pool {
      assert Faithful(Leased(lease), s.db);
      FailAndReleaseKeep(s.db, lease.owner);
      CommitIsGood(s, Ok(s.db.(document := MarkFinalizationFailed(s.db.document, lease.owner))));
      CommitIsGood(s, Ok(s.db.(document := ReleaseProcessingLease(s.db.document, lease.owner))));
    }
  }

  lemma OwnerStepIsGood(s: State, a: OwnerAction)
    requires Inv(s)
    ensures Good(s, OwnerNext(s, a))
  {
    match a
    case LoadDocument => RememberIsGood(s, DocumentRead(s.db.document));
    case DoAttachSource(read, revisionId, digest) => AttachSourceIsGood(s, read, revisionId, digest);
    case DoRecordInspection(read, accepted) => InspectionIsGood(s, read, accepted);
    case DoReplaceSigners(read, mode, entries) => ReplaceSignersIsGood(s, read, mode, entries);
    case LoadForFields => LoadForFieldsIsGood(s);
    case DoReplaceFields(read, roster, entries) => ReplaceFieldsIsGood(s, read, roster, entries);
    case LoadForSend => LoadForSendIsGood(s);
    case DoSend(read, sendTo, invitations, until, expiresAt) => SendIsGood(s, read, sendTo, invitations, until, expiresAt);
    case DoVoid(read) => VoidIsGood(s, read);
  }

  lemma SessionStepIsGood(s: State, a: SessionAction)
    requires Inv(s)
    ensures Good(s, SessionNext(s, a))
  {
    match a
    case LoadForRotate(signerId) => LoadForRotateIsGood(s, signerId);
    case DoRotate(signerId, sessionId, token, until) => RotateIsGood(s, signerId, sessionId, token, until);
    case DoRevoke(sessionId) => RevokeIsGood(s, sessionId);
    case DoResolve(sessionId, now) => ResolveIsGood(s, sessionId, now);
    case LoadForExchange(sessionId, now) => LoadForExchangeIsGood(s, sessionId, now);
    case DoExchange(sessionId, version, token) => ExchangeIsGood(s, sessionId, version, token);
    case DoRecordViewed(sessionId, now) => RecordViewedIsGood(s, sessionId, now);
  }

  lemma SignerStepIsGood(s: State, a: SignerAction)
    requires Inv(s)
    ensures Good(s, SignerNext(s, a))
  {
    match a
    case LoadForSigning(sessionId, selected, now) => LoadForSigningIsGood(s, sessionId, selected, now);
    case DoCompleteSigning(read) => CompleteSigningIsGood(s, read);
    case LoadForDecline(sessionId, now) => LoadForDeclineIsGood(s, sessionId, now);
    case DoDecline(read) => DeclineIsGood(s, read);
  }

  lemma WorkerStepIsGood(s: State, a: WorkerAction)
    requires Inv(s)
    ensures Good(s, WorkerNext(s, a))
  {
    match a
    case LoadForFlatten(signerId, pending) => LoadForFlattenIsGood(s, signerId, pending);
    case DoClaim(read, owner, until, now) => ClaimIsGood(s, read, owner, until, now);
    case DoPersistMissing(read, digest) => PersistMissingIsGood(s, read, digest);
    case DoCommitFlatten(lease, revisionId, digest) => CommitFlattenIsGood(s, lease, revisionId, digest);
    case DoFailFinalization(lease) => LettingGoIsGood(s, lease);
    case DoReleaseLease(lease) => LettingGoIsGood(s, lease);
  }

  lemma StepIsGood(s: State, a: Action)
    requires Inv(s)
    ensures Good(s, Next(s, a))
  {
    match a
    case ByOwner(o) => OwnerStepIsGood(s, o);
    case OnSession(x) => SessionStepIsGood(s, x);
    case BySigner(x) => SignerStepIsGood(s, x);
    case ByWorker(w) => WorkerStepIsGood(s, w);
  }

  lemma InvStep(s: State, a: Action)
    requires Inv(s)
    ensures Inv(Next(s, a)) && Advances(s.db, Next(s, a).db)
  {
    var s' := Next(s, a);
    StepIsGood(s, a);
    forall q | q in s'.pool
      ensures Faithful(q, s'.db)
    {
      if q in s.pool {
        FaithfulSurvives(q, s.db, s'.db);
      }
    }
  }

  lemma {:induction false} InvAlways(actions: seq<Action>)
    ensures Inv(Run(INITIAL, actions))
  {
    if actions != [] {
      InvAlways(actions[..|actions| - 1]);
      InvStep(Run(INITIAL, actions[..|actions| - 1]), actions[|actions| - 1]);
    }
  }
}
