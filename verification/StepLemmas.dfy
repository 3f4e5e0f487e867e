/** Every unit of work keeps the tables consistent and only lets them advance. */
module StepLemmas {
  import opened Results
  import opened Lifecycle
  import opened Envelope
  import opened UnitsOfWork
  import opened Protocol
  import opened Invariants

  ghost predicate Keeps(t: Tables, r: Result<Tables>) {
    r.Ok? ==> Advances(t, r.value) && Consistent(r.value)
  }

  /** Frame: only the document row changes, after sending, and not into or out of an end state. */
  ghost predicate DocumentOnly(t: Tables, d: Document) {
    && Consistent(t)
    && !IsPreparation(t.document.state)
    && DocumentAdvances(t.document, d)
    && d.currentRevisionId == t.document.currentRevisionId
    && d.inspection == t.document.inspection
    && d.signingRevisionId == t.document.signingRevisionId
    && (d.state == t.document.state || (!HasEnded(d.state) && d.state != Finalized && d.state != Expired))
    && (IsPastSigning(d.state) ==> AllSigned(t.signers))
    && (d.state == Finalized ==> d.leaseOwner == None)
  }

  lemma DocumentOnlyAdvances(t: Tables, d: Document)
    requires DocumentOnly(t, d)
    ensures Advances(t, t.(document := d))
  {
  }

  lemma DocumentOnlyIsConsistent(t: Tables, d: Document)
    requires DocumentOnly(t, d)
    ensures Consistent(t.(document := d))
  {
  }

  lemma AttachSourceKeeps(t: Tables, read: Document, revisionId: Id, digest: Id)
    requires Consistent(t) && DocumentFaithful(read, t.document)
    requires read.state == Draft && read.currentRevisionId == None && revisionId !in t.revisions
    ensures Keeps(t, AttachSource(t, read, revisionId, digest))
  {
  }

  lemma RecordInspectionKeeps(t: Tables, read: Document, accepted: bool)
    requires Consistent(t) && DocumentFaithful(read, t.document)
    requires read.inspection == InspectionPending
    ensures Keeps(t, RecordInspection(t, read, accepted))
  {
  }

  /** Frame: before sending, signers and fields may be replaced at will as long as they stay pending and unflattened. */
  ghost predicate JustPrepared(t: Tables, t': Tables) {
    && IsPreparation(t.document.state) && IsPreparation(t'.document.state)
    && t'.document.currentRevisionId == t.document.currentRevisionId
    && t'.document.signingRevisionId == t.document.signingRevisionId
    && (t'.document == t.document || t'.document.version > t.document.version)
    && (t'.document == t.document ==> t'.signers == t.signers)
    && t' == t.(document := t'.document, signers := t'.signers, fields := t'.fields, fieldIds := t'.fieldIds)
    && (forall g :: g in t'.signers ==> t'.signers[g].status == Pending)
    && Unflattened(t'.fields)
    && (forall f :: f in t'.fields ==> !t'.fields[f].completed)
    && t.fieldIds <= t'.fieldIds && t'.fields.Keys <= t'.fieldIds
    && (forall f :: f in t'.fields ==> f in t.fields || f !in t.fieldIds)
  }

  lemma PreparedKeeps(t: Tables, t': Tables)
    requires Consistent(t) && JustPrepared(t, t')
    ensures Advances(t, t') && Consistent(t')
  {
    assert Drawn(t') == Drawn(t) == [];
  }

  lemma ReplaceSignersKeeps(t: Tables, read: Document, mode: SigningMode, entries: seq<SignerEntry>)
    requires Consistent(t) && DocumentFaithful(read, t.document) && IsPreparation(read.state)
    ensures Keeps(t, ReplaceSigners(t, read, mode, entries))
  {
    var r := ReplaceSigners(t, read, mode, entries);
    if r.Ok? {
      PreparedKeeps(t, r.value);
    }
  }

  lemma ReplaceFieldsKeeps(t: Tables, read: Document, roster: map<Id, Signer>, entries: map<Id, FieldEntry>)
    requires Consistent(t) && Faithful(FieldsRead(read, roster), t) && FieldsFit(t, roster, entries)
    ensures Keeps(t, ReplaceFields(t, read, roster, entries))
  {
    var r := ReplaceFields(t, read, roster, entries);
    if r.Ok? {
      if IsPreparation(t.document.state) {
        PreparedKeeps(t, r.value);
      } else {
        LateReplacement(t, read, roster, entries);
        LateReplacementKeeps(t, r.value);
      }
    }
  }

  /** Frame: only the fields change, after sending. */
  ghost predicate JustReplaced(t: Tables, t': Tables) {
    && !IsPreparation(t.document.state)
    && t' == t.(fields := t'.fields, fieldIds := t.fieldIds + t'.fields.Keys)
    && FieldsReplaced(t, t')
  }

  lemma LateReplacement(t: Tables, read: Document, roster: map<Id, Signer>, entries: map<Id, FieldEntry>)
    requires Faithful(FieldsRead(read, roster), t) && FieldsFit(t, roster, entries)
    requires !IsPreparation(t.document.state) && ReplaceFields(t, read, roster, entries).Ok?
    ensures JustReplaced(t, ReplaceFields(t, read, roster, entries).value)
  {
    var someone :| someone in roster;
    assert exists f :: f in entries && entries[f].signerId == someone;
    var fields := ReplaceFields(t, read, roster, entries).value.fields;
    assert fields.Keys == entries.Keys;
  }

  lemma LateReplacementKeeps(t: Tables, t': Tables)
    requires Consistent(t) && JustReplaced(t, t')
    ensures Advances(t, t') && Consistent(t')
  {
    assert Drawn(t') == Drawn(t);
  }

  lemma SendKeeps(s: State, read: Document, sendTo: map<Id, Signer>, invitations: map<Id, Invitation>, until: int, expiresAt: Option<int>)
    requires Consistent(s.db) && Faithful(SendRead(read, sendTo), s.db)
    requires InvitesEachOnce(s, sendTo, invitations)
    ensures Keeps(s.db, Send(s.db, read, invitations, until, expiresAt))
  {
    var r := Send(s.db, read, invitations, until, expiresAt);
    if r.Ok? {
      SendEffect(s, read, sendTo, invitations, until, expiresAt);
      SentAdvances(s.db, r.value);
      SentIsConsistent(s.db, r.value);
    }
  }

  /** What a document looks like right after sending: open sessions, at most one for each signer. */
  ghost predicate JustSent(t: Tables, t': Tables) {
    && IsPreparation(t.document.state) && t'.document.state == Sent
    && t'.document.version > t.document.version
    && t'.document.inspection == InspectionAccepted
    && t'.document.currentRevisionId == t.document.currentRevisionId && t.document.currentRevisionId.Some?
    && RoutedRows(t'.document.signingMode, t.signers)
    && t' == t.(document := t'.document, sessions := t'.sessions)
    && JustIssued(t.signers, t'.sessions)
  }

  ghost predicate JustIssued(signers: map<Id, Signer>, sessions: map<Id, Session>) {
    && (forall i :: i in sessions ==> sessions[i].status == Issued && !sessions[i].consumed && sessions[i].signerId in signers)
    && (forall i, j :: i in sessions && j in sessions && i != j ==> sessions[i].signerId != sessions[j].signerId)
  }

  lemma IssueEffect(s: State, signers: map<Id, Signer>, invitations: map<Id, Invitation>, until: int)
    requires s.db.sessions == map[] && InvitesEachOnce(s, signers, invitations)
    ensures Issue(s.db.sessions, invitations, until).Ok?
    ensures JustIssued(signers, Issue(s.db.sessions, invitations, until).value)
  {
  }

  lemma SendEffect(s: State, read: Document, sendTo: map<Id, Signer>, invitations: map<Id, Invitation>, until: int, expiresAt: Option<int>)
    requires Consistent(s.db) && Faithful(SendRead(read, sendTo), s.db)
    requires InvitesEachOnce(s, sendTo, invitations)
    requires Send(s.db, read, invitations, until, expiresAt).Ok?
    ensures JustSent(s.db, Send(s.db, read, invitations, until, expiresAt).value)
  {
    assert s.db.document == read && s.db.sessions == map[] && s.db.signers == sendTo;
    IssueEffect(s, sendTo, invitations, until);
  }

  lemma SentAdvances(t: Tables, t': Tables)
    requires Consistent(t) && JustSent(t, t')
    ensures Advances(t, t')
  {
  }

  lemma SentIsConsistent(t: Tables, t': Tables)
    requires Consistent(t) && JustSent(t, t')
    ensures Consistent(t')
  {
  }

  lemma VoidKeeps(t: Tables, read: Document)
    requires Consistent(t)
    ensures Keeps(t, VoidDocument(t, read))
  {
    var r := VoidDocument(t, read);
    if r.Ok? {
      VoidedAdvances(t, r.value);
      VoidedIsConsistent(t, r.value);
    }
  }

  ghost predicate JustVoided(t: Tables, t': Tables) {
    && (IsPreparation(t.document.state) || IsOutForSigning(t.document.state))
    && t'.document == t.document.(state := Voided, version := t.document.version + 1)
    && t' == t.(document := t'.document, sessions := RevokeAllOpen(t.sessions))
  }

  lemma VoidedAdvances(t: Tables, t': Tables)
    requires Consistent(t) && JustVoided(t, t')
    ensures Advances(t, t')
  {
  }

  lemma VoidedIsConsistent(t: Tables, t': Tables)
    requires Consistent(t) && JustVoided(t, t')
    ensures Consistent(t')
  {
  }

  lemma RotateKeeps(t: Tables, signerId: Id, sessionId: Id, token: Id, expiresAt: int)
    requires Consistent(t) && Faithful(RotateRead(signerId), t) && sessionId !in t.sessions
    ensures Keeps(t, Rotate(t, signerId, sessionId, token, expiresAt))
  {
    var r := Rotate(t, signerId, sessionId, token, expiresAt);
    if r.Ok? {
      RotatedSessions(t, signerId, sessionId, Session(signerId, Issued, token, false, expiresAt, 1));
      SessionsOnlyKeep(t, r.value.sessions);
    }
  }

  lemma RotatedSessions(t: Tables, signerId: Id, sessionId: Id, issued: Session)
    requires SessionsAreSound(t) && OneOpenSession(t.sessions) && signerId in t.signers && sessionId !in t.sessions
    requires issued.signerId == signerId && issued.status == Issued && !issued.consumed
    ensures var sessions := RevokeOpenOf(t.sessions, signerId)[sessionId := issued];
            SessionsAdvance(t.sessions, sessions) && OneOpenSession(sessions) && SessionsAreSound(t.(sessions := sessions))
  {
  }

  /** Frame: only the sessions change. */
  lemma SessionsOnlyKeep(t: Tables, sessions: map<Id, Session>)
    requires Consistent(t)
    requires SessionsAdvance(t.sessions, sessions)
    requires SessionsAreSound(t.(sessions := sessions)) && OneOpenSession(sessions)
    requires IsPreparation(t.document.state) ==> sessions == map[]
    ensures Keeps(t, Ok(t.(sessions := sessions)))
  {
  }

  /** One session moves along its table; it is not completed by it and does not reopen. */
  lemma OneSessionKeeps(t: Tables, id: Id, row: Session)
    requires Consistent(t) && id in t.sessions
    requires row.signerId == t.sessions[id].signerId
    requires row.status == t.sessions[id].status || CanTransitionSession(t.sessions[id].status, row.status)
    requires row.status != SessionCompleted
    requires (t.sessions[id].consumed ==> row.consumed) && (row.consumed ==> row.status != Issued)
    ensures Keeps(t, Ok(t.(sessions := t.sessions[id := row])))
  {
    SessionsOnlyKeep(t, t.sessions[id := row]);
  }

  lemma SessionUpdateKeeps(t: Tables, sessionId: Id)
    requires Consistent(t)
    ensures Keeps(t, Revoke(t, sessionId))
    ensures Keeps(t, Expire(t, sessionId))
    ensures Keeps(t, Present(t, sessionId))
  {
    if sessionId in t.sessions {
      var row := t.sessions[sessionId];
      if IsOpen(row.status) {
        OneSessionKeeps(t, sessionId, row.(status := Revoked));
        OneSessionKeeps(t, sessionId, row.(status := SessionExpired));
        OneSessionKeeps(t, sessionId, row.(status := Active));
      }
    }
  }

  lemma ExchangeKeeps(t: Tables, sessionId: Id, readVersion: nat, token: Id)
    requires Consistent(t)
    ensures Keeps(t, Exchange(t, sessionId, readVersion, token))
  {
    if sessionId in t.sessions {
      var rotated := ConsumeAndRotate(t.sessions[sessionId], readVersion, token);
      if rotated.Ok? {
        OneSessionKeeps(t, sessionId, rotated.value);
      }
    }
  }

  lemma CompleteSigningKeeps(t: Tables, read: SigningRead)
    requires Consistent(t) && SigningFaithful(read, t)
    ensures Keeps(t, CompleteSigning(t, read))
  {
    var r := CompleteSigning(t, read);
    if r.Ok? {
      SigningIsTimely(t, read);
      CompleteSigningEffect(t, read);
      SignedAdvances(t, r.value, read);
      SignedKeepsOrder(t, r.value, read);
      SignedRowKeeps(t, r.value, read);
      SignedIsConsistent(t, r.value, read);
    }
  }

  /** A signature is only newly accepted while the document is out for signing and the session active:
      every other way the document may have moved since the read has closed the session or found
      everybody signed. */
  lemma SigningIsTimely(t: Tables, read: SigningRead)
    requires Consistent(t) && SigningFaithful(read, t) && CompleteSigning(t, read).Ok?
    ensures t.signers[read.signerId].status == Pending || t.signers[read.signerId].status == Signed
    ensures t.signers[read.signerId].status == Pending ==>
              IsOutForSigning(t.document.state) && t.sessions[read.sessionId].status == Active
  {
  }

  /** What a completed signing writes, row by row. */
  ghost predicate JustSigned(t: Tables, t': Tables, read: SigningRead) {
    var g, i := read.signerId, read.sessionId;
    && g in t.signers && i in t.sessions && t.sessions[i].signerId == g && t.sessions[i].consumed
    && t'.signers.Keys == t.signers.Keys
    && (forall h :: h in t.signers && h != g ==> t'.signers[h] == t.signers[h])
    && t'.signers[g] == t.signers[g].(status := Signed, version := t.signers[g].version + if t.signers[g].status == Signed then 0 else 1)
    && (t.sessions[i].status == Active || t.sessions[i].status == SessionCompleted)
    && t'.sessions == t.sessions[i := t.sessions[i].(status := SessionCompleted)]
    && t'.flattenJobs == t.flattenJobs + {g}
    && t'.revisions == t.revisions && t'.artifacts == t.artifacts && t'.fieldIds == t.fieldIds
    && t'.fields.Keys == t.fields.Keys
    && read.selected <= t.fields.Keys
    && (forall f :: f in t.fields ==> t'.fields[f] == t.fields[f].(completed := f in read.selected || t.fields[f].completed))
    && (forall f :: f in read.selected ==> t.fields[f].signerId == g)
    && SignedDocument(t, t', read)
  }

  ghost predicate SignedDocument(t: Tables, t': Tables, read: SigningRead) {
    || t'.document == t.document
    || (&& IsOutForSigning(t.document.state)
        && t'.document == t.document.(state := t'.document.state, version := t.document.version + 1)
        && (t'.document.state == InProgress || (t'.document.state == Completed && AllSigned(t'.signers))))
  }

  lemma CompleteSigningEffect(t: Tables, read: SigningRead)
    requires Consistent(t) && SigningFaithful(read, t) && CompleteSigning(t, read).Ok?
    ensures JustSigned(t, CompleteSigning(t, read).value, read)
  {
    CompleteSigningDocument(t, read);
    SelectedAreCompleted(t.fields, read.selected);
  }

  lemma SelectedAreCompleted(fields: map<Id, Field>, selected: set<Id>)
    ensures var r := CompleteFields(fields, selected);
            r.Ok? ==>
              && selected <= fields.Keys && r.value.Keys == fields.Keys
              && forall f :: f in fields ==> r.value[f] == fields[f].(completed := f in selected || fields[f].completed)
  {
  }

  lemma CompleteSigningDocument(t: Tables, read: SigningRead)
    requires SigningFaithful(read, t) && CompleteSigning(t, read).Ok?
    ensures SignedDocument(t, CompleteSigning(t, read).value, read)
  {
    var t' := CompleteSigning(t, read).value;
    if CompletesDocument(read) {
      assert AllSigned(t'.signers);
    }
  }

  lemma SignedAdvances(t: Tables, t': Tables, read: SigningRead)
    requires Consistent(t) && !IsPreparation(t.document.state) && JustSigned(t, t', read)
    requires t.signers[read.signerId].status != SignerDeclined
    ensures Advances(t, t')
  {
    SignedRowsAdvance(t, t', read);
    assert Drawn(t') == Drawn(t);
  }

  lemma SignedRowsAdvance(t: Tables, t': Tables, read: SigningRead)
    requires !IsPreparation(t.document.state) && JustSigned(t, t', read)
    requires t.signers[read.signerId].status != SignerDeclined
    ensures SignersAdvance(t, t') && SessionsAdvance(t.sessions, t'.sessions) && FieldsStay(t, t')
  {
  }

  lemma SignedKeepsOrder(t: Tables, t': Tables, read: SigningRead)
    requires SignedInOrder(t) && SigningFaithful(read, t) && JustSigned(t, t', read)
    ensures SignedInOrder(t')
  {
    if t'.document.signingMode == Ordered {
      forall a, b | a in t'.signers && b in t'.signers && Precedes(t'.signers[a], t'.signers[b])
        ensures t'.signers[a].status == Signed
      {
        if t.signers[b].status == Signed {
          assert Precedes(t.signers[a], t.signers[b]);
        } else {
          assert b == read.signerId;
          assert read.roster[a].status != Pending;
        }
      }
    }
  }

  lemma SignedRowKeeps(t: Tables, t': Tables, read: SigningRead)
    requires SessionsAreSound(t) && OneOpenSession(t.sessions) && DrawnIsSigned(t) && DrawnIsFlattened(t) && CompletedIsSigned(t)
    requires JustSigned(t, t', read)
    ensures SessionsAreSound(t') && OneOpenSession(t'.sessions)
    ensures DrawnIsSigned(t') && DrawnIsFlattened(t') && CompletedIsSigned(t')
  {
    assert Drawn(t') == Drawn(t);
    assert forall f :: f in t.fields ==> t'.fields[f].flattenedRevisionId == t.fields[f].flattenedRevisionId;
  }

  lemma SignedIsConsistent(t: Tables, t': Tables, read: SigningRead)
    requires Consistent(t) && !IsPreparation(t.document.state) && JustSigned(t, t', read)
    requires t.signers[read.signerId].status == Pending ==> IsOutForSigning(t.document.state)
    requires t.signers[read.signerId].status != SignerDeclined
    requires SignedInOrder(t') && SessionsAreSound(t') && OneOpenSession(t'.sessions)
    requires DrawnIsSigned(t') && DrawnIsFlattened(t') && CompletedIsSigned(t')
    ensures Consistent(t')
  {
    RoutingSurvives(t.document.signingMode, t.signers, t'.signers);
    SignedStateIsConsistent(t, t', read);
  }

  lemma SignedStateIsConsistent(t: Tables, t': Tables, read: SigningRead)
    requires PastSigningIsSigned(t) && DeclineIsFinal(t) && ArtifactIsFinal(t) && t.document.state != Expired
    requires JustSigned(t, t', read) && !IsPreparation(t.document.state)
    requires t.signers[read.signerId].status == Pending ==> IsOutForSigning(t.document.state)
    requires t.signers[read.signerId].status != SignerDeclined
    ensures PastSigningIsSigned(t') && DeclineIsFinal(t') && ArtifactIsFinal(t')
    ensures t'.document.state != Expired && !IsPreparation(t'.document.state)
  {
  }

  /** Frame: routing only depends on who is on the roster and in which order. */
  lemma RoutingSurvives(mode: SigningMode, a: map<Id, Signer>, b: map<Id, Signer>)
    requires a.Keys == b.Keys && forall g :: g in a ==> b[g].routingOrder == a[g].routingOrder
    ensures RoutedRows(mode, a) ==> RoutedRows(mode, b)
  {
    assert a == map[] <==> a.Keys == {};
    assert b == map[] <==> b.Keys == {};
  }

  lemma DeclineKeeps(t: Tables, read: Snapshot)
    requires Consistent(t) && read.DeclineRead? && Faithful(read, t)
    ensures Keeps(t, Decline(t, read.signerId, read.signer, read.document))
  {
    var r := Decline(t, read.signerId, read.signer, read.document);
    if r.Ok? {
      DeclinedAdvances(t, r.value, read.signerId);
      DeclinedIsConsistent(t, r.value, read.signerId);
    }
  }

  ghost predicate JustDeclined(t: Tables, t': Tables, g: Id)
    requires g in t'.signers
  {
    && IsOutForSigning(t.document.state)
    && t'.document == t.document.(state := Declined, version := t.document.version + 1)
    && g in t.signers && t.signers[g].status == Pending
    && t' == t.(document := t'.document, signers := t.signers[g := t'.signers[g]], sessions := RevokeAllOpen(t.sessions))
    && t'.signers[g].status == SignerDeclined && t'.signers[g].routingOrder == t.signers[g].routingOrder
  }

  lemma DeclinedAdvances(t: Tables, t': Tables, g: Id)
    requires Consistent(t) && g in t'.signers && JustDeclined(t, t', g)
    ensures Advances(t, t')
  {
  }

  lemma DeclinedKeepsOrder(t: Tables, t': Tables, g: Id)
    requires SignedInOrder(t) && g in t'.signers && JustDeclined(t, t', g)
    ensures SignedInOrder(t')
  {
    assert forall a :: a in t.signers ==> (t'.signers[a].status == Signed <==> t.signers[a].status == Signed);
    assert forall a, b :: a in t.signers && b in t.signers ==>
                            (Precedes(t'.signers[a], t'.signers[b]) <==> Precedes(t.signers[a], t.signers[b]));
  }

  lemma DeclinedKeepsRows(t: Tables, t': Tables, g: Id)
    requires SessionsAreSound(t) && DrawnIsSigned(t) && CompletedIsSigned(t) && g in t'.signers && JustDeclined(t, t', g)
    ensures SessionsAreSound(t') && OneOpenSession(t'.sessions) && DrawnIsSigned(t') && CompletedIsSigned(t')
  {
  }

  lemma DeclinedIsConsistent(t: Tables, t': Tables, g: Id)
    requires Consistent(t) && g in t'.signers && JustDeclined(t, t', g)
    ensures Consistent(t')
  {
    RoutingSurvives(t.document.signingMode, t.signers, t'.signers);
    DeclinedKeepsOrder(t, t', g);
    DeclinedKeepsRows(t, t', g);
    DeclinedKeepsStates(t, t', g);
  }

  lemma DeclinedKeepsStates(t: Tables, t': Tables, g: Id)
    requires SentIsComplete(t) && DeclineIsFinal(t) && ArtifactIsFinal(t) && DrawnIsFlattened(t)
    requires g in t'.signers && JustDeclined(t, t', g)
    requires RoutedRows(t.document.signingMode, t'.signers)
    ensures PreparationIsClean(t') && DrawnIsFlattened(t') && SentIsComplete(t') && PastSigningIsSigned(t')
    ensures DeclineIsFinal(t') && ArtifactIsFinal(t')
  {
  }

  lemma ClaimKeeps(t: Tables, read: Snapshot, owner: Id, leaseUntil: int, now: int)
    requires Consistent(t) && read.FlattenRead? && Faithful(read, t)
    ensures var claimed := ClaimProcessingLease(t.document, read.document.version, owner, leaseUntil, now);
            claimed.Ok? ==>
              && Keeps(t, Ok(t.(document := claimed.value)))
              && Faithful(Leased(Lease(read.signerId, owner, claimed.value, read.pending, read.allSigned)), t.(document := claimed.value))
  {
    var claimed := ClaimProcessingLease(t.document, read.document.version, owner, leaseUntil, now);
    if claimed.Ok? {
      DocumentOnlyAdvances(t, claimed.value);
      DocumentOnlyIsConsistent(t, claimed.value);
    }
  }

  lemma CommitFlattenKeeps(t: Tables, lease: Lease, newRevisionId: Id, digest: Id)
    requires Consistent(t) && Faithful(Leased(lease), t) && newRevisionId !in t.revisions
    ensures Keeps(t, CommitFlatten(t, lease, newRevisionId, digest))
  {
    var r := CommitFlatten(t, lease, newRevisionId, digest);
    if r.Ok? {
      CommitFlattenEffect(t, lease, newRevisionId, digest);
      FlattenedAdvances(t, r.value, lease);
      FlattenedIsDrawn(t, r.value, lease);
      FlattenedIsConsistent(t, r.value, lease);
    }
  }

  /** What a committed flattening writes: the current revision is the claimed one with the pending
      fields drawn on top, and exactly those fields get their mark. */
  ghost predicate JustFlattened(t: Tables, t': Tables, lease: Lease) {
    && t.document == lease.leased
    && t.document.currentRevisionId.Some? && t.document.currentRevisionId.value in t.revisions
    && (lease.pending == [] || ListsPending(t.fields, lease.signerId, lease.pending))
    && t'.document.currentRevisionId.Some? && t'.document.currentRevisionId.value in t'.revisions
    && t'.document == t.document.(state := if lease.finalize then Finalized else t.document.state,
                                  currentRevisionId := t'.document.currentRevisionId,
                                  leaseOwner := None, leaseUntil := None, version := t.document.version + 1)
    && t'.revisions[t'.document.currentRevisionId.value].drawn == t.revisions[t.document.currentRevisionId.value].drawn + lease.pending
    && (forall r :: r in t.revisions ==> r in t'.revisions && t'.revisions[r] == t.revisions[r])
    && t'.fields.Keys == t.fields.Keys
    && (forall f :: f in t.fields ==>
          t'.fields[f] == if f in lease.pending then t.fields[f].(flattenedRevisionId := t'.document.currentRevisionId) else t.fields[f])
    && t'.signers == t.signers && t'.sessions == t.sessions && t'.flattenJobs == t.flattenJobs && t'.fieldIds == t.fieldIds
    && (lease.finalize ==> AllSigned(t.signers) && t.document.state == Finalizing)
    && t'.artifacts == if lease.finalize then [Artifact(t'.revisions[t'.document.currentRevisionId.value].digest)] else []
  }

  lemma CommitFlattenEffect(t: Tables, lease: Lease, newRevisionId: Id, digest: Id)
    requires Consistent(t) && Faithful(Leased(lease), t) && newRevisionId !in t.revisions
    requires CommitFlatten(t, lease, newRevisionId, digest).Ok?
    ensures JustFlattened(t, CommitFlatten(t, lease, newRevisionId, digest).value, lease)
  {
    var t' := CommitFlatten(t, lease, newRevisionId, digest).value;
    assert t.document == lease.leased;
    assert t.artifacts == [];
    var base := t.revisions[t.document.currentRevisionId.value];
    if lease.pending == [] {
      assert base.drawn + lease.pending == base.drawn;
    } else {
      assert lease.pending[0] in t.fields;
    }
  }

  lemma FlattenedAdvances(t: Tables, t': Tables, lease: Lease)
    requires Consistent(t) && JustFlattened(t, t', lease) && !IsPreparation(t.document.state) && t.document.state != Finalized
    ensures Advances(t, t')
  {
    FlattenedRowsAdvance(t, t', lease);
    assert Drawn(t') == Drawn(t) + lease.pending;
  }

  lemma FlattenedRowsAdvance(t: Tables, t': Tables, lease: Lease)
    requires DrawnIsFlattened(t) && JustFlattened(t, t', lease)
    ensures FieldsStay(t, t') && SessionsAdvance(t.sessions, t'.sessions)
    ensures forall f :: f in lease.pending ==> f in t.fields && f in t'.fields
  {
  }

  lemma FlattenedIsDrawn(t: Tables, t': Tables, lease: Lease)
    requires DrawnIsFlattened(t) && JustFlattened(t, t', lease)
    ensures DrawnIsFlattened(t')
  {
    var before := t.revisions[t.document.currentRevisionId.value].drawn;
    var after := t'.revisions[t'.document.currentRevisionId.value].drawn;
    assert forall f :: f in after <==> f in before || f in lease.pending;
    forall i, j | 0 <= i < j < |after|
      ensures after[i] != after[j]
    {
      if i < |before| <= j {
        assert before[i] in before && after[j] in lease.pending;
      }
    }
  }

  lemma FlattenedIsConsistent(t: Tables, t': Tables, lease: Lease)
    requires Consistent(t) && JustFlattened(t, t', lease) && !IsPreparation(t.document.state) && t.document.state != Finalized
    requires DrawnIsFlattened(t') && lease.signerId in t.flattenJobs
    ensures Consistent(t')
  {
    assert DrawnIsSigned(t');
  }

  lemma FailAndReleaseKeep(t: Tables, owner: Id)
    requires Consistent(t) && !IsPreparation(t.document.state)
    ensures Keeps(t, Ok(t.(document := MarkFinalizationFailed(t.document, owner))))
    ensures Keeps(t, Ok(t.(document := ReleaseProcessingLease(t.document, owner))))
  {
    var failed, released := MarkFinalizationFailed(t.document, owner), ReleaseProcessingLease(t.document, owner);
    DocumentOnlyAdvances(t, failed);
    DocumentOnlyIsConsistent(t, failed);
    DocumentOnlyAdvances(t, released);
    DocumentOnlyIsConsistent(t, released);
  }
}
