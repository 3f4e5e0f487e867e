/** The invariant of the step system and the relation every step keeps between the tables before it and
    after it. `Advances` is what makes stale reads harmless: whatever a request read stays true enough
    (`Faithful`) while the tables advance. */
module Invariants {
  import opened Results
  import opened Lifecycle
  import opened Envelope
  import opened UnitsOfWork
  import opened Protocol

  /* ---- one state of the tables ---- */

  ghost predicate NoRepeats(ids: seq<Id>) {
    forall i, j :: 0 <= i < j < |ids| ==> ids[i] != ids[j]
  }

  ghost predicate Unflattened(fields: map<Id, Field>) {
    forall f :: f in fields ==> fields[f].flattenedRevisionId == None
  }

  /** Before sending nothing has been signed, issued, drawn or published. */
  ghost predicate PreparationIsClean(t: Tables) {
    IsPreparation(t.document.state) ==>
      && t.document.signingRevisionId == None
      && t.sessions == map[]
      && t.flattenJobs == {}
      && (forall g :: g in t.signers ==> t.signers[g].status == Pending)
      && Unflattened(t.fields)
      && (forall f :: f in t.fields ==> !t.fields[f].completed)
      && Drawn(t) == []
  }

  /** What the current revision draws. */
  ghost function Drawn(t: Tables): seq<Id> {
    match t.document.currentRevisionId
    case None => []
    case Some(r) => if r in t.revisions then t.revisions[r].drawn else []
  }

  /** A stored field is marked flattened exactly when the current revision draws it, and no revision
      that is current draws a field twice. */
  ghost predicate DrawnIsFlattened(t: Tables) {
    && (t.document.currentRevisionId.Some? ==> t.document.currentRevisionId.value in t.revisions)
    && NoRepeats(Drawn(t))
    && (forall f :: f in t.fields ==> (t.fields[f].flattenedRevisionId.Some? <==> f in Drawn(t)))
  }

  /** Whatever is stored or drawn had its id from some replacement. */
  ghost predicate FieldsAreKnown(t: Tables) {
    && t.fields.Keys <= t.fieldIds
    && (forall f :: f in Drawn(t) ==> f in t.fieldIds)
  }

  /** Only fields of signers whose signature was accepted are ever drawn. */
  ghost predicate DrawnIsSigned(t: Tables) {
    && (forall f :: f in t.fields && t.fields[f].flattenedRevisionId.Some? ==> t.fields[f].signerId in t.flattenJobs)
    && (forall g :: g in t.flattenJobs ==> g in t.signers && t.signers[g].status == Signed)
  }

  /** Only a signer who signed has completed fields. */
  ghost predicate CompletedIsSigned(t: Tables) {
    forall f :: f in t.fields && t.fields[f].completed ==>
      t.fields[f].signerId in t.signers && t.signers[t.fields[f].signerId].status == Signed
  }

  /** Sending fixes the signing revision, and voiding does not take it back. */
  predicate WasSent(d: Document) {
    !IsPreparation(d.state) && (d.state == Voided ==> d.signingRevisionId.Some?)
  }

  ghost predicate SentIsComplete(t: Tables) {
    WasSent(t.document) ==>
      && t.document.currentRevisionId.Some?
      && t.document.inspection == InspectionAccepted
      && RoutedRows(t.document.signingMode, t.signers)
  }

  ghost predicate PastSigningIsSigned(t: Tables) {
    IsPastSigning(t.document.state) ==> AllSigned(t.signers)
  }

  ghost predicate DeclineIsFinal(t: Tables) {
    forall g :: g in t.signers && t.signers[g].status == SignerDeclined ==> t.document.state == Declined
  }

  /** An artifact exists exactly when the document is finalized, there is one, and it is the current revision. */
  ghost predicate ArtifactIsFinal(t: Tables) {
    && (t.document.state != Finalized ==> t.artifacts == [])
    && (t.document.state == Finalized ==>
          && t.document.leaseOwner == None
          && t.document.currentRevisionId.Some?
          && t.document.currentRevisionId.value in t.revisions
          && t.artifacts == [Artifact(t.revisions[t.document.currentRevisionId.value].digest)])
  }

  ghost predicate SessionsAreSound(t: Tables) {
    && (forall i :: i in t.sessions ==> t.sessions[i].signerId in t.signers)
    && (forall i :: i in t.sessions && t.sessions[i].consumed ==> t.sessions[i].status != Issued)
    && (forall i :: i in t.sessions && t.sessions[i].status == SessionCompleted ==> t.signers[t.sessions[i].signerId].status == Signed)
  }

  ghost predicate OneOpenSession(sessions: map<Id, Session>) {
    forall i, j :: i in sessions && j in sessions && i != j && IsOpen(sessions[i].status) && IsOpen(sessions[j].status) ==>
      sessions[i].signerId != sessions[j].signerId
  }

  predicate Precedes(before: Signer, signed: Signer) {
    signed.status == Signed && before.routingOrder < signed.routingOrder
  }

  /** In ordered mode nobody has signed ahead of an unsigned predecessor. */
  ghost predicate SignedInOrder(t: Tables) {
    t.document.signingMode == Ordered && !IsPreparation(t.document.state) ==>
      forall a, b :: (a in t.signers && b in t.signers && Precedes(t.signers[a], t.signers[b])) ==> t.signers[a].status == Signed
  }

  ghost predicate Consistent(t: Tables) {
    && t.document.state != Expired
    && PreparationIsClean(t)
    && DrawnIsFlattened(t)
    && FieldsAreKnown(t)
    && DrawnIsSigned(t)
    && CompletedIsSigned(t)
    && SentIsComplete(t)
    && PastSigningIsSigned(t)
    && DeclineIsFinal(t)
    && ArtifactIsFinal(t)
    && SessionsAreSound(t)
    && OneOpenSession(t.sessions)
    && SignedInOrder(t)
  }

  /* ---- two states of the tables ---- */

  ghost predicate DocumentAdvances(a: Document, b: Document) {
    || b == a
    || (&& b.version > a.version
        && (b.state == a.state || CanTransitionDocument(a.state, b.state))
        && (!IsPreparation(a.state) ==> b.signingMode == a.signingMode)
        && a.state != Finalized)
  }

  ghost predicate SignersAdvance(a: Tables, b: Tables) {
    && (!IsPreparation(a.document.state) ==>
          && b.signers.Keys == a.signers.Keys
          && (forall g :: g in a.signers ==>
                && b.signers[g].routingOrder == a.signers[g].routingOrder
                && (a.signers[g].status != Pending ==> b.signers[g].status == a.signers[g].status)))
    && (IsPreparation(a.document.state) && b.document == a.document ==> b.signers == a.signers)
  }

  ghost predicate SessionsAdvance(a: map<Id, Session>, b: map<Id, Session>) {
    && a.Keys <= b.Keys
    && (forall i :: i in a ==>
          && b[i].signerId == a[i].signerId
          && (b[i].status == a[i].status || CanTransitionSession(a[i].status, b[i].status))
          && (a[i].consumed ==> b[i].consumed))
  }

  predicate HasEnded(state: DocumentState) {
    state == Voided || state == Declined
  }

  /** Voiding and declining close every session there is. */
  ghost predicate EndingClosesSessions(a: Tables, b: Tables)
    requires a.sessions.Keys <= b.sessions.Keys
  {
    HasEnded(b.document.state) && !HasEnded(a.document.state) ==>
      forall i :: i in a.sessions ==> !IsOpen(b.sessions[i].status)
  }

  ghost predicate FieldsStay(a: Tables, b: Tables) {
    && b.fields.Keys == a.fields.Keys
    && (forall f :: f in a.fields ==>
          && b.fields[f].signerId == a.fields[f].signerId
          && b.fields[f].required == a.fields[f].required
          && (a.fields[f].completed ==> b.fields[f].completed)
          && (a.fields[f].flattenedRevisionId.Some? || b.document == a.document ==>
                b.fields[f].flattenedRevisionId == a.fields[f].flattenedRevisionId))
  }

  /** A replacement that comes after sending: other fields, unmarked, and no trace of it in the document row. */
  ghost predicate FieldsReplaced(a: Tables, b: Tables) {
    && b.fields != map[]
    && b.fields.Keys !! a.fieldIds
    && Unflattened(b.fields)
    && (forall f :: f in b.fields ==> !b.fields[f].completed)
    && b.document == a.document
  }

  /** Fields come with ids never used before, and only stored fields get drawn. */
  ghost predicate FieldsAdvance(a: Tables, b: Tables) {
    && a.fieldIds <= b.fieldIds
    && (forall f :: f in b.fields ==> f in a.fields || f !in a.fieldIds)
    && (forall f :: f in Drawn(b) ==> f in Drawn(a) || (f in a.fields && f in b.fields))
    && (!IsPreparation(a.document.state) ==> FieldsStay(a, b) || FieldsReplaced(a, b))
  }

  /** Stored revisions never change, and the current one is only replaced by one that draws more. */
  ghost predicate RevisionsAdvance(a: Tables, b: Tables) {
    && (forall r :: r in a.revisions ==> r in b.revisions && b.revisions[r] == a.revisions[r])
    && (a.document.currentRevisionId.Some? && a.document.currentRevisionId.value in a.revisions ==>
          && b.document.currentRevisionId.Some?
          && b.document.currentRevisionId.value in b.revisions
          && Drawn(a) <= Drawn(b))
  }

  ghost predicate Advances(a: Tables, b: Tables) {
    && DocumentAdvances(a.document, b.document)
    && SignersAdvance(a, b)
    && SessionsAdvance(a.sessions, b.sessions)
    && EndingClosesSessions(a, b)
    && FieldsAdvance(a, b)
    && RevisionsAdvance(a, b)
    && a.artifacts <= b.artifacts
    && a.flattenJobs <= b.flattenJobs
  }

  /* ---- what a read is still worth ---- */

  ghost predicate DocumentFaithful(read: Document, now: Document) {
    now == read || now.version > read.version
  }

  ghost predicate RosterFaithful(roster: map<Id, Signer>, now: map<Id, Signer>) {
    && roster.Keys == now.Keys
    && (forall g :: g in roster ==>
          && roster[g].routingOrder == now[g].routingOrder
          && roster[g].status != SignerDeclined
          && (roster[g].status == Signed ==> now[g].status == Signed))
  }

  ghost predicate SigningFaithful(r: SigningRead, t: Tables) {
    && DocumentFaithful(r.document, t.document)
    && !IsPreparation(t.document.state)
    && IsAvailableForSigning(r.document)
    && r.document.signingMode == t.document.signingMode
    && r.sessionId in t.sessions
    && t.sessions[r.sessionId].signerId == r.signerId
    && t.sessions[r.sessionId].consumed
    && RosterFaithful(r.roster, t.signers)
    && r.signerId in r.roster && r.roster[r.signerId] == r.signer
    && CanSignerActNow(r.document.signingMode, r.signer, r.roster)
    && r.selected <= t.fieldIds
    && (forall f :: f in r.selected && f in t.fields ==> t.fields[f].signerId == r.signerId)
    && (IsOpen(t.sessions[r.sessionId].status) ==> !HasEnded(t.document.state))
  }

  ghost predicate FlattenFaithful(signerId: Id, read: Document, pending: seq<Id>, allSigned: bool, t: Tables) {
    && DocumentFaithful(read, t.document)
    && !IsPreparation(t.document.state)
    && read.currentRevisionId.Some?
    && read.state != Finalized
    && signerId in t.flattenJobs
    && (forall f :: f in pending ==> f in t.fieldIds)
    && (t.document == read ==> ListsPending(t.fields, signerId, pending) || (forall f :: f in pending ==> f !in t.fields))
    && (allSigned ==> AllSigned(t.signers))
  }

  ghost predicate Faithful(q: Snapshot, t: Tables) {
    match q
    case DocumentRead(d) => DocumentFaithful(d, t.document)
    case FieldsRead(d, roster) => DocumentFaithful(d, t.document) && IsPreparation(d.state) && roster != map[]
    case SendRead(d, signers) =>
      && DocumentFaithful(d, t.document)
      && IsPreparation(d.state)
      && d.inspection == InspectionAccepted
      && d.currentRevisionId.Some?
      && RoutedRows(d.signingMode, signers)
      && (t.document == d ==> t.signers == signers)
    case RotateRead(g) => !IsPreparation(t.document.state) && g in t.signers
    case ExchangeRead(_, _) => true
    case SignRead(r) => SigningFaithful(r, t)
    case DeclineRead(_, g, d, row) =>
      && DocumentFaithful(d, t.document)
      && !IsPreparation(t.document.state)
      && IsAvailableForSigning(d)
    case FlattenRead(g, d, pending, allSigned) => FlattenFaithful(g, d, pending, allSigned, t)
    case Leased(l) =>
      && FlattenFaithful(l.signerId, l.leased, l.pending, l.finalize, t)
      && (l.leased.state == InProgress || l.leased.state == Finalizing)
      && l.leased.leaseOwner == Some(l.owner)
  }

  ghost predicate PoolFaithful(s: State) {
    forall q :: q in s.pool ==> Faithful(q, s.db)
  }

  /** Tokens are used up: a session's token was generated, belongs to no other session, and is not one
      of the exchanged ones; no token was exchanged twice. */
  ghost predicate SingleUse(sessions: map<Id, Session>, tokens: set<Id>, exchanged: seq<Id>) {
    && (forall i :: i in sessions ==> sessions[i].token in tokens && sessions[i].token !in exchanged)
    && (forall i, j :: i in sessions && j in sessions && i != j ==> sessions[i].token != sessions[j].token)
    && (forall token :: token in exchanged ==> token in tokens)
    && NoRepeats(exchanged)
  }

  ghost predicate TokensAreSingleUse(s: State) {
    SingleUse(s.db.sessions, s.tokens, s.exchanged)
  }

  ghost predicate Inv(s: State) {
    && Consistent(s.db)
    && PoolFaithful(s)
    && TokensAreSingleUse(s)
  }

  lemma FaithfulSurvives(q: Snapshot, a: Tables, b: Tables)
    requires Faithful(q, a) && Advances(a, b)
    ensures Faithful(q, b)
  {
    match q
    case DocumentRead(d) =>
    case FieldsRead(_, _) =>
    case SendRead(d, signers) =>
    case RotateRead(g) =>
    case ExchangeRead(_, _) =>
    case SignRead(r) =>
    case DeclineRead(_, _, _, _) =>
    case FlattenRead(g, d, pending, allSigned) => FlattenFaithfulSurvives(g, d, pending, allSigned, a, b);
    case Leased(l) => FlattenFaithfulSurvives(l.signerId, l.leased, l.pending, l.finalize, a, b);
  }

  lemma FlattenFaithfulSurvives(g: Id, d: Document, pending: seq<Id>, allSigned: bool, a: Tables, b: Tables)
    requires FlattenFaithful(g, d, pending, allSigned, a) && Advances(a, b)
    ensures FlattenFaithful(g, d, pending, allSigned, b)
  {
  }
}
