/** Who is let in to sign or decline, when the answer goes through, and every row it writes, from any
    reachable state and for reads of any age. */
module SignerEffects {
  import opened Results
  import opened Lifecycle
  import opened Envelope
  import opened UnitsOfWork
  import opened Protocol
  import opened Invariants
  import opened StepLemmas
  import opened Safety
  import opened Evolution
  import opened SessionEffects
  import opened OwnerEffects

  /** A signer with an exchanged session that is neither closed nor overdue may act on a document that takes
      signatures, when pending and, in ordered mode, ahead of everybody else who is. */
  ghost predicate MayAct(t: Tables, i: Id, now: int) {
    && i in t.sessions && t.sessions[i].consumed && t.sessions[i].status == Active && now < t.sessions[i].expiresAt
    && IsOpenForSigning(t.document)
    && var g := t.sessions[i].signerId;
       && g in t.signers && t.signers[g].status == Pending
       && (t.document.signingMode == Ordered ==>
             forall h :: h in t.signers && t.signers[h].status == Pending ==> t.signers[g].routingOrder <= t.signers[h].routingOrder)
  }

  /** The selection names only fields of the signer, and every required one. */
  ghost predicate IsSelection(t: Tables, g: Id, selected: set<Id>) {
    forall f :: f in selected ==> f in t.fields && t.fields[f].signerId == g
  }

  ghost predicate SelectsRequired(t: Tables, g: Id, selected: set<Id>) {
    forall f :: f in t.fields && t.fields[f].signerId == g && t.fields[f].required ==> f in selected
  }

  lemma LoadingForSigning(s: State, i: Id, selected: set<Id>, now: int)
    requires Reachable(s)
    ensures Next(s, BySigner(LoadForSigning(i, selected, now)))
            == if i in s.db.sessions && IsOverdue(s.db.sessions[i], now)
               then s.(db := s.db.(sessions := s.db.sessions[i := s.db.sessions[i].(status := SessionExpired)]))
               else if && MayAct(s.db, i, now)
                       && IsSelection(s.db, s.db.sessions[i].signerId, selected)
                       && SelectsRequired(s.db, s.db.sessions[i].signerId, selected)
               then var g := s.db.sessions[i].signerId;
                    s.(pool := s.pool + {SignRead(SigningRead(i, g, s.db.document, s.db.signers[g], s.db.signers, selected))})
               else s
  {
    SessionHolds(s, i);
  }

  lemma LoadingForDecline(s: State, i: Id, now: int)
    requires Reachable(s)
    ensures Next(s, BySigner(LoadForDecline(i, now)))
            == if i in s.db.sessions && IsOverdue(s.db.sessions[i], now)
               then s.(db := s.db.(sessions := s.db.sessions[i := s.db.sessions[i].(status := SessionExpired)]))
               else if MayAct(s.db, i, now)
               then s.(pool := s.pool + {DeclineRead(i, s.db.sessions[i].signerId, s.db.document, s.db.signers[s.db.sessions[i].signerId])})
               else s
  {
    SessionHolds(s, i);
  }

  /** A decline goes through exactly when the document row is still the one that was read and the signer is
      pending at the version that was read. */
  lemma Declining(s: State, i: Id, g: Id, document: Document, signer: Signer)
    requires Reachable(s) && DeclineRead(i, g, document, signer) in s.pool
    ensures var t, t' := s.db, Next(s, BySigner(DoDecline(DeclineRead(i, g, document, signer)))).db;
            if t.document == document && g in t.signers && t.signers[g].status == Pending && t.signers[g].version == signer.version
            then && t' == t.(document := document.(state := Declined, version := document.version + 1),
                             signers := t.signers[g := t.signers[g].(status := SignerDeclined, version := signer.version + 1)],
                             sessions := t'.sessions)
                 && AllRevoked(t.sessions, t'.sessions)
            else t' == t
  {
    DeclineReadHolds(s, i, g, document, signer);
    DocumentIsDeclined(s.db, g, document, signer);
  }

  lemma DeclineReadHolds(s: State, i: Id, g: Id, document: Document, signer: Signer)
    requires Reachable(s) && DeclineRead(i, g, document, signer) in s.pool
    ensures DocumentFaithful(document, s.db.document) && IsAvailableForSigning(document)
  {
    ReachableKeepsInv(s);
    assert Faithful(DeclineRead(i, g, document, signer), s.db);
  }

  lemma DocumentIsDeclined(t: Tables, g: Id, document: Document, signer: Signer)
    requires DocumentFaithful(document, t.document) && IsAvailableForSigning(document)
    ensures Decline(t, g, signer, document)
            == if g !in t.signers then Err(NotFound)
               else if t.signers[g].status != Pending || t.signers[g].version != signer.version then Err(SignerVersionConflict)
               else if t.document != document then Err(DocumentVersionConflict)
               else Ok(t.(document := document.(state := Declined, version := document.version + 1),
                          signers := t.signers[g := t.signers[g].(status := SignerDeclined, version := signer.version + 1)],
                          sessions := RevokeAllOpen(t.sessions)))
  {
  }

  /* ---- signing ---- */

  /** In ordered mode whoever may act is next: exactly the signers with lower orders have signed. */
  lemma TheNextMayAct(s: State, i: Id, now: int, h: Id)
    requires Reachable(s) && MayAct(s.db, i, now) && s.db.document.signingMode == Ordered && h in s.db.signers
    ensures s.db.signers[h].status == Signed <==> s.db.signers[h].routingOrder < s.db.signers[s.db.sessions[i].signerId].routingOrder
  {
    ReachableKeepsInv(s);
    var t, g := s.db, s.db.sessions[i].signerId;
    assert !Precedes(t.signers[g], t.signers[h]);
  }

  /** The roster that was read shows everybody else signed. */
  ghost predicate OthersHadSigned(read: SigningRead) {
    forall h :: h in read.roster && h != read.signerId ==> read.roster[h].status == Signed
  }

  /** The rest of the rows go through: every selected field is still there, the signer is as it was read or
      has signed already, and the session is active or has been completed already. */
  ghost predicate AnswerFits(t: Tables, read: SigningRead) {
    && (forall f :: f in read.selected ==> f in t.fields)
    && read.signerId in t.signers
    && (t.signers[read.signerId].status == Signed
        || (t.signers[read.signerId].status == Pending && t.signers[read.signerId].version == read.signer.version))
    && read.sessionId in t.sessions
    && (t.sessions[read.sessionId].status == Active || t.sessions[read.sessionId].status == SessionCompleted)
  }

  /** A signature goes through exactly when its rows fit and, if it has to move the document, the document
      row is still the one that was read. */
  lemma Signing(s: State, read: SigningRead)
    requires Reachable(s) && SignRead(read) in s.pool
    ensures var t, t' := s.db, Next(s, BySigner(DoCompleteSigning(read))).db;
            if AnswerFits(t, read) && (OthersHadSigned(read) || read.document.state == Sent ==> t.document == read.document)
            then JustAnswered(t, t', read)
            else t' == t
  {
    ReachableKeepsInv(s);
    assert Faithful(SignRead(read), s.db);
    AnswerIsWritten(s.db, read);
  }

  /** Every row a signature writes: each selected field completed and no other one touched, the signer
      signed, the session completed, the job published, and the document moved when it has to be. */
  ghost predicate JustAnswered(t: Tables, t': Tables, read: SigningRead)
    requires read.signerId in t.signers && read.sessionId in t.sessions
  {
    && (forall f :: f in t'.fields <==> f in t.fields)
    && (forall f :: f in t.fields && f in read.selected ==> t'.fields[f] == t.fields[f].(completed := true))
    && (forall f :: f in t.fields && f !in read.selected ==> t'.fields[f] == t.fields[f])
    && t' == t.(
               fields := t'.fields,
               signers := if t.signers[read.signerId].status == Signed then t.signers
                          else t.signers[read.signerId := Signer(t.signers[read.signerId].routingOrder, Signed, read.signer.version + 1)],
               sessions := t.sessions[read.sessionId := t.sessions[read.sessionId].(status := SessionCompleted)],
               flattenJobs := t.flattenJobs + {read.signerId},
               document := if OthersHadSigned(read) then read.document.(state := Completed, version := read.document.version + 1)
                           else if read.document.state == Sent then read.document.(state := InProgress, version := read.document.version + 1)
                           else t.document)
  }

  lemma AnswerIsWritten(t: Tables, read: SigningRead)
    requires Consistent(t) && SigningFaithful(read, t)
    ensures var r := CompleteSigning(t, read);
            && (r.Ok? <==> AnswerFits(t, read) && (OthersHadSigned(read) || read.document.state == Sent ==> t.document == read.document))
            && (r.Ok? ==> AnswerFits(t, read) && JustAnswered(t, r.value, read))
  {
    assert OthersHadSigned(read) <==> CompletesDocument(read);
    SelectionIsCompleted(t.fields, read.selected);
    SessionIsActive(t, read);
    DocumentMoves(t, read);
    RowsAreWritten(t, read);
  }

  lemma SelectionIsCompleted(fields: map<Id, Field>, selected: set<Id>)
    ensures var r := CompleteFields(fields, selected);
            && (r.Ok? <==> forall f :: f in selected ==> f in fields)
            && (r.Ok? ==> && (forall f :: f in r.value <==> f in fields)
                          && (forall f :: f in fields && f in selected ==> r.value[f] == fields[f].(completed := true))
                          && (forall f :: f in fields && f !in selected ==> r.value[f] == fields[f]))
  {
  }

  lemma SessionIsActive(t: Tables, read: SigningRead)
    requires SessionsAreSound(t) && SigningFaithful(read, t)
    ensures t.sessions[read.sessionId].status != Issued
  {
  }

  /** Whenever the rows fit, moving the document needs nothing but the row that was read. */
  lemma DocumentMoves(t: Tables, read: SigningRead)
    requires DocumentFaithful(read.document, t.document) && IsAvailableForSigning(read.document)
    ensures MarkCompleted(t.document, read.document.version)
            == if t.document == read.document then Ok(read.document.(state := Completed, version := read.document.version + 1))
               else Err(DocumentVersionConflict)
    ensures MarkInProgress(t.document, read.document.version)
            == if t.document == read.document then Ok(read.document.(state := InProgress, version := read.document.version + 1))
               else Err(DocumentVersionConflict)
  {
  }

  lemma RowsAreWritten(t: Tables, read: SigningRead)
    requires read.sessionId in t.sessions && t.sessions[read.sessionId].status != Issued
    requires OthersHadSigned(read) <==> CompletesDocument(read)
    ensures var r, fields := CompleteSigning(t, read), CompleteFields(t.fields, read.selected);
            var moved := if OthersHadSigned(read) then MarkCompleted(t.document, read.document.version)
                         else if read.document.state == Sent then MarkInProgress(t.document, read.document.version)
                         else Ok(t.document);
            && (r.Ok? <==> AnswerFits(t, read) && moved.Ok?)
            && (r.Ok? ==>
                  r.value == t.(
                               fields := fields.value,
                               signers := if t.signers[read.signerId].status == Signed then t.signers
                                          else t.signers[read.signerId := Signer(t.signers[read.signerId].routingOrder, Signed, read.signer.version + 1)],
                               sessions := t.sessions[read.sessionId := t.sessions[read.sessionId].(status := SessionCompleted)],
                               flattenJobs := t.flattenJobs + {read.signerId},
                               document := moved.value))
  {
    if read.signerId in t.signers {
      assert t.signers[read.signerId := t.signers[read.signerId]] == t.signers;
    }
    assert t.sessions[read.sessionId := t.sessions[read.sessionId]] == t.sessions;
  }
}
