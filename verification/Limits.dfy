/** Promises the protocol does not keep, each with a run that breaks it; and for a single commit the
    exact condition under which it keeps them. */
module Limits {
  import opened Results
  import opened Lifecycle
  import opened Envelope
  import opened UnitsOfWork
  import opened Protocol
  import opened Invariants
  import opened StepLemmas
  import opened Safety
  import opened Theorems
  import opened Standstill

  /* ---- the exact conditions ---- */

  ghost predicate OthersSigned(signers: map<Id, Signer>, signerId: Id) {
    forall g :: g in signers && g != signerId ==> signers[g].status == Signed
  }

  /** After a signature, "all signed means no longer out for signing" holds exactly when the roster that
      was read had caught up with the rows: the last signature of a document still out for signing must
      have been decided on a roster that showed everybody else signed. */
  lemma CompletesExactlyOnFreshRoster(actions: seq<Action>, read: SigningRead)
    requires SignRead(read) in Run(INITIAL, actions).pool
    requires CompleteSigning(After(actions), read).Ok?
    ensures var t, t' := After(actions), CompleteSigning(After(actions), read).value;
            (AllSigned(t'.signers) ==> !IsOutForSigning(t'.document.state))
            <==> (IsOutForSigning(t.document.state) && OthersSigned(t.signers, read.signerId) ==> OthersSigned(read.roster, read.signerId))
  {
    InvAlways(actions);
    assert Faithful(SignRead(read), After(actions));
    CompletesExactly(After(actions), read);
  }

  lemma CompletesExactly(t: Tables, read: SigningRead)
    requires Consistent(t) && SigningFaithful(read, t) && CompleteSigning(t, read).Ok?
    ensures var t' := CompleteSigning(t, read).value;
            (AllSigned(t'.signers) ==> !IsOutForSigning(t'.document.state))
            <==> (IsOutForSigning(t.document.state) && OthersSigned(t.signers, read.signerId) ==> OthersSigned(read.roster, read.signerId))
  {
    CompleteSigningEffect(t, read);
    assert OthersSigned(read.roster, read.signerId) <==> CompletesDocument(read);
    AllSignedAfter(t, CompleteSigning(t, read).value, read);
  }

  /** The signature itself is the one that was missing. */
  lemma AllSignedAfter(t: Tables, t': Tables, read: SigningRead)
    requires JustSigned(t, t', read)
    ensures AllSigned(t'.signers) <==> OthersSigned(t.signers, read.signerId)
  {
    if AllSigned(t'.signers) {
      forall g | g in t.signers && g != read.signerId
        ensures t.signers[g].status == Signed
      {
        assert g in t'.signers;
      }
    }
  }

  /** A commit leaves no stored field undrawn exactly when the fields of the other signers had been drawn
      before it, and those of its own signer too unless the commit draws something itself. */
  lemma FinalizesEverythingExactly(actions: seq<Action>, lease: Lease, newRevisionId: Id, digest: Id)
    requires Leased(lease) in Run(INITIAL, actions).pool && newRevisionId !in After(actions).revisions
    requires CommitFlatten(After(actions), lease, newRevisionId, digest).Ok?
    ensures var t, t' := After(actions), CommitFlatten(After(actions), lease, newRevisionId, digest).value;
            (forall f :: f in t'.fields ==> f in Drawn(t'))
            <==> (forall f :: f in t.fields && (t.fields[f].signerId != lease.signerId || lease.pending == []) ==> f in Drawn(t))
  {
    InvAlways(actions);
    var t, t' := After(actions), CommitFlatten(After(actions), lease, newRevisionId, digest).value;
    assert Faithful(Leased(lease), t);
    CommitFlattenEffect(t, lease, newRevisionId, digest);
    assert Drawn(t') == Drawn(t) + lease.pending;
  }

  /* ---- three parallel signers with one field each, up to the first signature ---- */

  const FIELD_ENTRIES := map[11 := FieldEntry(1, true), 12 := FieldEntry(2, true), 13 := FieldEntry(3, true)]

  const FIELDS := NewFields(FIELD_ENTRIES)

  const UNSIGNED := map[1 := Signer(1, Pending, 1), 2 := Signer(1, Pending, 1), 3 := Signer(1, Pending, 1)]

  const INVITATIONS := map[21 := Invitation(1, 31), 22 := Invitation(2, 32), 23 := Invitation(3, 33)]

  lemma Continue(s: State, a: Action)
    requires Reachable(s)
    ensures Reachable(Next(s, a))
  {
    var actions :| s == Run(INITIAL, actions);
    assert (actions + [a])[..|actions|] == actions;
    assert Next(s, a) == Run(INITIAL, actions + [a]);
  }

  /** The owner has read the prepared document in order to replace its fields, and no signer has read
      anything that would complete it. */
  ghost predicate Held(s: State) {
    FieldsRead(PREPARED, UNSIGNED) in s.pool && forall read :: SignRead(read) in s.pool ==> !CompletesDocument(read)
  }

  const ACCEPTED_UPLOAD := BLANK_DOCUMENT.(version := 3, inspection := InspectionAccepted, currentRevisionId := Some(1))

  ghost predicate Unread(s: State) {
    forall read :: SignRead(read) !in s.pool
  }

  lemma Uploaded() returns (s: State)
    ensures Reachable(s) && s.tokens == {} && Unread(s)
    ensures s.db == INITIAL.db.(document := ACCEPTED_UPLOAD, revisions := map[1 := Revision(91, [])])
  {
    assert INITIAL == Run(INITIAL, []);
    s := INITIAL;
    var attached := BLANK_DOCUMENT.(version := 2, currentRevisionId := Some(1));
    Continue(s, ByOwner(LoadDocument));
    s := Next(s, ByOwner(LoadDocument));
    Continue(s, ByOwner(DoAttachSource(BLANK_DOCUMENT, 1, 91)));
    s := Next(s, ByOwner(DoAttachSource(BLANK_DOCUMENT, 1, 91)));
    assert s.db == INITIAL.db.(document := attached, revisions := map[1 := Revision(91, [])]);
    Continue(s, ByOwner(LoadDocument));
    s := Next(s, ByOwner(LoadDocument));
    Continue(s, ByOwner(DoRecordInspection(attached, true)));
    s := Next(s, ByOwner(DoRecordInspection(attached, true)));
  }

  const ENTRIES := [SignerEntry(1, 1), SignerEntry(2, 1), SignerEntry(3, 1)]

  lemma StoredEntries()
    ensures StoreSigners(ENTRIES) == UNSIGNED
  {
    assert ENTRIES[..2] == [SignerEntry(1, 1), SignerEntry(2, 1)];
    assert ENTRIES[..2][..1] == [SignerEntry(1, 1)];
    assert ENTRIES[..2][..1][..0] == [];
    assert StoreSigners(ENTRIES[..2][..1]) == map[1 := Signer(1, Pending, 1)];
    assert StoreSigners(ENTRIES[..2]) == map[1 := Signer(1, Pending, 1), 2 := Signer(1, Pending, 1)];
  }

  const ROUTED := ACCEPTED_UPLOAD.(version := 4, signingMode := Parallel)

  lemma WithSigners() returns (s: State)
    ensures Reachable(s) && s.tokens == {} && Unread(s)
    ensures s.db == ROUTED_ROWS
  {
    s := Uploaded();
    Continue(s, ByOwner(LoadDocument));
    s := Next(s, ByOwner(LoadDocument));
    var a := ByOwner(DoReplaceSigners(ACCEPTED_UPLOAD, Parallel, ENTRIES));
    StoredEntries();
    Continue(s, a);
    s := Next(s, a);
  }

  lemma EntriesFit()
    ensures EachSignerHasField(UNSIGNED.Keys, FIELDS) && RoutedRows(Parallel, UNSIGNED)
    ensures UNSIGNED.Keys != {} && FIELDS != map[]
    ensures forall id :: id in UNSIGNED ==> exists f :: f in FIELD_ENTRIES && FIELD_ENTRIES[f].signerId == id
  {
    assert FIELDS[11].signerId == 1 && FIELDS[12].signerId == 2 && FIELDS[13].signerId == 3;
    assert FIELD_ENTRIES[11].signerId == 1 && FIELD_ENTRIES[12].signerId == 2 && FIELD_ENTRIES[13].signerId == 3;
    assert 1 in UNSIGNED;
  }

  lemma FirstEntriesFit(t: Tables)
    requires t.fieldIds == {}
    ensures FieldsFit(t, UNSIGNED, FIELD_ENTRIES) && PreparedWith(ROUTED, UNSIGNED, FIELD_ENTRIES)
  {
    EntriesFit();
  }

  lemma StoredFields(t: Tables)
    requires t.document == ROUTED && t.fieldIds == {}
    ensures ReplaceFields(t, ROUTED, UNSIGNED, FIELD_ENTRIES)
            == Ok(t.(document := PREPARED, fields := FIELDS, fieldIds := FIELD_ENTRIES.Keys))
  {
    FirstEntriesFit(t);
  }

  const PREPARED := ROUTED.(version := 5, state := Prepared)

  /** Reading in order to replace the fields. */
  lemma ReadsFields(s: State) returns (s': State)
    requires Reachable(s) && IsPreparation(s.db.document.state) && s.db.document.currentRevisionId.Some? && s.db.signers != map[]
    ensures Reachable(s') && s'.db == s.db && s'.tokens == s.tokens
    ensures s'.pool == s.pool + {FieldsRead(s.db.document, s.db.signers)}
  {
    Continue(s, ByOwner(LoadForFields));
    s' := Next(s, ByOwner(LoadForFields));
  }

  /** Replacing the fields, seen as one step that goes through. */
  lemma FieldsOn(s: State, read: Document, roster: map<Id, Signer>, entries: map<Id, FieldEntry>) returns (s': State)
    requires Reachable(s) && FieldsRead(read, roster) in s.pool && FieldsFit(s.db, roster, entries)
    requires ReplaceFields(s.db, read, roster, entries).Ok?
    ensures Reachable(s') && s'.db == ReplaceFields(s.db, read, roster, entries).value && s'.tokens == s.tokens && s'.pool == s.pool
  {
    Continue(s, ByOwner(DoReplaceFields(read, roster, entries)));
    s' := Next(s, ByOwner(DoReplaceFields(read, roster, entries)));
  }

  const ROUTED_ROWS := INITIAL.db.(document := ROUTED, revisions := map[1 := Revision(91, [])], signers := UNSIGNED)

  const PREPARED_ROWS := ROUTED_ROWS.(document := PREPARED, fields := FIELDS, fieldIds := FIELD_ENTRIES.Keys)

  lemma StoresFields(s: State) returns (s': State)
    requires Reachable(s) && FieldsRead(ROUTED, UNSIGNED) in s.pool && s.db == ROUTED_ROWS
    ensures Reachable(s') && s'.tokens == s.tokens && s'.pool == s.pool && s'.db == PREPARED_ROWS
  {
    FirstEntriesFit(s.db);
    StoredFields(s.db);
    s' := FieldsOn(s, ROUTED, UNSIGNED, FIELD_ENTRIES);
  }

  lemma WithFields() returns (s: State)
    ensures Reachable(s) && s.tokens == {} && Held(s) && s.db == PREPARED_ROWS
  {
    s := WithSigners();
    assert 1 in UNSIGNED;
    s := ReadsFields(s);
    s := StoresFields(s);
    s := ReadsFields(s);
  }

  const SENT := PREPARED.(version := 6, state := Sent, signingRevisionId := Some(1))

  const ISSUED := NewSessions(INVITATIONS, 1000)

  lemma ReadyToSend() returns (s: State)
    ensures Reachable(s) && s.tokens == {} && SendRead(PREPARED, UNSIGNED) in s.pool && Held(s)
    ensures InvitesEachOnce(s, UNSIGNED, INVITATIONS)
    ensures s.db == PREPARED_ROWS
  {
    s := WithFields();
    EntriesFit();
    Continue(s, ByOwner(LoadForSend));
    s := Next(s, ByOwner(LoadForSend));
    InvitationsFit(s);
  }

  /** Sending, seen as one step from any state whose read is still current. */
  lemma SendsOn(s: State, read: Document, sendTo: map<Id, Signer>, invitations: map<Id, Invitation>) returns (s': State)
    requires Reachable(s) && SendRead(read, sendTo) in s.pool && InvitesEachOnce(s, sendTo, invitations)
    requires s.db.document == read && read.currentRevisionId.Some?
    requires s.db.sessions == map[] && Held(s)
    ensures Held(s')
    ensures Reachable(s') && forall token :: token in s'.tokens ==> token in s.tokens || token in InvitationTokens(invitations)
    ensures s'.db == s.db.(document := read.(state := Sent, signingRevisionId := read.currentRevisionId, expiresAt := None, version := read.version + 1),
                           sessions := NewSessions(invitations, 1000))
  {
    var a := ByOwner(DoSend(read, sendTo, invitations, 1000, None));
    assert map[] + NewSessions(invitations, 1000) == NewSessions(invitations, 1000);
    Continue(s, a);
    s' := Next(s, a);
  }

  lemma SentOut() returns (s: State)
    ensures Reachable(s) && Held(s)
    ensures forall token :: token in s.tokens ==> token in InvitationTokens(INVITATIONS)
    ensures s.db.document == SENT && s.db.sessions == ISSUED && s.db.signers == UNSIGNED && s.db.fields == FIELDS
    ensures s.db.revisions == map[1 := Revision(91, [])] && s.db.artifacts == [] && s.db.flattenJobs == {}
    ensures s.db.fieldIds == FIELD_ENTRIES.Keys
  {
    s := ReadyToSend();
    s := SendsOn(s, PREPARED, UNSIGNED, INVITATIONS);
  }

  lemma InvitationsFit(s: State)
    requires s.db.sessions == map[] && s.tokens == {}
    ensures InvitesEachOnce(s, UNSIGNED, INVITATIONS)
  {
    assert INVITATIONS[21].signerId == 1 && INVITATIONS[22].signerId == 2 && INVITATIONS[23].signerId == 3;
  }

  lemma IssuedTokens()
    ensures forall token :: token in InvitationTokens(INVITATIONS) ==> token < 40
  {
  }

  /** Any signer holding a fresh invitation can exchange it. */
  lemma Exchanged(s: State, i: Id, token: Id) returns (s': State)
    requires Reachable(s) && i in s.db.sessions && s.db.sessions[i].signerId in s.db.signers
    requires s.db.sessions[i].status == Issued && !s.db.sessions[i].consumed && s.db.sessions[i].expiresAt > 0
    requires IsAvailableForSigning(s.db.document) && token !in s.tokens && Held(s)
    ensures Reachable(s') && s'.tokens == s.tokens + {token} && Held(s')
    ensures var row := s.db.sessions[i];
            s'.db == s.db.(sessions := s.db.sessions[i := row.(token := token, consumed := true, status := Active, version := row.version + 1)])
  {
    Continue(s, OnSession(LoadForExchange(i, 0)));
    s' := Next(s, OnSession(LoadForExchange(i, 0)));
    var a := OnSession(DoExchange(i, s.db.sessions[i].version, token));
    Continue(s', a);
    s' := Next(s', a);
  }

  /** Where the three stand when those in `who` have signed and nothing is drawn yet. */
  ghost predicate Halfway(t: Tables, who: set<Id>) {
    && t.document.signingMode == Parallel && t.document.inspection == InspectionAccepted
    && t.document.currentRevisionId == Some(1) && t.document.leaseOwner == None && t.document.leaseUntil == None
    && t.revisions == map[1 := Revision(91, [])] && t.artifacts == [] && t.flattenJobs == who && t.fieldIds == FIELD_ENTRIES.Keys
    && RowsHalfway(t.signers, t.fields, who)
    && SessionsHalfway(t.sessions, who)
  }

  ghost predicate RowsHalfway(signers: map<Id, Signer>, fields: map<Id, Field>, who: set<Id>) {
    && (forall g :: g in signers <==> 1 <= g <= 3)
    && (forall g :: g in signers ==> signers[g] == if g in who then Signer(1, Signed, 2) else Signer(1, Pending, 1))
    && (forall f :: f in fields <==> 11 <= f <= 13)
    && (forall f :: f in fields ==> fields[f].signerId == f - 10 && fields[f].required && fields[f].flattenedRevisionId == None)
  }

  ghost predicate SessionsHalfway(sessions: map<Id, Session>, who: set<Id>) {
    && (forall i :: i in sessions <==> 21 <= i <= 23)
    && (forall i :: i in sessions ==> sessions[i].signerId == i - 20 && sessions[i].expiresAt == 1000)
    && (forall i :: i in sessions && i - 20 !in who ==> sessions[i].status == Active && sessions[i].consumed)
  }

  lemma StartingRows()
    ensures RowsHalfway(UNSIGNED, FIELDS, {})
    ensures forall i :: i in ISSUED <==> 21 <= i <= 23
    ensures forall i :: i in ISSUED ==> ISSUED[i] == Session(i - 20, Issued, i + 10, false, 1000, 1)
  {
  }

  lemma AllExchanged() returns (s: State)
    ensures Reachable(s) && Halfway(s.db, {}) && s.db.document == SENT && Held(s)
  {
    s := SentOut();
    IssuedTokens();
    StartingRows();
    var sent := s.db;
    s := ExchangeOne(s, sent, 21);
    s := ExchangeOne(s, sent, 22);
    s := ExchangeOne(s, sent, 23);
  }

  /** Of the sessions issued with `sent`, those before the i-th have been exchanged. */
  ghost predicate ExchangedUpTo(s: State, sent: Tables, i: Id) {
    && s.db == sent.(sessions := s.db.sessions)
    && (forall j :: j in s.db.sessions <==> 21 <= j <= 23)
    && (forall j :: j in s.db.sessions ==>
          s.db.sessions[j] == if j < i then Session(j - 20, Active, j + 20, true, 1000, 2) else Session(j - 20, Issued, j + 10, false, 1000, 1))
    && (forall token :: token in s.tokens ==> token < i + 20)
  }

  lemma ExchangeOne(s: State, sent: Tables, i: Id) returns (s': State)
    requires Reachable(s) && Held(s) && IsAvailableForSigning(sent.document) && sent.signers == UNSIGNED
    requires 21 <= i <= 23 && ExchangedUpTo(s, sent, i)
    ensures Reachable(s') && Held(s') && ExchangedUpTo(s', sent, i + 1)
  {
    s' := Exchanged(s, i, i + 20);
  }

  /** A parallel signer whose turn it may be reads what it needs. */
  lemma ReadToSign(s: State, i: Id, selected: set<Id>) returns (s': State)
    requires Reachable(s) && i in s.db.sessions && s.db.sessions[i].signerId in s.db.signers
    requires s.db.sessions[i].status == Active && s.db.sessions[i].consumed && s.db.sessions[i].expiresAt > 0
    requires IsAvailableForSigning(s.db.document) && s.db.document.signingMode == Parallel
    requires s.db.signers[s.db.sessions[i].signerId].status == Pending
    requires SelectsFields(s.db.fields, s.db.sessions[i].signerId, selected)
    ensures Reachable(s') && s'.db == s.db
    ensures s'.pool == s.pool + {SignRead(SigningReadOf(s.db, i, selected))}
  {
    Continue(s, BySigner(LoadForSigning(i, selected, 0)));
    s' := Next(s, BySigner(LoadForSigning(i, selected, 0)));
  }

  lemma SignsOn(s: State, read: SigningRead) returns (s': State)
    requires Reachable(s) && SignRead(read) in s.pool && CompleteSigning(s.db, read).Ok?
    ensures Reachable(s') && s'.db == CompleteSigning(s.db, read).value && s'.pool == s.pool
  {
    Continue(s, BySigner(DoCompleteSigning(read)));
    s' := Next(s, BySigner(DoCompleteSigning(read)));
  }

  /** One of the three reads, later commits: from any such state the others may have got to meanwhile. */
  lemma SignatureOf(s: State, who: set<Id>, g: Id, read: SigningRead) returns (s': State)
    requires Reachable(s) && Halfway(s.db, who) && 1 <= g <= 3 && g !in who
    requires SignRead(read) in s.pool && read.sessionId == 20 + g && read.signerId == g && read.selected == {10 + g}
    requires read.signer == Signer(1, Pending, 1) && read.document == s.db.document && IsOutForSigning(s.db.document.state)
    ensures Reachable(s') && Halfway(s'.db, who + {g}) && s'.pool == s.pool
    ensures var d := s.db.document;
            s'.db.document == if CompletesDocument(read) then d.(state := Completed, version := d.version + 1)
                              else if d.state == Sent then d.(state := InProgress, version := d.version + 1)
                              else d
  {
    assert 10 + g in s.db.fields && 20 + g in s.db.sessions;
    s' := SignsOn(s, read);
  }

  lemma ReadBy(s: State, who: set<Id>, g: Id) returns (s': State, read: SigningRead)
    requires Reachable(s) && Halfway(s.db, who) && 1 <= g <= 3 && g !in who && IsOutForSigning(s.db.document.state)
    ensures Reachable(s') && s'.db == s.db && s'.pool == s.pool + {SignRead(read)}
    ensures read == SigningRead(20 + g, g, s.db.document, Signer(1, Pending, 1), s.db.signers, {10 + g})
  {
    assert 20 + g in s.db.sessions && 10 + g in s.db.fields;
    s' := ReadToSign(s, 20 + g, {10 + g});
    read := SigningReadOf(s.db, 20 + g, {10 + g});
  }

  /** Signer 1 has signed, the document is in progress. */
  lemma OneSigned() returns (s: State)
    ensures Reachable(s) && Halfway(s.db, {1}) && s.db.document.state == InProgress && Held(s)
  {
    s := AllExchanged();
    var read;
    s, read := ReadBy(s, {}, 1);
    assert 2 in read.roster && read.roster[2].status == Pending;
    s := SignatureOf(s, {}, 1, read);
    assert {} + {1} == {1};
  }

  lemma BothRead() returns (s: State, second: SigningRead, third: SigningRead)
    ensures Reachable(s) && Halfway(s.db, {1}) && s.db.document.state == InProgress && Held(s)
    ensures SignRead(second) in s.pool && SignRead(third) in s.pool
    ensures second == SigningRead(22, 2, s.db.document, Signer(1, Pending, 1), s.db.signers, {12})
    ensures third == SigningRead(23, 3, s.db.document, Signer(1, Pending, 1), s.db.signers, {13})
  {
    s := OneSigned();
    s, second := ReadBy(s, {1}, 2);
    s, third := ReadBy(s, {1}, 3);
    assert 3 in second.roster && second.roster[3].status == Pending;
    assert 2 in third.roster && third.roster[2].status == Pending;
  }

  lemma BothCommitted() returns (s: State)
    ensures Reachable(s) && Halfway(s.db, {1} + {2} + {3}) && s.db.document.state == InProgress && Held(s)
  {
    var second, third;
    s, second, third := BothRead();
    assert 3 in second.roster && second.roster[3].status == Pending;
    assert 2 in third.roster && third.roster[2].status == Pending;
    s := SignatureOf(s, {1}, 2, second);
    s := SignatureOf(s, {1} + {2}, 3, third);
  }

  /** Everybody signed, and yet the document is not completed and never will be: signers 2 and 3 each
      read a roster on which the other had not signed. */
  lemma AllSignedButInProgress()
    ensures exists first :: AllSigned(After(first).signers) && After(first).document.state == InProgress
                            && forall more :: After(first + more).document.state != Completed
  {
    var s := BothCommitted();
    assert AllSigned(s.db.signers);
    var first :| s == Run(INITIAL, first);
    assert Waiting(Run(INITIAL, first)) && forall read :: !WouldComplete(Run(INITIAL, first), read);
    assert After(first).document.state == InProgress;
    forall more
      ensures After(first + more).document.state != Completed
    {
      StandsStill(first, more);
    }
  }

  lemma TwoSigned() returns (s: State)
    ensures Reachable(s) && Halfway(s.db, {1} + {2}) && s.db.document.state == InProgress
  {
    s := OneSigned();
    var read;
    s, read := ReadBy(s, {1}, 2);
    assert 3 in read.roster && read.roster[3].status == Pending;
    s := SignatureOf(s, {1}, 2, read);
  }

  lemma AllSignedInTurn() returns (s: State)
    ensures Reachable(s) && Halfway(s.db, {1} + {2} + {3}) && s.db.document.state == Completed
  {
    s := TwoSigned();
    var read;
    s, read := ReadBy(s, {1} + {2}, 3);
    s := SignatureOf(s, {1} + {2}, 3, read);
  }

  /** A worker reads and claims, with nobody in between. */
  lemma Claims(s: State, g: Id, pending: seq<Id>) returns (s': State, lease: Lease)
    requires Reachable(s) && g in s.db.flattenJobs && s.db.document.currentRevisionId.Some?
    requires exists f :: f in s.db.fields && s.db.fields[f].signerId == g
    requires ListsPending(s.db.fields, g, pending)
    requires IsFlattenable(s.db.document.state) && s.db.document.leaseUntil == None
    ensures Reachable(s') && s'.db == s.db.(document := lease.leased)
    ensures s'.pool == s.pool + {FlattenRead(g, s.db.document, pending, AllSigned(s.db.signers)), Leased(lease)}
    ensures lease == Lease(g, 7, lease.leased, pending, AllSigned(s.db.signers))
    ensures ClaimProcessingLease(s.db.document, s.db.document.version, 7, 50, 0) == Ok(lease.leased)
  {
    var load := ByWorker(LoadForFlatten(g, pending));
    Continue(s, load);
    s' := Next(s, load);
    var read := FlattenRead(g, s.db.document, pending, AllSigned(s.db.signers));
    lease := Lease(g, 7, ClaimProcessingLease(s.db.document, s.db.document.version, 7, 50, 0).value, pending, AllSigned(s.db.signers));
    Continue(s', ByWorker(DoClaim(read, 7, 50, 0)));
    s' := Next(s', ByWorker(DoClaim(read, 7, 50, 0)));
  }

  lemma CommitsOn(s: State, lease: Lease, revisionId: Id, digest: Id) returns (s': State)
    requires Reachable(s) && Leased(lease) in s.pool && revisionId !in s.db.revisions
    requires CommitFlatten(s.db, lease, revisionId, digest).Ok?
    ensures Reachable(s') && s'.pool == s.pool && s'.db == CommitFlatten(s.db, lease, revisionId, digest).value
  {
    Continue(s, ByWorker(DoCommitFlatten(lease, revisionId, digest)));
    s' := Next(s, ByWorker(DoCommitFlatten(lease, revisionId, digest)));
  }

  /** The first thing drawn is the field of signer 1. */
  lemma DrawsFirst(s: State, who: set<Id>, lease: Lease) returns (s': State)
    requires Reachable(s) && Leased(lease) in s.pool && s.db.document == lease.leased && lease.pending == [11]
    requires RowsHalfway(s.db.signers, s.db.fields, who) && s.db.revisions == map[1 := Revision(91, [])] && s.db.artifacts == []
    requires lease.leased.currentRevisionId == Some(1) && lease.leased.leaseOwner == Some(lease.owner)
    requires lease.finalize ==> lease.leased.state == Finalizing
    ensures Reachable(s') && s'.pool == s.pool
    ensures s'.db == s.db.(
                       document := s'.db.document,
                       fields := s.db.fields[11 := s.db.fields[11].(flattenedRevisionId := Some(2))],
                       revisions := map[1 := Revision(91, []), 2 := Revision(92, [11])],
                       artifacts := if lease.finalize then [Artifact(92)] else [])
    ensures s'.db.document == lease.leased.(state := if lease.finalize then Finalized else lease.leased.state,
                                            currentRevisionId := Some(2), leaseOwner := None, leaseUntil := None,
                                            version := lease.leased.version + 1)
  {
    assert [] + [11] == [11];
    assert 11 in s.db.fields;
    s' := CommitsOn(s, lease, 2, 92);
  }

  lemma ClaimsFirst(s: State, who: set<Id>) returns (s': State, lease: Lease)
    requires Reachable(s) && Halfway(s.db, who) && 1 in who && IsFlattenable(s.db.document.state)
    ensures Reachable(s') && s'.db == s.db.(document := lease.leased)
    ensures Leased(lease) in s'.pool && (Held(s) ==> Held(s'))
    ensures lease == Lease(1, 7, lease.leased, [11], AllSigned(s.db.signers))
    ensures var d := lease.leased;
            && d.state == StateAfterClaim(s.db.document.state) && d.leaseOwner == Some(7)
            && d.currentRevisionId == s.db.document.currentRevisionId
  {
    assert 11 in s.db.fields && s.db.fields[11].signerId == 1;
    assert ListsPending(s.db.fields, 1, [11]);
    s', lease := Claims(s, 1, [11]);
  }

  /** A finalized document that does not show the fields of signers 2 and 3: the first job to run after
      everybody signed was the one of signer 1. */
  lemma FinalizedWithUndrawnFields()
    ensures exists s :: Reachable(s) && s.db.document.state == Finalized
                        && exists f :: f in s.db.fields && s.db.fields[f].required && f !in Drawn(s.db)
  {
    var s := AllSignedInTurn();
    assert AllSigned(s.db.signers);
    var lease;
    s, lease := ClaimsFirst(s, {1} + {2} + {3});
    s := DrawsFirst(s, {1} + {2} + {3}, lease);
    assert 12 in s.db.fields && 12 !in Drawn(s.db);
  }

  /* ---- fields replaced behind the signers' backs ---- */

  const LATE_ENTRIES := map[14 := FieldEntry(1, true), 15 := FieldEntry(2, true), 16 := FieldEntry(3, true)]

  /** Where things stand when signer 1 has signed and its field is drawn. */
  ghost predicate OneIsDrawn(t: Tables) {
    && t.document.state == InProgress && t.document.leaseUntil == None && t.document.currentRevisionId == Some(2)
    && t.revisions == map[1 := Revision(91, []), 2 := Revision(92, [11])]
    && t.flattenJobs == {1} && t.fieldIds == FIELD_ENTRIES.Keys
    && 11 in t.fields && t.fields[11].signerId == 1
    && (forall f :: f in t.fields && t.fields[f].signerId == 1 ==> t.fields[f].flattenedRevisionId.Some?)
    && 2 in t.signers && t.signers[2].status == Pending
  }

  lemma OneDrawn() returns (s: State)
    ensures Reachable(s) && Held(s) && OneIsDrawn(s.db)
  {
    s := OneSigned();
    assert 2 in s.db.signers && s.db.signers[2].status == Pending;
    var lease;
    s, lease := ClaimsFirst(s, {1});
    s := DrawsFirst(s, {1}, lease);
  }

  /** The job of signer 1 is delivered once more, finds nothing to draw, and claims. */
  lemma ClaimsInVain() returns (s: State, lease: Lease)
    ensures Reachable(s) && Held(s) && Leased(lease) in s.pool && s.db.document == lease.leased
    ensures lease.signerId == 1 && lease.pending == [] && !lease.finalize && lease.leased.leaseOwner == Some(lease.owner)
    ensures lease.leased.currentRevisionId == Some(2) && s.db.revisions == map[1 := Revision(91, []), 2 := Revision(92, [11])]
    ensures s.db.fieldIds == FIELD_ENTRIES.Keys
  {
    s := OneDrawn();
    assert ListsPending(s.db.fields, 1, []);
    s, lease := Claims(s, 1, []);
  }

  /** Then the replacement lands, for a document read while it was prepared. */
  lemma LandsLate(s: State) returns (s': State)
    requires Reachable(s) && Held(s) && s.db.fieldIds == FIELD_ENTRIES.Keys
    ensures Reachable(s') && s'.pool == s.pool
    ensures s'.db == s.db.(fields := NewFields(LATE_ENTRIES), fieldIds := s.db.fieldIds + LATE_ENTRIES.Keys)
  {
    LateEntriesFit();
    LateFields(s.db);
    s' := FieldsOn(s, PREPARED, UNSIGNED, LATE_ENTRIES);
  }

  lemma LateFields(t: Tables)
    requires t.fieldIds == FIELD_ENTRIES.Keys
    ensures FieldsFit(t, UNSIGNED, LATE_ENTRIES)
    ensures ReplaceFields(t, PREPARED, UNSIGNED, LATE_ENTRIES)
            == Ok(t.(fields := NewFields(LATE_ENTRIES), fieldIds := t.fieldIds + LATE_ENTRIES.Keys))
  {
    LateEntriesFit();
  }

  lemma LateEntriesFit()
    ensures PreparedWith(PREPARED, UNSIGNED, LATE_ENTRIES)
    ensures LATE_ENTRIES.Keys !! FIELD_ENTRIES.Keys
    ensures forall f :: f in LATE_ENTRIES ==> LATE_ENTRIES[f].signerId in UNSIGNED
    ensures forall id :: id in UNSIGNED ==> exists f :: f in LATE_ENTRIES && LATE_ENTRIES[f].signerId == id
  {
    EntriesFit();
    var fields := NewFields(LATE_ENTRIES);
    assert fields[14].signerId == 1 && fields[15].signerId == 2 && fields[16].signerId == 3;
    assert LATE_ENTRIES[14].signerId == 1 && LATE_ENTRIES[15].signerId == 2 && LATE_ENTRIES[16].signerId == 3;
  }

  /** Replacing the fields of a document read while it was prepared removes a field that is signed and
      drawn; and the worker's commit for that signer goes through without drawing the new one. */
  lemma FieldsReplacedAfterDrawing()
    ensures exists s, lease ::
              && Reachable(s) && Leased(lease) in s.pool && CommitFlatten(s.db, lease, 3, 93).Ok?
              && var t' := CommitFlatten(s.db, lease, 3, 93).value;
                 && (exists f :: f in Drawn(t') && f !in t'.fields)
                 && (exists f :: f in t'.fields && t'.fields[f].signerId == lease.signerId && f !in Drawn(t'))
  {
    var s, lease := ClaimsInVain();
    s := LandsLate(s);
    var t' := CommitFlatten(s.db, lease, 3, 93).value;
    assert Drawn(t') == [11] && 11 in Drawn(t') && 11 !in t'.fields;
    assert 14 in t'.fields && t'.fields[14].signerId == 1;
  }
}
