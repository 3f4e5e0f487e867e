/** When the owner's requests go through, and everything they write, from any reachable state and for reads
    of any age. Nothing here is said through the functions that compute it: each result gives its condition
    and its rows in full. */
module OwnerEffects {
  import opened Results
  import opened Lifecycle
  import opened Routing
  import opened Envelope
  import opened UnitsOfWork
  import opened Protocol
  import opened Invariants
  import opened StepLemmas
  import opened Safety
  import opened Evolution

  /* ---- what a read is worth ---- */

  lemma DocumentReadHolds(s: State, read: Document)
    requires Reachable(s)
    ensures DocumentRead(read) in s.pool ==> DocumentFaithful(read, s.db.document)
  {
    ReachableKeepsInv(s);
    if DocumentRead(read) in s.pool {
      assert Faithful(DocumentRead(read), s.db);
    }
  }

  lemma FieldsReadHolds(s: State, read: Document, roster: map<Id, Signer>)
    requires Reachable(s) && FieldsRead(read, roster) in s.pool
    ensures DocumentFaithful(read, s.db.document) && IsPreparation(read.state)
  {
    ReachableKeepsInv(s);
    assert Faithful(FieldsRead(read, roster), s.db);
  }

  lemma SendReadHolds(s: State, read: Document, sendTo: map<Id, Signer>)
    requires Reachable(s) && SendRead(read, sendTo) in s.pool
    ensures DocumentFaithful(read, s.db.document) && read.currentRevisionId.Some?
    ensures s.db.document == read ==> s.db.sessions == map[] && s.db.signers == sendTo
  {
    ReachableKeepsInv(s);
    assert Faithful(SendRead(read, sendTo), s.db);
  }

  /* ---- uploading and inspection ---- */

  lemma AttachingASource(s: State, read: Document, revisionId: Id, digest: Id)
    requires Reachable(s)
    ensures var t, t' := s.db, Next(s, ByOwner(DoAttachSource(read, revisionId, digest))).db;
            if DocumentRead(read) in s.pool && t.document == read && read.state == Draft && read.currentRevisionId == None && revisionId !in t.revisions
            then t' == t.(document := read.(currentRevisionId := Some(revisionId), version := read.version + 1),
                          revisions := t.revisions[revisionId := Revision(digest, [])])
            else t' == t
  {
    DocumentReadHolds(s, read);
  }

  lemma RecordingAnInspection(s: State, read: Document, accepted: bool)
    requires Reachable(s)
    ensures var t, t' := s.db, Next(s, ByOwner(DoRecordInspection(read, accepted))).db;
            if DocumentRead(read) in s.pool && t.document == read && read.inspection == InspectionPending && read.currentRevisionId.Some?
            then t' == t.(document := read.(inspection := if accepted then InspectionAccepted else InspectionRejected, version := read.version + 1))
            else t' == t
  {
    DocumentReadHolds(s, read);
  }

  /* ---- preparation ---- */

  /** What makes an envelope ready: an accepted upload, a well-routed roster, and a field for everybody. */
  ghost predicate IsReady(d: Document, signers: map<Id, Signer>, fields: map<Id, Field>) {
    && d.inspection == InspectionAccepted
    && d.currentRevisionId != None
    && (exists g :: g in signers)
    && (d.signingMode == Parallel ==> forall g :: g in signers ==> signers[g].routingOrder == 1)
    && (d.signingMode == Ordered ==> forall g :: g in signers ==> 1 <= signers[g].routingOrder <= |signers.Keys|)
    && (d.signingMode == Ordered ==> forall g, h :: g in signers && h in signers && signers[g].routingOrder == signers[h].routingOrder ==> g == h)
    && (forall g :: g in signers ==> exists f :: f in fields && fields[f].signerId == g)
  }

  lemma ReadyIsPrepared(d: Document, signers: map<Id, Signer>, fields: map<Id, Field>)
    ensures IsReady(d, signers, fields)
            <==> EnvelopeIsPrepared(d, signers.Keys, RoutedRows(d.signingMode, signers), fields)
  {
    if EnvelopeIsPrepared(d, signers.Keys, RoutedRows(d.signingMode, signers), fields) {
      var g :| g in signers.Keys;
      assert g in signers;
    }
    if IsReady(d, signers, fields) {
      var g :| g in signers;
      var f :| f in fields && fields[f].signerId == g;
      assert g in signers.Keys && f in fields;
    }
  }

  lemma LoadingADocument(s: State)
    ensures Next(s, ByOwner(LoadDocument)) == s.(pool := s.pool + {DocumentRead(s.db.document)})
  {
  }

  lemma LoadingForFields(s: State)
    ensures Next(s, ByOwner(LoadForFields))
            == if (s.db.document.state == Draft || s.db.document.state == Prepared) && s.db.document.currentRevisionId != None && s.db.signers != map[]
               then s.(pool := s.pool + {FieldsRead(s.db.document, s.db.signers)})
               else s
  {
  }

  /** A replacement of the fields goes through when no change of state is due, or else exactly when the row
      is still the one that was read. It stores one new row for each entry, and the other state if due. */
  lemma ReplacingFields(s: State, read: Document, roster: map<Id, Signer>, entries: map<Id, FieldEntry>)
    requires Reachable(s) && FieldsRead(read, roster) in s.pool && FieldsFit(s.db, roster, entries)
    ensures var t, t' := s.db, Next(s, ByOwner(DoReplaceFields(read, roster, entries))).db;
            var fields := map f | f in entries :: Field(entries[f].signerId, entries[f].required, false, None);
            var state := if IsReady(read, roster, fields) then Prepared else Draft;
            t' == if read.state == state then t.(fields := fields, fieldIds := t.fieldIds + entries.Keys)
                  else if t.document == read
                  then t.(document := read.(state := state, version := read.version + 1), fields := fields, fieldIds := t.fieldIds + entries.Keys)
                  else t
    ensures forall g :: g in roster <==> exists f :: f in entries && entries[f].signerId == g
  {
    FieldsReadHolds(s, read, roster);
    FieldsAreReplaced(s.db, read, roster, entries);
  }

  lemma FieldsAreReplaced(t: Tables, read: Document, roster: map<Id, Signer>, entries: map<Id, FieldEntry>)
    requires DocumentFaithful(read, t.document) && IsPreparation(read.state)
    ensures var fields := map f | f in entries :: Field(entries[f].signerId, entries[f].required, false, None);
            var state := if IsReady(read, roster, fields) then Prepared else Draft;
            ReplaceFields(t, read, roster, entries)
            == if read.state == state then Ok(t.(fields := fields, fieldIds := t.fieldIds + entries.Keys))
               else if t.document == read
               then Ok(t.(document := read.(state := state, version := read.version + 1), fields := fields, fieldIds := t.fieldIds + entries.Keys))
               else Err(DocumentVersionConflict)
  {
    ReadyIsPrepared(read, roster, NewFields(entries));
  }

  /** The last entry for a signer counts. */
  ghost predicate StoresEntries(entries: seq<SignerEntry>, signers: map<Id, Signer>) {
    && (forall g :: g in signers ==> exists k :: 0 <= k < |entries| && entries[k].signerId == g)
    && (forall k :: 0 <= k < |entries| && IsLastFor(entries, k) ==>
          entries[k].signerId in signers && signers[entries[k].signerId] == Signer(entries[k].routingOrder, Pending, 1))
  }

  /** No later entry is for the same signer. */
  ghost predicate IsLastFor(entries: seq<SignerEntry>, k: nat)
    requires k < |entries|
  {
    forall j :: k < j < |entries| ==> entries[j].signerId != entries[k].signerId
  }

  lemma LastForBefore(entries: seq<SignerEntry>, k: nat)
    requires k < |entries| - 1 && IsLastFor(entries, k)
    ensures IsLastFor(entries[..|entries| - 1], k) && entries[|entries| - 1].signerId != entries[k].signerId
  {
  }

  lemma StoredEntriesAre(entries: seq<SignerEntry>)
    ensures StoresEntries(entries, StoreSigners(entries))
  {
    StoredAreEntries(entries);
    forall k | 0 <= k < |entries| && IsLastFor(entries, k)
      ensures entries[k].signerId in StoreSigners(entries)
      ensures StoreSigners(entries)[entries[k].signerId] == Signer(entries[k].routingOrder, Pending, 1)
    {
      LastEntryIsStored(entries, k);
    }
  }

  lemma {:induction false} StoredAreEntries(entries: seq<SignerEntry>)
    ensures forall g :: g in StoreSigners(entries) ==> exists k :: 0 <= k < |entries| && entries[k].signerId == g
  {
    if entries != [] {
      var n := |entries| - 1;
      StoredAreEntries(entries[..n]);
      forall g | g in StoreSigners(entries) && g != entries[n].signerId
        ensures exists k :: 0 <= k < |entries| && entries[k].signerId == g
      {
        assert g in StoreSigners(entries[..n]);
        var k :| 0 <= k < |entries[..n]| && entries[..n][k].signerId == g;
        assert entries[k].signerId == g;
      }
    }
  }

  lemma {:induction false} LastEntryIsStored(entries: seq<SignerEntry>, k: nat)
    requires k < |entries| && IsLastFor(entries, k)
    ensures entries[k].signerId in StoreSigners(entries)
    ensures StoreSigners(entries)[entries[k].signerId] == Signer(entries[k].routingOrder, Pending, 1)
  {
    if k < |entries| - 1 {
      LastForBefore(entries, k);
      LastEntryIsStored(entries[..|entries| - 1], k);
    }
  }

  /** Replacing the signers goes through exactly when the row is still the one that was read and the new
      orders are well routed. It keeps the fields of the signers who stay. */
  lemma ReplacingSigners(s: State, read: Document, mode: SigningMode, entries: seq<SignerEntry>)
    requires Reachable(s) && DocumentRead(read) in s.pool && (read.state == Draft || read.state == Prepared)
    ensures var t, t' := s.db, Next(s, ByOwner(DoReplaceSigners(read, mode, entries))).db;
            if t.document == read && WellRouted(mode, seq(|entries|, i requires 0 <= i < |entries| => entries[i].routingOrder))
            then JustRerostered(t, t', read, mode, entries)
            else t' == t
  {
    DocumentReadHolds(s, read);
    SignersAreReplaced(s.db, read, mode, entries);
  }

  /** What a replacement of the signers of a document leaves behind. */
  ghost predicate JustRerostered(t: Tables, t': Tables, read: Document, mode: SigningMode, entries: seq<SignerEntry>) {
    var state := if IsComplete(read, t'.signers, t'.fields) then Prepared else Draft;
    && StoresEntries(entries, t'.signers)
    && (forall f :: f in t'.fields <==> f in t.fields && t.fields[f].signerId in t'.signers)
    && (forall f :: f in t'.fields ==> t'.fields[f] == t.fields[f])
    && t' == t.(document := read.(signingMode := mode, state := state, version := read.version + if read.state == state then 1 else 2),
                signers := t'.signers, fields := t'.fields)
  }

  lemma SignersAreReplaced(t: Tables, read: Document, mode: SigningMode, entries: seq<SignerEntry>)
    requires DocumentFaithful(read, t.document) && IsPreparation(read.state)
    ensures var r := ReplaceSigners(t, read, mode, entries);
            && (r.Ok? <==> t.document == read)
            && (r.Ok? ==> JustRerostered(t, r.value, read, mode, entries))
  {
    StoredEntriesAre(entries);
    var r := ReplaceSigners(t, read, mode, entries);
    if r.Ok? {
      CompleteIsPrepared(read.(signingMode := mode, version := read.version + 1), r.value.signers, r.value.fields);
    }
  }

  /** Ready, leaving the routing aside. */
  ghost predicate IsComplete(d: Document, signers: map<Id, Signer>, fields: map<Id, Field>) {
    && d.inspection == InspectionAccepted
    && d.currentRevisionId != None
    && (exists g :: g in signers)
    && (forall g :: g in signers ==> exists f :: f in fields && fields[f].signerId == g)
  }

  lemma CompleteIsPrepared(d: Document, signers: map<Id, Signer>, fields: map<Id, Field>)
    ensures IsComplete(d, signers, fields) <==> EnvelopeIsPrepared(d, signers.Keys, true, fields)
  {
    if EnvelopeIsPrepared(d, signers.Keys, true, fields) {
      var g :| g in signers.Keys;
      assert g in signers;
    }
    if IsComplete(d, signers, fields) {
      var g :| g in signers;
      var f :| f in fields && fields[f].signerId == g;
      assert g in signers.Keys && f in fields;
    }
  }

  /* ---- sending and voiding ---- */

  lemma LoadingForSend(s: State)
    ensures Next(s, ByOwner(LoadForSend)) ==
            if (s.db.document.state == Draft || s.db.document.state == Prepared) && IsReady(s.db.document, s.db.signers, s.db.fields)
            then s.(pool := s.pool + {SendRead(s.db.document, s.db.signers)})
            else s
  {
    ReadyIsPrepared(s.db.document, s.db.signers, s.db.fields);
  }

  /** Sending goes through exactly when the row is still the one that was read. It issues one session for
      each invitation and fixes the revision that is signed. */
  lemma Sending(s: State, read: Document, sendTo: map<Id, Signer>, invitations: map<Id, Invitation>, until: int, expiresAt: Option<int>)
    requires Reachable(s) && SendRead(read, sendTo) in s.pool && InvitesEachOnce(s, sendTo, invitations)
    ensures var t, t' := s.db, Next(s, ByOwner(DoSend(read, sendTo, invitations, until, expiresAt))).db;
            if t.document == read
            then t' == t.(document := read.(state := Sent, signingRevisionId := read.currentRevisionId, expiresAt := expiresAt, version := read.version + 1),
                          sessions := map i | i in invitations :: Session(invitations[i].signerId, Issued, invitations[i].token, false, until, 1))
            else t' == t
    ensures s.db.document == read ==> OneForEach(s.db.signers, invitations)
  {
    SendReadHolds(s, read, sendTo);
    EnvelopeIsSent(s.db, read, invitations, until, expiresAt);
    InvitedOnce(s, sendTo, invitations);
  }

  /** Every signer is invited, and nobody twice. */
  ghost predicate OneForEach(signers: map<Id, Signer>, invitations: map<Id, Invitation>) {
    && (forall g :: g in signers ==> exists i :: i in invitations && invitations[i].signerId == g)
    && (forall i, j :: i in invitations && j in invitations && invitations[i].signerId == invitations[j].signerId ==> i == j)
  }

  lemma InvitedOnce(s: State, signers: map<Id, Signer>, invitations: map<Id, Invitation>)
    requires InvitesEachOnce(s, signers, invitations)
    ensures OneForEach(signers, invitations)
  {
  }

  lemma EnvelopeIsSent(t: Tables, read: Document, invitations: map<Id, Invitation>, until: int, expiresAt: Option<int>)
    requires DocumentFaithful(read, t.document) && read.currentRevisionId.Some? && (t.document == read ==> t.sessions == map[])
    ensures var sessions := map i | i in invitations :: Session(invitations[i].signerId, Issued, invitations[i].token, false, until, 1);
            Send(t, read, invitations, until, expiresAt)
            == if t.document == read
               then Ok(t.(document := read.(state := Sent, signingRevisionId := read.currentRevisionId, expiresAt := expiresAt, version := read.version + 1),
                          sessions := sessions))
               else Err(DocumentVersionConflict)
  {
    assert map[] + NewSessions(invitations, until) == NewSessions(invitations, until);
  }

  /** Every open session closed as revoked, every other one left alone. */
  ghost predicate AllRevoked(a: map<Id, Session>, b: map<Id, Session>) {
    && (forall i :: i in b <==> i in a)
    && (forall i :: i in a && (a[i].status == Issued || a[i].status == Active) ==> b[i] == a[i].(status := Revoked))
    && (forall i :: i in a && a[i].status != Issued && a[i].status != Active ==> b[i] == a[i])
  }

  /** Voiding goes through exactly when the row is still the one that was read, in preparation or out for signing. */
  lemma Voiding(s: State, read: Document)
    requires Reachable(s) && DocumentRead(read) in s.pool
    ensures var t, t' := s.db, Next(s, ByOwner(DoVoid(read))).db;
            if t.document == read && (read.state == Draft || read.state == Prepared || read.state == Sent || read.state == InProgress)
            then t' == t.(document := read.(state := Voided, version := read.version + 1), sessions := t'.sessions)
                 && AllRevoked(t.sessions, t'.sessions)
            else t' == t
  {
    DocumentReadHolds(s, read);
  }
}
