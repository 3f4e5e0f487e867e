/** The units of work of the use cases, run on the stores in the order the source runs them, with the
    loops over sessions and fields, and rolled back when a call fails. Each is proved to have exactly the
    effect the step system gives it on the tables of its document, and none on any other document. */
module Transactions {
  import opened Results
  import opened Lifecycle
  import opened Envelope
  import opened UnitsOfWork
  import opened Records
  import opened Stores

  ghost function Outcome(t: Tables, r: Result<Tables>): Tables {
    if r.Ok? then r.value else t
  }

  /** Neither another document nor another organization can tell the two arrays apart. */
  ghost predicate SameElsewhere<T>(before: seq<Record<T>>, after: seq<Record<T>>, organizationId: Id, documentId: Id) {
    forall org, doc :: org != organizationId || doc != documentId ==> View(after, org, doc) == View(before, org, doc)
  }

  ghost predicate SameJobsElsewhere(before: seq<Record<Id>>, after: seq<Record<Id>>, organizationId: Id, documentId: Id) {
    forall org, doc :: org != organizationId || doc != documentId ==> JobsOf(after, org, doc) == JobsOf(before, org, doc)
  }

  ghost predicate SameArtifactsElsewhere(before: seq<Record<Artifact>>, after: seq<Record<Artifact>>, organizationId: Id, documentId: Id) {
    forall org, doc :: org != organizationId || doc != documentId ==> ArtifactsOf(after, org, doc) == ArtifactsOf(before, org, doc)
  }

  /** A row id that, if it is there at all, belongs to the document. */
  ghost predicate BelongsTo<T>(records: seq<Record<T>>, organizationId: Id, documentId: Id, id: Id) {
    IndexOf(records, organizationId, id) >= 0 ==> Holds(records, organizationId, documentId, id)
  }

  lemma OverwrittenElsewhere<T>(records: seq<Record<T>>, organizationId: Id, documentId: Id, id: Id, updated: Result<T>)
    requires BelongsTo(records, organizationId, documentId, id)
    ensures SameElsewhere(records, Overwritten(records, organizationId, id, updated), organizationId, documentId)
  {
    forall org, doc | org != organizationId || doc != documentId
      ensures View(Overwritten(records, organizationId, id, updated), org, doc) == View(records, org, doc)
    {
      OverwrittenView(records, organizationId, id, updated, org, doc);
      ViewMembers(records, org, doc, id);
    }
  }

  lemma BelongsSurvives<T>(records: seq<Record<T>>, organizationId: Id, documentId: Id, id: Id, updated: Result<T>, other: Id)
    requires BelongsTo(records, organizationId, documentId, other)
    ensures BelongsTo(Overwritten(records, organizationId, id, updated), organizationId, documentId, other)
  {
    OverwrittenIndex(records, organizationId, id, updated, organizationId, other);
  }

  /** What a keyed call does to the view of its document. */
  lemma CallOnView<T>(records: seq<Record<T>>, organizationId: Id, documentId: Id, id: Id, update: T -> Result<T>)
    requires BelongsTo(records, organizationId, documentId, id)
    ensures var view := View(records, organizationId, documentId);
            var r := Updated(records, organizationId, id, update);
            && r == (if id in view then update(view[id]) else Err(NotFound))
            && View(Overwritten(records, organizationId, id, r), organizationId, documentId) == if r.Ok? then view[id := r.value] else view
  {
    ViewMembers(records, organizationId, documentId, id);
    OverwrittenView(records, organizationId, id, Updated(records, organizationId, id, update), organizationId, documentId);
  }

  /** The open sessions among `done` revoked, the others as they were. */
  ghost function RevokedAmong(sessions: map<Id, Session>, done: set<Id>): map<Id, Session> {
    map id | id in sessions :: if id in done && IsOpen(sessions[id].status) then sessions[id].(status := Revoked) else sessions[id]
  }

  ghost function IdsOf(listing: seq<Record<Session>>): set<Id> {
    set k | 0 <= k < |listing| :: listing[k].id
  }

  lemma RevokeOneMore(before: map<Id, Session>, listing: seq<Record<Session>>, k: nat)
    requires k < |listing| && ListsSome(listing, before)
    ensures var row := listing[k].row;
            var so := RevokedAmong(before, IdsOf(listing[..k]));
            && listing[k].id in so && so[listing[k].id] == row
            && RevokedAmong(before, IdsOf(listing[..k + 1])) == if IsOpen(row.status) then so[listing[k].id := row.(status := Revoked)] else so
  {
    assert IdsOf(listing[..k + 1]) == IdsOf(listing[..k]) + {listing[k].id} by {
      assert forall j :: 0 <= j < k ==> listing[..k + 1][j] == listing[..k][j];
    }
    assert listing[k].id !in IdsOf(listing[..k]);
  }

  lemma RevokedAll(before: map<Id, Session>, listing: seq<Record<Session>>)
    requires Lists(listing, before)
    ensures RevokedAmong(before, IdsOf(listing)) == RevokeAllOpen(before)
  {
  }

  /** The records stay with their documents and signers. */
  ghost predicate SameOwners(before: seq<Record<Session>>, after: seq<Record<Session>>) {
    && |after| == |before|
    && (forall i :: 0 <= i < |after| ==>
          && after[i].organizationId == before[i].organizationId
          && after[i].documentId == before[i].documentId
          && after[i].id == before[i].id
          && after[i].row.signerId == before[i].row.signerId)
  }

  ghost predicate KeptApart(before: seq<Record<Session>>, after: seq<Record<Session>>, organizationId: Id, documentId: Id) {
    SameElsewhere(before, after, organizationId, documentId) && SameOwners(before, after)
  }

  lemma RevokedNone(before: map<Id, Session>, listing: seq<Record<Session>>)
    ensures RevokedAmong(before, IdsOf(listing[..0])) == before
  {
  }

  lemma ElsewhereTransitive<T>(a: seq<Record<T>>, b: seq<Record<T>>, c: seq<Record<T>>, organizationId: Id, documentId: Id)
    requires SameElsewhere(a, b, organizationId, documentId) && SameElsewhere(b, c, organizationId, documentId)
    ensures SameElsewhere(a, c, organizationId, documentId)
  {
  }

  lemma StillAbsent(before: seq<Record<Session>>, after: seq<Record<Session>>, organizationId: Id, id: Id)
    requires SameOwners(before, after) && IndexOf(before, organizationId, id) < 0
    ensures IndexOf(after, organizationId, id) < 0
  {
  }

  /** The store's check for an open session sees what the view shows. */
  lemma OpenIsInView(records: seq<Record<Session>>, organizationId: Id, documentId: Id, signerId: Id)
    requires Unique(records)
    requires forall i :: 0 <= i < |records| && records[i].organizationId == organizationId && records[i].row.signerId == signerId ==>
                           records[i].documentId == documentId
    ensures OpenSomewhere(records, organizationId, signerId) <==> HasOpenSession(View(records, organizationId, documentId), signerId)
  {
    var view := View(records, organizationId, documentId);
    if OpenSomewhere(records, organizationId, signerId) {
      var i :| 0 <= i < |records| && IsOpenOf(records[i], organizationId, signerId);
      assert IndexOf(records, organizationId, records[i].id) == i;
      ViewMembers(records, organizationId, documentId, records[i].id);
      assert view[records[i].id].signerId == signerId;
    }
    if HasOpenSession(view, signerId) {
      var id :| id in view && view[id].signerId == signerId && IsOpen(view[id].status);
      ViewMembers(records, organizationId, documentId, id);
      assert IsOpenOf(records[IndexOf(records, organizationId, id)], organizationId, signerId);
    }
  }

  lemma RevokedOpenOf(before: map<Id, Session>, listing: seq<Record<Session>>, signerId: Id)
    requires ListsOpenOf(listing, before, signerId)
    ensures RevokedAmong(before, IdsOf(listing)) == RevokeOpenOf(before, signerId)
  {
    assert forall id :: id in before ==> ((id in IdsOf(listing) && IsOpen(before[id].status)) <==> (before[id].signerId == signerId && IsOpen(before[id].status)));
  }

  ghost predicate ListsOpenOf(listing: seq<Record<Session>>, view: map<Id, Session>, signerId: Id) {
    && ListsSome(listing, view)
    && (forall k :: 0 <= k < |listing| ==> listing[k].row.signerId == signerId)
    && (forall id :: id in view && view[id].signerId == signerId && IsOpen(view[id].status) ==>
          exists k :: 0 <= k < |listing| && listing[k].id == id)
  }

  method ListOpenBySigner(records: seq<Record<Session>>, organizationId: Id, ghost documentId: Id, signerId: Id) returns (listing: seq<Record<Session>>)
    requires Unique(records)
    requires forall i :: 0 <= i < |records| && records[i].organizationId == organizationId && records[i].row.signerId == signerId ==>
                           records[i].documentId == documentId
    ensures ListsOpenOf(listing, View(records, organizationId, documentId), signerId)
    ensures forall k :: 0 <= k < |listing| ==> IsOpen(listing[k].row.status)
  {
    listing := [];
    ghost var at: seq<nat> := [];
    for i := 0 to |records|
      invariant |at| == |listing|
      invariant forall k :: 0 <= k < |at| ==> at[k] < i && listing[k] == records[at[k]] && IsOpenOf(listing[k], organizationId, signerId)
      invariant forall j, k :: 0 <= j < k < |at| ==> at[j] < at[k]
      invariant forall h :: 0 <= h < i && IsOpenOf(records[h], organizationId, signerId) ==> exists k :: 0 <= k < |at| && at[k] == h
    {
      if IsOpenOf(records[i], organizationId, signerId) {
        ghost var before := at;
        listing, at := listing + [records[i]], at + [i];
        assert forall k :: 0 <= k < |before| ==> at[k] == before[k];
        assert at[|before|] == i;
      }
    }
    ListingListsSome(records, organizationId, documentId, listing, at);
    OpenAreListed(records, organizationId, documentId, signerId, listing, at);
  }

  lemma OpenAreListed(records: seq<Record<Session>>, organizationId: Id, documentId: Id, signerId: Id, listing: seq<Record<Session>>, at: seq<nat>)
    requires |at| == |listing| && forall k :: 0 <= k < |at| ==> at[k] < |records| && listing[k] == records[at[k]]
    requires forall h :: 0 <= h < |records| && IsOpenOf(records[h], organizationId, signerId) ==> exists k :: 0 <= k < |at| && at[k] == h
    ensures var view := View(records, organizationId, documentId);
            forall id :: id in view && view[id].signerId == signerId && IsOpen(view[id].status) ==>
              exists k :: 0 <= k < |listing| && listing[k].id == id
  {
    var view := View(records, organizationId, documentId);
    forall id | id in view && view[id].signerId == signerId && IsOpen(view[id].status)
      ensures exists k :: 0 <= k < |listing| && listing[k].id == id
    {
      ViewMembers(records, organizationId, documentId, id);
      var h := IndexOf(records, organizationId, id);
      var k :| 0 <= k < |at| && at[k] == h;
      assert listing[k].id == id;
    }
  }

  /* ---- the loop over invitations ---- */

  datatype Invitee = Invitee(sessionId: Id, invitation: Invitation)

  /** The sessions to issue, by id. */
  ghost function InvitationsOf(invitees: seq<Invitee>): map<Id, Invitation> {
    if invitees == [] then map[]
    else InvitationsOf(invitees[..|invitees| - 1])[invitees[|invitees| - 1].sessionId := invitees[|invitees| - 1].invitation]
  }

  /** New session ids, each once, and each signer once. */
  ghost predicate InvitesOnce(invitees: seq<Invitee>) {
    forall i, j :: 0 <= i < j < |invitees| ==>
      invitees[i].sessionId != invitees[j].sessionId && invitees[i].invitation.signerId != invitees[j].invitation.signerId
  }

  function NewSession(invitation: Invitation, expiresAt: int): Session {
    Session(invitation.signerId, Issued, invitation.token, false, expiresAt, 1)
  }

  lemma {:induction false} InvitationsAre(invitees: seq<Invitee>)
    requires InvitesOnce(invitees)
    ensures forall id :: id in InvitationsOf(invitees) <==> exists k :: 0 <= k < |invitees| && invitees[k].sessionId == id
    ensures forall k :: 0 <= k < |invitees| ==> InvitationsOf(invitees)[invitees[k].sessionId] == invitees[k].invitation
  {
    if invitees != [] {
      InvitationsAre(invitees[..|invitees| - 1]);
    }
  }

  /** One more session issued. */
  lemma IssueOneMore(before: map<Id, Session>, invitees: seq<Invitee>, k: nat, expiresAt: int)
    requires k < |invitees|
    ensures before + NewSessions(InvitationsOf(invitees[..k + 1]), expiresAt)
            == (before + NewSessions(InvitationsOf(invitees[..k]), expiresAt))[invitees[k].sessionId := NewSession(invitees[k].invitation, expiresAt)]
  {
    assert invitees[..k + 1][..k] == invitees[..k];
    assert NewSessions(InvitationsOf(invitees[..k + 1]), expiresAt)
           == NewSessions(InvitationsOf(invitees[..k]), expiresAt)[invitees[k].sessionId := NewSession(invitees[k].invitation, expiresAt)];
  }

  /** Issuing to other signers opens no session for this one. */
  lemma OthersOpenNothing(before: map<Id, Session>, invitees: seq<Invitee>, k: nat, expiresAt: int)
    requires k < |invitees| && InvitesOnce(invitees)
    requires forall j :: 0 <= j < |invitees| ==> invitees[j].sessionId !in before
    ensures HasOpenSession(before + NewSessions(InvitationsOf(invitees[..k]), expiresAt), invitees[k].invitation.signerId)
            <==> HasOpenSession(before, invitees[k].invitation.signerId)
  {
    InvitationsAre(invitees[..k]);
    var g, now := invitees[k].invitation.signerId, before + NewSessions(InvitationsOf(invitees[..k]), expiresAt);
    if HasOpenSession(before, g) {
      var id :| id in before && before[id].signerId == g && IsOpen(before[id].status);
      assert id in now && now[id] == before[id];
    }
    if HasOpenSession(now, g) {
      var id :| id in now && now[id].signerId == g && IsOpen(now[id].status);
      assert id in before && before[id] == now[id];
    }
  }

  /** Issuing stops at the first signer invited who has an open session already, and finishes when nobody has. */
  lemma IssueStops(before: map<Id, Session>, invitees: seq<Invitee>, k: nat, expiresAt: int)
    requires InvitesOnce(invitees) && k < |invitees| && HasOpenSession(before, invitees[k].invitation.signerId)
    ensures Issue(before, InvitationsOf(invitees), expiresAt).Err?
  {
    InvitationsAre(invitees);
    assert invitees[k].sessionId in InvitationsOf(invitees);
  }

  lemma IssueFinishes(before: map<Id, Session>, invitees: seq<Invitee>, expiresAt: int)
    requires InvitesOnce(invitees)
    requires forall k :: 0 <= k < |invitees| ==> !HasOpenSession(before, invitees[k].invitation.signerId)
    ensures Issue(before, InvitationsOf(invitees), expiresAt)
            == Ok(before + NewSessions(InvitationsOf(invitees[..|invitees|]), expiresAt))
  {
    assert invitees[..|invitees|] == invitees;
    InvitationsAre(invitees);
  }

  lemma PushedUnique<T>(records: seq<Record<T>>, record: Record<T>)
    requires Unique(records) && IndexOf(records, record.organizationId, record.id) < 0
    ensures Unique(records + [record])
  {
  }

  /** Every session of the signer belongs to the signer's document. */
  ghost predicate StayHome(records: seq<Record<Session>>, organizationId: Id, documentId: Id, signerId: Id) {
    forall i :: (0 <= i < |records| && records[i].organizationId == organizationId && records[i].row.signerId == signerId) ==>
                  records[i].documentId == documentId
  }

  lemma ListedMeansOpen(listing: seq<Record<Session>>, view: map<Id, Session>, signerId: Id)
    requires ListsOpenOf(listing, view, signerId) && forall k :: 0 <= k < |listing| ==> IsOpen(listing[k].row.status)
    ensures listing != [] <==> HasOpenSession(view, signerId)
  {
    if listing != [] {
      assert listing[0].id in view && view[listing[0].id].signerId == signerId;
    }
  }

  lemma NothingIssued(before: map<Id, Session>, expiresAt: int)
    ensures before + NewSessions(InvitationsOf([]), expiresAt) == before
  {
  }

  lemma NewIdsAreAbsent(records: seq<Record<Session>>, organizationId: Id, documentId: Id, invitees: seq<Invitee>)
    requires ReadyToIssue(records, organizationId, documentId, invitees, 0)
    ensures forall j :: 0 <= j < |invitees| ==> invitees[j].sessionId !in View(records, organizationId, documentId)
  {
    forall j | 0 <= j < |invitees|
      ensures invitees[j].sessionId !in View(records, organizationId, documentId)
    {
      ViewMembers(records, organizationId, documentId, invitees[j].sessionId);
    }
  }

  /** What the loop needs of the sessions before each of its turns. */
  ghost predicate ReadyToIssue(records: seq<Record<Session>>, organizationId: Id, documentId: Id, invitees: seq<Invitee>, k: nat)
    requires k <= |invitees|
  {
    && Unique(records)
    && (forall j :: k <= j < |invitees| ==> IndexOf(records, organizationId, invitees[j].sessionId) < 0)
    && (forall j :: 0 <= j < |invitees| ==> StayHome(records, organizationId, documentId, invitees[j].invitation.signerId))
  }

  lemma StillReady(records: seq<Record<Session>>, organizationId: Id, documentId: Id, invitees: seq<Invitee>, k: nat, session: Session)
    requires k < |invitees| && InvitesOnce(invitees) && ReadyToIssue(records, organizationId, documentId, invitees, k)
    requires session.signerId == invitees[k].invitation.signerId
    ensures ReadyToIssue(records + [Record(organizationId, documentId, invitees[k].sessionId, session)], organizationId, documentId, invitees, k + 1)
  {
    var record := Record(organizationId, documentId, invitees[k].sessionId, session);
    PushedUnique(records, record);
    forall j | k < j < |invitees|
      ensures IndexOf(records + [record], organizationId, invitees[j].sessionId) < 0
    {
      PushedIndex(records, record, organizationId, invitees[j].sessionId);
    }
    forall j | 0 <= j < |invitees|
      ensures StayHome(records + [record], organizationId, documentId, invitees[j].invitation.signerId)
    {
      assert StayHome(records, organizationId, documentId, invitees[j].invitation.signerId);
    }
  }

  /* ---- the loops over fields ---- */

  ghost function CompletedAmong(fields: map<Id, Field>, done: seq<Id>): map<Id, Field> {
    map id | id in fields :: if id in done then fields[id].(completed := true) else fields[id]
  }

  function IdSet(ids: seq<Id>): set<Id> {
    set id | id in ids
  }

  lemma CompletedNone(before: map<Id, Field>, selected: seq<Id>)
    ensures CompletedAmong(before, selected[..0]) == before
  {
  }

  lemma CompletedOneMore(before: map<Id, Field>, selected: seq<Id>, k: nat)
    requires k < |selected|
    ensures var so := CompletedAmong(before, selected[..k]);
            selected[k] in before ==>
              selected[k] in so && CompletedAmong(before, selected[..k + 1]) == so[selected[k] := so[selected[k]].(completed := true)]
  {
    assert selected[..k + 1] == selected[..k] + [selected[k]];
  }

  lemma CompletedAll(before: map<Id, Field>, selected: seq<Id>)
    requires AllIn(before, selected[..|selected|])
    ensures CompleteFields(before, IdSet(selected)) == Ok(CompletedAmong(before, selected[..|selected|]))
  {
    assert selected[..|selected|] == selected;
    var r := CompleteFields(before, IdSet(selected));
    assert r.Ok? && r.value == CompletedAmong(before, selected);
  }

  lemma MissingField(before: map<Id, Field>, selected: seq<Id>, k: nat)
    requires k < |selected| && selected[k] !in before
    ensures CompleteFields(before, IdSet(selected)).Err?
  {
    assert selected[k] in IdSet(selected);
  }

  ghost function FlattenedAmong(fields: map<Id, Field>, done: seq<Id>, revisionId: Id): map<Id, Field> {
    map id | id in fields :: if id in done then fields[id].(flattenedRevisionId := Some(revisionId)) else fields[id]
  }

  lemma FlattenedNone(before: map<Id, Field>, revisionId: Id)
    ensures FlattenedAmong(before, [], revisionId) == before
  {
  }

  lemma FlattenedOneMore(before: map<Id, Field>, pending: seq<Id>, k: nat, revisionId: Id)
    requires k < |pending|
    ensures var so := FlattenedAmong(before, pending[..k], revisionId);
            pending[k] in before ==>
              pending[k] in so
              && FlattenedAmong(before, pending[..k + 1], revisionId) == so[pending[k] := so[pending[k]].(flattenedRevisionId := Some(revisionId))]
  {
    assert pending[..k + 1] == pending[..k] + [pending[k]];
  }

  ghost predicate AllIn(fields: map<Id, Field>, ids: seq<Id>) {
    forall id :: id in ids ==> id in fields
  }

  lemma AllInOneMore(fields: map<Id, Field>, ids: seq<Id>, k: nat)
    requires k < |ids|
    ensures AllIn(fields, ids[..k + 1]) <==> AllIn(fields, ids[..k]) && ids[k] in fields
    ensures ids[k] !in fields ==> !AllIn(fields, ids)
  {
    assert ids[..k + 1] == ids[..k] + [ids[k]];
    assert ids[k] in ids;
  }

  lemma FlattenedAll(before: map<Id, Field>, pending: seq<Id>, revisionId: Id)
    ensures MarkFlattened(before, pending, revisionId)
            == if AllIn(before, pending) then Ok(FlattenedAmong(before, pending, revisionId)) else Err(NotFound)
  {
    var r := MarkFlattened(before, pending, revisionId);
    assert r.Ok? ==> r.value == FlattenedAmong(before, pending, revisionId);
  }

  lemma NothingFlattened(before: map<Id, Field>, pending: seq<Id>, revisionId: Id)
    requires pending == []
    ensures MarkFlattened(before, pending, revisionId) == Ok(before)
  {
    var r := MarkFlattened(before, pending, revisionId);
    assert r.Ok? && r.value == before;
  }

  /** The unit of work of a flatten commit in two parts: what is drawn, and what is made of it. */
  ghost function DrawnRows(t: Tables, pending: seq<Id>, revisionId: Id, output: Revision): Result<Tables> {
    var fields :- MarkFlattened(t.fields, pending, revisionId);
    Ok(if pending == [] then t else t.(fields := fields, revisions := t.revisions[revisionId := output]))
  }

  ghost function CommittedRows(t: Tables, lease: Lease, revisionId: Id, artifact: Artifact): Result<Tables> {
    var document :- CommitFlattenedRevision(t.document, lease.leased.version, lease.owner, revisionId, lease.finalize);
    Ok(t.(document := document, artifacts := if lease.finalize && t.artifacts == [] then [artifact] else t.artifacts))
  }

  ghost function DrawnAndCommitted(t: Tables, lease: Lease, newRevisionId: Id, revisionId: Id, output: Revision): Result<Tables> {
    var rows :- DrawnRows(t, lease.pending, newRevisionId, output);
    CommittedRows(rows, lease, revisionId, Artifact(output.digest))
  }

  lemma CommitInTwoParts(t: Tables, lease: Lease, base: Revision, newRevisionId: Id, digest: Id)
    requires lease.leased.currentRevisionId.Some? && lease.leased.currentRevisionId.value in t.revisions
    requires t.revisions[lease.leased.currentRevisionId.value] == base
    ensures UnitsOfWork.CommitFlatten(t, lease, newRevisionId, digest)
            == DrawnAndCommitted(t, lease, newRevisionId, if lease.pending == [] then lease.leased.currentRevisionId.value else newRevisionId,
                                 FlattenOutput(base, lease, digest))
  {
    var artifact := Artifact(if lease.pending != [] then digest else base.digest);
    assert t.artifacts == [] ==> t.artifacts + [artifact] == [artifact];
    if lease.pending == [] {
      NothingFlattened(t.fields, lease.pending, newRevisionId);
      NothingFlattened(t.fields, lease.pending, lease.leased.currentRevisionId.value);
      assert t.revisions[lease.leased.currentRevisionId.value := base] == t.revisions;
    }
  }

  /** All the fields still belong to the document, and no other document noticed a change since `start`. */
  ghost predicate FieldsApart(start: seq<Record<Field>>, records: seq<Record<Field>>, organizationId: Id, documentId: Id, all: seq<Id>) {
    && SameElsewhere(start, records, organizationId, documentId)
    && (forall id :: id in all ==> BelongsTo(records, organizationId, documentId, id))
  }

  lemma FieldCallApart(organizationId: Id, documentId: Id, start: seq<Record<Field>>, records: seq<Record<Field>>, id: Id, updated: Result<Field>,
                       all: seq<Id>)
    requires FieldsApart(start, records, organizationId, documentId, all) && id in all
    ensures FieldsApart(start, Overwritten(records, organizationId, id, updated), organizationId, documentId, all)
  {
    OverwrittenElsewhere(records, organizationId, documentId, id, updated);
    ElsewhereTransitive(start, records, Overwritten(records, organizationId, id, updated), organizationId, documentId);
    forall other | other in all
      ensures BelongsTo(Overwritten(records, organizationId, id, updated), organizationId, documentId, other)
    {
      BelongsSurvives(records, organizationId, documentId, id, updated, other);
    }
  }

  lemma PushedElsewhere<T>(records: seq<Record<T>>, record: Record<T>)
    requires IndexOf(records, record.organizationId, record.id) < 0
    ensures SameElsewhere(records, records + [record], record.organizationId, record.documentId)
    ensures var before := View(records, record.organizationId, record.documentId);
            View(records + [record], record.organizationId, record.documentId) == before[record.id := record.row]
  {
    PushedView(records, record, record.organizationId, record.documentId);
    forall org, doc | org != record.organizationId || doc != record.documentId
      ensures View(records + [record], org, doc) == View(records, org, doc)
    {
      PushedView(records, record, org, doc);
    }
  }

  lemma JobAddedElsewhere(records: seq<Record<Id>>, record: Record<Id>)
    ensures SameJobsElsewhere(records, records + [record], record.organizationId, record.documentId)
  {
    forall org, doc | org != record.organizationId || doc != record.documentId
      ensures JobsOf(records + [record], org, doc) == JobsOf(records, org, doc)
    {
      var after := records + [record];
      assert after[..|records|] == records;
      assert forall x :: x in JobsOf(records, org, doc) ==> x in JobsOf(after, org, doc) by {
        forall x | x in JobsOf(records, org, doc)
          ensures x in JobsOf(after, org, doc)
        {
          var i :| 0 <= i < |records| && records[i].organizationId == org && records[i].documentId == doc && records[i].row == x;
          assert after[i] == records[i];
        }
      }
    }
  }

  lemma JobAdded(records: seq<Record<Id>>, record: Record<Id>)
    ensures JobsOf(records + [record], record.organizationId, record.documentId)
            == JobsOf(records, record.organizationId, record.documentId) + {record.row}
  {
    var after := records + [record];
    assert after[|records|] == record;
    forall g | g in JobsOf(records, record.organizationId, record.documentId)
      ensures g in JobsOf(after, record.organizationId, record.documentId)
    {
      var i :| 0 <= i < |records| && records[i].organizationId == record.organizationId && records[i].documentId == record.documentId && records[i].row == g;
      assert after[i] == records[i];
    }
  }

  /** The unit of work of a completed signing in two parts. */
  ghost function SignedRows(t: Tables, read: SigningRead): Result<Tables> {
    var fields :- CompleteFields(t.fields, read.selected);
    AnsweredRows(t.(fields := fields), read)
  }

  ghost function AnsweredRows(t: Tables, read: SigningRead): Result<Tables> {
    var signerRow :- Lookup(t.signers, read.signerId);
    var signer :- MarkSigned(signerRow, read.signer.version);
    var sessionRow :- Lookup(t.sessions, read.sessionId);
    var session :- CompleteSession(sessionRow);
    Ok(t.(signers := t.signers[read.signerId := signer], sessions := t.sessions[read.sessionId := session]))
  }

  ghost function MovedDocument(d: Document, read: SigningRead): Result<Document> {
    if CompletesDocument(read) then MarkCompleted(d, read.document.version)
    else if read.document.state == Sent then MarkInProgress(d, read.document.version)
    else Ok(d)
  }

  ghost function SignedAndMoved(t: Tables, read: SigningRead): Result<Tables> {
    var rows :- SignedRows(t, read);
    var document :- MovedDocument(t.document, read);
    Ok(rows.(document := document))
  }

  lemma SigningInTwoParts(t: Tables, read: SigningRead)
    ensures UnitsOfWork.CompleteSigning(t, read)
            == var rows :- SignedAndMoved(t, read);
               Ok(rows.(flattenJobs := t.flattenJobs + {read.signerId}))
  {
  }

  class UnitOfWork {
    const documents: DocumentStore
    const signers: SignerStore
    const sessions: SessionStore
    const fields: FieldStore
    const revisions: RevisionStore
    const artifacts: ArtifactStore
    const jobs: JobPublisher

    constructor (documents: DocumentStore, signers: SignerStore, sessions: SessionStore, fields: FieldStore,
                 revisions: RevisionStore, artifacts: ArtifactStore, jobs: JobPublisher)
      ensures this.documents == documents && this.signers == signers && this.sessions == sessions && this.fields == fields
      ensures this.revisions == revisions && this.artifacts == artifacts && this.jobs == jobs
    {
      this.documents, this.signers, this.sessions, this.fields := documents, signers, sessions, fields;
      this.revisions, this.artifacts, this.jobs := revisions, artifacts, jobs;
    }

    /** The loop over the listed sessions of a document. */
    method RevokeListed(organizationId: Id, documentId: Id, listing: seq<Record<Session>>)
      requires Unique(sessions.records) && ListsSome(listing, View(sessions.records, organizationId, documentId))
      modifies sessions
      ensures View(sessions.records, organizationId, documentId) == RevokedAmong(old(View(sessions.records, organizationId, documentId)), IdsOf(listing))
      ensures SameElsewhere(old(sessions.records), sessions.records, organizationId, documentId)
      ensures SameOwners(old(sessions.records), sessions.records)
      ensures Unique(sessions.records)
    {
      ghost var before := View(sessions.records, organizationId, documentId);
      RevokedNone(before, listing);
      for k := 0 to |listing|
        invariant Unique(sessions.records)
        invariant View(sessions.records, organizationId, documentId) == RevokedAmong(before, IdsOf(listing[..k]))
        invariant KeptApart(old(sessions.records), sessions.records, organizationId, documentId)
      {
        var session := listing[k];
        RevokeOneMore(before, listing, k);
        if session.row.status == Issued || session.row.status == Active {
          RevokeFound(organizationId, documentId, session.id, session.row);
        }
      }
      assert listing[..|listing|] == listing;
    }

    /** One turn of the loop: the listed session is still open when its turn comes. */
    method RevokeFound(organizationId: Id, documentId: Id, id: Id, row: Session)
      requires Unique(sessions.records) && IsOpen(row.status)
      requires id in View(sessions.records, organizationId, documentId) && View(sessions.records, organizationId, documentId)[id] == row
      modifies sessions
      ensures View(sessions.records, organizationId, documentId) == old(View(sessions.records, organizationId, documentId))[id := row.(status := Revoked)]
      ensures forall start :: KeptApart(start, old(sessions.records), organizationId, documentId) ==>
                                KeptApart(start, sessions.records, organizationId, documentId)
      ensures Unique(sessions.records)
    {
      ghost var records := sessions.records;
      ViewMembers(records, organizationId, documentId, id);
      CallOnView(records, organizationId, documentId, id, row => RevokeSession(row));
      var r := sessions.Revoke(organizationId, id);
      OverwrittenElsewhere(records, organizationId, documentId, id, r);
      UniqueSurvives(records, organizationId, id, r);
      forall start | KeptApart(start, records, organizationId, documentId)
        ensures KeptApart(start, sessions.records, organizationId, documentId)
      {
        ElsewhereTransitive(start, records, sessions.records, organizationId, documentId);
      }
    }

    method VoidDocument(organizationId: Id, documentId: Id, read: Document) returns (r: Result<()>)
      requires Unique(sessions.records) && Holds(documents.records, organizationId, documentId, documentId)
      modifies documents, sessions
      ensures var t := old(Rows(organizationId, documentId));
              var spec := UnitsOfWork.VoidDocument(t, read);
              (r.Ok? <==> spec.Ok?) && Rows(organizationId, documentId) == Outcome(t, spec)
      ensures SameElsewhere(old(documents.records), documents.records, organizationId, documentId)
      ensures SameElsewhere(old(sessions.records), sessions.records, organizationId, documentId)
    {
      CallOnView(documents.records, organizationId, documentId, documentId, (d: Document) => MarkVoided(d, read.version));
      ViewMembers(documents.records, organizationId, documentId, documentId);
      var voided := documents.MarkVoided(organizationId, documentId, read.version);
      OverwrittenElsewhere(old(documents.records), organizationId, documentId, documentId, voided);
      if voided.Err? {
        return Err(voided.failure);
      }
      var open := ListByDocument(sessions.records, organizationId, documentId);
      RevokedAll(View(sessions.records, organizationId, documentId), open);
      RevokeListed(organizationId, documentId, open);
      return Ok(());
    }

    method Decline(organizationId: Id, documentId: Id, signerId: Id, read: Signer, readDocument: Document) returns (r: Result<()>)
      requires Unique(sessions.records) && Holds(documents.records, organizationId, documentId, documentId)
      requires BelongsTo(signers.records, organizationId, documentId, signerId)
      modifies documents, signers, sessions
      ensures var t := old(Rows(organizationId, documentId));
              var spec := UnitsOfWork.Decline(t, signerId, read, readDocument);
              (r.Ok? <==> spec.Ok?) && Rows(organizationId, documentId) == Outcome(t, spec)
      ensures SameElsewhere(old(documents.records), documents.records, organizationId, documentId)
      ensures SameElsewhere(old(signers.records), signers.records, organizationId, documentId)
      ensures SameElsewhere(old(sessions.records), sessions.records, organizationId, documentId)
    {
      CallOnView(signers.records, organizationId, documentId, signerId, (row: Signer) => MarkSignerDeclined(row, read.version));
      CallOnView(documents.records, organizationId, documentId, documentId, (d: Document) => MarkDocumentDeclined(d, readDocument.version));
      ViewMembers(documents.records, organizationId, documentId, documentId);
      var saved := signers.records;
      var signer := signers.MarkDeclined(organizationId, signerId, read.version);
      OverwrittenElsewhere(saved, organizationId, documentId, signerId, signer);
      if signer.Err? {
        return Err(signer.failure);
      }
      var document := documents.MarkDeclined(organizationId, documentId, readDocument.version);
      OverwrittenElsewhere(old(documents.records), organizationId, documentId, documentId, document);
      if document.Err? {
        signers.records := saved;
        return Err(document.failure);
      }
      var open := ListByDocument(sessions.records, organizationId, documentId);
      RevokedAll(View(sessions.records, organizationId, documentId), open);
      RevokeListed(organizationId, documentId, open);
      return Ok(());
    }

    /** One turn of the send loop: no open session may exist for the signer yet. */
    method IssueOne(organizationId: Id, documentId: Id, invitees: seq<Invitee>, k: nat, expiresAt: int) returns (r: Result<Session>)
      requires k < |invitees| && InvitesOnce(invitees) && ReadyToIssue(sessions.records, organizationId, documentId, invitees, k)
      modifies sessions
      ensures var before := old(View(sessions.records, organizationId, documentId));
              var signerId := invitees[k].invitation.signerId;
              && (r.Ok? <==> !HasOpenSession(before, signerId))
              && (r.Ok? ==> View(sessions.records, organizationId, documentId)
                            == before[invitees[k].sessionId := NewSession(invitees[k].invitation, expiresAt)])
      ensures r.Ok? ==> ReadyToIssue(sessions.records, organizationId, documentId, invitees, k + 1)
      ensures SameElsewhere(old(sessions.records), sessions.records, organizationId, documentId)
    {
      var invitation := invitees[k].invitation;
      ghost var records := sessions.records;
      assert StayHome(records, organizationId, documentId, invitation.signerId);
      var open := ListOpenBySigner(sessions.records, organizationId, documentId, invitation.signerId);
      OpenIsInView(records, organizationId, documentId, invitation.signerId);
      ListedMeansOpen(open, View(records, organizationId, documentId), invitation.signerId);
      if |open| > 0 {
        return Err(DuplicateOpenSession);
      }
      var session := NewSession(invitation, expiresAt);
      r := sessions.Create(organizationId, documentId, invitees[k].sessionId, session);
      PushedElsewhere(records, Record(organizationId, documentId, invitees[k].sessionId, session));
      StillReady(records, organizationId, documentId, invitees, k, session);
    }

    method IssueEach(organizationId: Id, documentId: Id, invitees: seq<Invitee>, expiresAt: int) returns (r: Result<()>)
      requires InvitesOnce(invitees) && ReadyToIssue(sessions.records, organizationId, documentId, invitees, 0)
      modifies sessions
      ensures var before := old(View(sessions.records, organizationId, documentId));
              var spec := Issue(before, InvitationsOf(invitees), expiresAt);
              && (r.Ok? <==> spec.Ok?)
              && (r.Ok? ==> View(sessions.records, organizationId, documentId) == spec.value)
      ensures SameElsewhere(old(sessions.records), sessions.records, organizationId, documentId)
    {
      ghost var before := View(sessions.records, organizationId, documentId);
      NewIdsAreAbsent(sessions.records, organizationId, documentId, invitees);
      NothingIssued(before, expiresAt);
      assert invitees[..0] == [];
      for k := 0 to |invitees|
        invariant ReadyToIssue(sessions.records, organizationId, documentId, invitees, k)
        invariant View(sessions.records, organizationId, documentId) == before + NewSessions(InvitationsOf(invitees[..k]), expiresAt)
        invariant forall j :: 0 <= j < k ==> !HasOpenSession(before, invitees[j].invitation.signerId)
        invariant SameElsewhere(old(sessions.records), sessions.records, organizationId, documentId)
      {
        ghost var records := sessions.records;
        OthersOpenNothing(before, invitees, k, expiresAt);
        IssueOneMore(before, invitees, k, expiresAt);
        var issued := IssueOne(organizationId, documentId, invitees, k, expiresAt);
        ElsewhereTransitive(old(sessions.records), records, sessions.records, organizationId, documentId);
        if issued.Err? {
          IssueStops(before, invitees, k, expiresAt);
          return Err(issued.failure);
        }
      }
      IssueFinishes(before, invitees, expiresAt);
      return Ok(());
    }

    /** Sending: the document, then one session for each signer, or nothing at all. */
    method Send(organizationId: Id, documentId: Id, read: Document, invitees: seq<Invitee>, sessionsExpireAt: int, expiresAt: Option<int>)
      returns (r: Result<()>)
      requires Holds(documents.records, organizationId, documentId, documentId)
      requires InvitesOnce(invitees) && ReadyToIssue(sessions.records, organizationId, documentId, invitees, 0)
      modifies documents, sessions
      ensures var t := old(Rows(organizationId, documentId));
              var spec := UnitsOfWork.Send(t, read, InvitationsOf(invitees), sessionsExpireAt, expiresAt);
              (r.Ok? <==> spec.Ok?) && Rows(organizationId, documentId) == Outcome(t, spec)
      ensures SameElsewhere(old(documents.records), documents.records, organizationId, documentId)
      ensures SameElsewhere(old(sessions.records), sessions.records, organizationId, documentId)
    {
      if read.currentRevisionId == None {
        return Err(NotFound);
      }
      var savedDocuments, savedSessions := documents.records, sessions.records;
      CallOnView(savedDocuments, organizationId, documentId, documentId,
                 (d: Document) => MarkSent(d, read.version, read.currentRevisionId.value, expiresAt));
      ViewMembers(savedDocuments, organizationId, documentId, documentId);
      var sent := documents.MarkSent(organizationId, documentId, read.version, read.currentRevisionId.value, expiresAt);
      OverwrittenElsewhere(savedDocuments, organizationId, documentId, documentId, sent);
      if sent.Err? {
        return Err(sent.failure);
      }
      r := IssueEach(organizationId, documentId, invitees, sessionsExpireAt);
      if r.Err? {
        documents.records, sessions.records := savedDocuments, savedSessions;
      }
    }

    method Rotate(organizationId: Id, documentId: Id, signerId: Id, sessionId: Id, token: Id, expiresAt: int) returns (r: Result<()>)
      requires Unique(sessions.records) && StayHome(sessions.records, organizationId, documentId, signerId)
      requires IndexOf(sessions.records, organizationId, sessionId) < 0
      modifies sessions
      ensures var t := old(Rows(organizationId, documentId));
              var spec := UnitsOfWork.Rotate(t, signerId, sessionId, token, expiresAt);
              (r.Ok? <==> spec.Ok?) && Rows(organizationId, documentId) == Outcome(t, spec)
      ensures SameElsewhere(old(sessions.records), sessions.records, organizationId, documentId)
    {
      ghost var before := View(sessions.records, organizationId, documentId);
      var saved := sessions.records;
      var open := ListOpenBySigner(sessions.records, organizationId, documentId, signerId);
      RevokedOpenOf(before, open, signerId);
      RevokeListed(organizationId, documentId, open);
      ghost var revoked := sessions.records;
      OpenIsInView(revoked, organizationId, documentId, signerId);
      StillAbsent(saved, revoked, organizationId, sessionId);
      var session := Session(signerId, Issued, token, false, expiresAt, 1);
      var created := sessions.Create(organizationId, documentId, sessionId, session);
      if created.Err? {
        sessions.records := saved;
        return Err(created.failure);
      }
      PushedView(revoked, Record(organizationId, documentId, sessionId, session), organizationId, documentId);
      forall org, doc | org != organizationId || doc != documentId
        ensures View(sessions.records, org, doc) == View(saved, org, doc)
      {
        PushedView(revoked, Record(organizationId, documentId, sessionId, session), org, doc);
      }
      return Ok(());
    }

    /** The tables of one document, read off the stores. The ids of fields that are gone are not stored. */
    ghost function Rows(organizationId: Id, documentId: Id): Tables
      reads documents, signers, sessions, fields, revisions, artifacts, jobs
    {
      var rows := View(documents.records, organizationId, documentId);
      Tables(if documentId in rows then rows[documentId] else BLANK_DOCUMENT,
             View(signers.records, organizationId, documentId),
             View(sessions.records, organizationId, documentId),
             View(fields.records, organizationId, documentId),
             View(revisions.records, organizationId, documentId),
             ArtifactsOf(artifacts.records, organizationId, documentId),
             JobsOf(jobs.records, organizationId, documentId),
             {})
    }

    /** Replacing the fields: the new rows first, then the state of the document as it was read. */
    method ReplaceFields(organizationId: Id, documentId: Id, read: Document, roster: map<Id, Signer>, replacement: seq<Record<Field>>,
                         entries: map<Id, FieldEntry>)
      returns (r: Result<()>)
      requires Holds(documents.records, organizationId, documentId, documentId)
      requires Unique(fields.records) && NewRows(fields.records, organizationId, documentId, replacement)
      requires View(replacement, organizationId, documentId) == NewFields(entries)
      modifies documents, fields
      ensures var t := old(Rows(organizationId, documentId));
              var spec := UnitsOfWork.ReplaceFields(t, read, roster, entries);
              (r.Ok? <==> spec.Ok?) && Rows(organizationId, documentId) == Outcome(t, spec).(fieldIds := {})
      ensures SameElsewhere(old(documents.records), documents.records, organizationId, documentId)
      ensures SameElsewhere(old(fields.records), fields.records, organizationId, documentId)
    {
      var saved := fields.records;
      fields.ReplaceAll(organizationId, documentId, replacement);
      ReplacedView(saved, organizationId, documentId, replacement, organizationId, documentId);
      forall org, doc | org != organizationId || doc != documentId
        ensures View(fields.records, org, doc) == View(saved, org, doc)
      {
        ReplacedView(saved, organizationId, documentId, replacement, org, doc);
      }
      r := MaybeMarkPrepared(organizationId, documentId, read, PreparedWith(read, roster, entries));
      if r.Err? {
        fields.records := saved;
      }
    }

    /** maybeMarkPrepared, on the document as it was read. */
    method MaybeMarkPrepared(organizationId: Id, documentId: Id, read: Document, prepared: bool) returns (r: Result<()>)
      requires Holds(documents.records, organizationId, documentId, documentId)
      modifies documents
      ensures var d := old(Rows(organizationId, documentId).document);
              var spec := UnitsOfWork.MaybeMarkPrepared(d, read, prepared);
              && (r.Ok? <==> spec.Ok?)
              && Rows(organizationId, documentId) == old(Rows(organizationId, documentId)).(document := if spec.Ok? then spec.value else d)
      ensures SameElsewhere(old(documents.records), documents.records, organizationId, documentId)
    {
      ghost var records := documents.records;
      ViewMembers(records, organizationId, documentId, documentId);
      var next := if prepared then Prepared else Draft;
      if read.state == next || !CanTransitionDocument(read.state, next) {
        return Ok(());
      }
      CallOnView(records, organizationId, documentId, documentId, (d: Document) => SetPreparationState(d, read.version, next));
      var marked := documents.SetPreparationState(organizationId, documentId, read.version, next);
      OverwrittenElsewhere(records, organizationId, documentId, documentId, marked);
      return if marked.Ok? then Ok(()) else Err(marked.failure);
    }

    /** One turn of the loop over the selected fields. */
    method CompleteOne(organizationId: Id, documentId: Id, id: Id, ghost start: seq<Record<Field>>, ghost all: seq<Id>) returns (r: Result<Field>)
      requires FieldsApart(start, fields.records, organizationId, documentId, all) && id in all
      modifies fields
      ensures var before := old(View(fields.records, organizationId, documentId));
              && (r.Ok? <==> id in before)
              && (r.Ok? ==> View(fields.records, organizationId, documentId) == before[id := before[id].(completed := true)])
      ensures FieldsApart(start, fields.records, organizationId, documentId, all)
    {
      ghost var records := fields.records;
      CallOnView(records, organizationId, documentId, id, (row: Field) => Ok(row.(completed := true)));
      r := fields.Complete(organizationId, id);
      FieldCallApart(organizationId, documentId, start, records, id, r, all);
    }

    /** The k-th turn: with the fields before it completed, that one gets completed too, or is missing. */
    method CompleteNext(organizationId: Id, documentId: Id, selected: seq<Id>, k: nat, ghost before: map<Id, Field>, ghost start: seq<Record<Field>>)
      returns (r: Result<Field>)
      requires k < |selected| && FieldsApart(start, fields.records, organizationId, documentId, selected)
      requires View(fields.records, organizationId, documentId) == CompletedAmong(before, selected[..k])
      requires AllIn(before, selected[..k])
      modifies fields
      ensures FieldsApart(start, fields.records, organizationId, documentId, selected)
      ensures r.Ok? ==> AllIn(before, selected[..k + 1]) && View(fields.records, organizationId, documentId) == CompletedAmong(before, selected[..k + 1])
      ensures r.Err? ==> CompleteFields(before, IdSet(selected)).Err?
    {
      CompletedOneMore(before, selected, k);
      AllInOneMore(before, selected, k);
      r := CompleteOne(organizationId, documentId, selected[k], start, selected);
      if r.Err? {
        MissingField(before, selected, k);
      }
    }

    /** The loop over the selected fields; stops at the first one that is missing. */
    method CompleteEach(organizationId: Id, documentId: Id, selected: seq<Id>) returns (r: Result<()>)
      requires forall id :: id in selected ==> BelongsTo(fields.records, organizationId, documentId, id)
      modifies fields
      ensures var before := old(View(fields.records, organizationId, documentId));
              var spec := CompleteFields(before, IdSet(selected));
              && (r.Ok? <==> spec.Ok?)
              && (r.Ok? ==> View(fields.records, organizationId, documentId) == spec.value)
      ensures SameElsewhere(old(fields.records), fields.records, organizationId, documentId)
    {
      ghost var before, start := View(fields.records, organizationId, documentId), fields.records;
      CompletedNone(before, selected);
      for k := 0 to |selected|
        invariant View(fields.records, organizationId, documentId) == CompletedAmong(before, selected[..k])
        invariant AllIn(before, selected[..k])
        invariant FieldsApart(start, fields.records, organizationId, documentId, selected)
      {
        var completed := CompleteNext(organizationId, documentId, selected, k, before, start);
        if completed.Err? {
          return Err(completed.failure);
        }
      }
      CompletedAll(before, selected);
      return Ok(());
    }

    /** One turn of the loop over the pending fields. */
    method FlattenOne(organizationId: Id, documentId: Id, id: Id, revisionId: Id, ghost start: seq<Record<Field>>, ghost all: seq<Id>)
      returns (r: Result<Field>)
      requires FieldsApart(start, fields.records, organizationId, documentId, all) && id in all
      modifies fields
      ensures var before := old(View(fields.records, organizationId, documentId));
              && (r.Ok? <==> id in before)
              && (r.Ok? ==> View(fields.records, organizationId, documentId) == before[id := before[id].(flattenedRevisionId := Some(revisionId))])
      ensures FieldsApart(start, fields.records, organizationId, documentId, all)
    {
      ghost var records := fields.records;
      CallOnView(records, organizationId, documentId, id, (row: Field) => Ok(row.(flattenedRevisionId := Some(revisionId))));
      r := fields.MarkFlattened(organizationId, id, revisionId);
      FieldCallApart(organizationId, documentId, start, records, id, r, all);
    }

    /** The loop over the pending fields; stops at the first one that is missing. */
    method FlattenEach(organizationId: Id, documentId: Id, pending: seq<Id>, revisionId: Id) returns (r: Result<()>)
      requires forall id :: id in pending ==> BelongsTo(fields.records, organizationId, documentId, id)
      modifies fields
      ensures var before := old(View(fields.records, organizationId, documentId));
              && (r.Ok? <==> AllIn(before, pending))
              && (r.Ok? ==> View(fields.records, organizationId, documentId) == FlattenedAmong(before, pending, revisionId))
      ensures SameElsewhere(old(fields.records), fields.records, organizationId, documentId)
    {
      ghost var before := View(fields.records, organizationId, documentId);
      FlattenedNone(before, revisionId);
      assert pending[..0] == [];
      for k := 0 to |pending|
        invariant View(fields.records, organizationId, documentId) == FlattenedAmong(before, pending[..k], revisionId)
        invariant AllIn(before, pending[..k])
        invariant FieldsApart(old(fields.records), fields.records, organizationId, documentId, pending)
      {
        FlattenedOneMore(before, pending, k, revisionId);
        AllInOneMore(before, pending, k);
        var flattened := FlattenOne(organizationId, documentId, pending[k], revisionId, old(fields.records), pending);
        if flattened.Err? {
          return Err(flattened.failure);
        }
      }
      assert pending[..|pending|] == pending;
      return Ok(());
    }

    /** The signer's part: fields, signer, session, or nothing at all. */
    method SignRows(organizationId: Id, documentId: Id, read: SigningRead, selected: seq<Id>) returns (r: Result<()>)
      requires read.selected == IdSet(selected)
      requires forall id :: id in selected ==> BelongsTo(fields.records, organizationId, documentId, id)
      requires BelongsTo(signers.records, organizationId, documentId, read.signerId)
      requires BelongsTo(sessions.records, organizationId, documentId, read.sessionId)
      modifies signers, sessions, fields
      ensures var t := old(Rows(organizationId, documentId));
              var spec := SignedRows(t, read);
              (r.Ok? <==> spec.Ok?) && Rows(organizationId, documentId) == Outcome(t, spec)
      ensures SameElsewhere(old(signers.records), signers.records, organizationId, documentId)
      ensures SameElsewhere(old(sessions.records), sessions.records, organizationId, documentId)
      ensures SameElsewhere(old(fields.records), fields.records, organizationId, documentId)
    {
      var savedFields := fields.records;
      var completed := CompleteEach(organizationId, documentId, selected);
      if completed.Err? {
        fields.records := savedFields;
        return completed;
      }
      r := AnswerRows(organizationId, documentId, read);
      if r.Err? {
        fields.records := savedFields;
      }
    }

    /** Signer and session, or neither. */
    method AnswerRows(organizationId: Id, documentId: Id, read: SigningRead) returns (r: Result<()>)
      requires BelongsTo(signers.records, organizationId, documentId, read.signerId)
      requires BelongsTo(sessions.records, organizationId, documentId, read.sessionId)
      modifies signers, sessions
      ensures var t := old(Rows(organizationId, documentId));
              var spec := AnsweredRows(t, read);
              (r.Ok? <==> spec.Ok?) && Rows(organizationId, documentId) == Outcome(t, spec)
      ensures SameElsewhere(old(signers.records), signers.records, organizationId, documentId)
      ensures SameElsewhere(old(sessions.records), sessions.records, organizationId, documentId)
    {
      CallOnView(signers.records, organizationId, documentId, read.signerId, (row: Signer) => MarkSigned(row, read.signer.version));
      CallOnView(sessions.records, organizationId, documentId, read.sessionId, (row: Session) => CompleteSession(row));
      var savedSigners := signers.records;
      var signer := signers.MarkSigned(organizationId, read.signerId, read.signer.version);
      OverwrittenElsewhere(savedSigners, organizationId, documentId, read.signerId, signer);
      if signer.Err? {
        return Err(signer.failure);
      }
      var session := sessions.MarkCompleted(organizationId, read.sessionId);
      OverwrittenElsewhere(old(sessions.records), organizationId, documentId, read.sessionId, session);
      if session.Err? {
        signers.records := savedSigners;
        return Err(session.failure);
      }
      return Ok(());
    }

    /** Completing a signing: the signer's rows, the document and the flatten job, or nothing at all. */
    method CompleteSigning(organizationId: Id, documentId: Id, read: SigningRead, selected: seq<Id>, jobId: Id) returns (r: Result<()>)
      requires Holds(documents.records, organizationId, documentId, documentId)
      requires read.selected == IdSet(selected)
      requires forall id :: id in selected ==> BelongsTo(fields.records, organizationId, documentId, id)
      requires BelongsTo(signers.records, organizationId, documentId, read.signerId)
      requires BelongsTo(sessions.records, organizationId, documentId, read.sessionId)
      modifies documents, signers, sessions, fields, jobs
      ensures var t := old(Rows(organizationId, documentId));
              var spec := UnitsOfWork.CompleteSigning(t, read);
              (r.Ok? <==> spec.Ok?) && Rows(organizationId, documentId) == Outcome(t, spec)
      ensures SameElsewhere(old(documents.records), documents.records, organizationId, documentId)
      ensures SameElsewhere(old(signers.records), signers.records, organizationId, documentId)
      ensures SameElsewhere(old(sessions.records), sessions.records, organizationId, documentId)
      ensures SameElsewhere(old(fields.records), fields.records, organizationId, documentId)
      ensures SameJobsElsewhere(old(jobs.records), jobs.records, organizationId, documentId)
    {
      SigningInTwoParts(Rows(organizationId, documentId), read);
      r := SignAndMove(organizationId, documentId, read, selected);
      if r.Ok? {
        PublishFlatten(organizationId, documentId, jobId, read.signerId);
      }
    }

    method SignAndMove(organizationId: Id, documentId: Id, read: SigningRead, selected: seq<Id>) returns (r: Result<()>)
      requires Holds(documents.records, organizationId, documentId, documentId)
      requires read.selected == IdSet(selected)
      requires forall id :: id in selected ==> BelongsTo(fields.records, organizationId, documentId, id)
      requires BelongsTo(signers.records, organizationId, documentId, read.signerId)
      requires BelongsTo(sessions.records, organizationId, documentId, read.sessionId)
      modifies documents, signers, sessions, fields
      ensures var t := old(Rows(organizationId, documentId));
              var spec := SignedAndMoved(t, read);
              (r.Ok? <==> spec.Ok?) && Rows(organizationId, documentId) == Outcome(t, spec)
      ensures SameElsewhere(old(documents.records), documents.records, organizationId, documentId)
      ensures SameElsewhere(old(signers.records), signers.records, organizationId, documentId)
      ensures SameElsewhere(old(sessions.records), sessions.records, organizationId, documentId)
      ensures SameElsewhere(old(fields.records), fields.records, organizationId, documentId)
    {
      var savedSigners, savedSessions, savedFields := signers.records, sessions.records, fields.records;
      r := SignRows(organizationId, documentId, read, selected);
      if r.Err? {
        return;
      }
      r := MoveDocument(organizationId, documentId, read);
      if r.Err? {
        fields.records, signers.records, sessions.records := savedFields, savedSigners, savedSessions;
      }
    }

    method PublishFlatten(organizationId: Id, documentId: Id, jobId: Id, signerId: Id)
      modifies jobs
      ensures JobsOf(jobs.records, organizationId, documentId) == old(JobsOf(jobs.records, organizationId, documentId)) + {signerId}
      ensures SameJobsElsewhere(old(jobs.records), jobs.records, organizationId, documentId)
    {
      JobAdded(jobs.records, Record(organizationId, documentId, jobId, signerId));
      JobAddedElsewhere(jobs.records, Record(organizationId, documentId, jobId, signerId));
      jobs.Publish(organizationId, documentId, jobId, signerId);
    }

    /** The document's part: completed when the roster read says everybody else has signed, in progress
        when the document read was only sent, untouched otherwise. */
    method MoveDocument(organizationId: Id, documentId: Id, read: SigningRead) returns (r: Result<()>)
      requires Holds(documents.records, organizationId, documentId, documentId)
      modifies documents
      ensures var d := old(Rows(organizationId, documentId).document);
              var spec := MovedDocument(d, read);
              && (r.Ok? <==> spec.Ok?)
              && Rows(organizationId, documentId) == old(Rows(organizationId, documentId)).(document := if spec.Ok? then spec.value else d)
      ensures SameElsewhere(old(documents.records), documents.records, organizationId, documentId)
    {
      ghost var records := documents.records;
      ViewMembers(records, organizationId, documentId, documentId);
      var remaining := map id | id in read.roster :: if id == read.signerId then read.roster[id].(status := Signed) else read.roster[id];
      assert AllSigned(remaining) <==> CompletesDocument(read) by {
        assert forall id :: id in read.roster ==> remaining[id].status == if id == read.signerId then Signed else read.roster[id].status;
      }
      if AllSigned(remaining) {
        CallOnView(records, organizationId, documentId, documentId, (d: Document) => MarkCompleted(d, read.document.version));
        var completed := documents.MarkCompleted(organizationId, documentId, read.document.version);
        OverwrittenElsewhere(records, organizationId, documentId, documentId, completed);
        return if completed.Ok? then Ok(()) else Err(completed.failure);
      }
      if read.document.state == Sent {
        CallOnView(records, organizationId, documentId, documentId, (d: Document) => MarkInProgress(d, read.document.version));
        var moved := documents.MarkInProgress(organizationId, documentId, read.document.version);
        OverwrittenElsewhere(records, organizationId, documentId, documentId, moved);
        return if moved.Ok? then Ok(()) else Err(moved.failure);
      }
      return Ok(());
    }

    /** The revision and the marks of what it draws; nothing at all when nothing is pending or a field is missing. */
    method DrawPending(organizationId: Id, documentId: Id, pending: seq<Id>, revisionId: Id, output: Revision) returns (r: Result<()>)
      requires forall id :: id in pending ==> BelongsTo(fields.records, organizationId, documentId, id)
      requires IndexOf(revisions.records, organizationId, revisionId) < 0
      modifies fields, revisions
      ensures var t := old(Rows(organizationId, documentId));
              var spec := DrawnRows(t, pending, revisionId, output);
              (r.Ok? <==> spec.Ok?) && Rows(organizationId, documentId) == Outcome(t, spec)
      ensures SameElsewhere(old(fields.records), fields.records, organizationId, documentId)
      ensures SameElsewhere(old(revisions.records), revisions.records, organizationId, documentId)
    {
      if |pending| == 0 {
        NothingFlattened(View(fields.records, organizationId, documentId), pending, revisionId);
        return Ok(());
      }
      var savedFields, savedRevisions := fields.records, revisions.records;
      PushedElsewhere(savedRevisions, Record(organizationId, documentId, revisionId, output));
      revisions.Create(organizationId, documentId, revisionId, output);
      FlattenedAll(View(fields.records, organizationId, documentId), pending, revisionId);
      r := FlattenEach(organizationId, documentId, pending, revisionId);
      if r.Err? {
        fields.records, revisions.records := savedFields, savedRevisions;
      }
    }

    /** Committing a flattened revision: revision, field marks, document, artifact, or nothing at all. */
    method CommitFlatten(organizationId: Id, documentId: Id, lease: Lease, base: Revision, newRevisionId: Id, digest: Id, artifactId: Id)
      returns (r: Result<()>)
      requires Holds(documents.records, organizationId, documentId, documentId)
      requires forall id :: id in lease.pending ==> BelongsTo(fields.records, organizationId, documentId, id)
      requires lease.leased.currentRevisionId.Some?
      requires var revisionRows := View(revisions.records, organizationId, documentId); var current := lease.leased.currentRevisionId.value;
               current in revisionRows && revisionRows[current] == base
      requires IndexOf(revisions.records, organizationId, newRevisionId) < 0
      modifies documents, fields, revisions, artifacts
      ensures var t := old(Rows(organizationId, documentId));
              var spec := UnitsOfWork.CommitFlatten(t, lease, newRevisionId, digest);
              (r.Ok? <==> spec.Ok?) && Rows(organizationId, documentId) == Outcome(t, spec)
      ensures SameElsewhere(old(documents.records), documents.records, organizationId, documentId)
      ensures SameElsewhere(old(fields.records), fields.records, organizationId, documentId)
      ensures SameElsewhere(old(revisions.records), revisions.records, organizationId, documentId)
      ensures SameArtifactsElsewhere(old(artifacts.records), artifacts.records, organizationId, documentId)
    {
      CommitInTwoParts(Rows(organizationId, documentId), lease, base, newRevisionId, digest);
      var output := if lease.pending == [] then base else Revision(digest, base.drawn + lease.pending);
      var revisionId := if lease.pending == [] then lease.leased.currentRevisionId.value else newRevisionId;
      r := DrawAndCommit(organizationId, documentId, lease, newRevisionId, revisionId, output, artifactId);
    }

    /** What is drawn, then the document and its artifact, or nothing at all. */
    method DrawAndCommit(organizationId: Id, documentId: Id, lease: Lease, newRevisionId: Id, revisionId: Id, output: Revision, artifactId: Id)
      returns (r: Result<()>)
      requires Holds(documents.records, organizationId, documentId, documentId)
      requires forall id :: id in lease.pending ==> BelongsTo(fields.records, organizationId, documentId, id)
      requires IndexOf(revisions.records, organizationId, newRevisionId) < 0
      modifies documents, fields, revisions, artifacts
      ensures var t := old(Rows(organizationId, documentId));
              var spec := DrawnAndCommitted(t, lease, newRevisionId, revisionId, output);
              (r.Ok? <==> spec.Ok?) && Rows(organizationId, documentId) == Outcome(t, spec)
      ensures SameElsewhere(old(documents.records), documents.records, organizationId, documentId)
      ensures SameElsewhere(old(fields.records), fields.records, organizationId, documentId)
      ensures SameElsewhere(old(revisions.records), revisions.records, organizationId, documentId)
      ensures SameArtifactsElsewhere(old(artifacts.records), artifacts.records, organizationId, documentId)
    {
      var savedFields, savedRevisions := fields.records, revisions.records;
      r := DrawPending(organizationId, documentId, lease.pending, newRevisionId, output);
      if r.Err? {
        return;
      }
      r := CommitAndKeep(organizationId, documentId, lease, revisionId, artifactId, Artifact(output.digest));
      if r.Err? {
        fields.records, revisions.records := savedFields, savedRevisions;
      }
    }

    /** The document and, when finalizing, its artifact. */
    method CommitAndKeep(organizationId: Id, documentId: Id, lease: Lease, revisionId: Id, artifactId: Id, artifact: Artifact) returns (r: Result<()>)
      requires Holds(documents.records, organizationId, documentId, documentId)
      modifies documents, artifacts
      ensures var t := old(Rows(organizationId, documentId));
              var spec := CommittedRows(t, lease, revisionId, artifact);
              (r.Ok? <==> spec.Ok?) && Rows(organizationId, documentId) == Outcome(t, spec)
      ensures SameElsewhere(old(documents.records), documents.records, organizationId, documentId)
      ensures SameArtifactsElsewhere(old(artifacts.records), artifacts.records, organizationId, documentId)
    {
      r := CommitDocument(organizationId, documentId, lease, revisionId);
      if r.Ok? && lease.finalize {
        KeepArtifact(organizationId, documentId, artifactId, artifact);
      }
    }

    /** The document's part of the commit, with its version, lease and state checks. */
    method CommitDocument(organizationId: Id, documentId: Id, lease: Lease, revisionId: Id) returns (r: Result<()>)
      requires Holds(documents.records, organizationId, documentId, documentId)
      modifies documents
      ensures var d := old(Rows(organizationId, documentId).document);
              var spec := CommitFlattenedRevision(d, lease.leased.version, lease.owner, revisionId, lease.finalize);
              && (r.Ok? <==> spec.Ok?)
              && Rows(organizationId, documentId) == old(Rows(organizationId, documentId)).(document := if spec.Ok? then spec.value else d)
      ensures SameElsewhere(old(documents.records), documents.records, organizationId, documentId)
    {
      ghost var records := documents.records;
      ViewMembers(records, organizationId, documentId, documentId);
      CallOnView(records, organizationId, documentId, documentId,
                 (d: Document) => CommitFlattenedRevision(d, lease.leased.version, lease.owner, revisionId, lease.finalize));
      var committed := documents.CommitFlattenedRevision(organizationId, documentId, lease.leased.version, lease.owner, revisionId, lease.finalize);
      OverwrittenElsewhere(records, organizationId, documentId, documentId, committed);
      return if committed.Ok? then Ok(()) else Err(committed.failure);
    }

    /** The artifact of a finalizing commit, unless there is one already. */
    method KeepArtifact(organizationId: Id, documentId: Id, artifactId: Id, artifact: Artifact)
      modifies artifacts
      ensures var before := old(ArtifactsOf(artifacts.records, organizationId, documentId));
              ArtifactsOf(artifacts.records, organizationId, documentId) == if before == [] then [artifact] else before
      ensures SameArtifactsElsewhere(old(artifacts.records), artifacts.records, organizationId, documentId)
    {
      if ArtifactsOf(artifacts.records, organizationId, documentId) == [] {
        ghost var before := artifacts.records;
        var created := artifacts.Create(organizationId, documentId, artifactId, artifact);
        assert artifacts.records[..|before|] == before;
      }
    }
  }
}
