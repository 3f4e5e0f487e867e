/** What holds of every run of every interleaving, in the terms of the product. */
module Theorems {
  import opened Results
  import opened Lifecycle
  import opened Routing
  import opened Envelope
  import opened UnitsOfWork
  import opened Protocol
  import opened Invariants
  import opened StepLemmas
  import opened Safety
  import opened Evolution

  /* ---- the document ---- */

  /** Every change of state is an edge of the transition table. In particular the commit's branch from
      completed straight to finalized is never taken, and no document ever expires. */
  lemma StateFollowsTheTable(actions: seq<Action>, a: Action)
    ensures var before, after := After(actions).document, After(actions + [a]).document;
            before.state != after.state ==> CanTransitionDocument(before.state, after.state) && IsEdge(before.state, after.state)
    ensures After(actions).document.state != Expired
    ensures After(actions).document.state == Completed ==> After(actions + [a]).document.state != Finalized
  {
    InvAlways(actions);
    RunAppend(INITIAL, actions, [a]);
    OneStepRun(Run(INITIAL, actions), a);
    InvStep(Run(INITIAL, actions), a);
    EdgesAre(After(actions).document.state, After(actions + [a]).document.state);
  }

  lemma EdgesAre(from: DocumentState, to: DocumentState)
    ensures CanTransitionDocument(from, to) && from != to && to != Expired ==> IsEdge(from, to)
  {
  }

  /** The edges a document can take. */
  ghost predicate IsEdge(from: DocumentState, to: DocumentState) {
    || (from == Draft && to in {Prepared, Sent, Voided})
    || (from == Prepared && to in {Draft, Sent, Voided})
    || (from == Sent && to in {InProgress, Completed, Declined, Voided})
    || (from == InProgress && to in {Completed, Declined, Voided})
    || (from in {Completed, FinalizationFailed} && to == Finalizing)
    || (from == Finalizing && to in {Finalized, FinalizationFailed})
  }

  lemma OneStepRun(s: State, a: Action)
    ensures Run(s, [a]) == Next(s, a)
  {
    assert [a][..0] == [];
    assert Run(s, []) == s;
  }

  /** Voided, declined and finalized are never left, however the run goes on. */
  lemma EndStatesAreFinal(first: seq<Action>, more: seq<Action>)
    ensures IsEndState(After(first).document.state) ==> After(first + more).document.state == After(first).document.state
  {
    RunsEvolve(first, more);
  }

  /** Every action that changes the document row raises its version, so a version names one row. */
  lemma VersionNamesTheRow(first: seq<Action>, more: seq<Action>)
    ensures After(first + more).document.version == After(first).document.version <==> After(first + more).document == After(first).document
  {
    RunsEvolve(first, more);
  }

  /* ---- the artifact ---- */

  /** One artifact exactly when the document is finalized, and it is the current revision. */
  lemma ArtifactExactlyWhenFinalized(actions: seq<Action>)
    ensures var t := After(actions);
            && |t.artifacts| <= 1
            && (t.artifacts != [] <==> t.document.state == Finalized)
            && (t.document.state == Finalized ==>
                  && t.document.currentRevisionId.Some?
                  && t.document.currentRevisionId.value in t.revisions
                  && t.artifacts[0].digest == t.revisions[t.document.currentRevisionId.value].digest)
  {
    InvAlways(actions);
  }

  /** Once there, neither the document nor its artifact nor the revision behind it changes again. */
  lemma FinalizedIsFrozen(first: seq<Action>, more: seq<Action>)
    requires After(first).document.state == Finalized
    ensures After(first + more).document == After(first).document
    ensures After(first + more).artifacts == After(first).artifacts
    ensures var r := After(first).document.currentRevisionId;
            r.Some? && r.value in After(first).revisions && r.value in After(first + more).revisions
            && After(first + more).revisions[r.value] == After(first).revisions[r.value]
  {
    RunsEvolve(first, more);
    ArtifactExactlyWhenFinalized(first);
    ArtifactExactlyWhenFinalized(first + more);
  }

  /* ---- signatures ---- */

  /** Nobody's signature is missing once signing counts as finished, whatever rosters were read. */
  lemma FinishedMeansEverybodySigned(actions: seq<Action>)
    ensures IsPastSigning(After(actions).document.state) ==>
              After(actions).signers != map[] && AllSigned(After(actions).signers)
  {
    InvAlways(actions);
  }

  /** A signer's row turns from pending to signed only by that signer's own commit, while the document
      is out for signing and the session the signer came with is active. */
  lemma SigningOnlyWhileOut(actions: seq<Action>, a: Action, g: Id)
    requires var t, t' := After(actions), After(actions + [a]);
             g in t.signers && g in t'.signers && t.signers[g].status == Pending && t'.signers[g].status == Signed
    ensures a.BySigner? && a.signer.DoCompleteSigning? && a.signer.signing.signerId == g
    ensures IsOutForSigning(After(actions).document.state)
    ensures a.signer.signing.sessionId in After(actions).sessions
    ensures After(actions).sessions[a.signer.signing.sessionId].status == Active
  {
    InvAlways(actions);
    RunAppend(INITIAL, actions, [a]);
    var s := Run(INITIAL, actions);
    OneStepRun(s, a);
    OnlySigningSigns(s, a, g);
    assert Faithful(SignRead(a.signer.signing), s.db);
    SigningIsTimely(s.db, a.signer.signing);
  }

  /** Frame: no other action turns a pending signer into a signed one. */
  lemma OnlySigningSigns(s: State, a: Action, g: Id)
    requires g in s.db.signers && g in Next(s, a).db.signers
    requires s.db.signers[g].status == Pending && Next(s, a).db.signers[g].status == Signed
    ensures a.BySigner? && a.signer.DoCompleteSigning? && a.signer.signing.signerId == g
    ensures SignRead(a.signer.signing) in s.pool && CompleteSigning(s.db, a.signer.signing).Ok?
  {
    match a
    case ByOwner(o) => OwnersNeverSign(s, o, g);
    case OnSession(x) => SessionsLeaveSigners(s, x);
    case BySigner(x) => SignerActionsOnSigners(s, x);
    case ByWorker(w) => WorkersLeaveSigners(s, w);
  }

  lemma SessionsLeaveSigners(s: State, x: SessionAction)
    ensures SessionNext(s, x).db.signers == s.db.signers
  {
  }

  lemma WorkersLeaveSigners(s: State, w: WorkerAction)
    ensures WorkerNext(s, w).db.signers == s.db.signers
  {
  }

  lemma OwnersNeverSign(s: State, o: OwnerAction, g: Id)
    requires g in s.db.signers && g in OwnerNext(s, o).db.signers
    requires s.db.signers[g].status == Pending
    ensures OwnerNext(s, o).db.signers[g].status == Pending
  {
    if o.DoReplaceSigners? {
      ReplacedArePending(s.db, o.read, o.mode, o.entries);
    } else {
      assert OwnerNext(s, o).db.signers == s.db.signers;
    }
  }

  lemma ReplacedArePending(t: Tables, read: Document, mode: SigningMode, entries: seq<SignerEntry>)
    ensures ReplaceSigners(t, read, mode, entries).Ok? ==>
              forall g :: g in ReplaceSigners(t, read, mode, entries).value.signers ==>
                ReplaceSigners(t, read, mode, entries).value.signers[g].status == Pending
  {
  }

  lemma SignerActionsOnSigners(s: State, a: SignerAction)
    ensures SignerNext(s, a).db.signers == s.db.signers
            || (a.DoCompleteSigning? && SignRead(a.signing) in s.pool && CompleteSigning(s.db, a.signing).Ok?)
            || (a.DoDecline? && a.declining.DeclineRead? && Decline(s.db, a.declining.signerId, a.declining.signer, a.declining.document).Ok?)
  {
  }

  /** After a void or a decline nobody signs any more: the same commit revoked every open session. */
  lemma NobodySignsAfterTheEnd(first: seq<Action>, more: seq<Action>, g: Id)
    requires IsEndState(After(first).document.state)
    requires g in After(first).signers
    ensures g in After(first + more).signers && After(first + more).signers[g].status == After(first).signers[g].status
  {
    RunsEvolve(first, more);
    if After(first).signers[g].status == Pending {
      RunAppend(INITIAL, first, more);
      StillPending(Run(INITIAL, first), more, g);
    }
  }

  lemma {:induction false} StillPending(s: State, more: seq<Action>, g: Id)
    requires Inv(s) && IsEndState(s.db.document.state)
    requires g in s.db.signers && s.db.signers[g].status == Pending
    ensures g in Run(s, more).db.signers && Run(s, more).db.signers[g].status == Pending
  {
    if more != [] {
      var n := |more| - 1;
      StillPending(s, more[..n], g);
      InvAlongRun(s, more[..n]);
      PendingStays(Run(s, more[..n]), more[n], g);
    }
  }

  lemma PendingStays(s: State, a: Action, g: Id)
    requires Inv(s) && IsEndState(s.db.document.state)
    requires g in s.db.signers && s.db.signers[g].status == Pending
    ensures g in Next(s, a).db.signers && Next(s, a).db.signers[g].status == Pending
  {
    InvStep(s, a);
    NobodySignsThere(s, a, g);
    OnlyDeclineDeclines(s, a, g);
  }

  lemma NobodySignsThere(s: State, a: Action, g: Id)
    requires Inv(s) && IsEndState(s.db.document.state)
    requires g in s.db.signers && g in Next(s, a).db.signers && s.db.signers[g].status == Pending
    ensures Next(s, a).db.signers[g].status != Signed
  {
    if Next(s, a).db.signers[g].status == Signed {
      OnlySigningSigns(s, a, g);
      LateSigningFails(s, a.signer.signing);
    }
  }

  lemma LateSigningFails(s: State, read: SigningRead)
    requires Inv(s) && IsEndState(s.db.document.state) && SignRead(read) in s.pool
    ensures CompleteSigning(s.db, read).Ok? ==> read.signerId in s.db.signers && s.db.signers[read.signerId].status != Pending
  {
    assert Faithful(SignRead(read), s.db);
    if CompleteSigning(s.db, read).Ok? {
      SigningIsTimely(s.db, read);
    }
  }

  /** Frame: a decline needs a document that is out for signing. */
  lemma OnlyDeclineDeclines(s: State, a: Action, g: Id)
    requires g in s.db.signers && g in Next(s, a).db.signers
    requires s.db.signers[g].status == Pending && !IsOutForSigning(s.db.document.state)
    ensures Next(s, a).db.signers[g].status != SignerDeclined
  {
    match a
    case ByOwner(o) => OwnersNeverSign(s, o, g);
    case OnSession(x) => SessionsLeaveSigners(s, x);
    case BySigner(x) => SignerActionsOnSigners(s, x);
    case ByWorker(w) => WorkersLeaveSigners(s, w);
  }

  /* ---- routing ---- */

  /** In ordered mode the signatures come in order: after sending, the signed signers are exactly the
      ones with orders 1 to k for some k. */
  lemma SignedInRoutingOrder(actions: seq<Action>)
    ensures var t := After(actions);
            WasSent(t.document) && t.document.signingMode == Ordered ==>
              exists k :: 0 <= k <= |t.signers.Keys| && SignedUpTo(t.signers, k)
  {
    InvAlways(actions);
    var t := After(actions);
    if WasSent(t.document) && t.document.signingMode == Ordered {
      var signed := set g | g in t.signers && t.signers[g].status == Signed;
      if signed == {} {
        assert SignedUpTo(t.signers, 0) by {
          forall g | g in t.signers
            ensures t.signers[g].status != Signed && t.signers[g].routingOrder > 0
          {
            assert g !in signed;
          }
        }
      } else {
        var last := LastOf(t.signers, signed);
        assert SignedUpTo(t.signers, t.signers[last].routingOrder);
      }
    }
  }

  ghost predicate SignedUpTo(signers: map<Id, Signer>, k: int) {
    forall g :: g in signers ==> (signers[g].status == Signed <==> signers[g].routingOrder <= k)
  }

  lemma LastOf(signers: map<Id, Signer>, some: set<Id>) returns (last: Id)
    requires some != {} && some <= signers.Keys
    ensures last in some
    ensures forall g :: g in some ==> signers[g].routingOrder <= signers[last].routingOrder
    decreases |some|
  {
    last :| last in some;
    if some != {last} {
      assert some == (some - {last}) + {last};
      var other := LastOf(signers, some - {last});
      if signers[other].routingOrder > signers[last].routingOrder {
        last := other;
      }
    }
  }

  /** The loop over the listed signers and the rule over the stored rows are the same routing rule. */
  lemma RoutingOfRows(mode: SigningMode, roster: map<Id, Signer>, listing: seq<Id>)
    requires NoRepeats(listing) && forall g :: g in listing <==> g in roster
    ensures WellRouted(mode, OrdersOf(roster, listing)) <==> RoutedRows(mode, roster)
  {
    var orders := OrdersOf(roster, listing);
    ListingCounts(roster, listing);
    if mode == Ordered {
      if WellRouted(mode, orders) {
        WellRoutedMembers(orders);
        forall a, b | a in roster && b in roster && a != b
          ensures roster[a].routingOrder != roster[b].routingOrder
        {
          var i, j := Position(listing, a), Position(listing, b);
          assert orders[i] != orders[j];
        }
        forall a | a in roster
          ensures 1 <= roster[a].routingOrder <= |roster.Keys|
        {
          assert orders[Position(listing, a)] in orders;
        }
      }
      if RoutedRows(mode, roster) {
        DistinctBoundedCovers(orders);
        DistinctAndCoveringIsRouted(orders);
      }
    } else {
      forall a | a in roster
        ensures roster[a].routingOrder == orders[Position(listing, a)]
      {
      }
    }
  }

  function OrdersOf(roster: map<Id, Signer>, listing: seq<Id>): (r: seq<int>)
    requires forall g :: g in listing ==> g in roster
    ensures |r| == |listing|
  {
    seq(|listing|, i requires 0 <= i < |listing| => roster[listing[i]].routingOrder)
  }

  ghost function Position(listing: seq<Id>, g: Id): (i: nat)
    requires g in listing
    ensures i < |listing| && listing[i] == g
  {
    var i :| 0 <= i < |listing| && listing[i] == g;
    i
  }

  lemma ListingCounts(roster: map<Id, Signer>, listing: seq<Id>)
    requires NoRepeats(listing) && forall g :: g in listing <==> g in roster
    ensures |listing| == |roster.Keys|
    ensures listing == [] <==> roster == map[]
  {
    DistinctCount(listing);
    assert roster.Keys == Members(listing);
    assert roster == map[] <==> roster.Keys == {};
  }

  /** n different numbers between 1 and n are all of them. */
  lemma DistinctBoundedCovers(orders: seq<int>)
    requires Distinct(orders) && forall i :: 0 <= i < |orders| ==> 1 <= orders[i] <= |orders|
    ensures forall e :: 1 <= e <= |orders| ==> e in orders
  {
    var line := Consecutive(|orders|);
    DistinctCount(orders);
    DistinctCount(line);
    forall e | e in Members(orders)
      ensures e in Members(line)
    {
      assert line[e - 1] == e;
    }
    SubsetOfEqualSize(Members(orders), Members(line));
    forall e | 1 <= e <= |orders|
      ensures e in orders
    {
      assert line[e - 1] == e && e in Members(line);
    }
  }

  /* ---- sessions ---- */

  /** At most one way in for each signer, and each session moves along the session table. The store
      alone would also complete a session that was never presented; no run makes it do so. */
  lemma OneWayIn(actions: seq<Action>, a: Action)
    ensures OneOpenSession(After(actions).sessions)
    ensures var t, t' := After(actions), After(actions + [a]);
            forall i :: i in t.sessions ==>
              i in t'.sessions && (t'.sessions[i].status == t.sessions[i].status || IsSessionEdge(t.sessions[i].status, t'.sessions[i].status))
  {
    InvAlways(actions);
    RunAppend(INITIAL, actions, [a]);
    OneStepRun(Run(INITIAL, actions), a);
    InvStep(Run(INITIAL, actions), a);
    SessionEdgesAre();
  }

  /** The edges a session can take. */
  ghost predicate IsSessionEdge(from: SessionStatus, to: SessionStatus) {
    || (from == Issued && to in {Active, SessionExpired, Revoked})
    || (from == Active && to in {SessionCompleted, SessionExpired, Revoked})
  }

  lemma SessionEdgesAre()
    ensures forall from, to :: CanTransitionSession(from, to) ==> IsSessionEdge(from, to)
  {
  }

  /** No invitation token is ever exchanged twice, and an exchanged one opens nothing. */
  lemma TokensExchangedOnce(actions: seq<Action>)
    ensures NoRepeats(Run(INITIAL, actions).exchanged)
    ensures forall i :: i in After(actions).sessions ==> After(actions).sessions[i].token !in Run(INITIAL, actions).exchanged
  {
    InvAlways(actions);
  }

  /** A session that was closed stays closed, with the answer it was closed with. */
  lemma ClosedStaysClosed(first: seq<Action>, more: seq<Action>, i: Id)
    requires i in After(first).sessions && !IsOpen(After(first).sessions[i].status)
    ensures i in After(first + more).sessions && After(first + more).sessions[i].status == After(first).sessions[i].status
  {
    RunsEvolve(first, more);
  }

  /* ---- flattening ---- */

  /** No flatten work is repeated: the current revision draws each field at most once, a stored field
      carries the flattened mark exactly when it is drawn, and every marked field belongs to a signer
      who signed. */
  lemma DrawnExactlyOnce(actions: seq<Action>)
    ensures var t := After(actions);
            && NoRepeats(Drawn(t))
            && (forall f :: f in t.fields ==> (f in Drawn(t) <==> t.fields[f].flattenedRevisionId.Some?))
            && (forall f :: f in t.fields && f in Drawn(t) ==>
                  t.fields[f].signerId in t.signers && t.signers[t.fields[f].signerId].status == Signed)
            && (forall r :: t.document.currentRevisionId == Some(r) ==> r in t.revisions)
  {
    InvAlways(actions);
  }

  /** No flatten work is lost: what a current revision draws, every later current revision draws, in the
      same order; and the mark of a field that is still stored keeps naming the revision that first drew it. */
  lemma DrawnIsNeverLost(first: seq<Action>, more: seq<Action>)
    ensures var t, t' := After(first), After(first + more);
            && Drawn(t) <= Drawn(t')
            && (t.document.currentRevisionId.Some? ==> t'.document.currentRevisionId.Some?)
            && (forall f :: f in t.fields && f in t'.fields && t.fields[f].flattenedRevisionId.Some? ==>
                  t'.fields[f].flattenedRevisionId == t.fields[f].flattenedRevisionId)
  {
    RunsEvolve(first, more);
  }

  /** When a worker's commit goes through, all stored fields of its signer are drawn, exactly if it drew
      something itself or nothing was left to draw. (A worker that found nothing to draw misses the
      fields that a late replacement has brought since.) */
  lemma CommitDrawsTheSigner(actions: seq<Action>, lease: Lease, newRevisionId: Id, digest: Id)
    requires Leased(lease) in Run(INITIAL, actions).pool && newRevisionId !in After(actions).revisions
    requires CommitFlatten(After(actions), lease, newRevisionId, digest).Ok?
    ensures var t, t' := After(actions), CommitFlatten(After(actions), lease, newRevisionId, digest).value;
            (forall f :: f in t'.fields && t'.fields[f].signerId == lease.signerId ==> f in Drawn(t'))
            <==> lease.pending != [] || forall f :: f in t.fields && t.fields[f].signerId == lease.signerId ==> f in Drawn(t)
  {
    InvAlways(actions);
    var t, t' := After(actions), CommitFlatten(After(actions), lease, newRevisionId, digest).value;
    assert Faithful(Leased(lease), t);
    CommitFlattenEffect(t, lease, newRevisionId, digest);
    assert Drawn(t') == Drawn(t) + lease.pending;
  }

  /** A commit goes through exactly when the document row is still the row the claim wrote, a finalizing
      one only if that row is being finalized, and only if what it drew is still stored. A changed version
      or a lease taken over refuses it, and so do fields that a late replacement has removed. */
  lemma CommitSucceedsExactly(actions: seq<Action>, lease: Lease, newRevisionId: Id, digest: Id)
    requires Leased(lease) in Run(INITIAL, actions).pool && newRevisionId !in After(actions).revisions
    ensures CommitFlatten(After(actions), lease, newRevisionId, digest).Ok?
            <==> && After(actions).document == lease.leased
                 && (lease.finalize ==> lease.leased.state == Finalizing)
                 && (forall f :: f in lease.pending ==> f in After(actions).fields)
  {
    InvAlways(actions);
    assert Faithful(Leased(lease), After(actions));
  }

  ghost predicate ClaimedAt(actions: seq<Action>, k: nat, lease: Lease)
    requires k < |actions|
  {
    && actions[k].ByWorker? && actions[k].worker.DoClaim? && actions[k].worker.owner == lease.owner
    && After(actions[..k]).document != lease.leased
    && After(actions[..k + 1]).document == lease.leased
  }

  /** Fencing: behind every successful commit there is the owner's own claim, which produced exactly the
      version committed on, and nobody wrote the document in between. */
  lemma CommitFollowsItsClaim(actions: seq<Action>, lease: Lease, newRevisionId: Id, digest: Id)
    requires CommitFlattenStep(Run(INITIAL, actions), lease, newRevisionId, digest) != Run(INITIAL, actions)
    ensures exists k :: 0 <= k < |actions| && ClaimedAt(actions, k, lease)
                        && forall j :: k < j <= |actions| ==> After(actions[..j]).document == lease.leased
  {
    CommitSucceedsExactly(actions, lease, newRevisionId, digest);
    LeaseHasItsClaim(actions, lease);
    var k :| 0 <= k < |actions| && ClaimedAt(actions, k, lease);
    forall j | k < j <= |actions|
      ensures After(actions[..j]).document == lease.leased
    {
      NobodyWroteBetween(actions, k + 1, j);
    }
  }

  /** A row that is there at two moments of a run is there all the time between. */
  lemma NobodyWroteBetween(actions: seq<Action>, i: nat, j: nat)
    requires i <= j <= |actions|
    requires After(actions[..i]).document == After(actions).document
    ensures After(actions[..j]).document == After(actions).document
  {
    assert actions[..j][..i] == actions[..i];
    EvolvesFrom(actions[..j], i);
    EvolvesFrom(actions, j);
  }

  lemma {:induction false} LeaseHasItsClaim(actions: seq<Action>, lease: Lease)
    requires Leased(lease) in Run(INITIAL, actions).pool
    ensures exists k :: 0 <= k < |actions| && ClaimedAt(actions, k, lease)
  {
    if actions != [] {
      var last := |actions| - 1;
      var before := Run(INITIAL, actions[..last]);
      if Leased(lease) in before.pool {
        LeaseHasItsClaim(actions[..last], lease);
        var k :| 0 <= k < last && ClaimedAt(actions[..last], k, lease);
        assert actions[..last][..k] == actions[..k] && actions[..last][..k + 1] == actions[..k + 1];
        assert ClaimedAt(actions, k, lease);
      } else {
        OnlyClaimsLease(before, actions[last], lease);
        assert actions[..last + 1] == actions;
        assert ClaimedAt(actions, last, lease);
      }
    }
  }

  lemma OnlyClaimsLease(s: State, a: Action, lease: Lease)
    requires Leased(lease) !in s.pool && Leased(lease) in Next(s, a).pool
    ensures a.ByWorker? && a.worker.DoClaim? && a.worker.owner == lease.owner
    ensures s.db.document != lease.leased && Next(s, a).db.document == lease.leased
  {
    match a
    case ByOwner(o) =>
    case OnSession(x) =>
    case BySigner(x) =>
    case ByWorker(w) =>
  }
}
