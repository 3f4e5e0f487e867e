/** What the flatten workers do, from any reachable state and for reads of any age: what they find, when a
    claim or a commit goes through, and every row it writes. */
module WorkerEffects {
  import opened Results
  import opened Lifecycle
  import opened Envelope
  import opened UnitsOfWork
  import opened Protocol
  import opened Invariants
  import opened StepLemmas
  import opened Safety
  import opened Evolution

  /** All fields of the signer without a mark, once each and nothing else. */
  ghost predicate ListsUnmarked(t: Tables, g: Id, pending: seq<Id>) {
    && (forall f :: f in pending <==> f in t.fields && t.fields[f].signerId == g && t.fields[f].flattenedRevisionId == None)
    && (forall i, j :: 0 <= i < |pending| && 0 <= j < |pending| && pending[i] == pending[j] ==> i == j)
  }

  lemma LoadingForFlatten(s: State, g: Id, pending: seq<Id>)
    ensures Next(s, ByWorker(LoadForFlatten(g, pending)))
            == if && g in s.db.flattenJobs
                  && (s.db.document.state != Finalized || s.db.artifacts == [])
                  && s.db.document.currentRevisionId != None
                  && (exists f :: f in s.db.fields && s.db.fields[f].signerId == g)
                  && ListsUnmarked(s.db, g, pending)
               then s.(pool := s.pool + {FlattenRead(g, s.db.document, pending, forall h :: h in s.db.signers ==> s.db.signers[h].status == Signed)})
               else s
  {
    UnmarkedArePending(s.db, g, pending);
    assert AllSigned(s.db.signers) <==> forall h :: h in s.db.signers ==> s.db.signers[h].status == Signed;
  }

  lemma UnmarkedArePending(t: Tables, g: Id, pending: seq<Id>)
    ensures ListsUnmarked(t, g, pending) <==> ListsPending(t.fields, g, pending)
  {
  }

  /* ---- claims ---- */

  /** The document may be flattened, and nobody else has a lease on it that lasts until now. */
  ghost predicate IsFree(d: Document, owner: Id, now: int) {
    && (d.state == Sent || d.state == InProgress || d.state == Completed || d.state == Finalizing || d.state == FinalizationFailed)
    && (d.leaseUntil == None || d.leaseUntil.value < now || d.leaseOwner == Some(owner))
  }

  /** A claim goes through exactly when the document row is still the one that was read and is free. It leases
      the row, starts finalizing what is completed or has failed, and counts that attempt. */
  lemma Claiming(s: State, g: Id, read: Document, pending: seq<Id>, allSigned: bool, owner: Id, until: int, now: int)
    requires Reachable(s) && FlattenRead(g, read, pending, allSigned) in s.pool
    ensures var s' := Next(s, ByWorker(DoClaim(FlattenRead(g, read, pending, allSigned), owner, until, now)));
            if s.db.document == read && IsFree(read, owner, now)
            then s' == s.(db := s.db.(document := LeasedRow(read, owner, until)),
                          pool := s.pool + {Leased(Lease(g, owner, LeasedRow(read, owner, until), pending, allSigned))})
            else s' == s
  {
    ReachableKeepsInv(s);
    assert Faithful(FlattenRead(g, read, pending, allSigned), s.db);
    RowIsClaimed(s.db.document, read, owner, until, now);
  }

  function LeasedRow(d: Document, owner: Id, until: int): Document {
    var finalizes := d.state == Completed || d.state == FinalizationFailed || d.state == Finalizing;
    d.(state := if finalizes then Finalizing else InProgress, leaseOwner := Some(owner), leaseUntil := Some(until), version := d.version + 1,
       finalizationAttemptCount := d.finalizationAttemptCount + if finalizes then 1 else 0)
  }

  lemma RowIsClaimed(d: Document, read: Document, owner: Id, until: int, now: int)
    requires DocumentFaithful(read, d)
    ensures var r := ClaimProcessingLease(d, read.version, owner, until, now);
            && (r.Ok? <==> d == read && IsFree(d, owner, now))
            && (r.Ok? ==> r.value == LeasedRow(d, owner, until))
  {
  }

  /** No step takes an unlapsed lease away for another owner: whoever is leased the document next either had
      it, or claimed after the end of the lease. */
  lemma UnlapsedLeasesHold(s: State, a: Action)
    requires Reachable(s) && s.db.document.leaseOwner.Some? && s.db.document.leaseUntil.Some?
    requires Next(s, a).db.document.leaseOwner.Some? && Next(s, a).db.document.leaseOwner != s.db.document.leaseOwner
    ensures a.ByWorker? && a.worker.DoClaim? && s.db.document.leaseUntil.value < a.worker.now
    ensures Next(s, a).db.document.leaseOwner == Some(a.worker.owner)
  {
    ReachableKeepsInv(s);
    match a
    case ByOwner(o) => OwnersLeaveLeases(s, o);
    case OnSession(x) => SessionsLeaveLeases(s, x);
    case BySigner(x) => SignersLeaveLeases(s, x);
    case ByWorker(w) => WorkersOnLeases(s, w);
  }

  lemma OwnersLeaveLeases(s: State, o: OwnerAction)
    ensures OwnerNext(s, o).db.document.leaseOwner == s.db.document.leaseOwner
  {
  }

  lemma SessionsLeaveLeases(s: State, x: SessionAction)
    ensures SessionNext(s, x).db.document == s.db.document
  {
  }

  lemma SignersLeaveLeases(s: State, x: SignerAction)
    ensures SignerNext(s, x).db.document.leaseOwner == s.db.document.leaseOwner
  {
  }

  lemma WorkersOnLeases(s: State, w: WorkerAction)
    ensures var d, d' := s.db.document, WorkerNext(s, w).db.document;
            || d'.leaseOwner == d.leaseOwner || d'.leaseOwner == None
            || (w.DoClaim? && d'.leaseOwner == Some(w.owner) && (d.leaseUntil.Some? ==> d.leaseUntil.value < w.now))
  {
  }

  /* ---- outcomes ---- */

  /** Failing moves a document that is being finalized, whoever fails it, and otherwise only gives back the
      owner's own lease. */
  lemma Failing(s: State, lease: Lease)
    requires Leased(lease) in s.pool
    ensures var d := s.db.document;
            Next(s, ByWorker(DoFailFinalization(lease)))
            == if d.state == Finalizing || d.leaseOwner == Some(lease.owner)
               then s.(db := s.db.(document := d.(state := if d.state == Finalizing then FinalizationFailed else d.state,
                                                  leaseOwner := None, leaseUntil := None, version := d.version + 1)))
               else s
  {
  }

  lemma Releasing(s: State, lease: Lease)
    requires Leased(lease) in s.pool
    ensures var d := s.db.document;
            Next(s, ByWorker(DoReleaseLease(lease)))
            == if d.leaseOwner == Some(lease.owner)
               then s.(db := s.db.(document := d.(leaseOwner := None, leaseUntil := None, version := d.version + 1)))
               else s
  {
  }

  /** A commit goes through exactly when the row is still the one its claim wrote, it finalizes only what is
      being finalized, and everything it drew is stored. */
  ghost predicate CommitFits(t: Tables, lease: Lease) {
    && t.document == lease.leased
    && (lease.finalize ==> lease.leased.state == Finalizing)
    && (forall f :: f in lease.pending ==> f in t.fields)
  }

  /** Every row a commit writes. With something drawn there is a new revision with the new digest that draws
      it on top of what was drawn; without, the current one stays. A finalizing commit makes that revision's
      digest the artifact. */
  ghost predicate JustCommitted(t: Tables, t': Tables, lease: Lease, revisionId: Id, digest: Id)
    requires lease.leased.currentRevisionId.Some? && lease.leased.currentRevisionId.value in t.revisions
  {
    var base := t.revisions[lease.leased.currentRevisionId.value];
    var current, output :=
      if lease.pending == [] then lease.leased.currentRevisionId.value else revisionId,
      if lease.pending == [] then base else Revision(digest, base.drawn + lease.pending);
    && (forall f :: f in t'.fields <==> f in t.fields)
    && (forall f :: f in t.fields && f in lease.pending ==> t'.fields[f] == t.fields[f].(flattenedRevisionId := Some(revisionId)))
    && (forall f :: f in t.fields && f !in lease.pending ==> t'.fields[f] == t.fields[f])
    && t' == t.(
               fields := t'.fields,
               revisions := t.revisions[current := output],
               artifacts := if lease.finalize then [Artifact(output.digest)] else [],
               document := lease.leased.(state := if lease.finalize then Finalized else lease.leased.state,
                                         currentRevisionId := Some(current), leaseOwner := None, leaseUntil := None,
                                         version := lease.leased.version + 1))
  }

  lemma Committing(s: State, lease: Lease, revisionId: Id, digest: Id)
    requires Reachable(s) && Leased(lease) in s.pool && revisionId !in s.db.revisions
    ensures var t, t' := s.db, Next(s, ByWorker(DoCommitFlatten(lease, revisionId, digest))).db;
            if CommitFits(t, lease)
            then lease.leased.currentRevisionId.Some? && lease.leased.currentRevisionId.value in t.revisions
                 && JustCommitted(t, t', lease, revisionId, digest)
            else t' == t
  {
    ReachableKeepsInv(s);
    assert Faithful(Leased(lease), s.db);
    CommitIsWritten(s.db, lease, revisionId, digest);
  }

  lemma CommitIsWritten(t: Tables, lease: Lease, revisionId: Id, digest: Id)
    requires Consistent(t) && Faithful(Leased(lease), t)
    ensures var r := CommitFlatten(t, lease, revisionId, digest);
            && (r.Ok? <==> CommitFits(t, lease))
            && (r.Ok? ==> lease.leased.currentRevisionId.Some? && lease.leased.currentRevisionId.value in t.revisions
                          && JustCommitted(t, r.value, lease, revisionId, digest))
  {
    if t.document == lease.leased {
      assert t.artifacts == [];
      if lease.pending == [] {
        var current := lease.leased.currentRevisionId.value;
        assert t.revisions[current := t.revisions[current]] == t.revisions;
      }
    }
  }
}
