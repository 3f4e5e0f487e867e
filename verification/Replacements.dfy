/** Replacing the fields of an envelope writes no version when the document that was read is in the right
    state already. Such a replacement can land long after the envelope was sent. This module says exactly
    when it does, and what of the fields it leaves. */
module Replacements {
  import opened Lifecycle
  import opened Envelope
  import opened UnitsOfWork
  import opened Protocol
  import opened Invariants
  import opened StepLemmas
  import opened Safety
  import opened Evolution
  import opened Theorems

  /** The k-th action replaced the fields of an envelope that was no longer in preparation. */
  ghost predicate Lands(actions: seq<Action>, k: nat)
    requires k < |actions|
  {
    && !IsPreparation(After(actions[..k]).document.state)
    && After(actions[..k + 1]).fields.Keys != After(actions[..k]).fields.Keys
  }

  /** A replacement lands after sending exactly when the document it read needed no change of state. */
  lemma LandsExactly(actions: seq<Action>, read: Document, roster: map<Id, Signer>, entries: map<Id, FieldEntry>)
    requires FieldsRead(read, roster) in Run(INITIAL, actions).pool
    requires FieldsFit(After(actions), roster, entries)
    requires !IsPreparation(After(actions).document.state)
    ensures Lands(actions + [ByOwner(DoReplaceFields(read, roster, entries))], |actions|)
            <==> (read.state == Prepared <==> PreparedWith(read, roster, entries))
  {
    var a := ByOwner(DoReplaceFields(read, roster, entries));
    InvAlways(actions);
    RunAppend(INITIAL, actions, [a]);
    OneStepRun(Run(INITIAL, actions), a);
    assert (actions + [a])[..|actions|] == actions && (actions + [a])[..|actions| + 1] == actions + [a];
    ReplacesExactly(Run(INITIAL, actions), read, roster, entries);
  }

  lemma ReplacesExactly(s: State, read: Document, roster: map<Id, Signer>, entries: map<Id, FieldEntry>)
    requires Inv(s) && !IsPreparation(s.db.document.state)
    requires FieldsRead(read, roster) in s.pool && FieldsFit(s.db, roster, entries)
    ensures Next(s, ByOwner(DoReplaceFields(read, roster, entries))).db.fields.Keys != s.db.fields.Keys
            <==> (read.state == Prepared <==> PreparedWith(read, roster, entries))
  {
    assert Faithful(FieldsRead(read, roster), s.db);
    if ReplaceFields(s.db, read, roster, entries).Ok? {
      LateReplacement(s.db, read, roster, entries);
      SameKeysStay(s.db, ReplaceFields(s.db, read, roster, entries).value);
    }
  }

  /* ---- the only way fields go after sending ---- */

  /** Nothing but a replacement read during preparation lands, and the document row does not show it. */
  lemma OnlyReplacementsLand(actions: seq<Action>, k: nat)
    requires k < |actions| && Lands(actions, k)
    ensures actions[k].ByOwner? && actions[k].owner.DoReplaceFields?
    ensures IsPreparation(actions[k].owner.read.state)
    ensures FieldsReplaced(After(actions[..k]), After(actions[..k + 1]))
  {
    StepAt(actions, k);
    var s := Run(INITIAL, actions[..k]);
    OnlyReplacingReplaces(s, actions[k]);
  }

  lemma OnlyReplacingReplaces(s: State, a: Action)
    requires Inv(s) && !IsPreparation(s.db.document.state)
    requires Next(s, a).db.fields.Keys != s.db.fields.Keys
    ensures a.ByOwner? && a.owner.DoReplaceFields? && IsPreparation(a.owner.read.state)
    ensures FieldsReplaced(s.db, Next(s, a).db)
  {
    InvStep(s, a);
    match a
    case ByOwner(o) => OwnersReplace(s, o);
    case OnSession(x) => SessionsKeepFields(s, x);
    case BySigner(x) => SignersKeepFields(s, x);
    case ByWorker(w) => WorkersKeepFields(s, w);
  }

  lemma OwnersReplace(s: State, o: OwnerAction)
    requires Inv(s) && !IsPreparation(s.db.document.state)
    requires OwnerNext(s, o).db.fields.Keys != s.db.fields.Keys
    ensures o.DoReplaceFields? && IsPreparation(o.read.state)
  {
    if o.DoReplaceFields? {
      assert Faithful(FieldsRead(o.read, o.roster), s.db);
    }
    if o.DoReplaceSigners? {
      SignersAreReplacedBefore(s, o.read, o.mode, o.entries);
    }
  }

  lemma SignersAreReplacedBefore(s: State, read: Document, mode: SigningMode, entries: seq<SignerEntry>)
    requires Inv(s)
    ensures ReplaceSignersStep(s, read, mode, entries) != s ==> IsPreparation(s.db.document.state)
  {
    if DocumentRead(read) in s.pool {
      assert Faithful(DocumentRead(read), s.db);
    }
  }

  lemma SessionsKeepFields(s: State, x: SessionAction)
    ensures SessionNext(s, x).db.fields == s.db.fields
  {
  }

  lemma SignersKeepFields(s: State, x: SignerAction)
    ensures SignerNext(s, x).db.fields.Keys == s.db.fields.Keys
  {
  }

  lemma WorkersKeepFields(s: State, w: WorkerAction)
    ensures WorkerNext(s, w).db.fields.Keys == s.db.fields.Keys
  {
  }

  /* ---- what stays ---- */

  ghost predicate NothingLands(actions: seq<Action>, from: nat) {
    forall k :: from <= k < |actions| ==> !Lands(actions, k)
  }

  /** From any moment after sending, the stored fields are still the same at the end of the run exactly when
      no replacement has landed since; and if one has, not one of them is left. */
  lemma FieldsStayExactly(actions: seq<Action>, from: nat)
    requires from <= |actions| && !IsPreparation(After(actions[..from]).document.state)
    ensures NothingLands(actions, from) <==> After(actions).fields.Keys == After(actions[..from]).fields.Keys
    ensures !NothingLands(actions, from) ==> After(actions).fields.Keys !! After(actions[..from]).fields.Keys
  {
    if NothingLands(actions, from) {
      FieldsStay(actions, from);
    } else {
      var k :| from <= k < |actions| && Lands(actions, k);
      FieldsGo(actions, from, k);
    }
  }

  lemma {:induction false} FieldsStay(actions: seq<Action>, from: nat)
    requires from <= |actions| && !IsPreparation(After(actions[..from]).document.state) && NothingLands(actions, from)
    ensures After(actions).fields.Keys == After(actions[..from]).fields.Keys
  {
    if from == |actions| {
      assert actions[..from] == actions;
    } else {
      var n := |actions| - 1;
      EarlierLands(actions, from);
      assert actions[..n][..from] == actions[..from] && actions[..n + 1] == actions;
      FieldsStay(actions[..n], from);
      EvolvesFrom(actions[..n], from);
      assert !Lands(actions, n);
    }
  }

  lemma EarlierLands(actions: seq<Action>, from: nat)
    requires actions != [] && NothingLands(actions, from)
    ensures NothingLands(actions[..|actions| - 1], from)
  {
    var before := actions[..|actions| - 1];
    forall k | from <= k < |before|
      ensures !Lands(before, k)
    {
      assert before[..k] == actions[..k] && before[..k + 1] == actions[..k + 1];
      assert !Lands(actions, k);
    }
  }

  lemma FieldsGo(actions: seq<Action>, from: nat, k: nat)
    requires from <= k < |actions| && !IsPreparation(After(actions[..from]).document.state) && Lands(actions, k)
    ensures After(actions).fields.Keys !! After(actions[..from]).fields.Keys
    ensures After(actions).fields != map[]
  {
    assert actions[..k][..from] == actions[..from];
    EvolvesFrom(actions[..k], from);
    StepAt(actions, k);
    OnlyReplacementsLand(actions, k);
    EvolvesFrom(actions, k + 1);
    GoneForGood(After(actions[..from]), After(actions[..k]), After(actions[..k + 1]), After(actions));
  }

  lemma GoneForGood(a: Tables, b: Tables, c: Tables, d: Tables)
    requires Consistent(a) && Consistent(b)
    requires Evolves(a, b) && FieldsReplaced(b, c) && Advances(b, c) && Evolves(c, d)
    requires !IsPreparation(c.document.state)
    ensures d.fields.Keys !! a.fields.Keys && d.fields != map[]
  {
    forall f | f in d.fields
      ensures f !in a.fields
    {
      if f in c.fields {
        assert f !in b.fieldIds;
      }
    }
  }

  /** Whatever the current revision draws is still a stored field, marked, exactly as long as no
      replacement has landed on a document with something drawn. */
  lemma DrawnIsStoredExactly(actions: seq<Action>)
    ensures (forall f :: f in Drawn(After(actions)) ==> f in After(actions).fields)
            <==> forall k :: 0 <= k < |actions| && Lands(actions, k) ==> Drawn(After(actions[..k])) == []
  {
    if forall k :: 0 <= k < |actions| && Lands(actions, k) ==> Drawn(After(actions[..k])) == [] {
      DrawnStaysStored(actions);
    } else {
      var k :| 0 <= k < |actions| && Lands(actions, k) && Drawn(After(actions[..k])) != [];
      DrawnIsOrphaned(actions, k);
    }
  }

  lemma {:induction false} DrawnStaysStored(actions: seq<Action>)
    requires forall k :: 0 <= k < |actions| && Lands(actions, k) ==> Drawn(After(actions[..k])) == []
    ensures forall f :: f in Drawn(After(actions)) ==> f in After(actions).fields
  {
    if actions != [] {
      var n := |actions| - 1;
      var before := actions[..n];
      forall k | 0 <= k < n && Lands(before, k)
        ensures Drawn(After(before[..k])) == []
      {
        assert before[..k] == actions[..k] && before[..k + 1] == actions[..k + 1];
        assert Lands(actions, k);
      }
      DrawnStaysStored(before);
      StepAt(actions, n);
      assert actions[..n + 1] == actions;
      if Lands(actions, n) {
        OnlyReplacementsLand(actions, n);
      }
    }
  }

  /** A drawn field that is replaced stays drawn and never comes back. */
  lemma DrawnIsOrphaned(actions: seq<Action>, k: nat)
    requires k < |actions| && Lands(actions, k) && Drawn(After(actions[..k])) != []
    ensures exists f :: f in Drawn(After(actions)) && f !in After(actions).fields
  {
    StepAt(actions, k);
    OnlyReplacementsLand(actions, k);
    EvolvesFrom(actions, k + 1);
    Orphaned(After(actions[..k]), After(actions[..k + 1]), After(actions));
  }

  lemma Orphaned(a: Tables, b: Tables, c: Tables)
    requires Consistent(a) && FieldsReplaced(a, b) && Advances(a, b) && Evolves(b, c) && Consistent(b) && Drawn(a) != []
    ensures exists f :: f in Drawn(c) && f !in c.fields
  {
    var f := Drawn(a)[0];
    assert Drawn(a) <= Drawn(b) <= Drawn(c);
    assert f in Drawn(a) && f in b.fieldIds && f !in b.fields;
    assert f in Drawn(c) && f !in c.fields;
  }

  /* ---- what a worker is still sure of ---- */

  /** Every flatten read that is still current lists what is there to draw. */
  ghost predicate ListingsCurrent(s: State) {
    forall q :: q in s.pool ==> ListingCurrent(q, s.db)
  }

  ghost predicate ListingCurrent(q: Snapshot, t: Tables) {
    match q
    case FlattenRead(g, d, pending, _) => t.document == d ==> ListsPending(t.fields, g, pending)
    case Leased(l) => t.document == l.leased ==> ListsPending(t.fields, l.signerId, l.pending)
    case _ => true
  }

  /** Where no replacement has landed, every commit that goes through leaves all fields of its signer drawn. */
  lemma UndisturbedCommitDraws(actions: seq<Action>, lease: Lease, newRevisionId: Id, digest: Id)
    requires NothingLands(actions, 0)
    requires Leased(lease) in Run(INITIAL, actions).pool && newRevisionId !in After(actions).revisions
    requires CommitFlatten(After(actions), lease, newRevisionId, digest).Ok?
    ensures var t' := CommitFlatten(After(actions), lease, newRevisionId, digest).value;
            forall f :: f in t'.fields && t'.fields[f].signerId == lease.signerId ==> f in Drawn(t')
  {
    ListingsStayCurrent(actions);
    CommitDrawsTheSigner(actions, lease, newRevisionId, digest);
    CommitSucceedsExactly(actions, lease, newRevisionId, digest);
    DrawnExactlyOnce(actions);
    assert ListingCurrent(Leased(lease), After(actions));
  }

  lemma {:induction false} ListingsStayCurrent(actions: seq<Action>)
    requires NothingLands(actions, 0)
    ensures ListingsCurrent(Run(INITIAL, actions))
  {
    if actions != [] {
      var n := |actions| - 1;
      EarlierLands(actions, 0);
      ListingsStayCurrent(actions[..n]);
      StepAt(actions, n);
      assert actions[..n + 1] == actions && !Lands(actions, n);
      ListingsStep(Run(INITIAL, actions[..n]), actions[n]);
    }
  }

  lemma ListingsStep(s: State, a: Action)
    requires Inv(s) && ListingsCurrent(s)
    requires !IsPreparation(s.db.document.state) ==> Next(s, a).db.fields.Keys == s.db.fields.Keys
    ensures ListingsCurrent(Next(s, a))
  {
    var s' := Next(s, a);
    InvStep(s, a);
    forall q | q in s'.pool
      ensures ListingCurrent(q, s'.db)
    {
      if q in s.pool {
        assert ListingCurrent(q, s.db) && Faithful(q, s.db);
        ListingSurvives(q, s.db, s'.db);
      } else {
        NewListingIsCurrent(s, a, q);
      }
    }
  }

  lemma ListingSurvives(q: Snapshot, a: Tables, b: Tables)
    requires Faithful(q, a) && ListingCurrent(q, a) && Advances(a, b)
    requires FieldsAreKnown(a)
    requires !IsPreparation(a.document.state) ==> b.fields.Keys == a.fields.Keys
    ensures ListingCurrent(q, b)
  {
    if !IsPreparation(a.document.state) {
      SameKeysStay(a, b);
    }
  }

  lemma SameKeysStay(a: Tables, b: Tables)
    requires FieldsAreKnown(a)
    ensures FieldsReplaced(a, b) ==> b.fields.Keys != a.fields.Keys
  {
    if FieldsReplaced(a, b) {
      var f :| f in b.fields;
      assert f !in a.fields;
    }
  }

  lemma NewListingIsCurrent(s: State, a: Action, q: Snapshot)
    requires Inv(s) && ListingsCurrent(s) && q !in s.pool && q in Next(s, a).pool
    ensures ListingCurrent(q, Next(s, a).db)
  {
    match a
    case ByOwner(o) => OwnersListNothing(s, o, q);
    case OnSession(x) => SessionsListNothing(s, x, q);
    case BySigner(x) => SignersListNothing(s, x, q);
    case ByWorker(w) => NewWorkerListing(s, w, q);
  }

  lemma OwnersListNothing(s: State, o: OwnerAction, q: Snapshot)
    requires q !in s.pool && q in OwnerNext(s, o).pool
    ensures !q.FlattenRead? && !q.Leased?
  {
  }

  lemma SessionsListNothing(s: State, x: SessionAction, q: Snapshot)
    requires q !in s.pool && q in SessionNext(s, x).pool
    ensures !q.FlattenRead? && !q.Leased?
  {
  }

  lemma SignersListNothing(s: State, x: SignerAction, q: Snapshot)
    requires q !in s.pool && q in SignerNext(s, x).pool
    ensures !q.FlattenRead? && !q.Leased?
  {
  }

  lemma NewWorkerListing(s: State, w: WorkerAction, q: Snapshot)
    requires Inv(s) && ListingsCurrent(s) && q !in s.pool && q in WorkerNext(s, w).pool
    ensures ListingCurrent(q, WorkerNext(s, w).db)
  {
    if w.DoClaim? {
      assert ListingCurrent(w.flatten, s.db);
    }
  }
}
