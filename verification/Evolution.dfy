/** What many steps together keep: the transitive consequences of `Advances`, over any stretch of any run. */
module Evolution {
  import opened Lifecycle
  import opened Envelope
  import opened UnitsOfWork
  import opened Protocol
  import opened Invariants
  import opened Safety

  predicate IsEndState(state: DocumentState) {
    state == Voided || state == Declined || state == Finalized
  }

  predicate IsClosed(status: SessionStatus) {
    !IsOpen(status)
  }

  ghost predicate DocumentEvolves(a: Document, b: Document) {
    && (b == a || b.version > a.version)
    && (IsEndState(a.state) ==> b.state == a.state)
    && (a.state == Finalized ==> b == a)
    && (!IsPreparation(a.state) ==> !IsPreparation(b.state) && b.signingMode == a.signingMode)
  }

  /** After sending the roster is fixed and a signer's answer is never taken back. */
  ghost predicate SignersEvolve(a: map<Id, Signer>, b: map<Id, Signer>) {
    && b.Keys == a.Keys
    && (forall g :: g in a ==>
          && b[g].routingOrder == a[g].routingOrder
          && (a[g].status != Pending ==> b[g].status == a[g].status))
  }

  /** Sessions are never deleted, never change hands, never reopen and never become issued again. */
  ghost predicate SessionsEvolve(a: map<Id, Session>, b: map<Id, Session>) {
    && a.Keys <= b.Keys
    && (forall i :: i in a ==>
          && b[i].signerId == a[i].signerId
          && (IsClosed(a[i].status) ==> b[i].status == a[i].status)
          && (b[i].status == Issued ==> a[i].status == Issued)
          && (a[i].consumed ==> b[i].consumed))
  }

  /** A field that is gone never comes back, and one that stays keeps its signer, its completion and its
      mark. After sending the fields stay or go together. */
  ghost predicate FieldsEvolve(a: Tables, b: Tables) {
    && a.fieldIds <= b.fieldIds
    && (forall f :: f in b.fields ==> f in a.fields || f !in a.fieldIds)
    && (!IsPreparation(a.document.state) ==> FieldsKept(a.fields, b.fields))
  }

  ghost predicate FieldsKept(a: map<Id, Field>, b: map<Id, Field>) {
    && (a != map[] ==> b != map[])
    && (forall f :: f in a && f in b ==>
          && b.Keys == a.Keys
          && b[f].signerId == a[f].signerId
          && b[f].required == a[f].required
          && (a[f].completed ==> b[f].completed)
          && (a[f].flattenedRevisionId.Some? ==> b[f].flattenedRevisionId == a[f].flattenedRevisionId))
  }

  ghost predicate Evolves(a: Tables, b: Tables) {
    && DocumentEvolves(a.document, b.document)
    && (!IsPreparation(a.document.state) ==> SignersEvolve(a.signers, b.signers))
    && FieldsEvolve(a, b)
    && SessionsEvolve(a.sessions, b.sessions)
    && RevisionsAdvance(a, b)
    && a.artifacts <= b.artifacts
    && a.flattenJobs <= b.flattenJobs
  }

  lemma AdvancesEvolves(a: Tables, b: Tables)
    requires Consistent(a) && Advances(a, b)
    ensures Evolves(a, b)
  {
    FieldsAdvanceEvolves(a, b);
  }

  lemma FieldsAdvanceEvolves(a: Tables, b: Tables)
    requires FieldsAreKnown(a) && FieldsAdvance(a, b)
    ensures FieldsEvolve(a, b)
  {
    if FieldsStay(a, b) && a.fields != map[] {
      var f :| f in a.fields;
      assert f in b.fields;
    }
  }

  lemma EvolvesTransitive(a: Tables, b: Tables, c: Tables)
    requires FieldsAreKnown(a) && FieldsAreKnown(b) && Evolves(a, b) && Evolves(b, c)
    ensures Evolves(a, c)
  {
    FieldsEvolveTransitive(a, b, c);
  }

  lemma FieldsEvolveTransitive(a: Tables, b: Tables, c: Tables)
    requires FieldsAreKnown(a) && FieldsAreKnown(b) && FieldsEvolve(a, b) && FieldsEvolve(b, c)
    requires !IsPreparation(a.document.state) ==> !IsPreparation(b.document.state)
    ensures FieldsEvolve(a, c)
  {
    forall f | f in a.fields && f in c.fields
      ensures f in b.fields
    {
    }
  }

  lemma {:induction false} RunAppend(s: State, first: seq<Action>, more: seq<Action>)
    ensures Run(s, first + more) == Run(Run(s, first), more)
  {
    if more == [] {
      assert first + more == first;
    } else {
      var all, last := first + more, |more| - 1;
      assert all[..|all| - 1] == first + more[..last];
      RunAppend(s, first, more[..last]);
    }
  }

  lemma {:induction false} InvAlongRun(s: State, actions: seq<Action>)
    requires Inv(s)
    ensures Inv(Run(s, actions)) && Evolves(s.db, Run(s, actions).db)
  {
    if actions != [] {
      var last := |actions| - 1;
      var before := Run(s, actions[..last]);
      InvAlongRun(s, actions[..last]);
      InvStep(before, actions[last]);
      AdvancesEvolves(before.db, Next(before, actions[last]).db);
      EvolvesTransitive(s.db, before.db, Run(s, actions).db);
    }
  }

  /** In every run the tables at any moment evolve into the tables at any later moment. */
  lemma RunsEvolve(first: seq<Action>, more: seq<Action>)
    ensures Evolves(Run(INITIAL, first).db, Run(INITIAL, first + more).db)
    ensures Inv(Run(INITIAL, first)) && Inv(Run(INITIAL, first + more))
  {
    InvAlways(first);
    RunAppend(INITIAL, first, more);
    InvAlongRun(Run(INITIAL, first), more);
  }

  lemma StepAt(actions: seq<Action>, k: nat)
    requires k < |actions|
    ensures Run(INITIAL, actions[..k + 1]) == Next(Run(INITIAL, actions[..k]), actions[k])
    ensures Inv(Run(INITIAL, actions[..k])) && Inv(Run(INITIAL, actions[..k + 1]))
    ensures Advances(After(actions[..k]), After(actions[..k + 1]))
  {
    InvAlways(actions[..k]);
    InvStep(Run(INITIAL, actions[..k]), actions[k]);
    assert actions[..k + 1][..k] == actions[..k];
  }

  lemma {:induction false} EvolvesFrom(actions: seq<Action>, k: nat)
    requires k <= |actions|
    ensures Evolves(After(actions[..k]), After(actions))
    ensures Inv(Run(INITIAL, actions[..k])) && Inv(Run(INITIAL, actions))
  {
    if k == |actions| {
      assert actions[..k] == actions;
      InvAlways(actions);
    } else {
      var n := |actions| - 1;
      assert actions[..n][..k] == actions[..k] && actions[..n + 1] == actions;
      EvolvesFrom(actions[..n], k);
      StepAt(actions, n);
      OneMoreEvolves(After(actions[..k]), After(actions[..n]), After(actions));
    }
  }

  lemma OneMoreEvolves(a: Tables, b: Tables, c: Tables)
    requires Consistent(a) && Consistent(b) && Evolves(a, b) && Advances(b, c)
    ensures Evolves(a, c)
  {
    AdvancesEvolves(b, c);
    EvolvesTransitive(a, b, c);
  }

  lemma ReachableKeepsInv(s: State)
    requires Reachable(s)
    ensures Inv(s)
  {
    var actions :| s == Run(INITIAL, actions);
    InvAlways(actions);
  }
}
