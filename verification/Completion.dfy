/** What signing does to the fields, over whole runs. */
module Completion {
  import opened Results
  import opened Lifecycle
  import opened Envelope
  import opened UnitsOfWork
  import opened Protocol
  import opened Invariants
  import opened StepLemmas
  import opened Safety
  import opened Evolution
  import opened Theorems
  import opened SignerEffects
  import opened Replacements

  /** In every reachable state only signers who signed have completed fields. */
  lemma CompletedFieldsAreSigned(actions: seq<Action>)
    ensures var t := After(actions);
            forall f :: f in t.fields && t.fields[f].completed ==>
              t.fields[f].signerId in t.signers && t.signers[t.fields[f].signerId].status == Signed
  {
    InvAlways(actions);
  }

  /** Completion is never undone: a completed field stays completed for as long as it is stored. */
  lemma CompletionStays(actions: seq<Action>, from: nat, f: Id)
    requires from <= |actions| && f in After(actions[..from]).fields && f in After(actions).fields
    requires After(actions[..from]).fields[f].completed
    ensures After(actions).fields[f].completed
  {
    EvolvesFrom(actions, from);
  }

  /** As long as no replacement lands, every required field of a signer who signed is completed. */
  lemma RequiredFieldsGetCompleted(actions: seq<Action>)
    requires NothingLands(actions, 0)
    ensures var t := After(actions);
            forall f :: f in t.fields && t.fields[f].required
                        && t.fields[f].signerId in t.signers && t.signers[t.fields[f].signerId].status == Signed ==>
              t.fields[f].completed
  {
    AllIsDone(actions);
  }

  /** Nothing required is missing: not from the fields of those who signed, and not from what anybody has
      read and selected in order to sign. */
  ghost predicate Done(s: State) {
    && (forall f :: f in s.db.fields ==> FieldIsDone(s.db, f))
    && (forall q :: q in s.pool ==> SelectionIsDone(s.db, q))
  }

  ghost predicate FieldIsDone(t: Tables, f: Id)
    requires f in t.fields
  {
    t.fields[f].required && t.fields[f].signerId in t.signers && t.signers[t.fields[f].signerId].status == Signed ==> t.fields[f].completed
  }

  ghost predicate SelectionIsDone(t: Tables, q: Snapshot) {
    q.SignRead? ==> SelectsRequired(t, q.read.signerId, q.read.selected)
  }

  lemma {:induction false} AllIsDone(actions: seq<Action>)
    requires NothingLands(actions, 0)
    ensures Done(Run(INITIAL, actions))
  {
    if actions != [] {
      var n := |actions| - 1;
      EarlierLands(actions, 0);
      AllIsDone(actions[..n]);
      StepAt(actions, n);
      assert actions[..n + 1] == actions && !Lands(actions, n);
      assert Run(INITIAL, actions[..n]) == Run(INITIAL, actions[..n]) && Reachable(Run(INITIAL, actions[..n]));
      DoneStep(Run(INITIAL, actions[..n]), actions[n]);
    }
  }

  lemma DoneStep(s: State, a: Action)
    requires Reachable(s) && Inv(s) && Done(s)
    requires !IsPreparation(s.db.document.state) ==> Next(s, a).db.fields.Keys == s.db.fields.Keys
    ensures Done(Next(s, a))
  {
    var s' := Next(s, a);
    InvStep(s, a);
    forall q | q in s'.pool
      ensures SelectionIsDone(s'.db, q)
    {
      if q in s.pool {
        assert Faithful(q, s.db) && SelectionIsDone(s.db, q);
        SelectionStaysDone(s.db, s'.db, q);
      } else {
        NewSelectionIsDone(s, a, q);
      }
    }
    forall f | f in s'.db.fields
      ensures FieldIsDone(s'.db, f)
    {
      FieldGetsDone(s, a, f);
    }
  }

  lemma SelectionStaysDone(a: Tables, b: Tables, q: Snapshot)
    requires Faithful(q, a) && SelectionIsDone(a, q) && Advances(a, b) && FieldsAreKnown(a)
    requires !IsPreparation(a.document.state) ==> b.fields.Keys == a.fields.Keys
    ensures SelectionIsDone(b, q)
  {
    if q.SignRead? {
      SameKeysStay(a, b);
    }
  }

  lemma NewSelectionIsDone(s: State, a: Action, q: Snapshot)
    requires Reachable(s) && q !in s.pool && q in Next(s, a).pool
    ensures SelectionIsDone(Next(s, a).db, q)
  {
    match a
    case ByOwner(o) => OwnersSelectNothing(s, o, q);
    case OnSession(x) => SessionsSelectNothing(s, x, q);
    case BySigner(x) =>
      if x.LoadForSigning? {
        LoadingForSigning(s, x.sessionId, x.selected, x.now);
      }
    case ByWorker(w) => WorkersSelectNothing(s, w, q);
  }

  lemma OwnersSelectNothing(s: State, o: OwnerAction, q: Snapshot)
    requires q !in s.pool && q in OwnerNext(s, o).pool
    ensures !q.SignRead?
  {
  }

  lemma SessionsSelectNothing(s: State, x: SessionAction, q: Snapshot)
    requires q !in s.pool && q in SessionNext(s, x).pool
    ensures !q.SignRead?
  {
  }

  lemma WorkersSelectNothing(s: State, w: WorkerAction, q: Snapshot)
    requires q !in s.pool && q in WorkerNext(s, w).pool
    ensures !q.SignRead?
  {
  }

  lemma FieldGetsDone(s: State, a: Action, f: Id)
    requires Reachable(s) && Inv(s) && Inv(Next(s, a)) && Advances(s.db, Next(s, a).db) && Done(s)
    requires !IsPreparation(s.db.document.state) ==> Next(s, a).db.fields.Keys == s.db.fields.Keys
    requires f in Next(s, a).db.fields
    ensures FieldIsDone(Next(s, a).db, f)
  {
    var t, t' := s.db, Next(s, a).db;
    var g := t'.fields[f].signerId;
    if g in t'.signers && t'.signers[g].status == Signed {
      NewlySigned(s, a, g);
      if g in t.signers && t.signers[g].status == Signed {
        FieldStaysDone(t, t', f);
      } else {
        SignatureDoes(s, a.signer.signing, f);
      }
    }
  }

  lemma FieldStaysDone(t: Tables, t': Tables, f: Id)
    requires Consistent(t) && Advances(t, t') && !IsPreparation(t.document.state) && t'.fields.Keys == t.fields.Keys
    requires f in t.fields && FieldIsDone(t, f)
    requires t.fields[f].signerId in t.signers && t.signers[t.fields[f].signerId].status == Signed
    ensures FieldIsDone(t', f)
  {
    SameKeysStay(t, t');
  }

  lemma SignatureDoes(s: State, read: SigningRead, f: Id)
    requires Reachable(s) && Inv(s) && Done(s) && SignRead(read) in s.pool && CompleteSigning(s.db, read).Ok?
    requires f in s.db.fields && s.db.fields[f].signerId == read.signerId
    ensures FieldIsDone(Next(s, BySigner(DoCompleteSigning(read))).db, f)
  {
    assert SelectionIsDone(s.db, SignRead(read)) && Faithful(SignRead(read), s.db);
    Signing(s, read);
    AnswerIsWritten(s.db, read);
  }

  /** Whoever is signed after a step was signed before it, or has just signed. */
  lemma NewlySigned(s: State, a: Action, g: Id)
    requires Inv(s) && g in Next(s, a).db.signers && Next(s, a).db.signers[g].status == Signed
    ensures (g in s.db.signers && s.db.signers[g].status == Signed)
            || (&& a.BySigner? && a.signer.DoCompleteSigning? && a.signer.signing.signerId == g
                && SignRead(a.signer.signing) in s.pool && CompleteSigning(s.db, a.signer.signing).Ok?)
  {
    match a
    case ByOwner(o) => OwnersSignNobody(s, o, g);
    case OnSession(x) => SessionsLeaveSigners(s, x);
    case BySigner(x) => SignersSignThemselves(s, x, g);
    case ByWorker(w) => WorkersLeaveSigners(s, w);
  }

  lemma OwnersSignNobody(s: State, o: OwnerAction, g: Id)
    requires g in OwnerNext(s, o).db.signers && OwnerNext(s, o).db.signers[g].status == Signed
    ensures g in s.db.signers && s.db.signers[g].status == Signed
  {
    if o.DoReplaceSigners? {
      ReplacedArePending(s.db, o.read, o.mode, o.entries);
    } else {
      assert OwnerNext(s, o).db.signers == s.db.signers;
    }
  }

  lemma SignersSignThemselves(s: State, x: SignerAction, g: Id)
    requires g in SignerNext(s, x).db.signers && SignerNext(s, x).db.signers[g].status == Signed
    ensures (g in s.db.signers && s.db.signers[g].status == Signed)
            || (x.DoCompleteSigning? && x.signing.signerId == g && SignRead(x.signing) in s.pool && CompleteSigning(s.db, x.signing).Ok?)
  {
  }
}
