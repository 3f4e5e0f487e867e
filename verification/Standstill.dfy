/** When an envelope that everybody has signed will never be completed. */
module Standstill {
  import opened Lifecycle
  import opened Envelope
  import opened UnitsOfWork
  import opened Protocol
  import opened Invariants
  import opened Safety
  import opened Evolution
  import opened Theorems

  /** A signature that would complete the document if it were submitted now. */
  ghost predicate WouldComplete(s: State, read: SigningRead) {
    SignRead(read) in s.pool && CompletesDocument(read) && CompleteSigning(s.db, read).Ok?
  }

  ghost predicate Waiting(s: State) {
    AllSigned(s.db.signers) && s.db.document.state == InProgress
  }

  /** Once everybody has signed, a document in progress can still get completed exactly when some signing
      request is under way that would complete it at once. Nothing that happens later brings one about. */
  lemma CompletesLaterExactly(first: seq<Action>)
    requires Waiting(Run(INITIAL, first))
    ensures (exists more :: After(first + more).document.state == Completed)
            <==> exists read :: WouldComplete(Run(INITIAL, first), read)
  {
    var s := Run(INITIAL, first);
    if read :| WouldComplete(s, read) {
      var a := BySigner(DoCompleteSigning(read));
      RunAppend(INITIAL, first, [a]);
      OneStepRun(s, a);
      assert After(first + [a]).document.state == Completed;
    } else {
      forall more
        ensures After(first + more).document.state != Completed
      {
        StandsStill(first, more);
      }
    }
  }

  /** As it is, only voiding takes such a document anywhere. */
  lemma {:induction false} StandsStill(first: seq<Action>, more: seq<Action>)
    requires Waiting(Run(INITIAL, first)) && forall read :: !WouldComplete(Run(INITIAL, first), read)
    ensures Stuck(Run(INITIAL, first + more))
    ensures After(first + more).document.state != Completed
  {
    if more == [] {
      assert first + more == first;
      InvAlways(first);
    } else {
      var n := |more| - 1;
      assert (first + more)[..|first + more| - 1] == first + more[..n];
      StandsStill(first, more[..n]);
      StuckStep(Run(INITIAL, first + more[..n]), more[n]);
    }
  }

  ghost predicate Stuck(s: State) {
    && Inv(s)
    && (s.db.document.state == Voided || (Waiting(s) && forall read :: !WouldComplete(s, read)))
  }

  lemma StuckStep(s: State, a: Action)
    requires Stuck(s)
    ensures Stuck(Next(s, a))
  {
    InvStep(s, a);
    if s.db.document.state != Voided {
      var s' := Next(s, a);
      NobodyIsLeft(s.db, s'.db);
      StateMoves(s, a);
      if Waiting(s') {
        NobodyWould(s, a);
      }
    }
  }

  lemma NobodyWould(s: State, a: Action)
    requires Inv(s) && Inv(Next(s, a)) && Advances(s.db, Next(s, a).db) && Waiting(s) && Waiting(Next(s, a))
    requires forall read :: !WouldComplete(s, read)
    ensures forall read :: !WouldComplete(Next(s, a), read)
  {
    forall read
      ensures !WouldComplete(Next(s, a), read)
    {
      NobodyReadsToSign(s, a, read);
      StillWouldNot(s, Next(s, a), read);
    }
  }

  lemma NobodyIsLeft(t: Tables, t': Tables)
    requires AllSigned(t.signers) && !IsPreparation(t.document.state) && Advances(t, t')
    ensures AllSigned(t'.signers)
  {
  }

  /** Frame: with everybody signed, a document in progress is only voided or completed by a signature. */
  lemma StateMoves(s: State, a: Action)
    requires Stuck(s) && s.db.document.state == InProgress
    ensures Next(s, a).db.document.state == InProgress || Next(s, a).db.document.state == Voided
  {
    match a
    case ByOwner(o) => OwnersOnlyVoid(s, o);
    case OnSession(x) => SessionsKeepState(s, x);
    case BySigner(x) => SignersKeepState(s, x);
    case ByWorker(w) => WorkersKeepState(s, w);
  }

  lemma OwnersOnlyVoid(s: State, o: OwnerAction)
    requires Inv(s) && s.db.document.state == InProgress
    ensures OwnerNext(s, o).db.document.state == InProgress || OwnerNext(s, o).db.document.state == Voided
  {
    InvStep(s, ByOwner(o));
    OwnersNeverComplete(s, o);
  }

  lemma OwnersNeverComplete(s: State, o: OwnerAction)
    requires s.db.document.state == InProgress
    ensures OwnerNext(s, o).db.document.state != Completed && OwnerNext(s, o).db.document.state != Declined
    ensures OwnerNext(s, o).db.document.state != Expired
  {
  }

  lemma SessionsKeepState(s: State, x: SessionAction)
    ensures SessionNext(s, x).db.document == s.db.document
  {
  }

  lemma SignersKeepState(s: State, x: SignerAction)
    requires Inv(s) && Waiting(s) && forall read :: !WouldComplete(s, read)
    ensures SignerNext(s, x).db.document.state == InProgress
  {
    if x.DoCompleteSigning? {
      assert !WouldComplete(s, x.signing);
    }
  }

  lemma WorkersKeepState(s: State, w: WorkerAction)
    requires Inv(s) && s.db.document.state == InProgress
    ensures WorkerNext(s, w).db.document.state == InProgress
  {
    if w.DoCommitFlatten? && Leased(w.lease) in s.pool {
      assert Faithful(Leased(w.lease), s.db);
    }
  }

  /** Frame: somebody who has signed is not let in to sign. */
  lemma NobodyReadsToSign(s: State, a: Action, read: SigningRead)
    requires AllSigned(s.db.signers)
    ensures SignRead(read) in Next(s, a).pool ==> SignRead(read) in s.pool
  {
    match a
    case ByOwner(o) =>
    case OnSession(x) =>
    case BySigner(x) =>
    case ByWorker(w) =>
  }

  /** What cannot complete the document now cannot do so later. */
  lemma StillWouldNot(s: State, s': State, read: SigningRead)
    requires Inv(s) && Inv(s') && Advances(s.db, s'.db) && Waiting(s)
    requires SignRead(read) in s'.pool ==> SignRead(read) in s.pool
    ensures Waiting(s') && WouldComplete(s', read) ==> WouldComplete(s, read)
  {
    if Waiting(s') && WouldComplete(s', read) {
      assert Faithful(SignRead(read), s.db) && Faithful(SignRead(read), s'.db);
      assert s.db.document == read.document;
      assert read.selected <= s.db.fields.Keys;
    }
  }
}
