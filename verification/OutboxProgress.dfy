/** That every event comes to an end, and how long its retries make it wait. */
module OutboxProgress {
  import opened Outbox
  import opened OutboxRuns
  import opened OutboxTheorems
  import opened Backoff

  /* ---- nothing but a closed event rests ---- */

  /** An event is closed exactly when no step whatever changes its row. */
  lemma OnlyClosedEventsRest(actions: seq<Action>, i: nat)
    requires i < |Run(actions).q.events|
    ensures IsClosed(Run(actions).q.events[i].status)
            <==> forall a :: i < |Next(Run(actions), a).q.events| && Next(Run(actions), a).q.events[i] == Run(actions).q.events[i]
  {
    InvAlways(actions);
    var s := Run(actions);
    var e := s.q.events[i];
    if IsClosed(e.status) {
      forall a
        ensures i < |Next(s, a).q.events| && Next(s, a).q.events[i] == e
      {
        StepOnEvent(s, a, i);
      }
    } else {
      var now := if e.leaseUntil.Some? && e.availableAt <= e.leaseUntil.value then e.leaseUntil.value + 1 else e.availableAt;
      var a := ClaimByNewcomer(s, i, now);
      assert Next(s, a).q.events[i] != e;
    }
  }

  /** Whoever holds no ticket may claim a due event. */
  lemma ClaimByNewcomer(s: State, i: nat, now: int) returns (a: Action)
    requires i < |s.q.events| && Claimable(s.q.events[i], s.q.events[i].kind, now)
    ensures a.Claim? && a.index == i && MayClaim(s, a)
    ensures i < |Next(s, a).q.events| && Next(s, a).q.events[i].attemptCount == s.q.events[i].attemptCount + 1
  {
    var owner := NewcomerTo(s.tickets.Keys);
    a := Claim(owner, i, s.q.events[i].kind, now, now, s.q.events[i].id);
  }

  lemma NewcomerTo(owners: set<Id>) returns (newcomer: Id)
    ensures newcomer !in owners && forall x :: x in owners ==> x < newcomer
    decreases |owners|
  {
    newcomer := 0;
    if owners != {} {
      var x :| x in owners;
      assert forall y :: y in owners ==> y == x || y in owners - {x};
      newcomer := NewcomerTo(owners - {x});
      newcomer := if newcomer <= x then x + 1 else newcomer;
    }
  }

  ghost predicate CrashFree(actions: seq<Action>) {
    forall k :: 0 <= k < |actions| ==> !actions[k].Crash?
  }

  /** Neither a crash nor the takeover of a lapsed lease. */
  ghost predicate Orderly(s: State, a: Action) {
    !a.Crash? && !TakesOver(s, a)
  }

  /** Without crashes and lapses an event is closed exactly when no further such step changes its row: a
      run in which nothing is left to happen to an event has ended it in processed or failed. Together
      with `LapseFreeRunsEnd`, which bounds the changes, every event comes to an end. */
  lemma OrderlyRunsCloseEvents(actions: seq<Action>, i: nat)
    requires LapseFree(actions) && CrashFree(actions) && i < |Run(actions).q.events|
    ensures IsClosed(Run(actions).q.events[i].status)
            <==> forall a :: Orderly(Run(actions), a) ==>
                   i < |Next(Run(actions), a).q.events| && Next(Run(actions), a).q.events[i] == Run(actions).q.events[i]
  {
    InvAlways(actions);
    HoldersKeepTheirTickets(actions);
    var s := Run(actions);
    var e := s.q.events[i];
    match e.status
    case EventPending =>
      var a := ClaimByNewcomer(s, i, e.availableAt);
      assert Orderly(s, a) && Next(s, a).q.events[i] != e;
    case EventProcessing =>
      var owner := e.leaseOwner.value;
      assert TicketNames(s, i);
      EndedWhereHeld(s, owner, Processed, i);
      assert Orderly(s, Succeed(owner)) && Next(s, Succeed(owner)).q.events[i].status == EventProcessed;
    case _ =>
      OnlyClosedEventsRest(actions, i);
  }

  /** Whoever is leased the event has the ticket for it. */
  ghost predicate TicketNames(s: State, i: nat)
    requires i < |s.q.events|
  {
    s.q.events[i].status == EventProcessing ==>
      && s.q.events[i].leaseOwner.Some?
      && s.q.events[i].leaseOwner.value in s.tickets
      && var t := s.tickets[s.q.events[i].leaseOwner.value]; HoldsEvent(s.q.events[i], t.eventId, t.organizationId, s.q.events[i].leaseOwner.value)
  }

  ghost predicate TicketsName(s: State) {
    forall i :: 0 <= i < |s.q.events| ==> TicketNames(s, i)
  }

  lemma {:induction false} HoldersKeepTheirTickets(actions: seq<Action>)
    requires LapseFree(actions) && CrashFree(actions)
    ensures TicketsName(Run(actions))
  {
    if actions != [] {
      var last := |actions| - 1;
      forall k | 0 <= k < last
        ensures !TakesOver(Run(actions[..last][..k]), actions[..last][k])
      {
        assert actions[..last][..k] == actions[..k];
      }
      HoldersKeepTheirTickets(actions[..last]);
      InvAlways(actions[..last]);
      OrderlyStepKeepsTickets(Run(actions[..last]), actions[last]);
    }
  }

  lemma OrderlyStepKeepsTickets(s: State, a: Action)
    requires Inv(s) && TicketsName(s) && Orderly(s, a)
    ensures TicketsName(Next(s, a))
  {
    if a.Succeed? && a.doneBy in s.tickets {
      EndKeepsTickets(s, a.doneBy, Processed);
    } else if a.Fail? && a.failedBy in s.tickets {
      EndKeepsTickets(s, a.failedBy, FailureEnding(s.tickets[a.failedBy], a.retryable, a.error, a.retryAt));
    } else if a.Claim? && MayClaim(s, a) {
      ClaimKeepsTickets(s, a);
    } else {
      forall i | 0 <= i < |Next(s, a).q.events|
        ensures TicketNames(Next(s, a), i)
      {
        assert i < |s.q.events| ==> TicketNames(s, i);
      }
    }
  }

  lemma ClaimKeepsTickets(s: State, a: Action)
    requires TicketsName(s) && a.Claim? && MayClaim(s, a)
    ensures TicketsName(Next(s, a))
  {
    var s' := Next(s, a);
    forall i | 0 <= i < |s'.q.events|
      ensures TicketNames(s', i)
    {
      assert TicketNames(s, i);
    }
  }

  lemma EndKeepsTickets(s: State, owner: Id, ending: Ending)
    requires Inv(s) && TicketsName(s) && owner in s.tickets
    ensures TicketsName(EndTicket(s, owner, ending))
  {
    var s', t := EndTicket(s, owner, ending), s.tickets[owner];
    EndReplacesThePair(s.q, owner, t, ending);
    forall i | 0 <= i < |s'.q.events|
      ensures TicketNames(s', i)
    {
      assert TicketNames(s, i);
      EventsEndAlike(s.q, owner, t, EventIndex(s.q, t.eventId, t.organizationId, owner));
    }
  }

  /* ---- how long the retries of an event make it wait ---- */

  /** A failure is retried after the delay the backoff computes for the attempt that failed. */
  ghost predicate BacksOff(s: State, a: Action, policy: Policy) {
    a.Fail? && a.failedBy in s.tickets ==>
      exists draw :: a.retryAt - a.failedAt == ComputeBackoffMs(s.tickets[a.failedBy].attemptCount, policy, draw)
  }

  ghost predicate AlwaysBacksOff(actions: seq<Action>, policy: Policy) {
    forall k :: 0 <= k < |actions| ==> BacksOff(Run(actions[..k]), actions[k], policy)
  }

  /** The step puts the i-th event back to be tried again. */
  ghost predicate Retries(s: State, a: Action, i: nat) {
    && a.Fail? && i < |s.q.events| && s.q.events[i].status == EventProcessing
    && i < |Next(s, a).q.events| && Next(s, a).q.events[i].status == EventPending
  }

  /** A retried event is due again no sooner than half the capped exponential of its attempt after the
      failure, and before the whole of it is over. */
  lemma RetryIsDueInTime(s: State, a: Action, i: nat, policy: Policy)
    requires Inv(s) && BacksOff(s, a, policy) && Retries(s, a, i)
    ensures Next(s, a).q.events[i].availableAt == a.retryAt
    ensures var whole := Exponential(s.q.events[i].attemptCount, policy);
            whole / 2 <= a.retryAt - a.failedAt <= whole && (whole > 0 ==> a.retryAt - a.failedAt < whole)
    ensures Next(s, a).q.events[i].attemptCount == s.q.events[i].attemptCount
  {
    var t := s.tickets[a.failedBy];
    EndReplacesThePair(s.q, a.failedBy, t, FailureEnding(t, a.retryable, a.error, a.retryAt));
    var draw :| a.retryAt - a.failedAt == ComputeBackoffMs(t.attemptCount, policy, draw);
    BackoffBounds(t.attemptCount, policy, draw);
  }

  ghost function Retried(actions: seq<Action>, i: nat): nat {
    if actions == [] then 0
    else
      var last := |actions| - 1;
      Retried(actions[..last], i) + if Retries(Run(actions[..last]), actions[last], i) then 1 else 0
  }

  /** The delays of all retries of the i-th event. */
  ghost function Waited(actions: seq<Action>, i: nat): int {
    if actions == [] then 0
    else
      var last := |actions| - 1;
      Waited(actions[..last], i) + if Retries(Run(actions[..last]), actions[last], i) then actions[last].retryAt - actions[last].failedAt else 0
  }

  /** The attempts an event may have been retried after. */
  function Spent(e: OutboxEvent): nat {
    if e.status == EventPending || e.attemptCount == 0 then e.attemptCount else e.attemptCount - 1
  }

  /** In any run, lapses and crashes included, an event is retried at most once for each of its attempts,
      and all its retries together wait less than the capped exponentials of those attempts add up to. */
  lemma {:induction false} WaitsAddUp(actions: seq<Action>, i: nat, policy: Policy)
    requires AlwaysBacksOff(actions, policy) && policy.baseDelayMs > 0 && policy.maxDelayMs > 0
    requires i < |Run(actions).q.events|
    ensures Adds(Run(actions).q.events[i], Retried(actions, i), Waited(actions, i), policy)
  {
    var last := |actions| - 1;
    var before, a := actions[..last], actions[last];
    InvAlways(before);
    BacksOffBefore(actions, policy);
    assert BacksOff(Run(before), a, policy);
    if i < |Run(before).q.events| {
      WaitsAddUp(before, i, policy);
      OneMoreStep(Run(before), a, i, policy, Retried(before, i), Waited(before, i));
    } else {
      NothingRetriedYet(before, i);
      NewEventsStart(Run(before), a, i);
    }
  }

  /** What the retries of an event and their delays add up to. */
  predicate Adds(e: OutboxEvent, retried: nat, waited: int, policy: Policy) {
    && (e.status == EventProcessing ==> e.attemptCount > 0)
    && retried <= Spent(e)
    && 0 <= waited <= TotalExponential(Spent(e), policy) - retried
  }

  lemma OneMoreStep(s: State, a: Action, i: nat, policy: Policy, retried: nat, waited: int)
    requires Inv(s) && BacksOff(s, a, policy) && policy.baseDelayMs > 0 && policy.maxDelayMs > 0
    requires i < |s.q.events| && Adds(s.q.events[i], retried, waited, policy)
    ensures i < |Next(s, a).q.events|
    ensures Adds(Next(s, a).q.events[i], retried + if Retries(s, a, i) then 1 else 0, waited + if Retries(s, a, i) then a.retryAt - a.failedAt else 0, policy)
  {
    StepOnEvent(s, a, i);
    var takesOver := a.Claim? && MayClaim(s, a) && a.index == i;
    if Retries(s, a, i) {
      RetryIsDueInTime(s, a, i, policy);
      PositiveExponential(s.q.events[i].attemptCount, policy);
      RowAdds(s.q.events[i], Next(s, a).q.events[i], takesOver, policy, retried, waited, 1, a.retryAt - a.failedAt);
    } else {
      RowAdds(s.q.events[i], Next(s, a).q.events[i], takesOver, policy, retried, waited, 0, 0);
    }
  }

  lemma RowAdds(e: OutboxEvent, e': OutboxEvent, takesOver: bool, policy: Policy, retried: nat, waited: int, more: nat, delay: nat)
    requires StepsOn(e, e', takesOver) && Adds(e, retried, waited, policy)
    requires more + delay > 0 ==> e.status == EventProcessing && e'.status == EventPending
    requires more + delay > 0 ==> more == 1 && delay < Exponential(e.attemptCount, policy)
    ensures Adds(e', retried + more, waited + delay, policy)
  {
    SpentGrows(e, e', takesOver, policy);
  }

  lemma BacksOffBefore(actions: seq<Action>, policy: Policy)
    requires AlwaysBacksOff(actions, policy) && actions != []
    ensures AlwaysBacksOff(actions[..|actions| - 1], policy)
  {
    var before := actions[..|actions| - 1];
    forall k | 0 <= k < |before|
      ensures BacksOff(Run(before[..k]), before[k], policy)
    {
      assert before[..k] == actions[..k];
    }
  }

  lemma SpentGrows(e: OutboxEvent, e': OutboxEvent, takesOver: bool, policy: Policy)
    requires StepsOn(e, e', takesOver)
    ensures TotalExponential(Spent(e), policy) <= TotalExponential(Spent(e'), policy) && Spent(e) <= Spent(e')
    ensures e.status == EventProcessing && e'.status == EventPending && e.attemptCount > 0 ==>
              Spent(e') == e.attemptCount == Spent(e) + 1
  {
  }

  lemma {:induction false} NothingRetriedYet(actions: seq<Action>, i: nat)
    requires i >= |Run(actions).q.events|
    ensures Retried(actions, i) == 0 && Waited(actions, i) == 0
  {
    if actions != [] {
      var last := |actions| - 1;
      EventsOnlyGrow(Run(actions[..last]), actions[last]);
      NothingRetriedYet(actions[..last], i);
    }
  }

  /** Without lapses the bound is the one the job's limit gives: at most one retry less than attempts
      allowed, and a total wait below the sum of their exponentials, which the cap bounds. */
  lemma LapseFreeWait(actions: seq<Action>, i: nat, policy: Policy)
    requires LapseFree(actions) && AlwaysBacksOff(actions, policy) && policy.baseDelayMs > 0 && policy.maxDelayMs > 0
    requires i < |Run(actions).q.events|
    ensures var retries := Limit(Run(actions).q, i) - 1;
            && Retried(actions, i) <= retries
            && Waited(actions, i) + Retried(actions, i) <= TotalExponential(retries, policy) <= retries * policy.maxDelayMs
  {
    var retries := Limit(Run(actions).q, i) - 1;
    WaitsAddUp(actions, i, policy);
    LapseFreeSpends(actions, i);
    TotalGrows(Spent(Run(actions).q.events[i]), retries, policy);
    TotalIsCapped(retries, policy);
  }

  lemma LapseFreeSpends(actions: seq<Action>, i: nat)
    requires LapseFree(actions) && i < |Run(actions).q.events|
    ensures Spent(Run(actions).q.events[i]) <= Limit(Run(actions).q, i) - 1
  {
    LapseFreeRunsEnd(actions, i);
    if Run(actions).q.events[i].status == EventPending {
      PendingAlwaysHasAttempts(actions, i);
    }
  }

  lemma {:induction false} TotalGrows(m: nat, n: nat, policy: Policy)
    requires m <= n
    ensures TotalExponential(m, policy) <= TotalExponential(n, policy)
  {
    if m < n {
      TotalGrows(m, n - 1, policy);
    }
  }
}
