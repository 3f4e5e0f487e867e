/** What the coupling buys: agreement of the two claimers, exact lease ownership, conservation of attempts
    and termination. */
module OutboxTheorems {
  import opened Results
  import opened Outbox
  import opened OutboxRuns

  /** The owner still holds the event its ticket names. */
  ghost predicate StillHolds(s: State, owner: Id) {
    owner in s.tickets
    && var t := s.tickets[owner]; exists i :: 0 <= i < |s.q.events| && HoldsEvent(s.q.events[i], t.eventId, t.organizationId, owner)
  }

  /** In every reachable state the memory claimer's weaker job guard makes the same updates as the
      guarded updates of the database claimer. */
  lemma MemoryEndsAsDatabase(actions: seq<Action>, owner: Id, ending: Ending)
    requires owner in Run(actions).tickets
    ensures var q, t := Run(actions).q, Run(actions).tickets[owner];
            End(q, t.eventId, t.jobId, t.organizationId, owner, ending) == GuardedEnd(q, t.eventId, t.jobId, t.organizationId, owner, ending)
  {
    InvAlways(actions);
    EndsAlike(Run(actions).q, owner, Run(actions).tickets[owner], ending);
  }

  lemma EndsAlike(q: Queue, owner: Id, t: Ticket, ending: Ending)
    requires Coupled(q) && TicketFits(q, owner, t)
    ensures End(q, t.eventId, t.jobId, t.organizationId, owner, ending) == GuardedEnd(q, t.eventId, t.jobId, t.organizationId, owner, ending)
  {
    var memory, database := End(q, t.eventId, t.jobId, t.organizationId, owner, ending), GuardedEnd(q, t.eventId, t.jobId, t.organizationId, owner, ending);
    var i := EventIndex(q, t.eventId, t.organizationId, owner);
    EndFindsThePair(q, owner, t);
    EventsEndAlike(q, owner, t, i);
    JobsEndAlike(q, owner, t, i);
    assert memory.events == database.events;
    assert memory.jobs == database.jobs;
  }

  lemma EventsEndAlike(q: Queue, owner: Id, t: Ticket, i: int)
    requires Coupled(q) && i == EventIndex(q, t.eventId, t.organizationId, owner)
    ensures forall k :: 0 <= k < |q.events| ==> (HoldsEvent(q.events[k], t.eventId, t.organizationId, owner) <==> k == i)
  {
  }

  lemma JobsEndAlike(q: Queue, owner: Id, t: Ticket, i: int)
    requires Coupled(q) && TicketFits(q, owner, t) && i == EventIndex(q, t.eventId, t.organizationId, owner)
    ensures forall k :: 0 <= k < |q.jobs| ==>
              (OwnsJob(q.jobs[k], t.jobId, t.organizationId, owner) && q.jobs[k].status == JobLeased
               <==> i >= 0 && k == OwnedJobIndex(q, t.jobId, t.organizationId, owner))
  {
    EndFindsThePair(q, owner, t);
    forall k | 0 <= k < |q.jobs| && OwnsJob(q.jobs[k], t.jobId, t.organizationId, owner) && q.jobs[k].status == JobLeased
      ensures i >= 0
    {
      var j :| 0 <= j < |q.jobs| && JobFits(q, t, j);
      assert j == k;
      assert HasEvent(q, q.jobs[k].outboxEventId);
      var e :| 0 <= e < |q.events| && q.events[e].id == t.eventId;
      assert Agree(q.events[e], q.jobs[k]);
      assert HoldsEvent(q.events[e], t.eventId, t.organizationId, owner);
    }
  }

  /** An outcome changes something exactly when its owner still holds the lease. */
  lemma OutcomeNeedsTheLease(actions: seq<Action>, owner: Id, ending: Ending)
    requires owner in Run(actions).tickets
    ensures EndTicket(Run(actions), owner, ending).q != Run(actions).q <==> StillHolds(Run(actions), owner)
  {
    InvAlways(actions);
    var s := Run(actions);
    var t := s.tickets[owner];
    EndReplacesThePair(s.q, owner, t, ending);
    var i := EventIndex(s.q, t.eventId, t.organizationId, owner);
    if i >= 0 {
      assert EndedEvent(s.q.events[i], ending).status != EventProcessing;
    }
  }

  /** A leased event is only touched by a claim after its lease has lapsed, or by the outcome of the owner
      that holds it, for the claim it was leased with. */
  lemma LeaseIsRespected(actions: seq<Action>, a: Action, i: nat)
    requires i < |Run(actions).q.events| && Run(actions).q.events[i].status == EventProcessing
    ensures var s := Run(actions); var e := s.q.events[i];
            && e.leaseOwner.Some? && e.leaseUntil.Some?
            && i < |Next(s, a).q.events|
            && (Next(s, a).q.events[i] == e
                || (a.Claim? && a.index == i && e.leaseUntil.value < a.now)
                || (((a.Succeed? && Some(a.doneBy) == e.leaseOwner) || (a.Fail? && Some(a.failedBy) == e.leaseOwner))
                    && e.leaseOwner.value in s.tickets
                    && s.tickets[e.leaseOwner.value].eventId == e.id
                    && s.tickets[e.leaseOwner.value].attemptCount == e.attemptCount))
  {
    InvAlways(actions);
    var s := Run(actions);
    if a.Succeed? && a.doneBy in s.tickets {
      EndRespectsTheLease(s, a.doneBy, Processed, i);
    } else if a.Fail? && a.failedBy in s.tickets {
      EndRespectsTheLease(s, a.failedBy, FailureEnding(s.tickets[a.failedBy], a.retryable, a.error, a.retryAt), i);
    }
  }

  lemma EndRespectsTheLease(s: State, owner: Id, ending: Ending, i: nat)
    requires Inv(s) && owner in s.tickets && i < |s.q.events|
    ensures var e := s.q.events[i];
            && |EndTicket(s, owner, ending).q.events| == |s.q.events|
            && (EndTicket(s, owner, ending).q.events[i] == e
                || (e.leaseOwner == Some(owner) && s.tickets[owner].eventId == e.id && s.tickets[owner].attemptCount == e.attemptCount))
  {
    EndReplacesThePair(s.q, owner, s.tickets[owner], ending);
  }

  predicate IsClosed(status: EventStatus) {
    status == EventProcessed || status == EventFailed
  }

  /** What a step may do to an event row: nothing, a claim, or the end of an attempt. */
  ghost predicate StepsOn(e: OutboxEvent, e': OutboxEvent, takesOver: bool) {
    e'.id == e.id
    && (e' == e
        || (e.status == EventPending && e'.status == EventProcessing && e'.attemptCount == e.attemptCount + 1)
        || (e.status == EventProcessing && e'.status == EventProcessing && e'.attemptCount == e.attemptCount + 1 && takesOver)
        || (e.status == EventProcessing && e'.status != EventProcessing && e'.attemptCount == e.attemptCount))
  }

  lemma StepOnEvent(s: State, a: Action, i: nat)
    requires Inv(s) && i < |s.q.events|
    ensures i < |Next(s, a).q.events|
    ensures StepsOn(s.q.events[i], Next(s, a).q.events[i], a.Claim? && MayClaim(s, a) && a.index == i)
  {
    if a.Succeed? && a.doneBy in s.tickets {
      EndOnEvent(s, a.doneBy, Processed, i);
    } else if a.Fail? && a.failedBy in s.tickets {
      EndOnEvent(s, a.failedBy, FailureEnding(s.tickets[a.failedBy], a.retryable, a.error, a.retryAt), i);
    }
  }

  lemma EndOnEvent(s: State, owner: Id, ending: Ending, i: nat)
    requires Inv(s) && owner in s.tickets && i < |s.q.events|
    ensures i < |EndTicket(s, owner, ending).q.events|
    ensures StepsOn(s.q.events[i], EndTicket(s, owner, ending).q.events[i], false)
  {
    EndReplacesThePair(s.q, owner, s.tickets[owner], ending);
  }

  /** Processed and failed are absorbing, and no event ever disappears. */
  lemma {:induction false} ClosedEventsStay(first: seq<Action>, more: seq<Action>, i: nat)
    requires i < |Run(first).q.events|
    ensures i < |Run(first + more).q.events| && Run(first + more).q.events[i].id == Run(first).q.events[i].id
    ensures IsClosed(Run(first).q.events[i].status) ==> Run(first + more).q.events[i] == Run(first).q.events[i]
  {
    if more == [] {
      assert first + more == first;
    } else {
      var all, last := first + more, |more| - 1;
      assert all[..|all| - 1] == first + more[..last];
      ClosedEventsStay(first, more[..last], i);
      InvAlways(first + more[..last]);
      StepOnEvent(Run(first + more[..last]), more[last], i);
    }
  }

  /** Conservation: the attempts of an event are the claims of it, none lost and none made up. */
  lemma AttemptsCountClaims(actions: seq<Action>, i: nat)
    requires i < |Run(actions).q.events|
    ensures Run(actions).q.events[i].attemptCount == Count(Run(actions).claims, Run(actions).q.events[i].id)
  {
    InvAlways(actions);
  }

  /* ---- termination ---- */

  /** How often an event may be tried: as its job says, at least once. */
  ghost function Limit(q: Queue, i: nat): (limit: int)
    requires i < |q.events|
    ensures limit >= 1
  {
    var j := JobIndex(q, q.events[i].id);
    var maxAttempts := if j >= 0 then q.jobs[j].maxAttempts else DEFAULT_JOB_MAX_ATTEMPTS;
    if maxAttempts < 1 then 1 else maxAttempts
  }

  /** The step takes over a lapsed lease. */
  ghost predicate TakesOver(s: State, a: Action) {
    a.Claim? && MayClaim(s, a) && s.q.events[a.index].status == EventProcessing
  }

  ghost predicate LapseFree(actions: seq<Action>) {
    forall k :: 0 <= k < |actions| ==> !TakesOver(Run(actions[..k]), actions[k])
  }

  /** What is left to do for an event. */
  ghost function Work(q: Queue, i: nat): int
    requires i < |q.events|
  {
    var e := q.events[i];
    match e.status
    case EventPending => 2 * (Limit(q, i) - e.attemptCount) + 1
    case EventProcessing => 2 * (Limit(q, i) - e.attemptCount) + 2
    case EventProcessed => 0
    case EventFailed => 0
  }

  lemma LimitStays(s: State, a: Action, i: nat)
    requires Inv(s) && i < |s.q.events|
    ensures i < |Next(s, a).q.events| && Limit(Next(s, a).q, i) == Limit(s.q, i)
  {
    StepKeeps(s, a);
    StepOnEvent(s, a, i);
    JobsKeepTheirIdentity(s, a);
    SameJobsSameLimit(s.q, Next(s, a).q, i);
  }

  /** Frame: no job changes its identity, and a job is only added for a new event or with the default limit. */
  ghost predicate JobsExtended(q: Queue, q': Queue) {
    && |q.jobs| <= |q'.jobs| <= |q.jobs| + 1
    && (forall j :: 0 <= j < |q.jobs| ==> SameJobIdentity(q.jobs[j], q'.jobs[j]))
    && (|q'.jobs| > |q.jobs| ==>
          q'.jobs[|q.jobs|].maxAttempts == DEFAULT_JOB_MAX_ATTEMPTS || !HasEvent(q, q'.jobs[|q.jobs|].outboxEventId))
  }

  lemma SameJobsSameLimit(q: Queue, q': Queue, i: nat)
    requires Coupled(q) && Coupled(q') && JobsExtended(q, q')
    requires i < |q.events| && i < |q'.events| && q'.events[i].id == q.events[i].id
    ensures Limit(q', i) == Limit(q, i)
  {
    assert HasEvent(q, q.events[i].id);
    TheJobOf(q, i);
    TheJobOf(q', i);
  }

  lemma JobsKeepTheirIdentity(s: State, a: Action)
    requires Inv(s)
    ensures JobsExtended(s.q, Next(s, a).q)
  {
    if a.Succeed? && a.doneBy in s.tickets {
      EndKeepsIdentity(s, a.doneBy, Processed);
    } else if a.Fail? && a.failedBy in s.tickets {
      EndKeepsIdentity(s, a.failedBy, FailureEnding(s.tickets[a.failedBy], a.retryable, a.error, a.retryAt));
    }
  }

  lemma EndKeepsIdentity(s: State, owner: Id, ending: Ending)
    requires Inv(s) && owner in s.tickets
    ensures JobsExtended(s.q, EndTicket(s, owner, ending).q)
  {
    EndReplacesThePair(s.q, owner, s.tickets[owner], ending);
  }

  lemma PendingHasRoom(q: Queue, i: nat)
    requires Coupled(q) && AttemptsLeft(q) && i < |q.events| && q.events[i].status == EventPending
    ensures q.events[i].attemptCount < Limit(q, i)
  {
    TheJobOf(q, i);
  }

  /** Without lapses the work left for an event never grows, and every change of its row does some of it. */
  lemma WorkShrinks(s: State, a: Action, i: nat)
    requires Inv(s) && i < |s.q.events| && !TakesOver(s, a) && s.q.events[i].attemptCount <= Limit(s.q, i)
    ensures i < |Next(s, a).q.events| && Next(s, a).q.events[i].attemptCount <= Limit(Next(s, a).q, i)
    ensures 0 <= Work(Next(s, a).q, i) <= Work(s.q, i)
    ensures Next(s, a).q.events[i] != s.q.events[i] ==> Work(Next(s, a).q, i) < Work(s.q, i)
  {
    LimitStays(s, a, i);
    StepOnEvent(s, a, i);
    if s.q.events[i].status == EventPending {
      PendingHasRoom(s.q, i);
    }
  }

  /** How many steps changed the row of the i-th event. */
  ghost function Changes(actions: seq<Action>, i: nat): nat {
    if actions == [] then 0
    else
      var last := |actions| - 1;
      var before, after := Run(actions[..last]).q, Run(actions).q;
      Changes(actions[..last], i) + if i < |before.events| && i < |after.events| && before.events[i] != after.events[i] then 1 else 0
  }

  /** Every step of a lapse-free run that touches an event brings it nearer to its end: no event is claimed
      more often than its limit, and its row changes at most twice that often. */
  lemma {:induction false} LapseFreeRunsEnd(actions: seq<Action>, i: nat)
    requires LapseFree(actions) && i < |Run(actions).q.events|
    ensures Run(actions).q.events[i].attemptCount <= Limit(Run(actions).q, i)
    ensures 0 <= Work(Run(actions).q, i)
    ensures Changes(actions, i) + Work(Run(actions).q, i) <= 2 * Limit(Run(actions).q, i) + 1
  {
    var last := |actions| - 1;
    var before := Run(actions[..last]);
    InvAlways(actions[..last]);
    forall k | 0 <= k < last
      ensures !TakesOver(Run(actions[..last][..k]), actions[..last][k])
    {
      assert actions[..last][..k] == actions[..k];
    }
    if i < |before.q.events| {
      LapseFreeRunsEnd(actions[..last], i);
      WorkShrinks(before, actions[last], i);
      LimitStays(before, actions[last], i);
    } else {
      NewEventsStart(before, actions[last], i);
      NoChangesYet(actions[..last], i);
    }
  }

  lemma NewEventsStart(s: State, a: Action, i: nat)
    requires |s.q.events| <= i < |Next(s, a).q.events|
    ensures NeverClaimed(Next(s, a).q.events[i])
  {
  }

  lemma {:induction false} NoChangesYet(actions: seq<Action>, i: nat)
    requires i >= |Run(actions).q.events|
    ensures Changes(actions, i) == 0
  {
    if actions != [] {
      var last := |actions| - 1;
      EventsOnlyGrow(Run(actions[..last]), actions[last]);
      NoChangesYet(actions[..last], i);
    }
  }

  lemma EventsOnlyGrow(s: State, a: Action)
    ensures |Next(s, a).q.events| >= |s.q.events|
  {
  }

  /** When the attempts are used up, the next failure of the owner that holds the event is the last. */
  lemma LastFailureIsFinal(actions: seq<Action>, owner: Id, retryable: bool, error: Id, failedAt: int, retryAt: int, i: nat)
    requires owner in Run(actions).tickets && i < |Run(actions).q.events|
    requires var s, t := Run(actions), Run(actions).tickets[owner];
             HoldsEvent(s.q.events[i], t.eventId, t.organizationId, owner) && s.q.events[i].attemptCount >= t.maxAttempts
    ensures Next(Run(actions), Fail(owner, retryable, error, failedAt, retryAt)).q.events[i].status == EventFailed
  {
    InvAlways(actions);
    FailsForGood(Run(actions), Fail(owner, retryable, error, failedAt, retryAt), i);
  }

  lemma FailsForGood(s: State, a: Action, i: nat)
    requires Inv(s) && a.Fail? && a.failedBy in s.tickets && i < |s.q.events|
    requires var t := s.tickets[a.failedBy];
             HoldsEvent(s.q.events[i], t.eventId, t.organizationId, a.failedBy) && s.q.events[i].attemptCount >= t.maxAttempts
    ensures |Next(s, a).q.events| == |s.q.events| && Next(s, a).q.events[i].status == EventFailed
  {
    EndedWhereHeld(s, a.failedBy, DeadLetter(a.error), i);
    assert FailureEnding(s.tickets[a.failedBy], a.retryable, a.error, a.retryAt) == DeadLetter(a.error);
  }

  /** A success of the owner that holds the event processes it, whatever the attempt. */
  lemma SuccessProcesses(actions: seq<Action>, owner: Id, i: nat)
    requires owner in Run(actions).tickets && i < |Run(actions).q.events|
    requires var s, t := Run(actions), Run(actions).tickets[owner]; HoldsEvent(s.q.events[i], t.eventId, t.organizationId, owner)
    ensures Next(Run(actions), Succeed(owner)).q.events[i].status == EventProcessed
  {
    InvAlways(actions);
    EndedWhereHeld(Run(actions), owner, Processed, i);
  }

  lemma EndedWhereHeld(s: State, owner: Id, ending: Ending, i: nat)
    requires Inv(s) && owner in s.tickets && i < |s.q.events|
    requires HoldsEvent(s.q.events[i], s.tickets[owner].eventId, s.tickets[owner].organizationId, owner)
    ensures s.q.events[i].attemptCount == s.tickets[owner].attemptCount
    ensures EndTicket(s, owner, ending).q.events == s.q.events[i := EndedEvent(s.q.events[i], ending)]
  {
    var t := s.tickets[owner];
    EventsEndAlike(s.q, owner, t, EventIndex(s.q, t.eventId, t.organizationId, owner));
  }

  /** Every pending event has attempts left. */
  lemma PendingAlwaysHasAttempts(actions: seq<Action>, i: nat)
    requires i < |Run(actions).q.events| && Run(actions).q.events[i].status == EventPending
    ensures Run(actions).q.events[i].attemptCount < Limit(Run(actions).q, i)
  {
    InvAlways(actions);
    PendingHasRoom(Run(actions).q, i);
  }
}
