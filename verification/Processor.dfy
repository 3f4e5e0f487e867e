/** One turn of a worker: claim, run the handler, and record the outcome. */
module Processor {
  import opened Results
  import opened Searching
  import opened Outbox
  import opened OutboxRuns
  import opened OutboxTheorems
  import opened OutboxProgress
  import opened Backoff

  datatype Outcome = Idle | Succeeded | RetryScheduled | DeadLettered

  /** What the handler does with the claimed work, seen from outside. */
  datatype Handled = Finished | Threw(thrown: Thrown)

  /** The clock readings and the draw of one turn: at the claim and when the outcome is recorded. */
  datatype Turn = Turn(claimedAt: int, recordedAt: int, draw: Draw, error: Id)

  /** How the turn ends for the claimed work. */
  function EndingOf(attemptCount: nat, maxAttempts: int, handled: Handled, policy: Policy, turn: Turn): Ending {
    match handled
    case Finished => Processed
    case Threw(thrown) =>
      if !IsRetryable(thrown) || attemptCount >= maxAttempts then DeadLetter(turn.error)
      else Retry(turn.error, turn.recordedAt + ComputeBackoffMs(attemptCount, policy, turn.draw))
  }

  function OutcomeOf(ending: Ending): Outcome {
    match ending
    case Processed => Succeeded
    case Retry(_, _) => RetryScheduled
    case DeadLetter(_) => DeadLettered
  }

  /** The claimed work has ended as the failure rule prescribes. */
  predicate IsConcluded(before: Queue, claimed: Claimed, owner: Id, handled: Handled, policy: Policy, turn: Turn, outcome: Outcome, after: Queue) {
    var ending := EndingOf(claimed.event.attemptCount, claimed.job.maxAttempts, handled, policy, turn);
    && outcome == OutcomeOf(ending)
    && after == End(before, claimed.event.id, claimed.job.id, claimed.event.organizationId, owner, ending)
  }

  /** processNext, with nobody else touching the queue while the handler runs. */
  method ProcessNext(claimer: OutboxClaimer, stopping: bool, kind: Id, owner: Id, leaseMs: int, handled: Handled, policy: Policy, turn: Turn)
    returns (outcome: Outcome)
    requires JobIdsFit(claimer.Contents())
    modifies claimer
    ensures var q := old(claimer.Contents());
            var i := DueIndex(q.events, kind, turn.claimedAt);
            if stopping || i < 0 then outcome == Idle && claimer.Contents() == q
            else
              var until, jobId := turn.claimedAt + leaseMs, q.events[i].id;
              IsConcluded(ClaimAt(q, i, owner, until, jobId), ClaimedWork(q, i, owner, until, jobId), owner, handled, policy, turn,
                          outcome, claimer.Contents())
  {
    if stopping {
      return Idle;
    }
    var claim := ClaimDue(claimer, kind, owner, turn.claimedAt + leaseMs, turn.claimedAt);
    if claim == None {
      return Idle;
    }
    var claimed := claim.value;
    outcome := Conclude(claimer, claimed, owner, handled, policy, turn);
  }

  method ClaimDue(claimer: OutboxClaimer, kind: Id, owner: Id, leaseUntil: int, now: int) returns (claim: Option<Claimed>)
    requires JobIdsFit(claimer.Contents())
    modifies claimer
    ensures var q := old(claimer.Contents());
            var i := DueIndex(q.events, kind, now);
            if i < 0 then claim == None && claimer.Contents() == q
            else
              && claim == Some(ClaimedWork(q, i, owner, leaseUntil, q.events[i].id))
              && claimer.Contents() == ClaimAt(q, i, owner, leaseUntil, q.events[i].id)
  {
    claim := claimer.ClaimNextByType(kind, owner, leaseUntil, now);
  }

  /** After the handler: processed, dead-lettered when the failure is final or the attempts are used up,
      otherwise due again after a backoff. */
  method Conclude(claimer: OutboxClaimer, claimed: Claimed, owner: Id, handled: Handled, policy: Policy, turn: Turn) returns (outcome: Outcome)
    modifies claimer
    ensures IsConcluded(old(claimer.Contents()), claimed, owner, handled, policy, turn, outcome, claimer.Contents())
  {
    if handled.Finished? {
      claimer.MarkProcessed(claimed.event.id, claimed.job.id, claimed.event.organizationId, owner);
      return Succeeded;
    }
    var terminal := !IsRetryable(handled.thrown) || claimed.event.attemptCount >= claimed.job.maxAttempts;
    if terminal {
      claimer.MarkDeadLettered(claimed.event.id, claimed.job.id, claimed.event.organizationId, owner, turn.error);
      return DeadLettered;
    }
    var delayMs := ComputeBackoffMs(claimed.event.attemptCount, policy, turn.draw);
    claimer.ScheduleRetry(claimed.event.id, claimed.job.id, claimed.event.organizationId, owner, turn.error, turn.recordedAt + delayMs);
    return RetryScheduled;
  }

  /** A turn is a claim and an outcome of the step system, and it releases what it claimed: the event ends
      processed or failed, or goes back to pending with a later due time. */
  lemma TurnIsTwoSteps(actions: seq<Action>, kind: Id, owner: Id, i: nat, leaseUntil: int, now: int, ending: Ending)
    requires owner !in Run(actions).tickets
    requires i < |Run(actions).q.events| && Claimable(Run(actions).q.events[i], kind, now)
    ensures var s := Run(actions);
            var claim := Claim(owner, i, kind, leaseUntil, now, s.q.events[i].id);
            var t := TicketOf(ClaimedWork(s.q, i, owner, leaseUntil, s.q.events[i].id));
            var q' := End(ClaimAt(s.q, i, owner, leaseUntil, s.q.events[i].id), t.eventId, t.jobId, t.organizationId, owner, ending);
            && MayClaim(s, claim)
            && owner in Next(s, claim).tickets
            && EndTicket(Next(s, claim), owner, ending) == State(q', s.tickets, s.claims + [s.q.events[i].id])
            && Released(q'.events, i, ending, s.q.events[i].attemptCount + 1)
  {
    InvAlways(actions);
    ClaimThenEnd(Run(actions), kind, owner, i, leaseUntil, now, ending);
  }

  lemma ClaimThenEnd(s: State, kind: Id, owner: Id, i: nat, leaseUntil: int, now: int, ending: Ending)
    requires Inv(s) && owner !in s.tickets && i < |s.q.events| && Claimable(s.q.events[i], kind, now)
    ensures var claim := Claim(owner, i, kind, leaseUntil, now, s.q.events[i].id);
            var t := TicketOf(ClaimedWork(s.q, i, owner, leaseUntil, s.q.events[i].id));
            var q' := End(ClaimAt(s.q, i, owner, leaseUntil, s.q.events[i].id), t.eventId, t.jobId, t.organizationId, owner, ending);
            && MayClaim(s, claim)
            && owner in Next(s, claim).tickets
            && EndTicket(Next(s, claim), owner, ending) == State(q', s.tickets, s.claims + [s.q.events[i].id])
            && Released(q'.events, i, ending, s.q.events[i].attemptCount + 1)
  {
    var claim := Claim(owner, i, kind, leaseUntil, now, s.q.events[i].id);
    StepKeeps(s, claim);
    EndsItsClaim(s, claim, ending);
    ReleasedByEnd(Next(s, claim), i, owner, ending);
  }

  lemma EndsItsClaim(s: State, claim: Action, ending: Ending)
    requires claim.Claim? && MayClaim(s, claim)
    ensures var i, owner := claim.index, claim.owner;
            var t := TicketOf(ClaimedWork(s.q, i, owner, claim.leaseUntil, claim.newJobId));
            var q' := End(ClaimAt(s.q, i, owner, claim.leaseUntil, claim.newJobId), t.eventId, t.jobId, t.organizationId, owner, ending);
            && owner in Next(s, claim).tickets
            && EndTicket(Next(s, claim), owner, ending) == State(q', s.tickets, s.claims + [s.q.events[i].id])
  {
    assert Next(s, claim).tickets - {claim.owner} == s.tickets;
  }

  lemma ReleasedByEnd(s: State, i: nat, owner: Id, ending: Ending)
    requires Inv(s) && owner in s.tickets && i < |s.q.events|
    requires HoldsEvent(s.q.events[i], s.tickets[owner].eventId, s.tickets[owner].organizationId, owner)
    ensures Released(EndTicket(s, owner, ending).q.events, i, ending, s.q.events[i].attemptCount)
  {
    var t := s.tickets[owner];
    EventsEndAlike(s.q, owner, t, EventIndex(s.q, t.eventId, t.organizationId, owner));
  }

  ghost predicate Released(events: seq<OutboxEvent>, i: nat, ending: Ending, attempts: nat) {
    && i < |events|
    && events[i].leaseOwner == None && events[i].attemptCount == attempts
    && events[i].status == (match ending case Processed => EventProcessed case Retry(_, _) => EventPending case DeadLetter(_) => EventFailed)
    && (ending.Retry? ==> events[i].availableAt == ending.availableAt)
  }

  /** The second step of a turn: a success if the handler finished, otherwise a failure that is retried after
      the backoff of the attempt. */
  function OutcomeStep(owner: Id, attemptCount: nat, handled: Handled, policy: Policy, turn: Turn): Action {
    match handled
    case Finished => Succeed(owner)
    case Threw(thrown) =>
      Fail(owner, IsRetryable(thrown), turn.error, turn.recordedAt, turn.recordedAt + ComputeBackoffMs(attemptCount, policy, turn.draw))
  }

  /** The queue after the two steps, the second of which backs off if it is a failure, and the outcome that
      names how the event stands then. */
  ghost predicate IsTurn(s: State, claim: Action, step: Action, i: nat, policy: Policy, outcome: Outcome, after: Queue) {
    && after == Next(Next(s, claim), step).q
    && BacksOff(Next(s, claim), step, policy)
    && i < |after.events| == |s.q.events|
    && match outcome
       case Idle => false
       case Succeeded => after.events[i].status == EventProcessed
       case RetryScheduled => after.events[i].status == EventPending
       case DeadLettered => after.events[i].status == EventFailed
  }

  /** What a turn leaves behind is what the run system reaches by the claim and that step; a turn whose handler
      finishes leaves the event processed, and its outcome names how the event stands. */
  lemma TurnsAreSteps(actions: seq<Action>, kind: Id, owner: Id, i: nat, leaseUntil: int, now: int, handled: Handled, policy: Policy, turn: Turn,
                      outcome: Outcome, after: Queue)
    requires owner !in Run(actions).tickets
    requires i < |Run(actions).q.events| && Claimable(Run(actions).q.events[i], kind, now)
    requires var q := Run(actions).q; var id := Run(actions).q.events[i].id;
             IsConcluded(ClaimAt(q, i, owner, leaseUntil, id), ClaimedWork(q, i, owner, leaseUntil, id), owner, handled, policy, turn, outcome, after)
    ensures IsTurn(Run(actions), Claim(owner, i, kind, leaseUntil, now, Run(actions).q.events[i].id),
                   OutcomeStep(owner, Run(actions).q.events[i].attemptCount + 1, handled, policy, turn), i, policy, outcome, after)
    ensures handled.Finished? <==> outcome == Succeeded
  {
    InvAlways(actions);
    TurnEnds(Run(actions), kind, owner, i, leaseUntil, now, handled, policy, turn, outcome, after);
  }

  lemma TurnEnds(s: State, kind: Id, owner: Id, i: nat, leaseUntil: int, now: int, handled: Handled, policy: Policy, turn: Turn,
                 outcome: Outcome, after: Queue)
    requires Inv(s) && owner !in s.tickets && i < |s.q.events| && Claimable(s.q.events[i], kind, now)
    requires IsConcluded(ClaimAt(s.q, i, owner, leaseUntil, s.q.events[i].id), ClaimedWork(s.q, i, owner, leaseUntil, s.q.events[i].id),
                         owner, handled, policy, turn, outcome, after)
    ensures IsTurn(s, Claim(owner, i, kind, leaseUntil, now, s.q.events[i].id),
                   OutcomeStep(owner, s.q.events[i].attemptCount + 1, handled, policy, turn), i, policy, outcome, after)
    ensures handled.Finished? <==> outcome == Succeeded
  {
    var work := ClaimedWork(s.q, i, owner, leaseUntil, s.q.events[i].id);
    var ending := EndingOf(work.event.attemptCount, work.job.maxAttempts, handled, policy, turn);
    var claim := Claim(owner, i, kind, leaseUntil, now, s.q.events[i].id);
    ClaimThenEnd(s, kind, owner, i, leaseUntil, now, ending);
    EndsSameLength(ClaimAt(s.q, i, owner, leaseUntil, s.q.events[i].id), work, owner, ending);
    StepEnds(Next(s, claim), owner, handled, policy, turn);
  }

  /** The second step ends the attempt as the failure rule prescribes. */
  lemma StepEnds(s: State, owner: Id, handled: Handled, policy: Policy, turn: Turn)
    requires owner in s.tickets
    ensures var t := s.tickets[owner];
            var step := OutcomeStep(owner, t.attemptCount, handled, policy, turn);
            Next(s, step) == EndTicket(s, owner, EndingOf(t.attemptCount, t.maxAttempts, handled, policy, turn)) && BacksOff(s, step, policy)
  {
  }

  lemma EndsSameLength(q: Queue, work: Claimed, owner: Id, ending: Ending)
    ensures |End(q, work.event.id, work.job.id, work.event.organizationId, owner, ending).events| == |q.events|
  {
  }
}
