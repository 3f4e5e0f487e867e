/** What each step of the queue does in any run: when it changes anything, and every row it writes, in both
    tables. And what the due times are for: a retried event rests until its backoff is over. */
module OutboxEffects {
  import opened Results
  import opened Searching
  import opened Outbox
  import opened OutboxRuns
  import opened OutboxTheorems
  import opened OutboxProgress
  import opened Backoff

  /** Due, of the type, and pending or under a lease that has lapsed. */
  predicate MayBeTaken(e: OutboxEvent, kind: Id, now: int) {
    && e.kind == kind
    && e.availableAt <= now
    && (e.status == EventPending || (e.status == EventProcessing && e.leaseUntil.Some? && e.leaseUntil.value < now))
  }

  /** All other events stay as they are. */
  ghost predicate OnlyEvent(q: Queue, q': Queue, i: nat) {
    && |q'.events| == |q.events|
    && forall k :: 0 <= k < |q.events| && k != i ==> q'.events[k] == q.events[k]
  }

  /** The job of the event becomes the given one, and all other jobs stay as they are. */
  ghost predicate OnlyJob(q: Queue, q': Queue, job: Job) {
    && |q.jobs| <= |q'.jobs|
    && (exists j :: 0 <= j < |q'.jobs| && q'.jobs[j] == job)
    && (forall j :: 0 <= j < |q'.jobs| && q'.jobs[j] != job ==> j < |q.jobs| && q'.jobs[j] == q.jobs[j])
    && (forall j :: 0 <= j < |q.jobs| && q.jobs[j].outboxEventId != job.outboxEventId ==> q'.jobs[j] == q.jobs[j])
  }

  /* ---- claims ---- */

  /** A claim changes the queue exactly when its owner holds nothing and the event may be taken. It leases
      event and job to the owner and counts the attempt in both; a job that is missing is made with eight
      attempts. */
  lemma Claiming(actions: seq<Action>, owner: Id, i: nat, kind: Id, until: int, now: int)
    requires i < |Run(actions).q.events|
    ensures var s, e := Run(actions), Run(actions).q.events[i];
            var s' := Next(s, Claim(owner, i, kind, until, now, e.id));
            if owner !in s.tickets && MayBeTaken(e, kind, now)
            then
              && OnlyEvent(s.q, s'.q, i)
              && s'.q.events[i] == e.(status := EventProcessing, leaseOwner := Some(owner), leaseUntil := Some(until), attemptCount := e.attemptCount + 1)
              && owner in s'.tickets && s'.tickets == s.tickets[owner := s'.tickets[owner]]
              && s'.tickets[owner] == Ticket(e.id, e.organizationId, s'.tickets[owner].jobId, e.attemptCount + 1, s'.tickets[owner].maxAttempts)
              && JobIsLeased(s.q, s'.q, e, owner, until, s'.tickets[owner].jobId, s'.tickets[owner].maxAttempts)
              && s'.claims == s.claims + [e.id]
            else s' == s
  {
    InvAlways(actions);
    var s, e := Run(actions), Run(actions).q.events[i];
    if owner !in s.tickets && MayBeTaken(e, kind, now) {
      assert MayClaim(s, Claim(owner, i, kind, until, now, e.id));
      PairIsClaimed(s.q, i, owner, until);
    }
  }

  /** The job of the event before the claim, or the one made for it. */
  ghost predicate WasJob(q: Queue, e: OutboxEvent, jobId: Id, maxAttempts: int, error: Option<Id>) {
    if HasJob(q, e.id)
    then exists j :: 0 <= j < |q.jobs| && q.jobs[j].outboxEventId == e.id && q.jobs[j].id == jobId && q.jobs[j].maxAttempts == maxAttempts
                     && q.jobs[j].lastError == error
    else jobId == e.id && maxAttempts == 8 && error == None
  }

  ghost predicate JobIsLeased(q: Queue, q': Queue, e: OutboxEvent, owner: Id, until: int, jobId: Id, maxAttempts: int) {
    exists error ::
      && WasJob(q, e, jobId, maxAttempts, error)
      && OnlyJob(q, q', Job(jobId, e.organizationId, e.id, JobLeased, e.attemptCount + 1, maxAttempts, Some(owner), Some(until), e.availableAt, error))
  }

  lemma PairIsClaimed(q: Queue, i: nat, owner: Id, until: int)
    requires Coupled(q) && i < |q.events|
    ensures var e, job := q.events[i], ClaimedWork(q, i, owner, until, q.events[i].id).job;
            var q' := ClaimAt(q, i, owner, until, e.id);
            && OnlyEvent(q, q', i) && JobIsLeased(q, q', e, owner, until, job.id, job.maxAttempts)
            && q'.events[i] == e.(status := EventProcessing, leaseOwner := Some(owner), leaseUntil := Some(until), attemptCount := e.attemptCount + 1)
  {
    TheJobOf(q, i);
    var e, q' := q.events[i], ClaimAt(q, i, owner, until, q.events[i].id);
    var j := JobIndex(q, e.id);
    if j >= 0 {
      assert q'.jobs[j] == ClaimedWork(q, i, owner, until, e.id).job;
    } else {
      assert q'.jobs[|q.jobs|] == ClaimedWork(q, i, owner, until, e.id).job;
    }
    var job := ClaimedWork(q, i, owner, until, e.id).job;
    assert WasJob(q, e, job.id, job.maxAttempts, job.lastError);
  }

  /* ---- outcomes ---- */

  /** The owner's claim of the i-th event still stands. */
  ghost predicate Stands(s: State, owner: Id, i: nat)
    requires owner in s.tickets && i < |s.q.events|
  {
    s.q.events[i].id == s.tickets[owner].eventId && s.q.events[i].status == EventProcessing && s.q.events[i].leaseOwner == Some(owner)
  }

  /** The job of the i-th event ends like the event: the same owner, lease, attempts and due time. */
  ghost predicate JobEnds(q: Queue, q': Queue, i: nat, status: JobStatus, error: Option<Id>)
    requires i < |q.events| && i < |q'.events|
  {
    exists j :: 0 <= j < |q.jobs| && q.jobs[j].outboxEventId == q.events[i].id
                && |q'.jobs| == |q.jobs|
                && q'.jobs[j] == q.jobs[j].(status := status, leaseOwner := None, leaseUntil := None,
                                            lastError := if error.Some? then error else q.jobs[j].lastError,
                                            availableAt := q'.events[i].availableAt)
                && (forall k :: 0 <= k < |q.jobs| && k != j ==> q'.jobs[k] == q.jobs[k])
  }

  /** A success ends the event whose claim still stands as processed, its job as succeeded, and does nothing
      to the queue otherwise. Either way the owner lets go. */
  lemma Succeeding(actions: seq<Action>, owner: Id, i: nat)
    requires owner in Run(actions).tickets && i < |Run(actions).q.events|
    requires Run(actions).q.events[i].id == Run(actions).tickets[owner].eventId
    ensures var s, s', e := Run(actions), Next(Run(actions), Succeed(owner)), Run(actions).q.events[i];
            && s' == State(s'.q, s.tickets - {owner}, s.claims)
            && if Stands(s, owner, i)
               then && OnlyEvent(s.q, s'.q, i)
                    && s'.q.events[i] == e.(status := EventProcessed, leaseOwner := None, leaseUntil := None)
                    && JobEnds(s.q, s'.q, i, JobSucceeded, None)
               else s'.q == s.q
  {
    InvAlways(actions);
    EndIsWritten(Run(actions), owner, Processed, i);
  }

  /** A failure of an event whose claim still stands is retried when it may help and attempts are left, and
      is final otherwise; the job goes along. */
  lemma Failing(actions: seq<Action>, owner: Id, retryable: bool, error: Id, failedAt: int, retryAt: int, i: nat)
    requires owner in Run(actions).tickets && i < |Run(actions).q.events|
    requires Run(actions).q.events[i].id == Run(actions).tickets[owner].eventId
    ensures var s, s', e := Run(actions), Next(Run(actions), Fail(owner, retryable, error, failedAt, retryAt)), Run(actions).q.events[i];
            && s' == State(s'.q, s.tickets - {owner}, s.claims)
            && if !Stands(s, owner, i) then s'.q == s.q
               else if retryable && e.attemptCount < s.tickets[owner].maxAttempts
               then && OnlyEvent(s.q, s'.q, i)
                    && s'.q.events[i] == e.(status := EventPending, leaseOwner := None, leaseUntil := None, lastError := Some(error), availableAt := retryAt)
                    && JobEnds(s.q, s'.q, i, JobPending, Some(error))
               else && OnlyEvent(s.q, s'.q, i)
                    && s'.q.events[i] == e.(status := EventFailed, leaseOwner := None, leaseUntil := None, lastError := Some(error))
                    && JobEnds(s.q, s'.q, i, JobFailed, Some(error))
  {
    InvAlways(actions);
    EndIsWritten(Run(actions), owner, FailureEnding(Run(actions).tickets[owner], retryable, error, retryAt), i);
    EndedCount(Run(actions), owner, i);
  }

  lemma EndedCount(s: State, owner: Id, i: nat)
    requires Inv(s) && owner in s.tickets && i < |s.q.events| && s.q.events[i].id == s.tickets[owner].eventId
    ensures Stands(s, owner, i) ==> s.q.events[i].attemptCount == s.tickets[owner].attemptCount
  {
    assert TicketFits(s.q, owner, s.tickets[owner]);
  }

  function StatusOf(ending: Ending): JobStatus {
    match ending
    case Processed => JobSucceeded
    case Retry(_, _) => JobPending
    case DeadLetter(_) => JobFailed
  }

  function ErrorOf(ending: Ending): Option<Id> {
    match ending
    case Processed => None
    case Retry(error, _) => Some(error)
    case DeadLetter(error) => Some(error)
  }

  lemma EndIsWritten(s: State, owner: Id, ending: Ending, i: nat)
    requires Inv(s) && owner in s.tickets && i < |s.q.events| && s.q.events[i].id == s.tickets[owner].eventId
    ensures var s' := EndTicket(s, owner, ending);
            && s' == State(s'.q, s.tickets - {owner}, s.claims)
            && if Stands(s, owner, i)
               then OnlyEvent(s.q, s'.q, i) && s'.q.events[i] == EndedEvent(s.q.events[i], ending)
                    && JobEnds(s.q, s'.q, i, StatusOf(ending), ErrorOf(ending))
               else s'.q == s.q
  {
    var t, s' := s.tickets[owner], EndTicket(s, owner, ending);
    assert TicketFits(s.q, owner, t);
    EndReplacesThePair(s.q, owner, t, ending);
    StandsIsHeld(s, owner, i);
    if Stands(s, owner, i) {
      var j: nat :| JobFitsAt(s.q, t, j) && PairReplaced(s.q, s'.q, i, j) && s'.q.jobs[j] == EndedJob(s.q.jobs[j], ending)
                    && s'.q.events[i] == EndedEvent(s.q.events[i], ending);
      PairEnds(s.q, s'.q, i, j, ending);
    }
  }

  lemma PairEnds(q: Queue, q': Queue, i: nat, j: nat, ending: Ending)
    requires Coupled(q) && PairReplaced(q, q', i, j)
    requires q'.jobs[j] == EndedJob(q.jobs[j], ending) && q'.events[i] == EndedEvent(q.events[i], ending)
    ensures OnlyEvent(q, q', i) && JobEnds(q, q', i, StatusOf(ending), ErrorOf(ending))
  {
    assert Agree(q.events[i], q.jobs[j]);
    assert q.jobs[j].outboxEventId == q.events[i].id;
  }

  lemma StandsIsHeld(s: State, owner: Id, i: nat)
    requires Inv(s) && owner in s.tickets && i < |s.q.events| && s.q.events[i].id == s.tickets[owner].eventId
    ensures var found := EventIndex(s.q, s.tickets[owner].eventId, s.tickets[owner].organizationId, owner);
            if Stands(s, owner, i) then found == i else found < 0
  {
    assert TicketFits(s.q, owner, s.tickets[owner]);
    EventsEndAlike(s.q, owner, s.tickets[owner], EventIndex(s.q, s.tickets[owner].eventId, s.tickets[owner].organizationId, owner));
  }

  /* ---- publishing ---- */

  /** Publishing stores a pending event and a pending job for it, both unattempted and due at the same time. */
  lemma Publishing(s: State, id: Id, jobId: Id, organizationId: Id, kind: Id, dueAt: int, maxAttempts: int)
    requires forall k :: 0 <= k < |s.q.events| ==> s.q.events[k].id != id && s.q.events[k].id != jobId
    requires forall k :: 0 <= k < |s.q.jobs| ==>
               s.q.jobs[k].id != id && s.q.jobs[k].id != jobId && s.q.jobs[k].outboxEventId != id && s.q.jobs[k].outboxEventId != jobId
    ensures Next(s, Publish(id, jobId, organizationId, kind, dueAt, maxAttempts))
            == s.(q := Queue(s.q.events + [OutboxEvent(id, organizationId, kind, EventPending, 0, None, None, dueAt, None)],
                             s.q.jobs + [Job(jobId, organizationId, id, JobPending, 0, maxAttempts, None, None, dueAt, None)]))
  {
  }

  /* ---- backoff is waited for ---- */

  /** A claim takes only what is of its type and due, and pending or lapsed. */
  lemma ClaimsAreDue(actions: seq<Action>, a: Action, i: nat)
    requires a.Claim? && i < |Run(actions).q.events| && i < |Next(Run(actions), a).q.events|
    requires Next(Run(actions), a).q.events[i] != Run(actions).q.events[i]
    ensures var e := Run(actions).q.events[i];
            && i == a.index && e.kind == a.claimKind && e.availableAt <= a.now
            && (e.status == EventPending || (e.status == EventProcessing && e.leaseUntil.Some? && e.leaseUntil.value < a.now))
  {
  }

  /** The j-th step leaves the i-th event alone. */
  ghost predicate RestsAt(actions: seq<Action>, i: nat, j: nat)
    requires j < |actions|
  {
    i < |Run(actions[..j]).q.events| && i < |Run(actions[..j + 1]).q.events| ==>
      Run(actions[..j + 1]).q.events[i] == Run(actions[..j]).q.events[i]
  }

  /** Between a failure and the next claim of the event at least half the capped exponential of the failed
      attempt passes, rounded down. */
  lemma RetriesWait(actions: seq<Action>, k: nat, m: nat, i: nat, policy: Policy)
    requires k < m < |actions| && AlwaysBacksOff(actions, policy)
    requires Retries(Run(actions[..k]), actions[k], i)
    requires actions[m].Claim? && i < |Run(actions[..m]).q.events| && i < |Run(actions[..m + 1]).q.events|
    requires Run(actions[..m + 1]).q.events[i] != Run(actions[..m]).q.events[i]
    requires forall j :: k < j < m ==> RestsAt(actions, i, j)
    ensures actions[m].now >= actions[k].failedAt + Exponential(Run(actions[..k]).q.events[i].attemptCount, policy) / 2
  {
    InvAlways(actions[..k]);
    assert BacksOff(Run(actions[..k]), actions[k], policy);
    RetryIsDueInTime(Run(actions[..k]), actions[k], i, policy);
    RunStep(actions, k);
    RunStep(actions, m);
    RestsBetween(actions, k + 1, m, i);
    ClaimsAreDue(actions[..m], actions[m], i);
  }

  lemma RunStep(actions: seq<Action>, k: nat)
    requires k < |actions|
    ensures Run(actions[..k + 1]) == Next(Run(actions[..k]), actions[k])
  {
    assert actions[..k + 1][..k] == actions[..k];
  }

  lemma {:induction false} RestsBetween(actions: seq<Action>, from: nat, to: nat, i: nat)
    requires from <= to <= |actions| && i < |Run(actions[..from]).q.events|
    requires forall j :: from <= j < to ==> RestsAt(actions, i, j)
    ensures i < |Run(actions[..to]).q.events| && Run(actions[..to]).q.events[i] == Run(actions[..from]).q.events[i]
  {
    if from < to {
      RestsBetween(actions, from, to - 1, i);
      assert RestsAt(actions, i, to - 1);
      RunStep(actions, to - 1);
      EventsOnlyGrow(Run(actions[..to - 1]), actions[to - 1]);
    }
  }
}
