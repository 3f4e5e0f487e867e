/** The queue under any number of workers, each handling one claim at a time: what holds in every
    reachable state, and what each step may do. */
module OutboxRuns {
  import opened Results
  import opened Outbox

  /* ---- the coupling of the two tables ---- */

  predicate SameStatus(e: EventStatus, j: JobStatus) {
    match e
    case EventPending => j == JobPending
    case EventProcessing => j == JobLeased
    case EventProcessed => j == JobSucceeded
    case EventFailed => j == JobFailed
  }

  predicate Agree(e: OutboxEvent, job: Job) {
    && SameStatus(e.status, job.status)
    && job.organizationId == e.organizationId
    && job.leaseOwner == e.leaseOwner
    && job.leaseUntil == e.leaseUntil
    && job.attemptCount == e.attemptCount
    && job.availableAt == e.availableAt
  }

  predicate NeverClaimed(e: OutboxEvent) {
    e.status == EventPending && e.attemptCount == 0
  }

  predicate LeaseFits(e: OutboxEvent) {
    && (e.leaseOwner.Some? <==> e.status == EventProcessing)
    && (e.leaseUntil.Some? <==> e.status == EventProcessing)
  }

  ghost predicate Ids(q: Queue) {
    && (forall i, k :: 0 <= i < k < |q.events| ==> q.events[i].id != q.events[k].id)
    && (forall j, k :: 0 <= j < k < |q.jobs| ==> q.jobs[j].outboxEventId != q.jobs[k].outboxEventId)
    && JobIdsFit(q)
  }

  ghost predicate HasEvent(q: Queue, eventId: Id) {
    exists i :: 0 <= i < |q.events| && q.events[i].id == eventId
  }

  ghost predicate HasJob(q: Queue, eventId: Id) {
    exists j :: 0 <= j < |q.jobs| && q.jobs[j].outboxEventId == eventId
  }

  /** An event and its job always agree; an event without a job has never been claimed. */
  ghost predicate Coupled(q: Queue) {
    && Ids(q)
    && (forall i, j :: 0 <= i < |q.events| && 0 <= j < |q.jobs| && q.jobs[j].outboxEventId == q.events[i].id ==> Agree(q.events[i], q.jobs[j]))
    && (forall i :: 0 <= i < |q.events| ==> LeaseFits(q.events[i]) && (HasJob(q, q.events[i].id) || NeverClaimed(q.events[i])))
    && (forall j :: 0 <= j < |q.jobs| ==> HasEvent(q, q.jobs[j].outboxEventId))
  }

  /** A retry is only ever scheduled while there are attempts left. */
  ghost predicate AttemptsLeft(q: Queue) {
    forall i, j :: 0 <= i < |q.events| && 0 <= j < |q.jobs| && q.jobs[j].outboxEventId == q.events[i].id && q.events[i].status == EventPending ==>
      q.events[i].attemptCount == 0 || q.events[i].attemptCount < q.jobs[j].maxAttempts
  }

  /* ---- the steps ---- */

  /** What a worker remembers of its claim. */
  datatype Ticket = Ticket(eventId: Id, organizationId: Id, jobId: Id, attemptCount: nat, maxAttempts: int)

  /** `claims` lists the events claimed so far, in order. */
  datatype State = State(q: Queue, tickets: map<Id, Ticket>, claims: seq<Id>)

  const INITIAL := State(Queue([], []), map[], [])

  datatype Action =
    | Publish(id: Id, jobId: Id, organizationId: Id, kind: Id, availableAt: int, maxAttempts: int)
    | AddEvent(eventId: Id, eventOrganizationId: Id, eventKind: Id, dueAt: int)
    | Claim(owner: Id, index: nat, claimKind: Id, leaseUntil: int, now: int, newJobId: Id)
    | Succeed(doneBy: Id)
    | Fail(failedBy: Id, retryable: bool, error: Id, failedAt: int, retryAt: int)
    | Crash(crashed: Id)

  ghost predicate Fresh(q: Queue, id: Id) {
    && (forall i :: 0 <= i < |q.events| ==> q.events[i].id != id)
    && (forall j :: 0 <= j < |q.jobs| ==> q.jobs[j].id != id && q.jobs[j].outboxEventId != id)
  }

  function PendingEvent(id: Id, organizationId: Id, kind: Id, availableAt: int): OutboxEvent {
    OutboxEvent(id, organizationId, kind, EventPending, 0, None, None, availableAt, None)
  }

  /** Publishing stores an event with its job. */
  function Published(q: Queue, id: Id, jobId: Id, organizationId: Id, kind: Id, availableAt: int, maxAttempts: int): Queue {
    Queue(q.events + [PendingEvent(id, organizationId, kind, availableAt)],
          q.jobs + [Job(jobId, organizationId, id, JobPending, 0, maxAttempts, None, None, availableAt, None)])
  }

  /** Which events may be claimed; the stores differ in which of these they pick first. */
  ghost predicate MayClaim(s: State, a: Action)
    requires a.Claim?
  {
    && a.owner !in s.tickets && a.index < |s.q.events| && Claimable(s.q.events[a.index], a.claimKind, a.now)
    && (HasJob(s.q, s.q.events[a.index].id) || a.newJobId == s.q.events[a.index].id || Fresh(s.q, a.newJobId))
  }

  function TicketOf(c: Claimed): Ticket {
    Ticket(c.event.id, c.event.organizationId, c.job.id, c.event.attemptCount, c.job.maxAttempts)
  }

  /** The processor's decision after a failed attempt. */
  function FailureEnding(t: Ticket, retryable: bool, error: Id, retryAt: int): Ending {
    if !retryable || t.attemptCount >= t.maxAttempts then DeadLetter(error) else Retry(error, retryAt)
  }

  function EndTicket(s: State, owner: Id, ending: Ending): State
    requires owner in s.tickets
  {
    var t := s.tickets[owner];
    s.(q := End(s.q, t.eventId, t.jobId, t.organizationId, owner, ending), tickets := s.tickets - {owner})
  }

  ghost function Next(s: State, a: Action): State {
    match a
    case Publish(id, jobId, organizationId, kind, availableAt, maxAttempts) =>
      if Fresh(s.q, id) && Fresh(s.q, jobId) then s.(q := Published(s.q, id, jobId, organizationId, kind, availableAt, maxAttempts)) else s
    case AddEvent(id, organizationId, kind, availableAt) =>
      if Fresh(s.q, id) then s.(q := s.q.(events := s.q.events + [PendingEvent(id, organizationId, kind, availableAt)])) else s
    case Claim(owner, index, kind, leaseUntil, now, jobId) =>
      if MayClaim(s, a) then
        State(ClaimAt(s.q, index, owner, leaseUntil, jobId),
              s.tickets[owner := TicketOf(ClaimedWork(s.q, index, owner, leaseUntil, jobId))],
              s.claims + [s.q.events[index].id])
      else s
    case Succeed(owner) => if owner in s.tickets then EndTicket(s, owner, Processed) else s
    case Fail(owner, retryable, error, failedAt, retryAt) =>
      if owner in s.tickets then EndTicket(s, owner, FailureEnding(s.tickets[owner], retryable, error, retryAt)) else s
    case Crash(owner) => s.(tickets := s.tickets - {owner})
  }

  ghost function Run(actions: seq<Action>): State {
    if actions == [] then INITIAL else Next(Run(actions[..|actions| - 1]), actions[|actions| - 1])
  }

  /* ---- the invariant ---- */

  ghost predicate JobFits(q: Queue, t: Ticket, j: nat)
    requires j < |q.jobs|
  {
    q.jobs[j].id == t.jobId && q.jobs[j].outboxEventId == t.eventId && q.jobs[j].maxAttempts == t.maxAttempts
  }

  /** A ticket names an event with its job, and carries the event's attempt count while its owner holds the lease. */
  ghost predicate TicketFits(q: Queue, owner: Id, t: Ticket) {
    && (exists j :: 0 <= j < |q.jobs| && JobFits(q, t, j))
    && (forall i :: 0 <= i < |q.events| && q.events[i].id == t.eventId ==>
          && q.events[i].organizationId == t.organizationId
          && (q.events[i].leaseOwner == Some(owner) ==> q.events[i].attemptCount == t.attemptCount))
  }

  function Count(ids: seq<Id>, id: Id): nat {
    if ids == [] then 0 else Count(ids[..|ids| - 1], id) + if ids[|ids| - 1] == id then 1 else 0
  }

  /** Every attempt is a claim and every claim is an attempt. */
  ghost predicate AttemptsAreClaims(s: State) {
    && (forall i :: 0 <= i < |s.q.events| ==> s.q.events[i].attemptCount == Count(s.claims, s.q.events[i].id))
    && (forall id :: id in s.claims ==> HasEvent(s.q, id))
  }

  ghost predicate Inv(s: State) {
    && Coupled(s.q)
    && AttemptsLeft(s.q)
    && (forall owner :: owner in s.tickets ==> TicketFits(s.q, owner, s.tickets[owner]))
    && AttemptsAreClaims(s)
  }

  /* ---- rows that move together ---- */

  /** Frame: one event and its job are replaced by rows that agree. */
  ghost predicate PairReplaced(q: Queue, q': Queue, i: nat, j: nat) {
    && i < |q.events| && j < |q.jobs| && q.jobs[j].outboxEventId == q.events[i].id
    && |q'.events| == |q.events| && |q'.jobs| == |q.jobs|
    && q' == Queue(q.events[i := q'.events[i]], q.jobs[j := q'.jobs[j]])
    && q'.events[i].id == q.events[i].id && q'.events[i].organizationId == q.events[i].organizationId
    && q'.jobs[j].id == q.jobs[j].id && q'.jobs[j].outboxEventId == q.jobs[j].outboxEventId && q'.jobs[j].maxAttempts == q.jobs[j].maxAttempts
    && Agree(q'.events[i], q'.jobs[j]) && LeaseFits(q'.events[i])
  }

  predicate SameJobIdentity(a: Job, b: Job) {
    b.id == a.id && b.outboxEventId == a.outboxEventId && b.maxAttempts == a.maxAttempts
  }

  lemma PairKeepsIds(q: Queue, q': Queue, i: nat, j: nat)
    requires Coupled(q) && PairReplaced(q, q', i, j)
    ensures forall k :: 0 <= k < |q.events| ==> q'.events[k].id == q.events[k].id
    ensures forall k :: 0 <= k < |q.jobs| ==> SameJobIdentity(q.jobs[k], q'.jobs[k])
    ensures Ids(q')
  {
  }

  lemma PairKeepsCoupled(q: Queue, q': Queue, i: nat, j: nat)
    requires Coupled(q) && PairReplaced(q, q', i, j)
    ensures Coupled(q')
  {
    PairKeepsIds(q, q', i, j);
    forall k | 0 <= k < |q'.events|
      ensures LeaseFits(q'.events[k]) && (HasJob(q', q'.events[k].id) || NeverClaimed(q'.events[k]))
    {
      if k == i {
        assert q'.jobs[j].outboxEventId == q'.events[i].id;
      } else if HasJob(q, q.events[k].id) {
        var l :| 0 <= l < |q.jobs| && q.jobs[l].outboxEventId == q.events[k].id;
        assert q'.jobs[l].outboxEventId == q'.events[k].id;
      }
    }
    forall l | 0 <= l < |q'.jobs|
      ensures HasEvent(q', q'.jobs[l].outboxEventId)
    {
      var k :| 0 <= k < |q.events| && q.events[k].id == q.jobs[l].outboxEventId;
      assert q'.events[k].id == q'.jobs[l].outboxEventId;
    }
  }

  lemma TheJobOf(q: Queue, i: nat)
    requires Coupled(q) && i < |q.events|
    ensures var j := JobIndex(q, q.events[i].id);
            && (j >= 0 ==> q.jobs[j].outboxEventId == q.events[i].id && Agree(q.events[i], q.jobs[j]))
            && (j < 0 ==> NeverClaimed(q.events[i]))
            && (j >= 0 <==> HasJob(q, q.events[i].id))
  {
  }

  /** The rows an outcome finds are the event its ticket names and that event's job. */
  lemma EndFindsThePair(q: Queue, owner: Id, t: Ticket)
    requires Coupled(q) && TicketFits(q, owner, t)
    ensures var i := EventIndex(q, t.eventId, t.organizationId, owner);
            i >= 0 ==>
              && q.events[i].attemptCount == t.attemptCount
              && exists j: nat :: j < |q.jobs| && JobFits(q, t, j)
                   && OwnedJobIndex(q, t.jobId, t.organizationId, owner) == j == LeasedJobIndex(q, t.jobId, t.organizationId, owner)
                   && q.jobs[j].outboxEventId == q.events[i].id
  {
    var i := EventIndex(q, t.eventId, t.organizationId, owner);
    if i >= 0 {
      var j :| 0 <= j < |q.jobs| && JobFits(q, t, j);
      assert Agree(q.events[i], q.jobs[j]);
      assert OwnsJob(q.jobs[j], t.jobId, t.organizationId, owner) && q.jobs[j].status == JobLeased;
      assert JobFits(q, t, j);
    }
  }

  lemma EndReplacesThePair(q: Queue, owner: Id, t: Ticket, ending: Ending)
    requires Coupled(q) && TicketFits(q, owner, t)
    ensures var q' := End(q, t.eventId, t.jobId, t.organizationId, owner, ending);
            var i := EventIndex(q, t.eventId, t.organizationId, owner);
            if i < 0 then q' == q
            else
              && q.events[i].attemptCount == t.attemptCount
              && exists j: nat :: JobFitsAt(q, t, j) && PairReplaced(q, q', i, j)
                   && q'.events[i] == EndedEvent(q.events[i], ending) && q'.jobs[j] == EndedJob(q.jobs[j], ending)
  {
    EndFindsThePair(q, owner, t);
    var i := EventIndex(q, t.eventId, t.organizationId, owner);
    if i >= 0 {
      var q' := End(q, t.eventId, t.jobId, t.organizationId, owner, ending);
      var j := OwnedJobIndex(q, t.jobId, t.organizationId, owner);
      assert Agree(q.events[i], q.jobs[j]);
      assert JobFitsAt(q, t, j) && PairReplaced(q, q', i, j);
    }
  }

  ghost predicate JobFitsAt(q: Queue, t: Ticket, j: nat) {
    j < |q.jobs| && JobFits(q, t, j)
  }

  /* ---- every step keeps the invariant ---- */

  /** Tickets keep fitting while rows keep their identity and nobody regains a lease with another count. */
  lemma TicketSurvives(q: Queue, q': Queue, owner: Id, t: Ticket)
    requires TicketFits(q, owner, t)
    requires forall j :: 0 <= j < |q.jobs| ==> j < |q'.jobs| && SameJobIdentity(q.jobs[j], q'.jobs[j])
    requires forall i :: 0 <= i < |q'.events| && q'.events[i].id == t.eventId ==>
               i < |q.events| && q'.events[i].id == q.events[i].id && q'.events[i].organizationId == q.events[i].organizationId
               && (q'.events[i].leaseOwner == Some(owner) ==> q.events[i].leaseOwner == Some(owner) && q'.events[i].attemptCount == q.events[i].attemptCount)
    ensures TicketFits(q', owner, t)
  {
    var j :| 0 <= j < |q.jobs| && JobFits(q, t, j);
    assert JobFits(q', t, j);
  }

  /** Frame: a new pending event at the end. */
  ghost predicate EventAdded(q: Queue, q': Queue, e: OutboxEvent) {
    q' == q.(events := q.events + [e]) && Fresh(q, e.id) && NeverClaimed(e) && LeaseFits(e)
  }

  /** Frame: the job of the i-th event at the end. */
  ghost predicate JobAdded(q: Queue, q': Queue, i: nat, job: Job) {
    && i < |q.events| && q' == q.(jobs := q.jobs + [job])
    && !HasJob(q, q.events[i].id) && job.outboxEventId == q.events[i].id && Agree(q.events[i], job)
    && (job.id == q.events[i].id || Fresh(q, job.id))
  }

  lemma EventAddedKeepsCoupled(q: Queue, q': Queue, e: OutboxEvent)
    requires Coupled(q) && EventAdded(q, q', e)
    ensures Coupled(q')
  {
    forall i | 0 <= i < |q.events| && HasJob(q, q.events[i].id)
      ensures HasJob(q', q'.events[i].id)
    {
    }
    forall j | 0 <= j < |q'.jobs|
      ensures HasEvent(q', q'.jobs[j].outboxEventId)
    {
      assert HasEvent(q, q.jobs[j].outboxEventId);
      var i :| 0 <= i < |q.events| && q.events[i].id == q.jobs[j].outboxEventId;
      assert q'.events[i].id == q'.jobs[j].outboxEventId;
    }
  }

  lemma JobAddedKeepsCoupled(q: Queue, q': Queue, i: nat, job: Job)
    requires Coupled(q) && JobAdded(q, q', i, job)
    ensures Coupled(q')
  {
    assert forall j :: 0 <= j < |q.jobs| ==> q.jobs[j].outboxEventId != q.events[i].id;
    JobAddedKeepsJobs(q, q', i, job);
    JobAddedKeepsEvents(q, q', i, job);
  }

  lemma JobAddedKeepsJobs(q: Queue, q': Queue, i: nat, job: Job)
    requires JobAdded(q, q', i, job)
    ensures forall k :: 0 <= k < |q.events| && HasJob(q, q.events[k].id) ==> HasJob(q', q.events[k].id)
  {
    forall k | 0 <= k < |q.events| && HasJob(q, q.events[k].id)
      ensures HasJob(q', q.events[k].id)
    {
      var l :| 0 <= l < |q.jobs| && q.jobs[l].outboxEventId == q.events[k].id;
      assert q'.jobs[l].outboxEventId == q.events[k].id;
    }
  }

  lemma JobAddedKeepsEvents(q: Queue, q': Queue, i: nat, job: Job)
    requires JobAdded(q, q', i, job)
    requires forall j :: 0 <= j < |q.jobs| ==> HasEvent(q, q.jobs[j].outboxEventId)
    ensures forall j :: 0 <= j < |q'.jobs| ==> HasEvent(q', q'.jobs[j].outboxEventId)
  {
    forall j | 0 <= j < |q'.jobs|
      ensures HasEvent(q', q'.jobs[j].outboxEventId)
    {
      if j < |q.jobs| {
        var k :| 0 <= k < |q.events| && q.events[k].id == q.jobs[j].outboxEventId;
        assert q'.events[k].id == q'.jobs[j].outboxEventId;
      } else {
        assert q'.events[i].id == q'.jobs[j].outboxEventId;
      }
    }
  }

  lemma CountAbsent(ids: seq<Id>, id: Id)
    ensures id !in ids ==> Count(ids, id) == 0
  {
    if ids != [] && id !in ids {
      assert ids[|ids| - 1] in ids;
      assert forall x :: x in ids[..|ids| - 1] ==> x in ids;
    }
  }

  lemma EventAddedKeeps(s: State, q': Queue, e: OutboxEvent)
    requires Inv(s) && EventAdded(s.q, q', e)
    ensures Inv(s.(q := q'))
  {
    EventAddedKeepsCoupled(s.q, q', e);
    EventAddedKeepsTickets(s, q', e);
    EventAddedKeepsCounts(s, q', e);
  }

  lemma EventAddedKeepsTickets(s: State, q': Queue, e: OutboxEvent)
    requires Coupled(s.q) && EventAdded(s.q, q', e) && forall owner :: owner in s.tickets ==> TicketFits(s.q, owner, s.tickets[owner])
    ensures forall owner :: owner in s.tickets ==> TicketFits(q', owner, s.tickets[owner])
  {
    forall owner | owner in s.tickets
      ensures TicketFits(q', owner, s.tickets[owner])
    {
      var t := s.tickets[owner];
      var j :| 0 <= j < |s.q.jobs| && JobFits(s.q, t, j);
      assert e.id != t.eventId;
      TicketSurvives(s.q, q', owner, t);
    }
  }

  lemma EventAddedKeepsCounts(s: State, q': Queue, e: OutboxEvent)
    requires AttemptsAreClaims(s) && EventAdded(s.q, q', e)
    ensures AttemptsAreClaims(s.(q := q'))
  {
    assert !HasEvent(s.q, e.id);
    CountAbsent(s.claims, e.id);
    forall id | id in s.claims
      ensures HasEvent(q', id)
    {
      var i :| 0 <= i < |s.q.events| && s.q.events[i].id == id;
      assert q'.events[i].id == id;
    }
  }

  lemma JobAddedKeeps(s: State, q': Queue, i: nat, job: Job)
    requires Inv(s) && JobAdded(s.q, q', i, job)
    ensures Inv(s.(q := q'))
  {
    JobAddedKeepsCoupled(s.q, q', i, job);
    JobAddedKeepsTickets(s, q', i, job);
    assert NeverClaimed(s.q.events[i]);
    forall id | id in s.claims
      ensures HasEvent(q', id)
    {
      assert HasEvent(s.q, id);
    }
  }

  lemma JobAddedKeepsTickets(s: State, q': Queue, i: nat, job: Job)
    requires JobAdded(s.q, q', i, job) && forall owner :: owner in s.tickets ==> TicketFits(s.q, owner, s.tickets[owner])
    ensures forall owner :: owner in s.tickets ==> TicketFits(q', owner, s.tickets[owner])
  {
    forall owner | owner in s.tickets
      ensures TicketFits(q', owner, s.tickets[owner])
    {
      TicketSurvives(s.q, q', owner, s.tickets[owner]);
    }
  }

  lemma PublishKeeps(s: State, id: Id, jobId: Id, organizationId: Id, kind: Id, availableAt: int, maxAttempts: int)
    requires Inv(s) && Fresh(s.q, id) && Fresh(s.q, jobId)
    ensures Inv(s.(q := Published(s.q, id, jobId, organizationId, kind, availableAt, maxAttempts)))
  {
    var e := PendingEvent(id, organizationId, kind, availableAt);
    var half := s.q.(events := s.q.events + [e]);
    EventAddedKeeps(s, half, e);
    var q' := Published(s.q, id, jobId, organizationId, kind, availableAt, maxAttempts);
    var n := |s.q.events|;
    assert half.events[n] == e;
    JobAddedKeeps(s.(q := half), q', n, q'.jobs[|s.q.jobs|]);
  }

  lemma PairKeepsAttemptsLeft(q: Queue, q': Queue, i: nat, j: nat)
    requires Coupled(q) && AttemptsLeft(q) && PairReplaced(q, q', i, j)
    requires q'.events[i].status == EventPending ==> q'.events[i].attemptCount < q'.jobs[j].maxAttempts
    ensures AttemptsLeft(q')
  {
    PairKeepsIds(q, q', i, j);
  }

  /** Frame: tickets keep fitting when the replaced event is leased to nobody who has one. */
  lemma PairKeepsTickets(s: State, q': Queue, i: nat, j: nat)
    requires Coupled(s.q) && PairReplaced(s.q, q', i, j)
    requires forall owner :: owner in s.tickets ==> TicketFits(s.q, owner, s.tickets[owner])
    requires q'.events[i].leaseOwner.Some? ==> q'.events[i].leaseOwner.value !in s.tickets
    ensures forall owner :: owner in s.tickets ==> TicketFits(q', owner, s.tickets[owner])
  {
    PairKeepsIds(s.q, q', i, j);
    forall owner | owner in s.tickets
      ensures TicketFits(q', owner, s.tickets[owner])
    {
      TicketSurvives(s.q, q', owner, s.tickets[owner]);
    }
  }

  lemma NewTicketFits(q: Queue, owner: Id, t: Ticket, i: nat, j: nat)
    requires Ids(q) && i < |q.events| && j < |q.jobs| && JobFits(q, t, j)
    requires q.events[i].id == t.eventId && q.events[i].organizationId == t.organizationId && q.events[i].attemptCount == t.attemptCount
    ensures TicketFits(q, owner, t)
  {
  }

  function ClaimedPair(q: Queue, i: nat, j: nat, owner: Id, leaseUntil: int): Queue
    requires i < |q.events| && j < |q.jobs|
  {
    Queue(q.events[i := ClaimedEvent(q.events[i], owner, leaseUntil)], q.jobs[j := ClaimedJob(q.jobs[j], owner, leaseUntil)])
  }

  lemma ClaimReplacesThePair(q: Queue, i: nat, j: nat, owner: Id, leaseUntil: int)
    requires Coupled(q) && i < |q.events| && j == JobIndex(q, q.events[i].id)
    ensures j < |q.jobs| && PairReplaced(q, ClaimedPair(q, i, j, owner, leaseUntil), i, j)
  {
    TheJobOf(q, i);
  }

  /** What a claim does, once the job is there. */
  lemma ClaimPairKeeps(s: State, i: nat, j: nat, owner: Id, leaseUntil: int)
    requires Inv(s) && i < |s.q.events| && j == JobIndex(s.q, s.q.events[i].id) && owner !in s.tickets
    ensures var q' := ClaimedPair(s.q, i, j, owner, leaseUntil);
            Inv(State(q', s.tickets[owner := TicketOf(Claimed(q'.events[i], q'.jobs[j], s.q.events[i].status == EventProcessing))],
                      s.claims + [s.q.events[i].id]))
  {
    ClaimReplacesThePair(s.q, i, j, owner, leaseUntil);
    ReplacedPairKeeps(s, ClaimedPair(s.q, i, j, owner, leaseUntil), i, j, owner);
  }

  lemma ReplacedPairKeeps(s: State, q': Queue, i: nat, j: nat, owner: Id)
    requires Inv(s) && PairReplaced(s.q, q', i, j) && owner !in s.tickets
    requires q'.events[i].leaseOwner == Some(owner) && q'.events[i].status == EventProcessing
    requires q'.events[i].attemptCount == s.q.events[i].attemptCount + 1
    ensures Inv(State(q', s.tickets[owner := Ticket(q'.events[i].id, q'.events[i].organizationId, q'.jobs[j].id, q'.events[i].attemptCount, q'.jobs[j].maxAttempts)],
                      s.claims + [s.q.events[i].id]))
  {
    var t := Ticket(q'.events[i].id, q'.events[i].organizationId, q'.jobs[j].id, q'.events[i].attemptCount, q'.jobs[j].maxAttempts);
    PairKeepsIds(s.q, q', i, j);
    PairKeepsCoupled(s.q, q', i, j);
    PairKeepsAttemptsLeft(s.q, q', i, j);
    PairKeepsTickets(s, q', i, j);
    NewTicketFits(q', owner, t, i, j);
    ClaimCounts(s, q', i);
  }

  lemma ClaimCounts(s: State, q': Queue, i: nat)
    requires Ids(s.q) && AttemptsAreClaims(s) && i < |s.q.events| && |q'.events| == |s.q.events|
    requires forall k :: 0 <= k < |q'.events| ==> q'.events[k].id == s.q.events[k].id
    requires forall k :: 0 <= k < |q'.events| ==> q'.events[k].attemptCount == s.q.events[k].attemptCount + if k == i then 1 else 0
    ensures AttemptsAreClaims(State(q', s.tickets, s.claims + [s.q.events[i].id]))
  {
    var longer := s.claims + [s.q.events[i].id];
    assert longer[..|s.claims|] == s.claims;
    forall id | id in longer
      ensures HasEvent(q', id)
    {
      if id in s.claims {
        var k :| 0 <= k < |s.q.events| && s.q.events[k].id == id;
        assert q'.events[k].id == id;
      } else {
        assert q'.events[i].id == id;
      }
    }
  }

  lemma ClaimKeeps(s: State, a: Action)
    requires Inv(s) && a.Claim? && MayClaim(s, a)
    ensures Inv(Next(s, a))
  {
    var i := a.index;
    TheJobOf(s.q, i);
    var j := JobIndex(s.q, s.q.events[i].id);
    if j >= 0 {
      ClaimPairKeeps(s, i, j, a.owner, a.leaseUntil);
    } else {
      var made := NewJob(s.q.events[i], a.newJobId);
      var half := s.q.(jobs := s.q.jobs + [made]);
      JobAddedKeeps(s, half, i, made);
      TheJobOf(half, i);
      assert half.jobs[|s.q.jobs|] == made;
      ClaimPairKeeps(s.(q := half), i, |s.q.jobs|, a.owner, a.leaseUntil);
      assert half.jobs[|s.q.jobs| := ClaimedJob(made, a.owner, a.leaseUntil)] == s.q.jobs + [ClaimedJob(made, a.owner, a.leaseUntil)];
    }
  }

  lemma EndKeeps(s: State, owner: Id, ending: Ending)
    requires Inv(s) && owner in s.tickets
    requires ending.Retry? ==> s.tickets[owner].attemptCount < s.tickets[owner].maxAttempts
    ensures Inv(EndTicket(s, owner, ending))
  {
    var t := s.tickets[owner];
    EndReplacesThePair(s.q, owner, t, ending);
    var q' := EndTicket(s, owner, ending).q;
    var i := EventIndex(s.q, t.eventId, t.organizationId, owner);
    if i >= 0 {
      var j: nat :| JobFitsAt(s.q, t, j) && PairReplaced(s.q, q', i, j)
                    && q'.events[i] == EndedEvent(s.q.events[i], ending) && q'.jobs[j] == EndedJob(s.q.jobs[j], ending);
      EndedPairKeeps(s, owner, ending, q', i, j);
    }
  }

  lemma EndedPairKeeps(s: State, owner: Id, ending: Ending, q': Queue, i: nat, j: nat)
    requires Inv(s) && PairReplaced(s.q, q', i, j)
    requires q'.events[i] == EndedEvent(s.q.events[i], ending)
    requires ending.Retry? ==> s.q.events[i].attemptCount < s.q.jobs[j].maxAttempts
    ensures Inv(State(q', s.tickets - {owner}, s.claims))
  {
    PairKeepsIds(s.q, q', i, j);
    PairKeepsCoupled(s.q, q', i, j);
    PairKeepsAttemptsLeft(s.q, q', i, j);
    PairKeepsTickets(s, q', i, j);
    SameCounts(s, q');
  }

  lemma SameCounts(s: State, q': Queue)
    requires AttemptsAreClaims(s) && |q'.events| == |s.q.events|
    requires forall k :: 0 <= k < |q'.events| ==> q'.events[k].id == s.q.events[k].id && q'.events[k].attemptCount == s.q.events[k].attemptCount
    ensures AttemptsAreClaims(s.(q := q'))
  {
    forall id | id in s.claims
      ensures HasEvent(q', id)
    {
      var k :| 0 <= k < |s.q.events| && s.q.events[k].id == id;
      assert q'.events[k].id == id;
    }
  }

  lemma StepKeeps(s: State, a: Action)
    requires Inv(s)
    ensures Inv(Next(s, a))
  {
    match a
    case Publish(_, _, _, _, _, _) => PublishStepKeeps(s, a);
    case AddEvent(_, _, _, _) => AddEventStepKeeps(s, a);
    case Claim(_, _, _, _, _, _) => ClaimStepKeeps(s, a);
    case Succeed(_) => SucceedStepKeeps(s, a);
    case Fail(_, _, _, _, _) => FailStepKeeps(s, a);
    case Crash(_) => CrashStepKeeps(s, a);
  }

  lemma PublishStepKeeps(s: State, a: Action)
    requires Inv(s) && a.Publish?
    ensures Inv(Next(s, a))
  {
    if Fresh(s.q, a.id) && Fresh(s.q, a.jobId) {
      PublishKeeps(s, a.id, a.jobId, a.organizationId, a.kind, a.availableAt, a.maxAttempts);
    }
  }

  lemma AddEventStepKeeps(s: State, a: Action)
    requires Inv(s) && a.AddEvent?
    ensures Inv(Next(s, a))
  {
    if Fresh(s.q, a.eventId) {
      var e := PendingEvent(a.eventId, a.eventOrganizationId, a.eventKind, a.dueAt);
      EventAddedKeeps(s, s.q.(events := s.q.events + [e]), e);
    }
  }

  lemma ClaimStepKeeps(s: State, a: Action)
    requires Inv(s) && a.Claim?
    ensures Inv(Next(s, a))
  {
    if MayClaim(s, a) {
      ClaimKeeps(s, a);
    }
  }

  lemma SucceedStepKeeps(s: State, a: Action)
    requires Inv(s) && a.Succeed?
    ensures Inv(Next(s, a))
  {
    if a.doneBy in s.tickets {
      EndKeeps(s, a.doneBy, Processed);
      assert Next(s, a) == EndTicket(s, a.doneBy, Processed);
    }
  }

  lemma FailStepKeeps(s: State, a: Action)
    requires Inv(s) && a.Fail?
    ensures Inv(Next(s, a))
  {
    if a.failedBy in s.tickets {
      var ending := FailureEnding(s.tickets[a.failedBy], a.retryable, a.error, a.retryAt);
      EndKeeps(s, a.failedBy, ending);
      assert Next(s, a) == EndTicket(s, a.failedBy, ending);
    }
  }

  lemma CrashStepKeeps(s: State, a: Action)
    requires Inv(s) && a.Crash?
    ensures Inv(Next(s, a))
  {
  }

  /** The coupling holds in every state any number of workers can reach. */
  lemma {:induction false} InvAlways(actions: seq<Action>)
    ensures Inv(Run(actions))
  {
    if actions != [] {
      InvAlways(actions[..|actions| - 1]);
      StepKeeps(Run(actions[..|actions| - 1]), actions[|actions| - 1]);
    }
  }
}
