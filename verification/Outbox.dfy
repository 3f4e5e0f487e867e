/** The outbox queue: an event row and a job row move side by side through claim, lease, retry and
    dead letter. The claimer keeps both in arrays and overwrites them in place. */
module Outbox {
  import opened Results
  import opened Searching

  type Id = nat

  datatype EventStatus = EventPending | EventProcessing | EventProcessed | EventFailed

  datatype JobStatus = JobPending | JobLeased | JobSucceeded | JobFailed

  datatype OutboxEvent = OutboxEvent(
    id: Id, organizationId: Id, kind: Id, status: EventStatus, attemptCount: nat,
    leaseOwner: Option<Id>, leaseUntil: Option<int>, availableAt: int, lastError: Option<Id>)

  datatype Job = Job(
    id: Id, organizationId: Id, outboxEventId: Id, status: JobStatus, attemptCount: nat, maxAttempts: int,
    leaseOwner: Option<Id>, leaseUntil: Option<int>, availableAt: int, lastError: Option<Id>)

  datatype Queue = Queue(events: seq<OutboxEvent>, jobs: seq<Job>)

  /** What a claim hands to the processor; the rows are copies taken at the claim. */
  datatype Claimed = Claimed(event: OutboxEvent, job: Job, leaseRecovered: bool)

  const DEFAULT_JOB_MAX_ATTEMPTS := 8

  /* ---- the row updates ---- */

  predicate Claimable(e: OutboxEvent, kind: Id, now: int) {
    && e.kind == kind
    && e.availableAt <= now
    && (e.status == EventPending || (e.status == EventProcessing && e.leaseUntil.Some? && e.leaseUntil.value < now))
  }

  /** The event a claim takes: the first claimable one. */
  function DueIndex(events: seq<OutboxEvent>, kind: Id, now: int): (i: int)
    ensures -1 <= i < |events|
  {
    FirstIndex(events, (row: OutboxEvent) => Claimable(row, kind, now))
  }

  function ClaimedEvent(e: OutboxEvent, owner: Id, leaseUntil: int): OutboxEvent {
    e.(status := EventProcessing, leaseOwner := Some(owner), leaseUntil := Some(leaseUntil), attemptCount := e.attemptCount + 1)
  }

  function ClaimedJob(job: Job, owner: Id, leaseUntil: int): Job {
    job.(status := JobLeased, leaseOwner := Some(owner), leaseUntil := Some(leaseUntil), attemptCount := job.attemptCount + 1)
  }

  /** The job row made for an event that was stored without one. */
  function NewJob(e: OutboxEvent, jobId: Id): Job {
    Job(jobId, e.organizationId, e.id, JobPending, 0, DEFAULT_JOB_MAX_ATTEMPTS, None, None, e.availableAt, None)
  }

  function JobIndex(q: Queue, eventId: Id): (j: int)
    ensures -1 <= j < |q.jobs|
  {
    FirstIndex(q.jobs, (row: Job) => row.outboxEventId == eventId)
  }

  /** Claiming the i-th event; `jobId` is the id of the job row if one has to be made. */
  function ClaimAt(q: Queue, i: nat, owner: Id, leaseUntil: int, jobId: Id): Queue
    requires i < |q.events|
  {
    var e := q.events[i];
    var j := JobIndex(q, e.id);
    Queue(q.events[i := ClaimedEvent(e, owner, leaseUntil)],
          if j >= 0 then q.jobs[j := ClaimedJob(q.jobs[j], owner, leaseUntil)]
          else q.jobs + [ClaimedJob(NewJob(e, jobId), owner, leaseUntil)])
  }

  function ClaimedWork(q: Queue, i: nat, owner: Id, leaseUntil: int, jobId: Id): Claimed
    requires i < |q.events|
  {
    var e := q.events[i];
    var j := JobIndex(q, e.id);
    Claimed(ClaimedEvent(e, owner, leaseUntil),
            ClaimedJob(if j >= 0 then q.jobs[j] else NewJob(e, jobId), owner, leaseUntil),
            e.status == EventProcessing)
  }

  predicate HoldsEvent(e: OutboxEvent, eventId: Id, organizationId: Id, owner: Id) {
    e.id == eventId && e.organizationId == organizationId && e.leaseOwner == Some(owner) && e.status == EventProcessing
  }

  predicate OwnsJob(job: Job, jobId: Id, organizationId: Id, owner: Id) {
    job.id == jobId && job.organizationId == organizationId && job.leaseOwner == Some(owner)
  }

  function EventIndex(q: Queue, eventId: Id, organizationId: Id, owner: Id): (i: int)
    ensures -1 <= i < |q.events|
  {
    FirstIndex(q.events, (row: OutboxEvent) => HoldsEvent(row, eventId, organizationId, owner))
  }

  function OwnedJobIndex(q: Queue, jobId: Id, organizationId: Id, owner: Id): (j: int)
    ensures -1 <= j < |q.jobs|
  {
    FirstIndex(q.jobs, (row: Job) => OwnsJob(row, jobId, organizationId, owner))
  }

  /** The end of an attempt: what it makes of the event and of the job. */
  datatype Ending =
    | Processed
    | Retry(retryError: Id, availableAt: int)
    | DeadLetter(deadError: Id)

  function EndedEvent(e: OutboxEvent, ending: Ending): OutboxEvent {
    match ending
    case Processed => e.(status := EventProcessed, leaseOwner := None, leaseUntil := None)
    case Retry(error, availableAt) =>
      e.(status := EventPending, lastError := Some(error), leaseOwner := None, leaseUntil := None, availableAt := availableAt)
    case DeadLetter(error) => e.(status := EventFailed, lastError := Some(error), leaseOwner := None, leaseUntil := None)
  }

  function EndedJob(job: Job, ending: Ending): Job {
    match ending
    case Processed => job.(status := JobSucceeded, leaseOwner := None, leaseUntil := None)
    case Retry(error, availableAt) =>
      job.(status := JobPending, lastError := Some(error), leaseOwner := None, leaseUntil := None, availableAt := availableAt)
    case DeadLetter(error) => job.(status := JobFailed, lastError := Some(error), leaseOwner := None, leaseUntil := None)
  }

  /** The memory claimer's outcome: nothing without the event's lease; the job is only checked for its
      owner, except by markProcessed, which also wants it leased. */
  function End(q: Queue, eventId: Id, jobId: Id, organizationId: Id, owner: Id, ending: Ending): Queue {
    var i := EventIndex(q, eventId, organizationId, owner);
    if i < 0 then q
    else
      var j := if ending == Processed then LeasedJobIndex(q, jobId, organizationId, owner) else OwnedJobIndex(q, jobId, organizationId, owner);
      Queue(q.events[i := EndedEvent(q.events[i], ending)], if j >= 0 then q.jobs[j := EndedJob(q.jobs[j], ending)] else q.jobs)
  }

  function LeasedJobIndex(q: Queue, jobId: Id, organizationId: Id, owner: Id): (j: int)
    ensures -1 <= j < |q.jobs|
  {
    FirstIndex(q.jobs, (row: Job) => OwnsJob(row, jobId, organizationId, owner) && row.status == JobLeased)
  }

  /** The database claimer's outcome: two guarded updates, each on every row its own guard lets through. */
  function GuardedEnd(q: Queue, eventId: Id, jobId: Id, organizationId: Id, owner: Id, ending: Ending): Queue {
    Queue(
      seq(|q.events|, i requires 0 <= i < |q.events| =>
        if HoldsEvent(q.events[i], eventId, organizationId, owner) then EndedEvent(q.events[i], ending) else q.events[i]),
      seq(|q.jobs|, j requires 0 <= j < |q.jobs| =>
        if OwnsJob(q.jobs[j], jobId, organizationId, owner) && q.jobs[j].status == JobLeased then EndedJob(q.jobs[j], ending) else q.jobs[j]))
  }

  /** The claim took an event of the type asked for that was due, and pending or under a lapsed lease. */
  predicate IsTaken(e: OutboxEvent, claimed: Claimed, kind: Id, owner: Id, leaseUntil: int, now: int) {
    && e.kind == kind
    && e.availableAt <= now
    && (e.status == EventPending || (e.status == EventProcessing && e.leaseUntil.Some? && e.leaseUntil.value < now))
    && claimed.event == OutboxEvent(e.id, e.organizationId, kind, EventProcessing, e.attemptCount + 1, Some(owner), Some(leaseUntil),
                                    e.availableAt, e.lastError)
    && claimed.leaseRecovered == (e.status == EventProcessing)
    && claimed.job.outboxEventId == e.id
    && claimed.job.status == JobLeased && claimed.job.leaseOwner == Some(owner) && claimed.job.leaseUntil == Some(leaseUntil)
  }

  /** The event is of another type, not due yet, leased to somebody still, or closed. */
  predicate NotTaken(e: OutboxEvent, kind: Id, now: int) {
    || e.kind != kind
    || e.availableAt > now
    || (e.status == EventProcessing && (e.leaseUntil == None || e.leaseUntil.value >= now))
    || e.status == EventProcessed || e.status == EventFailed
  }

  lemma FirstTaken(events: seq<OutboxEvent>, kind: Id, now: int)
    ensures var i := DueIndex(events, kind, now);
            && (i < 0 <==> forall k :: 0 <= k < |events| ==> NotTaken(events[k], kind, now))
            && (i >= 0 ==> Claimable(events[i], kind, now) && forall k :: 0 <= k < i ==> NotTaken(events[k], kind, now))
  {
    var i := DueIndex(events, kind, now);
    assert forall k :: 0 <= k < |events| ==> (NotTaken(events[k], kind, now) <==> !Claimable(events[k], kind, now));
    if i >= 0 {
      assert !NotTaken(events[i], kind, now);
    }
  }

  lemma WorkIsTaken(q: Queue, i: nat, kind: Id, owner: Id, leaseUntil: int, now: int, jobId: Id)
    requires i < |q.events| && Claimable(q.events[i], kind, now)
    ensures IsTaken(q.events[i], ClaimedWork(q, i, owner, leaseUntil, jobId), kind, owner, leaseUntil, now)
  {
  }

  /* ---- the claimer ---- */

  class OutboxClaimer {
    var events: seq<OutboxEvent>
    var jobs: seq<Job>

    ghost function Contents(): Queue
      reads this
    {
      Queue(events, jobs)
    }

    constructor (events: seq<OutboxEvent>, jobs: seq<Job>)
      ensures Contents() == Queue(events, jobs)
    {
      this.events, this.jobs := events, jobs;
    }

    /** Claims the first event that is due and free, or whose lease has lapsed. */
    method ClaimNextByType(kind: Id, owner: Id, leaseUntil: int, now: int) returns (claimed: Option<Claimed>)
      requires JobIdsFit(Contents())
      modifies this
      ensures var before := old(Contents());
              var i := DueIndex(before.events, kind, now);
              if i < 0 then claimed == None && Contents() == before
              else
                var jobId := before.events[i].id;
                claimed == Some(ClaimedWork(before, i, owner, leaseUntil, jobId)) && Contents() == ClaimAt(before, i, owner, leaseUntil, jobId)
      ensures claimed == None <==> forall k :: 0 <= k < |old(events)| ==> NotTaken(old(events)[k], kind, now)
      ensures claimed.Some? ==>
                exists i :: 0 <= i < |old(events)| && events == old(events)[i := claimed.value.event]
                            && IsTaken(old(events)[i], claimed.value, kind, owner, leaseUntil, now)
                            && forall k :: 0 <= k < i ==> NotTaken(old(events)[k], kind, now)
    {
      FirstTaken(events, kind, now);
      var index := FindIndex(events, (row: OutboxEvent) => Claimable(row, kind, now));
      if index < 0 {
        return None;
      }
      ghost var before := Contents();
      WorkIsTaken(before, index, kind, owner, leaseUntil, now, events[index].id);
      var event := events[index];
      var leaseRecovered := event.status == EventProcessing;
      var nextEvent := event.(status := EventProcessing, leaseOwner := Some(owner), leaseUntil := Some(leaseUntil),
                              attemptCount := event.attemptCount + 1);
      events := events[index := nextEvent];
      var job := EnsureJob(event);
      var jobIndex := FindIndex(jobs, (row: Job) => row.id == job.id);
      var nextJob := job.(status := JobLeased, leaseOwner := Some(owner), leaseUntil := Some(leaseUntil), attemptCount := job.attemptCount + 1);
      if jobIndex >= 0 {
        jobs := jobs[jobIndex := nextJob];
      }
      return Some(Claimed(nextEvent, nextJob, leaseRecovered));
    }

    /** The job of an event, made on the spot if there is none. */
    method EnsureJob(event: OutboxEvent) returns (job: Job)
      requires JobIdsDiffer(jobs)
      requires forall j :: 0 <= j < |jobs| && jobs[j].id == event.id ==> jobs[j].outboxEventId == event.id
      modifies this`jobs
      ensures var j := FirstIndex(old(jobs), (row: Job) => row.outboxEventId == event.id);
              && job == (if j >= 0 then old(jobs)[j] else NewJob(event, event.id))
              && jobs == (if j >= 0 then old(jobs) else old(jobs) + [job])
              && FirstIndex(jobs, (row: Job) => row.id == job.id) == (if j >= 0 then j else |old(jobs)|)
    {
      var j := FindIndex(jobs, (row: Job) => row.outboxEventId == event.id);
      if j >= 0 {
        return jobs[j];
      }
      var created := Job(event.id, event.organizationId, event.id, JobPending, 0, DEFAULT_JOB_MAX_ATTEMPTS, None, None, event.availableAt, None);
      jobs := jobs + [created];
      return created;
    }

    method MarkProcessed(eventId: Id, jobId: Id, organizationId: Id, owner: Id)
      modifies this
      ensures Contents() == End(old(Contents()), eventId, jobId, organizationId, owner, Processed)
    {
      var eventIndex := FindIndex(events, (row: OutboxEvent) => HoldsEvent(row, eventId, organizationId, owner));
      if eventIndex < 0 {
        return;
      }
      events := events[eventIndex := events[eventIndex].(status := EventProcessed, leaseOwner := None, leaseUntil := None)];
      var jobIndex := FindIndex(jobs, (row: Job) => OwnsJob(row, jobId, organizationId, owner) && row.status == JobLeased);
      if jobIndex >= 0 {
        jobs := jobs[jobIndex := jobs[jobIndex].(status := JobSucceeded, leaseOwner := None, leaseUntil := None)];
      }
    }

    method ScheduleRetry(eventId: Id, jobId: Id, organizationId: Id, owner: Id, error: Id, availableAt: int)
      modifies this
      ensures Contents() == End(old(Contents()), eventId, jobId, organizationId, owner, Retry(error, availableAt))
    {
      ApplyOutcome(eventId, jobId, organizationId, owner, error, EventPending, JobPending, Some(availableAt));
    }

    method MarkDeadLettered(eventId: Id, jobId: Id, organizationId: Id, owner: Id, error: Id)
      modifies this
      ensures Contents() == End(old(Contents()), eventId, jobId, organizationId, owner, DeadLetter(error))
    {
      ApplyOutcome(eventId, jobId, organizationId, owner, error, EventFailed, JobFailed, None);
    }

    method ApplyOutcome(eventId: Id, jobId: Id, organizationId: Id, owner: Id, error: Id,
                        outboxStatus: EventStatus, jobStatus: JobStatus, availableAt: Option<int>)
      requires (outboxStatus == EventPending && jobStatus == JobPending && availableAt.Some?)
               || (outboxStatus == EventFailed && jobStatus == JobFailed && availableAt == None)
      modifies this
      ensures Contents() == End(old(Contents()), eventId, jobId, organizationId, owner,
                                if availableAt.Some? then Retry(error, availableAt.value) else DeadLetter(error))
    {
      var eventIndex := FindIndex(events, (row: OutboxEvent) => HoldsEvent(row, eventId, organizationId, owner));
      if eventIndex < 0 {
        return;
      }
      var event := events[eventIndex];
      events := events[eventIndex := event.(status := outboxStatus, lastError := Some(error), leaseOwner := None, leaseUntil := None,
                                            availableAt := if availableAt.Some? then availableAt.value else event.availableAt)];
      var jobIndex := FindIndex(jobs, (row: Job) => OwnsJob(row, jobId, organizationId, owner));
      if jobIndex >= 0 {
        var job := jobs[jobIndex];
        jobs := jobs[jobIndex := job.(status := jobStatus, lastError := Some(error), leaseOwner := None, leaseUntil := None,
                                      availableAt := if availableAt.Some? then availableAt.value else job.availableAt)];
      }
    }
  }

  /** Job ids never repeat, and a job whose id is an event's id belongs to that event. */
  ghost predicate JobIdsFit(q: Queue) {
    && JobIdsDiffer(q.jobs)
    && (forall i, j :: 0 <= i < |q.events| && 0 <= j < |q.jobs| && q.jobs[j].id == q.events[i].id ==> q.jobs[j].outboxEventId == q.events[i].id)
  }

  ghost predicate JobIdsDiffer(jobs: seq<Job>) {
    forall j, k :: 0 <= j < k < |jobs| ==> jobs[j].id != jobs[k].id
  }
}
