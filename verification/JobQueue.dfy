/**
 JobQueueService and JobsService: the job table and its transitions. A job is named by its place in the
 table; rows are never removed. Each function is one transaction; the class does the same in place.
 */
module JobQueue {
  import opened Wrappers
  import opened Text
  import opened Backoff

  datatype JobStatus = PENDING | PROCESSING | SUCCEEDED | FAILED | DEAD_LETTER

  datatype Job = Job(
    jobType: string,
    tenantId: string,
    dedupeKey: Option<string>,
    runAt: int,
    createdAt: int,
    status: JobStatus,
    attempts: int,
    maxAttempts: int,
    backoffMs: int,
    lockedAt: Option<int>,
    lockedBy: Option<string>,
    lastError: Option<string>,
    succeededAt: Option<int>,
    failedAt: Option<int>)

  datatype DlqRow = DlqRow(jobId: nat, attempts: int, lastError: string)

  datatype Queue = Queue(jobs: seq<Job>, dlq: seq<DlqRow>)

  datatype EnqueueParams = EnqueueParams(
    jobType: string, tenantId: string, dedupeKey: Option<string>, runAt: Option<int>, maxAttempts: int, backoffMs: int)

  datatype EnqueueResult = Enqueued(id: nat, created: bool) | InvalidTenant | UniqueViolation

  function Truncate(message: string): string { if |message| <= 2000 then message else message[..2000] }

  // --- enqueue

  /** An empty dedupe key is stored, but is not looked up. */
  predicate IsTruthy(key: Option<string>)
  {
    key.Some? && |key.value| > 0
  }

  function FindDedupe(jobs: seq<Job>, key: Option<string>): (found: Option<nat>)
    ensures found.Some? ==> found.value < |jobs|
    ensures found.Some? ==> key.Some? && jobs[found.value].dedupeKey == key
    ensures found.None? && key.Some? ==> forall i :: 0 <= i < |jobs| ==> jobs[i].dedupeKey != key
  {
    if key.None? || |jobs| == 0 then None
    else
      var last := |jobs| - 1;
      var earlier := FindDedupe(jobs[..last], key);
      if earlier.Some? then earlier else if jobs[last].dedupeKey == key then Some(last) else None
  }

  function NewJob(p: EnqueueParams, now: int): Job
  {
    Job(p.jobType, p.tenantId, p.dedupeKey, if p.runAt.Some? then p.runAt.value else now, now, PENDING, 0,
        p.maxAttempts, p.backoffMs, None, None, None, None, None)
  }

  /** INSERT under the unique index on dedupeKey. */
  function Insert(queue: Queue, p: EnqueueParams, now: int): (Queue, EnqueueResult)
  {
    if FindDedupe(queue.jobs, p.dedupeKey).Some? then (queue, UniqueViolation)
    else (queue.(jobs := queue.jobs + [NewJob(p, now)]), Enqueued(|queue.jobs|, true))
  }

  function Enqueue(queue: Queue, p: EnqueueParams, tenantExists: bool, now: int): (Queue, EnqueueResult)
  {
    if !tenantExists then (queue, InvalidTenant)
    else
      var existing := FindDedupe(queue.jobs, p.dedupeKey);
      if IsTruthy(p.dedupeKey) && existing.Some? then (queue, Enqueued(existing.value, false))
      else Insert(queue, p, now)
  }

  // --- claim

  predicate Eligible(job: Job, types: set<string>, now: int)
  {
    job.status == PENDING && job.runAt <= now && (types == {} || job.jobType in types)
  }

  predicate Earlier(a: Job, b: Job)
  {
    a.runAt < b.runAt || (a.runAt == b.runAt && a.createdAt < b.createdAt)
  }

  /** The first row in (runAt, createdAt) order among the eligible rows that no other claimer has locked. */
  predicate IsNext(jobs: seq<Job>, types: set<string>, now: int, skipped: set<nat>, id: nat)
  {
    && id < |jobs| && Eligible(jobs[id], types, now) && id !in skipped
    && forall i: nat :: i < |jobs| && i !in skipped && Eligible(jobs[i], types, now) ==> !Earlier(jobs[i], jobs[id])
  }

  predicate NoneEligible(jobs: seq<Job>, types: set<string>, now: int, skipped: set<nat>)
  {
    forall i: nat :: i < |jobs| && i !in skipped ==> !Eligible(jobs[i], types, now)
  }

  datatype ClaimResult = WorkerRequired | NothingToClaim | ClaimedJob(id: nat)

  function SetJob(queue: Queue, id: nat, job: Job): Queue
    requires id < |queue.jobs|
  {
    queue.(jobs := queue.jobs[id := job])
  }

  function Claimed(job: Job, workerId: string, now: int): Job
  {
    job.(status := PROCESSING, lockedAt := Some(now), lockedBy := Some(Trim(workerId)))
  }

  function Claim(queue: Queue, workerId: string, types: set<string>, now: int, skipped: set<nat>, id: nat): Queue
  {
    if !IsBlank(workerId) && IsNext(queue.jobs, types, now, skipped, id)
    then SetJob(queue, id, Claimed(queue.jobs[id], workerId, now))
    else queue
  }

  // --- completion

  predicate Holds(queue: Queue, id: nat, workerId: string)
  {
    id < |queue.jobs| && queue.jobs[id].status == PROCESSING && queue.jobs[id].lockedBy == Some(workerId)
  }

  function MarkSucceeded(queue: Queue, id: nat, workerId: string, now: int): Queue
  {
    if !Holds(queue, id, workerId) then queue
    else SetJob(queue, id, queue.jobs[id].(status := SUCCEEDED, succeededAt := Some(now),
      lockedAt := None, lockedBy := None, lastError := None))
  }

  function RetryDelay(job: Job, draw: real): int
  {
    CalculateBackoffMs(BackoffInput(Some(job.backoffMs as real), Some(600000.0), Some(0.2)), job.attempts + 1, draw)
  }

  function MarkFailed(
    queue: Queue, id: nat, workerId: string, message: string, now: int, draw: real, dlqEnabled: bool)
    : Queue
  {
    if !Holds(queue, id, workerId) then queue
    else
      var job := queue.jobs[id];
      var attempts := job.attempts + 1;
      if attempts >= job.maxAttempts then
        var dead := job.(attempts := attempts, status := DEAD_LETTER,
          lastError := Some(Truncate(message)), failedAt := Some(now), lockedAt := None, lockedBy := None);
        SetJob(queue, id, dead).(dlq := queue.dlq + if dlqEnabled
          then [DlqRow(id, attempts, Truncate(message))] else [])
      else
        SetJob(queue, id, job.(attempts := attempts, status := PENDING,
          runAt := now + RetryDelay(job, draw), lastError := Some(Truncate(message)), lockedAt := None,
          lockedBy := None))
  }

  // --- administration

  function ReleaseClaim(queue: Queue, id: nat): Queue
  {
    if id < |queue.jobs| && queue.jobs[id].status == PROCESSING
    then SetJob(queue, id, queue.jobs[id].(status := PENDING, lockedAt := None, lockedBy := None))
    else queue
  }

  predicate CanRetry(queue: Queue, id: nat)
  {
    id < |queue.jobs| && queue.jobs[id].status in {FAILED, DEAD_LETTER}
  }

  /** The write of retryJob. It does not look at the status again, so it may act on a stale reading. */
  function RetryWrite(queue: Queue, id: nat, now: int): Queue
  {
    if id >= |queue.jobs| then queue
    else SetJob(queue, id, queue.jobs[id].(status := PENDING, runAt := now, lockedAt := None,
      lockedBy := None, failedAt := None, lastError := None, attempts := 0))
  }

  function RetryJob(queue: Queue, id: nat, now: int): Queue
  {
    if CanRetry(queue, id) then RetryWrite(queue, id, now) else queue
  }

  function CancelJob(queue: Queue, id: nat, reason: string, now: int): Queue
  {
    if id >= |queue.jobs| then queue
    else
      SetJob(queue, id, queue.jobs[id].(status := DEAD_LETTER, failedAt := Some(now),
        lastError := Some(Truncate(reason)), lockedAt := None, lockedBy := None))
        .(dlq := queue.dlq + [DlqRow(id, queue.jobs[id].attempts, Truncate(reason))])
  }

  /** Among any eligible rows there is a first one. */
  lemma {:induction false} FirstOfSome(
    jobs: seq<Job>, types: set<string>, now: int, skipped: set<nat>, n: nat, some: nat)
    returns (first: nat)
    requires some < n <= |jobs| && some !in skipped && Eligible(jobs[some], types, now)
    ensures first < n && first !in skipped && Eligible(jobs[first], types, now)
    ensures forall i: nat :: i < n && i !in skipped && Eligible(jobs[i], types, now) ==> !Earlier(jobs[i], jobs[first])
  {
    var last := n - 1;
    if i: nat :| i < last && i !in skipped && Eligible(jobs[i], types, now) {
      first := FirstOfSome(jobs, types, now, skipped, last, i);
      if last !in skipped && Eligible(jobs[last], types, now) && Earlier(jobs[last], jobs[first]) {
        first := last;
      }
    } else {
      first := last;
    }
  }

  class JobQueueService {
    var jobs: seq<Job>
    var dlq: seq<DlqRow>

    constructor ()
      ensures View() == Queue([], [])
    {
      jobs, dlq := [], [];
    }

    function View(): Queue
      reads this
    {
      Queue(jobs, dlq)
    }

    method EnqueueJob(p: EnqueueParams, tenantExists: bool, now: int) returns (result: EnqueueResult)
      modifies this
      ensures (View(), result) == Enqueue(old(View()), p, tenantExists, now)
    {
      if !tenantExists {
        return InvalidTenant;
      }
      if IsTruthy(p.dedupeKey) {
        var existing := FindDedupe(jobs, p.dedupeKey);
        if existing.Some? {
          return Enqueued(existing.value, false);
        }
      }
      if FindDedupe(jobs, p.dedupeKey).Some? {
        return UniqueViolation;
      }
      jobs := jobs + [NewJob(p, now)];
      return Enqueued(|jobs| - 1, true);
    }

    method ClaimNextJob(workerId: string, types: set<string>, limit: nat, now: int, skipped: set<nat>)
      returns (result: ClaimResult)
      modifies this
      ensures result.WorkerRequired? <==> IsBlank(workerId)
      ensures result.ClaimedJob? <==> !IsBlank(workerId) && limit > 0 && !NoneEligible(old(jobs), types, now, skipped)
      ensures result.ClaimedJob? ==> IsNext(old(jobs), types, now, skipped, result.id)
      ensures result.ClaimedJob? ==> View() == Claim(old(View()), workerId, types, now, skipped, result.id)
      ensures !result.ClaimedJob? ==> View() == old(View())
    {
      if IsBlank(workerId) {
        return WorkerRequired;
      }
      if limit == 0 || NoneEligible(jobs, types, now, skipped) {
        return NothingToClaim;
      }
      ghost var some: nat :| some < |jobs| && some !in skipped && Eligible(jobs[some], types, now);
      ghost var first := FirstOfSome(jobs, types, now, skipped, |jobs|, some);
      assert IsNext(jobs, types, now, skipped, first);
      var id: nat :| id < |jobs| && IsNext(jobs, types, now, skipped, id);
      jobs := jobs[id := Claimed(jobs[id], workerId, now)];
      return ClaimedJob(id);
    }

    method Succeed(id: nat, workerId: string, now: int)
      modifies this
      ensures View() == MarkSucceeded(old(View()), id, workerId, now)
    {
      if id < |jobs| && jobs[id].status == PROCESSING && jobs[id].lockedBy == Some(workerId) {
        jobs := jobs[id := jobs[id].(status := SUCCEEDED, succeededAt := Some(now), lockedAt := None,
          lockedBy := None, lastError := None)];
      }
    }

    method Fail(id: nat, workerId: string, message: string, now: int, draw: real, dlqEnabled: bool)
      modifies this
      ensures View() == MarkFailed(old(View()), id, workerId, message, now, draw, dlqEnabled)
    {
      if !(id < |jobs| && jobs[id].status == PROCESSING && jobs[id].lockedBy == Some(workerId)) {
        return;
      }
      var job := jobs[id];
      var nextAttempts := job.attempts + 1;
      var exhausted := nextAttempts >= job.maxAttempts;
      var retryBackoff := RetryDelay(job, draw);
      if exhausted {
        jobs := jobs[id := job.(attempts := nextAttempts, status := DEAD_LETTER,
          lastError := Some(Truncate(message)), failedAt := Some(now), lockedAt := None, lockedBy := None)];
        if dlqEnabled {
          dlq := dlq + [DlqRow(id, nextAttempts, Truncate(message))];
        }
        return;
      }
      jobs := jobs[id := job.(attempts := nextAttempts, status := PENDING,
        runAt := now + retryBackoff, lastError := Some(Truncate(message)), lockedAt := None, lockedBy := None)];
    }

    method Release(id: nat)
      modifies this
      ensures View() == ReleaseClaim(old(View()), id)
    {
      if id < |jobs| && jobs[id].status == PROCESSING {
        jobs := jobs[id := jobs[id].(status := PENDING, lockedAt := None, lockedBy := None)];
      }
    }

    method Retry(id: nat, now: int)
      modifies this
      ensures View() == RetryJob(old(View()), id, now)
    {
      if id >= |jobs| {
        return;
      }
      if jobs[id].status != FAILED && jobs[id].status != DEAD_LETTER {
        return;
      }
      jobs := jobs[id := jobs[id].(status := PENDING, runAt := now, lockedAt := None, lockedBy := None,
        failedAt := None, lastError := None, attempts := 0)];
    }

    method Cancel(id: nat, reason: string, now: int)
      modifies this
      ensures View() == CancelJob(old(View()), id, reason, now)
    {
      if id >= |jobs| {
        return;
      }
      var row := jobs[id];
      jobs := jobs[id := row.(status := DEAD_LETTER, failedAt := Some(now),
        lastError := Some(Truncate(reason)), lockedAt := None, lockedBy := None)];
      dlq := dlq + [DlqRow(id, row.attempts, Truncate(reason))];
    }
  }
}
