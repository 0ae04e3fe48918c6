/**
 What a claim takes and what the other steps leave: a job that failed waits in its row, twice as long each time
 up to the cap, and no claim takes it before.
 */
module JobQueueRetries {
  import opened Wrappers
  import opened Reals
  import opened Text
  import opened Backoff
  import opened JobQueue
  import opened JobQueueProperties

  // --- claims

  /** The job waits to be run, is due, and is of a wanted kind; no kinds named means any. */
  predicate IsWanted(job: Job, types: set<string>, now: int)
  {
    job.status == PENDING && job.runAt <= now && (|types| == 0 || job.jobType in types)
  }

  /** A claim with an effect takes a wanted job that nobody has locked and none such should go before. */
  lemma ClaimTakes(queue: Queue, workerId: string, types: set<string>, now: int, skipped: set<nat>, id: nat)
    requires Claim(queue, workerId, types, now, skipped, id) != queue
    ensures id < |queue.jobs| && IsWanted(queue.jobs[id], types, now) && id !in skipped && !IsBlank(workerId)
    ensures forall i: nat :: i < |queue.jobs| && i !in skipped && IsWanted(queue.jobs[i], types, now) ==>
      || queue.jobs[id].runAt < queue.jobs[i].runAt
      || (queue.jobs[id].runAt == queue.jobs[i].runAt && queue.jobs[id].createdAt <= queue.jobs[i].createdAt)
    ensures Claim(queue, workerId, types, now, skipped, id)
         == Queue(queue.jobs[id := queue.jobs[id].(
                    status := PROCESSING, lockedAt := Some(now), lockedBy := Some(Trim(workerId)))], queue.dlq)
  {
    forall i: nat | i < |queue.jobs| && i !in skipped && IsWanted(queue.jobs[i], types, now)
      ensures !Earlier(queue.jobs[i], queue.jobs[id])
    {
      assert Eligible(queue.jobs[i], types, now);
    }
  }

  // --- the wait after a failure

  /** The base, doubled n times but never beyond the cap. */
  function Doubled(base: int, cap: int, n: nat): int
  {
    if n == 0 then base
    else
      var twice := 2 * Doubled(base, cap, n - 1);
      if twice < cap then twice else cap
  }

  function BaseOf(job: Job): int { if job.backoffMs < 100 then 100 else job.backoffMs }

  function CapOf(job: Job): int { if BaseOf(job) < 600000 then 600000 else BaseOf(job) }

  function InputOf(job: Job): BackoffInput
  {
    BackoffInput(Some(job.backoffMs as real), Some(600000.0), Some(0.2))
  }

  lemma {:induction false} CoreIsDoubled(job: Job, n: nat)
    ensures Core(InputOf(job), n + 1) == Doubled(BaseOf(job), CapOf(job), n) as real
    ensures BaseOf(job) <= Doubled(BaseOf(job), CapOf(job), n) <= CapOf(job)
  {
    if n > 0 {
      CoreIsDoubled(job, n - 1);
      DoubleMin(BaseMs(InputOf(job)), CapMs(InputOf(job)), Pow2(n - 1));
    } else {
      assert Product(BaseMs(InputOf(job)), 1.0) == BaseMs(InputOf(job));
    }
  }

  /** The delay is the doubled base and up to a fifth more, within the cap. */
  lemma DelayIsDoubled(job: Job, draw: real)
    requires job.attempts >= 0 && 0.0 <= draw < 1.0
    ensures var core := Doubled(BaseOf(job), CapOf(job), job.attempts);
      && core <= RetryDelay(job, draw) <= CapOf(job)
      && 5 * RetryDelay(job, draw) <= 6 * core
  {
    var input, n := InputOf(job), job.attempts + 1;
    var core := Doubled(BaseOf(job), CapOf(job), job.attempts);
    CoreIsDoubled(job, job.attempts);
    BackoffWithinBounds(input, n, draw);
    assert JitterRatio(input) == 0.2;
    NonNegativeProduct(core as real, 0.2);
    Scale(Product(core as real, 0.2), draw, 1.0);
    Scale(Product(core as real, 0.2), 0.0, draw);
    FloorBetween(core, CapOf(job), Jitter(input, n, draw));
  }

  lemma FloorBetween(core: int, cap: int, jitter: real)
    requires 0 <= core <= cap && 0.0 <= jitter <= core as real * 0.2
    ensures core <= Min(cap as real, core as real + jitter).Floor
    ensures 5 * Min(cap as real, core as real + jitter).Floor <= 6 * core
  {
  }

  /** At least 100 milliseconds and the job's backoff, at most ten minutes or the backoff; doubled with each attempt. */
  predicate WaitIs(job: Job, wait: int)
    requires job.attempts >= 0
  {
    var core := Doubled(BaseOf(job), CapOf(job), job.attempts);
    && 100 <= wait && job.backoffMs <= wait && (wait <= 600000 || wait <= job.backoffMs)
    && core <= wait && 5 * wait <= 6 * core
  }

  lemma DelayIsWait(job: Job, draw: real)
    requires job.attempts >= 0 && 0.0 <= draw < 1.0
    ensures WaitIs(job, RetryDelay(job, draw))
  {
    DelayIsDoubled(job, draw);
    CoreIsDoubled(job, job.attempts);
  }

  function Error(message: string): string { if |message| <= 2000 then message else message[..2000] }

  /**
   A failure with attempts left counts one more and gives the job back, to wait for at least its backoff, doubled
   for every failure before. Nothing else of the queue changes.
   */
  lemma FailureGivesBack(
    queue: Queue, id: nat, workerId: string, message: string, now: int, draw: real, dlqEnabled: bool)
    requires Holds(queue, id, workerId) && queue.jobs[id].attempts >= 0 && 0.0 <= draw < 1.0
    requires queue.jobs[id].attempts + 1 < queue.jobs[id].maxAttempts
    ensures var after, job := MarkFailed(queue, id, workerId, message, now, draw, dlqEnabled), queue.jobs[id];
      && |after.jobs| == |queue.jobs|
      && var failed := job.(attempts := job.attempts + 1, status := PENDING, runAt := after.jobs[id].runAt,
           lastError := Some(Error(message)), lockedAt := None, lockedBy := None);
         after == Queue(queue.jobs[id := failed], queue.dlq) && WaitIs(job, failed.runAt - now)
  {
    DelayIsWait(queue.jobs[id], draw);
  }

  /** A failure that uses up the last attempt sends the job to DEAD_LETTER, with a dead letter if they are kept. */
  lemma LastFailureKills(
    queue: Queue, id: nat, workerId: string, message: string, now: int, draw: real, dlqEnabled: bool)
    requires Holds(queue, id, workerId) && queue.jobs[id].attempts + 1 >= queue.jobs[id].maxAttempts
    ensures var after, job := MarkFailed(queue, id, workerId, message, now, draw, dlqEnabled), queue.jobs[id];
      var dead := job.(attempts := job.attempts + 1, status := DEAD_LETTER, failedAt := Some(now),
        lastError := Some(Error(message)), lockedAt := None, lockedBy := None);
      && after.jobs == queue.jobs[id := dead]
      && after.dlq == queue.dlq + if dlqEnabled then [DlqRow(id, job.attempts + 1, Error(message))] else []
  {
  }

  // --- over runs

  /** A claim made before the job is due. */
  predicate IsEarly(step: Step, id: nat, due: int)
  {
    step.ClaimStep? && step.id == id ==> step.now < due
  }

  lemma WaitingStep(queue: Queue, step: Step, id: nat)
    requires QueueOk(queue) && id < |queue.jobs| && queue.jobs[id].status == PENDING
    requires IsEarly(step, id, queue.jobs[id].runAt) && !Overwrites(step, id)
    ensures SameRow(queue, Next(queue, step), id)
  {
    assert JobOk(queue.jobs[id]);
  }

  /** Whatever workers try, a waiting job stays as it is as long as all claims come before it is due. */
  lemma {:induction false} WaitsUntilDue(queue: Queue, steps: seq<Step>, id: nat)
    requires QueueOk(queue) && id < |queue.jobs| && queue.jobs[id].status == PENDING
    requires forall k :: 0 <= k < |steps| ==> IsEarly(steps[k], id, queue.jobs[id].runAt) && !Overwrites(steps[k], id)
    ensures SameRow(queue, RunQueue(queue, steps), id)
  {
    if |steps| > 0 {
      var init := steps[..|steps| - 1];
      WaitsUntilDue(queue, init, id);
      EveryReachableQueueIsOk(queue, init);
      WaitingStep(RunQueue(queue, init), steps[|steps| - 1], id);
    }
  }

  /** A job whose failure left it waiting is not claimed before its backoff is over. */
  lemma FailedJobWaits(queue: Queue, step: Step, id: nat, others: seq<Step>)
    requires QueueOk(queue) && step.FailStep? && step.id == id && Holds(queue, id, step.workerId)
    requires 0.0 <= step.draw < 1.0 && queue.jobs[id].attempts + 1 < queue.jobs[id].maxAttempts
    requires forall k :: 0 <= k < |others| ==> !Overwrites(others[k], id)
    requires forall k :: 0 <= k < |others| && others[k].ClaimStep? && others[k].id == id ==>
      others[k].now < step.now + 100 || others[k].now < step.now + queue.jobs[id].backoffMs
    ensures var after := RunQueue(Next(queue, step), others);
      id < |after.jobs| && after.jobs[id].status == PENDING && after.jobs[id].runAt >= step.now + 100
  {
    assert JobOk(queue.jobs[id]);
    FailureGivesBack(queue, id, step.workerId, step.message, step.now, step.draw, step.dlqEnabled);
    StepKeepsQueueOk(queue, step);
    WaitsUntilDue(Next(queue, step), others, id);
  }

  /** Attempts are only reset by a retry's write, and the settings never change. */
  lemma {:induction false} AttemptsOnlyGrow(queue: Queue, steps: seq<Step>, id: nat)
    requires id < |queue.jobs|
    requires forall k :: 0 <= k < |steps| ==> !(steps[k].RetryStep? && steps[k].id == id)
    ensures id < |RunQueue(queue, steps).jobs|
    ensures queue.jobs[id].attempts <= RunQueue(queue, steps).jobs[id].attempts
    ensures RunQueue(queue, steps).jobs[id].backoffMs == queue.jobs[id].backoffMs
  {
    if |steps| > 0 {
      AttemptsOnlyGrow(queue, steps[..|steps| - 1], id);
    }
  }

  lemma {:induction false} DelayGrowsWithAttempts(job: Job, later: Job, draw: real, laterDraw: real)
    requires 0 <= job.attempts < later.attempts && job.backoffMs == later.backoffMs
    requires 0.0 <= draw < 1.0 && 0.0 <= laterDraw < 1.0
    ensures RetryDelay(job, draw) <= RetryDelay(later, laterDraw)
    decreases later.attempts
  {
    var input := InputOf(job);
    if job.attempts + 1 < later.attempts {
      DelayGrowsWithAttempts(job, later.(attempts := later.attempts - 1), draw, laterDraw);
    }
    var before := if job.attempts + 1 < later.attempts then laterDraw else draw;
    BackoffNeverShrinks(input, later.attempts, before, laterDraw);
  }

  /** The wait a failure leaves is the delay of the job's attempts. */
  lemma WaitAfter(queue: Queue, step: Step, id: nat)
    requires step.FailStep? && step.id == id && Holds(queue, id, step.workerId)
    requires queue.jobs[id].attempts + 1 < queue.jobs[id].maxAttempts
    ensures var job := queue.jobs[id];
      && id < |Next(queue, step).jobs|
      && var failed := Next(queue, step).jobs[id];
         failed.status == PENDING && failed.attempts == job.attempts + 1 && failed.backoffMs == job.backoffMs
         && failed.runAt - step.now == RetryDelay(job, step.draw)
  {
  }

  /**
   Over any run without a retry of the job in between: where two failures leave a job waiting, the later wait
   is no shorter.
   */
  lemma LaterFailureWaitsLonger(queue: Queue, first: Step, between: seq<Step>, second: Step, id: nat)
    requires QueueOk(queue) && first.FailStep? && second.FailStep? && first.id == second.id == id
    requires 0.0 <= first.draw < 1.0 && 0.0 <= second.draw < 1.0
    requires Holds(queue, id, first.workerId) && queue.jobs[id].attempts + 1 < queue.jobs[id].maxAttempts
    requires var again := RunQueue(Next(queue, first), between);
      Holds(again, id, second.workerId) && again.jobs[id].attempts + 1 < again.jobs[id].maxAttempts
    requires forall k :: 0 <= k < |between| ==> !(between[k].RetryStep? && between[k].id == id)
    ensures var once := Next(queue, first);
      var twice := Next(RunQueue(once, between), second);
      && id < |once.jobs| && id < |twice.jobs| && once.jobs[id].status == twice.jobs[id].status == PENDING
      && once.jobs[id].runAt - first.now <= twice.jobs[id].runAt - second.now
  {
    var once := Next(queue, first);
    var again := RunQueue(once, between);
    assert JobOk(queue.jobs[id]);
    WaitAfter(queue, first, id);
    AttemptsOnlyGrow(once, between, id);
    WaitAfter(again, second, id);
    DelayGrowsWithAttempts(queue.jobs[id], again.jobs[id], first.draw, second.draw);
  }

  // --- what the other steps leave

  /** A new job is the last row, with all its attempts, and is wanted from its time on, or from now on. */
  lemma EnqueuedIsWanted(queue: Queue, p: EnqueueParams, now: int, types: set<string>, later: int)
    requires Enqueue(queue, p, true, now).1 == Enqueued(|queue.jobs|, true)
    ensures var after := Enqueue(queue, p, true, now).0;
      && |after.jobs| == |queue.jobs| + 1 && after.jobs[..|queue.jobs|] == queue.jobs && after.dlq == queue.dlq
      && var job := after.jobs[|queue.jobs|];
         && job.jobType == p.jobType && job.tenantId == p.tenantId && job.dedupeKey == p.dedupeKey
         && job.createdAt == now && job.attempts == 0 && job.maxAttempts == p.maxAttempts
         && job.backoffMs == p.backoffMs && job.lastError.None? && job.succeededAt.None? && job.failedAt.None?
         && (IsWanted(job, types, later)
             <==> later >= (if p.runAt.Some? then p.runAt.value else now) && (|types| == 0 || p.jobType in types))
  {
  }

  /** Only an unknown tenant or a dedupe key in use stand in the way of a new job. */
  lemma EnqueueAnswers(queue: Queue, p: EnqueueParams, tenantExists: bool, now: int)
    ensures var (after, result) := Enqueue(queue, p, tenantExists, now);
      var inUse := p.dedupeKey.Some? && exists i :: 0 <= i < |queue.jobs| && queue.jobs[i].dedupeKey == p.dedupeKey;
      && (result.InvalidTenant? <==> !tenantExists)
      && (result == Enqueued(|queue.jobs|, true) <==> tenantExists && !inUse)
      && (inUse && tenantExists && p.dedupeKey != Some("") ==>
            result.Enqueued? && result.id < |queue.jobs| && queue.jobs[result.id].dedupeKey == p.dedupeKey)
      && (inUse && tenantExists && p.dedupeKey == Some("") ==> result.UniqueViolation?)
      && (result != Enqueued(|queue.jobs|, true) ==> after == queue)
  {
  }

  /** A finished job keeps what it was but for its state: no lock and no error are left. */
  lemma SuccessLeaves(queue: Queue, id: nat, workerId: string, now: int)
    requires Holds(queue, id, workerId)
    ensures MarkSucceeded(queue, id, workerId, now)
         == Queue(queue.jobs[id := queue.jobs[id].(status := SUCCEEDED, succeededAt := Some(now), lockedAt := None,
                    lockedBy := None, lastError := None)], queue.dlq)
  {
  }

  /** A job that is released, or retried after its last attempt, is wanted again at once; a retry forgets the past. */
  lemma GivenBackIsWanted(queue: Queue, id: nat, now: int)
    requires id < |queue.jobs|
    ensures var job := queue.jobs[id];
      && (job.status == PROCESSING ==>
            && ReleaseClaim(queue, id)
                 == Queue(queue.jobs[id := job.(status := PENDING, lockedAt := None, lockedBy := None)], queue.dlq)
            && (job.runAt <= now ==> IsWanted(ReleaseClaim(queue, id).jobs[id], {}, now)))
      && (job.status != PROCESSING ==> ReleaseClaim(queue, id) == queue)
      && (job.status == FAILED || job.status == DEAD_LETTER ==>
            && RetryJob(queue, id, now)
                 == Queue(queue.jobs[id := job.(status := PENDING, runAt := now, lockedAt := None, lockedBy := None,
                            failedAt := None, lastError := None, attempts := 0)], queue.dlq)
            && IsWanted(RetryJob(queue, id, now).jobs[id], {}, now))
      && (job.status != FAILED && job.status != DEAD_LETTER ==> RetryJob(queue, id, now) == queue)
  {
  }

  /** The last dead letter of a job. */
  function LastLetter(dlq: seq<DlqRow>, id: nat): (letter: Option<DlqRow>)
  {
    if |dlq| == 0 then None
    else if dlq[|dlq| - 1].jobId == id then Some(dlq[|dlq| - 1])
    else LastLetter(dlq[..|dlq| - 1], id)
  }

  /** The letter tells the attempts the job died with and its last error. */
  ghost predicate LetterTells(queue: Queue, id: nat)
    requires id < |queue.jobs|
  {
    var job, letter := queue.jobs[id], LastLetter(queue.dlq, id);
    && letter.Some? && letter.value.attempts == job.attempts && job.lastError == Some(letter.value.lastError)
    && job.failedAt.Some?
  }

  ghost predicate DeadHaveLetters(queue: Queue)
  {
    forall id :: 0 <= id < |queue.jobs| && queue.jobs[id].status == DEAD_LETTER ==> LetterTells(queue, id)
  }

  lemma LetterAdded(dlq: seq<DlqRow>, letter: DlqRow, id: nat)
    ensures LastLetter(dlq + [letter], id) == if letter.jobId == id then Some(letter) else LastLetter(dlq, id)
  {
  }

  lemma StepKeepsLetters(queue: Queue, step: Step)
    requires DeadHaveLetters(queue) && (step.FailStep? ==> step.dlqEnabled)
    ensures DeadHaveLetters(Next(queue, step))
  {
    var after := Next(queue, step);
    forall id | 0 <= id < |after.jobs| && after.jobs[id].status == DEAD_LETTER ensures LetterTells(after, id) {
      if id < |queue.jobs| && queue.jobs[id].status == DEAD_LETTER {
        assert LetterTells(queue, id);
      }
      if |after.dlq| > |queue.dlq| {
        LetterAdded(queue.dlq, after.dlq[|queue.dlq|], id);
        assert after.dlq == queue.dlq + [after.dlq[|queue.dlq|]];
      }
    }
  }

  /** Where dead letters are kept, every job in DEAD_LETTER has one that tells its attempts and its error. */
  lemma {:induction false} DeadJobsHaveLetters(steps: seq<Step>)
    requires forall k :: 0 <= k < |steps| && steps[k].FailStep? ==> steps[k].dlqEnabled
    ensures DeadHaveLetters(RunQueue(Queue([], []), steps))
  {
    if |steps| > 0 {
      DeadJobsHaveLetters(steps[..|steps| - 1]);
      StepKeepsLetters(RunQueue(Queue([], []), steps[..|steps| - 1]), steps[|steps| - 1]);
    }
  }
}
