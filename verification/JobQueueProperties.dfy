/**
 Every interleaving of enqueuers, workers and administrators: what each reachable queue satisfies, who
 holds a job and until when, and that without administrators the queue's work comes to an end.
 */
module JobQueueProperties {
  import opened Wrappers
  import opened Sums
  import opened Text
  import opened JobQueue

  /** One committed transaction of somebody. A retry that read the status earlier commits as a RetryStep. */
  datatype Step =
    | EnqueueStep(p: EnqueueParams, tenantExists: bool, now: int)
    | ClaimStep(workerId: string, types: set<string>, now: int, skipped: set<nat>, id: nat)
    | SucceedStep(id: nat, workerId: string, now: int)
    | FailStep(id: nat, workerId: string, message: string, now: int, draw: real, dlqEnabled: bool)
    | ReleaseStep(id: nat)
    | RetryStep(id: nat, now: int)
    | CancelStep(id: nat, reason: string, now: int)

  function Next(queue: Queue, step: Step): Queue
  {
    match step
    case EnqueueStep(p, tenantExists, now) => Enqueue(queue, p, tenantExists, now).0
    case ClaimStep(workerId, types, now, skipped, id) => Claim(queue, workerId, types, now, skipped, id)
    case SucceedStep(id, workerId, now) => MarkSucceeded(queue, id, workerId, now)
    case FailStep(id, workerId, message, now, draw, dlqEnabled) =>
      MarkFailed(queue, id, workerId, message, now, draw, dlqEnabled)
    case ReleaseStep(id) => ReleaseClaim(queue, id)
    case RetryStep(id, now) => RetryWrite(queue, id, now)
    case CancelStep(id, reason, now) => CancelJob(queue, id, reason, now)
  }

  function RunQueue(queue: Queue, steps: seq<Step>): (after: Queue)
  {
    if |steps| == 0 then queue else Next(RunQueue(queue, steps[..|steps| - 1]), steps[|steps| - 1])
  }

  // --- invariant of every reachable queue

  /** The number of failures a job may have; a limit below one still allows one attempt. */
  function Limit(job: Job): int { if job.maxAttempts < 1 then 1 else job.maxAttempts }

  ghost predicate JobOk(job: Job)
  {
    && (job.lockedBy.Some? <==> job.status == PROCESSING)
    && (job.lockedAt.Some? <==> job.status == PROCESSING)
    && job.attempts >= 0
    && (job.status in {PENDING, PROCESSING} ==> job.attempts < Limit(job))
  }

  ghost predicate QueueOk(queue: Queue)
  {
    && (forall i :: 0 <= i < |queue.jobs| ==> JobOk(queue.jobs[i]))
    && (forall i, j :: 0 <= i < j < |queue.jobs| && queue.jobs[i].dedupeKey.Some? ==>
          queue.jobs[i].dedupeKey != queue.jobs[j].dedupeKey)
  }

  /** A step keeps every row in its place, under the same dedupe key and limit. */
  ghost predicate Grows(before: Queue, after: Queue)
  {
    && |before.jobs| <= |after.jobs|
    && forall i :: 0 <= i < |before.jobs| ==>
         after.jobs[i].dedupeKey == before.jobs[i].dedupeKey && after.jobs[i].maxAttempts == before.jobs[i].maxAttempts
  }

  lemma StepKeepsQueueOk(queue: Queue, step: Step)
    requires QueueOk(queue)
    ensures QueueOk(Next(queue, step)) && Grows(queue, Next(queue, step))
  {
    var after := Next(queue, step);
    if step.EnqueueStep? {
      if after != queue {
        InsertKeepsQueueOk(queue, step.p, step.now);
      }
    } else if after.jobs != queue.jobs {
      assert JobOk(queue.jobs[step.id]);
      UpdateKeepsQueueOk(queue, step.id, after.jobs[step.id]);
      assert after.jobs == queue.jobs[step.id := after.jobs[step.id]];
    }
  }

  lemma InsertKeepsQueueOk(queue: Queue, p: EnqueueParams, now: int)
    requires QueueOk(queue)
    ensures QueueOk(Insert(queue, p, now).0) && Grows(queue, Insert(queue, p, now).0)
  {
  }

  lemma UpdateKeepsQueueOk(queue: Queue, id: nat, job: Job)
    requires QueueOk(queue) && id < |queue.jobs| && JobOk(job)
    requires job.dedupeKey == queue.jobs[id].dedupeKey && job.maxAttempts == queue.jobs[id].maxAttempts
    ensures QueueOk(SetJob(queue, id, job)) && Grows(queue, SetJob(queue, id, job))
  {
  }

  /**
   In every reachable queue the lock fields are set exactly while a job is PROCESSING, a live job has
   attempts left, and no two jobs share a dedupe key. No assumption on maxAttempts is needed.
   */
  lemma {:induction false} EveryReachableQueueIsOk(queue: Queue, steps: seq<Step>)
    requires QueueOk(queue)
    ensures QueueOk(RunQueue(queue, steps)) && Grows(queue, RunQueue(queue, steps))
  {
    if |steps| > 0 {
      EveryReachableQueueIsOk(queue, steps[..|steps| - 1]);
      StepKeepsQueueOk(RunQueue(queue, steps[..|steps| - 1]), steps[|steps| - 1]);
    }
  }

  lemma QueueFromScratchIsOk(steps: seq<Step>)
    ensures QueueOk(RunQueue(Queue([], []), steps))
  {
    EveryReachableQueueIsOk(Queue([], []), steps);
  }

  // --- enqueueing once per dedupe key, under interference

  /** enqueueJob as it runs: a lookup, an insert, and after a unique violation another lookup. */
  function EnqueueInterleaved(
    atFind: Queue, atInsert: Queue, atRefind: Queue, p: EnqueueParams, now: int)
    : (Queue, EnqueueResult)
  {
    var existing := FindDedupe(atFind.jobs, p.dedupeKey);
    if IsTruthy(p.dedupeKey) && existing.Some? then (atInsert, Enqueued(existing.value, false))
    else
      var (inserted, result) := Insert(atInsert, p, now);
      if result != UniqueViolation then (inserted, result)
      else
        var found := FindDedupe(atRefind.jobs, p.dedupeKey);
        if IsTruthy(p.dedupeKey) && found.Some? then (atInsert, Enqueued(found.value, false))
          else (atInsert, UniqueViolation)
  }

  lemma DedupeStays(before: Queue, after: Queue, key: Option<string>)
    requires QueueOk(after) && Grows(before, after)
    requires FindDedupe(before.jobs, key).Some?
    ensures FindDedupe(after.jobs, key) == FindDedupe(before.jobs, key)
  {
  }

  /**
   Whatever others commit between its three queries, enqueueing has the effect and the answer of one
   atomic get-or-create at the moment of the insert.
   */
  lemma EnqueueIsAtomic(start: Queue, before: seq<Step>, during: seq<Step>, p: EnqueueParams, now: int)
    requires QueueOk(start)
    ensures var atInsert := RunQueue(start, before);
      EnqueueInterleaved(start, atInsert, RunQueue(atInsert, during), p, now) == Enqueue(atInsert, p, true, now)
  {
    var atInsert := RunQueue(start, before);
    EveryReachableQueueIsOk(start, before);
    EveryReachableQueueIsOk(atInsert, during);
    if FindDedupe(start.jobs, p.dedupeKey).Some? {
      DedupeStays(start, atInsert, p.dedupeKey);
    }
    if FindDedupe(atInsert.jobs, p.dedupeKey).Some? {
      DedupeStays(atInsert, RunQueue(atInsert, during), p.dedupeKey);
    }
  }

  // --- who holds a job, and until when

  /** A completion changes the queue exactly when its worker holds the job. */
  lemma OnlyHolderCompletes(
    queue: Queue, id: nat, workerId: string, now: int, message: string, draw: real, dlqEnabled: bool)
    ensures MarkSucceeded(queue, id, workerId, now) != queue <==> Holds(queue, id, workerId)
    ensures MarkFailed(queue, id, workerId, message, now, draw, dlqEnabled) != queue <==> Holds(queue, id, workerId)
  {
  }

  /** The step hands the job back: its holder completes it, or an administrator takes it away. */
  predicate HandsBack(step: Step, id: nat, workerId: string)
  {
    match step
    case EnqueueStep(_, _, _) => false
    case ClaimStep(_, _, _, _, _) => false
    case SucceedStep(i, w, _) => i == id && w == workerId
    case FailStep(i, w, _, _, _, _) => i == id && w == workerId
    case ReleaseStep(i) => i == id
    case RetryStep(i, _) => i == id
    case CancelStep(i, _, _) => i == id
  }

  lemma StepKeepsHolder(queue: Queue, step: Step, id: nat, workerId: string)
    requires Holds(queue, id, workerId) && !HandsBack(step, id, workerId)
    ensures |Next(queue, step).jobs| > id && Next(queue, step).jobs[id] == queue.jobs[id]
  {
  }

  /** Until it is handed back, a held job stays as it is: nobody else can claim, complete or fail it. */
  lemma {:induction false} HeldUntilHandedBack(queue: Queue, steps: seq<Step>, id: nat, workerId: string)
    requires Holds(queue, id, workerId)
    requires forall k :: 0 <= k < |steps| ==> !HandsBack(steps[k], id, workerId)
    ensures Holds(RunQueue(queue, steps), id, workerId)
    ensures RunQueue(queue, steps).jobs[id] == queue.jobs[id]
  {
    if |steps| > 0 {
      HeldUntilHandedBack(queue, steps[..|steps| - 1], id, workerId);
      StepKeepsHolder(RunQueue(queue, steps[..|steps| - 1]), steps[|steps| - 1], id, workerId);
    }
  }

  /** Only an effective claim under that name makes a name hold a job. */
  lemma HoldingBegins(queue: Queue, step: Step, id: nat, workerId: string)
    requires !Holds(queue, id, workerId)
    ensures Holds(Next(queue, step), id, workerId) <==> ClaimsJob(queue, step, id) && Trim(step.workerId) == workerId
  {
    if step.ClaimStep? && step.id == id && id < |queue.jobs| && queue.jobs[id].status == PENDING {
      assert Claimed(queue.jobs[id], step.workerId, step.now) != queue.jobs[id];
    }
  }

  /** Every state of the run, its first and last included, has the job held under the name. */
  ghost predicate HeldThroughout(queue: Queue, steps: seq<Step>, id: nat, workerId: string)
  {
    forall m :: 0 <= m <= |steps| ==> Holds(RunQueue(queue, steps[..m]), id, workerId)
  }

  predicate IsCompletion(step: Step, id: nat, workerId: string)
  {
    (step.SucceedStep? || step.FailStep?) && step.id == id && step.workerId == workerId
  }

  /** The completion has an effect after the run. */
  predicate TakesEffect(queue: Queue, steps: seq<Step>, completion: Step)
  {
    Next(RunQueue(queue, steps), completion) != RunQueue(queue, steps)
  }

  /** Whenever in the run it comes, a completion issued for the claim at its start only takes effect during it. */
  ghost predicate CompletesOwnClaimOnly(queue: Queue, steps: seq<Step>, completion: Step)
    requires completion.SucceedStep? || completion.FailStep?
  {
    forall n :: 0 <= n <= |steps| && TakesEffect(queue, steps[..n], completion) ==>
      HeldThroughout(queue, steps[..n], completion.id, completion.workerId)
  }

  /** The job is claimed again in the run, under the same name. */
  ghost predicate ReclaimedAs(queue: Queue, steps: seq<Step>, id: nat, workerId: string)
  {
    exists k :: 0 <= k < |steps| && ReclaimsAt(queue, steps, k, id, workerId)
  }

  predicate ReclaimsAt(queue: Queue, steps: seq<Step>, k: nat, id: nat, workerId: string)
    requires k < |steps|
  {
    ClaimsJob(RunQueue(queue, steps[..k]), steps[k], id) && Trim(steps[k].workerId) == workerId
  }

  lemma CompletionNeedsHolder(queue: Queue, steps: seq<Step>, completion: Step, id: nat, workerId: string)
    requires IsCompletion(completion, id, workerId)
    ensures TakesEffect(queue, steps, completion) <==> Holds(RunQueue(queue, steps), id, workerId)
  {
    var after := RunQueue(queue, steps);
    match completion
    case SucceedStep(_, _, now) => OnlyHolderCompletes(after, id, workerId, now, "", 0.0, false);
    case FailStep(_, _, message, now, draw, dlq) => OnlyHolderCompletes(after, id, workerId, now, message, draw, dlq);
  }

  lemma {:induction false} HeldWithoutReclaim(queue: Queue, steps: seq<Step>, id: nat, workerId: string, n: nat)
    requires Holds(queue, id, workerId) && !ReclaimedAs(queue, steps, id, workerId)
    requires n <= |steps| && Holds(RunQueue(queue, steps[..n]), id, workerId)
    ensures HeldThroughout(queue, steps[..n], id, workerId)
  {
    if n > 0 {
      var before := RunQueue(queue, steps[..n - 1]);
      assert steps[..n][..n - 1] == steps[..n - 1];
      assert !ReclaimsAt(queue, steps, n - 1, id, workerId);
      if !Holds(before, id, workerId) {
        HoldingBegins(before, steps[n - 1], id, workerId);
        assert false;
      }
      HeldWithoutReclaim(queue, steps, id, workerId, n - 1);
      forall m | 0 <= m <= n ensures Holds(RunQueue(queue, steps[..n][..m]), id, workerId) {
        assert m < n ==> steps[..n][..m] == steps[..n - 1][..m];
        assert steps[..n][..n] == steps[..n];
      }
    }
  }

  /** A claim finds the job unheld, so a claim under the same name lets a completion through after a gap. */
  lemma ReclaimLeavesGap(queue: Queue, steps: seq<Step>, id: nat, workerId: string, k: nat)
    requires k < |steps| && ReclaimsAt(queue, steps, k, id, workerId)
    ensures Holds(RunQueue(queue, steps[..k + 1]), id, workerId)
    ensures !HeldThroughout(queue, steps[..k + 1], id, workerId)
  {
    var before := RunQueue(queue, steps[..k]);
    assert steps[..k + 1][..k] == steps[..k];
    assert !Holds(before, id, workerId);
    HoldingBegins(before, steps[k], id, workerId);
  }

  /**
   A completion issued for a claim takes effect only while that claim lasts, exactly if the job is not claimed again
   under the same name. Names are all that tells workers apart, and workers without a WORKER_ID share one.
   */
  lemma CompletesOwnClaimOnlyExactly(
    queue: Queue, steps: seq<Step>, completion: Step, id: nat, workerId: string)
    requires Holds(queue, id, workerId) && IsCompletion(completion, id, workerId)
    ensures CompletesOwnClaimOnly(queue, steps, completion) <==> !ReclaimedAs(queue, steps, id, workerId)
  {
    if ReclaimedAs(queue, steps, id, workerId) {
      var k :| 0 <= k < |steps| && ReclaimsAt(queue, steps, k, id, workerId);
      ReclaimLeavesGap(queue, steps, id, workerId, k);
      CompletionNeedsHolder(queue, steps[..k + 1], completion, id, workerId);
    } else {
      forall n | 0 <= n <= |steps| && TakesEffect(queue, steps[..n], completion)
        ensures HeldThroughout(queue, steps[..n], id, workerId)
      {
        CompletionNeedsHolder(queue, steps[..n], completion, id, workerId);
        HeldWithoutReclaim(queue, steps, id, workerId, n);
      }
    }
  }

  /** A held job is released and claimed again by a namesake: the first worker's late success finishes that claim. */
  lemma NamesakeFinishesLaterClaim(queue: Queue, id: nat, workerId: string, now: int, others: set<nat>)
    requires Holds(queue, id, workerId) && queue.jobs[id].runAt <= now
    requires !IsBlank(workerId) && Trim(workerId) == workerId
    requires forall i: nat :: i in others <==> i < |queue.jobs| && i != id
    ensures var steps := [ReleaseStep(id), ClaimStep(workerId, {}, now, others, id)];
      var late := Next(RunQueue(queue, steps), SucceedStep(id, workerId, now));
      && ReclaimedAs(queue, steps, id, workerId)
      && id < |late.jobs| && late.jobs[id].status == SUCCEEDED
  {
    var s1, s2 := ReleaseStep(id), ClaimStep(workerId, {}, now, others, id);
    var q1 := Next(queue, s1);
    RunSnoc(queue, [], s1);
    RunSnoc(queue, [s1], s2);
    assert [] + [s1] == [s1] && [s1] + [s2] == [s1, s2] && [s1, s2][..1] == [s1];
    assert IsNext(q1.jobs, {}, now, others, id);
    assert Next(q1, s2).jobs[id] != q1.jobs[id];
    assert ReclaimsAt(queue, [s1, s2], 1, id, workerId);
  }

  /** The name is trimmed on claiming only: a claimer can complete its job exactly when its name needs no trimming. */
  lemma ClaimerCanCompleteIfTrimmed(
    queue: Queue, workerId: string, types: set<string>, now: int, skipped: set<nat>, id: nat)
    requires !IsBlank(workerId) && IsNext(queue.jobs, types, now, skipped, id)
    ensures Holds(Claim(queue, workerId, types, now, skipped, id), id, workerId) <==> Trim(workerId) == workerId
  {
  }

  /** Two readers of a dead job: the second retry, on its stale reading, puts a finished job back in the queue. */
  lemma StaleRetryRevivesFinishedJob(queue: Queue, id: nat, now: int, workerId: string, others: set<nat>)
    requires CanRetry(queue, id) && !IsBlank(workerId) && Trim(workerId) == workerId
    requires forall i: nat :: i in others <==> i < |queue.jobs| && i != id
    ensures var done := RunQueue(queue, [RetryStep(id, now), ClaimStep(workerId, {}, now, others, id),
      SucceedStep(id, workerId, now)]);
      var revived := RunQueue(done, [RetryStep(id, now)]);
      && id < |done.jobs| && done.jobs[id].status == SUCCEEDED
      && id < |revived.jobs| && revived.jobs[id].status == PENDING
  {
    var s1, s2, s3 := RetryStep(id, now), ClaimStep(workerId, {}, now, others, id), SucceedStep(id, workerId, now);
    var q1 := Next(queue, s1);
    assert IsNext(q1.jobs, {}, now, others, id);
    var q2 := Next(q1, s2);
    var q3 := Next(q2, s3);
    RunThree(queue, s1, s2, s3);
    RunOne(q3, s1);
  }

  lemma RunSnoc(queue: Queue, steps: seq<Step>, step: Step)
    ensures RunQueue(queue, steps + [step]) == Next(RunQueue(queue, steps), step)
  {
  }

  /** A worker whose name starts with a space claims the job and cannot complete it. */
  lemma UntrimmedWorkerCannotComplete(queue: Queue, types: set<string>, now: int, skipped: set<nat>, id: nat)
    requires IsNext(queue.jobs, types, now, skipped, id)
    ensures !IsBlank(" w")
    ensures var claimed := Claim(queue, " w", types, now, skipped, id);
      && claimed.jobs[id].status == PROCESSING
      && MarkSucceeded(claimed, id, " w", now) == claimed
  {
    assert " w"[1] == 'w' && " w"[1..] == "w";
    assert Trim(" w") == Trim("w");
    ClaimerCanCompleteIfTrimmed(queue, " w", types, now, skipped, id);
  }

  // --- how long a finished job stays finished

  /** The steps that take no notice of the status: a retry's write and a cancellation. */
  predicate Overwrites(step: Step, id: nat)
  {
    (step.RetryStep? || step.CancelStep?) && step.id == id
  }

  predicate SameRow(before: Queue, after: Queue, id: nat)
  {
    id < |before.jobs| && id < |after.jobs| && after.jobs[id] == before.jobs[id]
  }

  lemma FinishedStep(queue: Queue, step: Step, id: nat)
    requires id < |queue.jobs| && queue.jobs[id].status == SUCCEEDED
    ensures SameRow(queue, Next(queue, step), id) <==> !Overwrites(step, id)
  {
  }

  /** The row is the same after every step of the run. */
  predicate StaysPut(queue: Queue, steps: seq<Step>, id: nat)
  {
    && SameRow(queue, RunQueue(queue, steps), id)
    && (|steps| > 0 ==> StaysPut(queue, steps[..|steps| - 1], id))
  }

  ghost predicate Spared(steps: seq<Step>, id: nat)
  {
    forall k :: 0 <= k < |steps| ==> !Overwrites(steps[k], id)
  }

  lemma SparedSnoc(steps: seq<Step>, id: nat)
    requires |steps| > 0
    ensures Spared(steps, id) <==> Spared(steps[..|steps| - 1], id) && !Overwrites(steps[|steps| - 1], id)
  {
    forall k | 0 <= k < |steps| - 1 ensures steps[..|steps| - 1][k] == steps[k] { }
  }

  /** A finished job keeps its row all through a run exactly if no retry's write and no cancellation names it. */
  lemma {:induction false} FinishedStaysFinishedExactly(queue: Queue, steps: seq<Step>, id: nat)
    requires id < |queue.jobs| && queue.jobs[id].status == SUCCEEDED
    ensures StaysPut(queue, steps, id) <==> Spared(steps, id)
  {
    if |steps| > 0 {
      var init := steps[..|steps| - 1];
      FinishedStaysFinishedExactly(queue, init, id);
      SparedSnoc(steps, id);
      if StaysPut(queue, init, id) {
        FinishedStep(RunQueue(queue, init), steps[|steps| - 1], id);
      }
    }
  }

  /** Every retry writes while the status it read still stands. */
  ghost predicate FreshRetries(queue: Queue, steps: seq<Step>)
  {
    forall k :: 0 <= k < |steps| && steps[k].RetryStep? ==> CanRetry(RunQueue(queue, steps[..k]), steps[k].id)
  }

  ghost predicate Uncancelled(steps: seq<Step>, id: nat)
  {
    forall k :: 0 <= k < |steps| ==> !(steps[k].CancelStep? && steps[k].id == id)
  }

  lemma {:induction false} FreshRetriesSpareFinished(queue: Queue, steps: seq<Step>, id: nat)
    requires id < |queue.jobs| && queue.jobs[id].status == SUCCEEDED
    requires FreshRetries(queue, steps) && Uncancelled(steps, id)
    ensures Spared(steps, id)
  {
    if |steps| > 0 {
      var n := |steps| - 1;
      var init := steps[..n];
      forall m | 0 <= m <= n ensures init[..m] == steps[..m] { }
      FreshRetriesSpareFinished(queue, init, id);
      FinishedStaysFinishedExactly(queue, init, id);
      SparedSnoc(steps, id);
    }
  }

  /** If every retry is fresh, as when `RetryJob` is one step, only a cancellation can change a finished job. */
  lemma OnlyCancelChangesFinished(queue: Queue, steps: seq<Step>, id: nat)
    requires id < |queue.jobs| && queue.jobs[id].status == SUCCEEDED && FreshRetries(queue, steps)
    ensures StaysPut(queue, steps, id) <==> Uncancelled(steps, id)
  {
    FinishedStaysFinishedExactly(queue, steps, id);
    if Uncancelled(steps, id) {
      FreshRetriesSpareFinished(queue, steps, id);
    }
  }

  lemma ClaimedAlone(queue: Queue, workerId: string, now: int)
    requires !IsBlank(workerId) && Trim(workerId) == workerId && |queue.jobs| == 1 && Eligible(queue.jobs[0], {}, now)
    ensures var after := Next(queue, ClaimStep(workerId, {}, now, {}, 0));
      |after.jobs| == 1 && Holds(after, 0, workerId)
  {
    assert IsNext(queue.jobs, {}, now, {}, 0);
  }

  lemma FinishedAlone(queue: Queue, workerId: string, now: int)
    requires |queue.jobs| == 1 && Holds(queue, 0, workerId)
    ensures var after := Next(queue, SucceedStep(0, workerId, now));
      |after.jobs| == 1 && after.jobs[0].status == SUCCEEDED
  {
  }

  lemma EnqueuedAlone(p: EnqueueParams, now: int)
    ensures Next(Queue([], []), EnqueueStep(p, true, now)).jobs == [NewJob(p, now)]
  {
    assert FindDedupe([], p.dedupeKey).None?;
  }

  lemma RunOne(queue: Queue, a: Step)
    ensures RunQueue(queue, [a]) == Next(queue, a)
  {
    assert [a][..0] == [];
  }

  lemma RunThree(queue: Queue, a: Step, b: Step, c: Step)
    ensures RunQueue(queue, [a, b, c]) == Next(Next(Next(queue, a), b), c)
  {
    RunOne(queue, a);
    RunSnoc(queue, [a], b);
    RunSnoc(queue, [a, b], c);
    assert [a] + [b] == [a, b] && [a, b] + [c] == [a, b, c];
  }

  /** A job that was enqueued, claimed and finished, and is then cancelled, ends in DEAD_LETTER. */
  lemma FinishedJobIsCancelled(p: EnqueueParams, workerId: string, reason: string, now: int) returns (steps: seq<Step>)
    requires !IsBlank(workerId) && Trim(workerId) == workerId && NewJob(p, now).runAt <= now
    ensures var finished := RunQueue(Queue([], []), steps);
      && |finished.jobs| == 1 && finished.jobs[0].status == SUCCEEDED
      && var cancelled := RunQueue(finished, [CancelStep(0, reason, now)]);
      && |cancelled.jobs| == 1 && cancelled.jobs[0].status == DEAD_LETTER
  {
    var s1, s2 := EnqueueStep(p, true, now), ClaimStep(workerId, {}, now, {}, 0);
    var s3, s4 := SucceedStep(0, workerId, now), CancelStep(0, reason, now);
    steps := [s1, s2, s3];
    RunThree(Queue([], []), s1, s2, s3);
    EnqueuedAlone(p, now);
    var q1 := Next(Queue([], []), s1);
    ClaimedAlone(q1, workerId, now);
    FinishedAlone(Next(q1, s2), workerId, now);
    RunOne(RunQueue(Queue([], []), steps), s4);
  }

  // --- the work comes to an end

  predicate IsWork(step: Step)
  {
    step.ClaimStep? || step.SucceedStep? || step.FailStep?
  }

  function Weight(job: Job): int
  {
    match job.status
    case PENDING => 2 * (Limit(job) - job.attempts)
    case PROCESSING => 2 * (Limit(job) - job.attempts) - 1
    case _ => 0
  }

  function Potential(queue: Queue): int { Sums.SumInt(Weight, queue.jobs) }

  lemma {:induction false} PotentialIsNonNegative(jobs: seq<Job>)
    requires forall i :: 0 <= i < |jobs| ==> JobOk(jobs[i])
    ensures Sums.SumInt(Weight, jobs) >= 0
  {
    if |jobs| > 0 {
      PotentialIsNonNegative(jobs[..|jobs| - 1]);
    }
  }

  /** Every claim, success and failure that has an effect uses up potential. */
  lemma WorkUsesPotential(queue: Queue, step: Step)
    requires QueueOk(queue) && IsWork(step) && Next(queue, step) != queue
    ensures Potential(Next(queue, step)) < Potential(queue)
  {
    var after := Next(queue, step);
    Sums.SumIntUpdate(Weight, queue.jobs, step.id, after.jobs[step.id]);
    assert after.jobs == queue.jobs[step.id := after.jobs[step.id]];
    assert JobOk(queue.jobs[step.id]);
  }

  /** How many of the steps had an effect. */
  function Effective(queue: Queue, steps: seq<Step>): nat
  {
    if |steps| == 0 then 0
    else
      var before := RunQueue(queue, steps[..|steps| - 1]);
      Effective(queue, steps[..|steps| - 1]) + if Next(before, steps[|steps| - 1]) != before then 1 else 0
  }

  /** Workers alone, in any interleaving, get at most as many steps in as the queue has potential. */
  lemma {:induction false} WorkTerminates(queue: Queue, steps: seq<Step>)
    requires QueueOk(queue)
    requires forall k :: 0 <= k < |steps| ==> IsWork(steps[k])
    ensures Effective(queue, steps) + Potential(RunQueue(queue, steps)) <= Potential(queue)
    ensures Effective(queue, steps) <= Potential(queue)
  {
    EveryReachableQueueIsOk(queue, steps);
    PotentialIsNonNegative(RunQueue(queue, steps).jobs);
    if |steps| > 0 {
      var init, last := steps[..|steps| - 1], steps[|steps| - 1];
      WorkTerminates(queue, init);
      EveryReachableQueueIsOk(queue, init);
      if Next(RunQueue(queue, init), last) != RunQueue(queue, init) {
        WorkUsesPotential(RunQueue(queue, init), last);
      }
    }
  }

  // --- how often a job is claimed

  predicate IsAdmin(step: Step)
  {
    step.ReleaseStep? || step.RetryStep? || step.CancelStep?
  }

  predicate ClaimsJob(queue: Queue, step: Step, id: nat)
  {
    step.ClaimStep? && step.id == id && Next(queue, step) != queue
  }

  /** How often the job was claimed over the run. */
  function Claims(queue: Queue, steps: seq<Step>, id: nat): nat
  {
    if |steps| == 0 then 0
    else
      var init, last := steps[..|steps| - 1], steps[|steps| - 1];
      Claims(queue, init, id) + if ClaimsJob(RunQueue(queue, init), last, id) then 1 else 0
  }

  /** Failures so far, and one more for the attempt that is running or succeeded. */
  function Attempted(job: Job): int
  {
    job.attempts + if job.status in {PROCESSING, SUCCEEDED} then 1 else 0
  }

  /** A job only workers have touched: it is dead exactly when its attempts are used up. */
  ghost predicate OnlyWorked(job: Job)
  {
    && job.status != FAILED
    && (job.status == DEAD_LETTER ==> job.attempts == Limit(job))
    && (job.status != DEAD_LETTER ==> job.attempts < Limit(job))
  }

  lemma StepCountsClaim(queue: Queue, step: Step, id: nat)
    requires QueueOk(queue) && id < |queue.jobs| && OnlyWorked(queue.jobs[id]) && !IsAdmin(step)
    ensures var after := Next(queue, step);
      && id < |after.jobs| && OnlyWorked(after.jobs[id])
      && Attempted(after.jobs[id]) == Attempted(queue.jobs[id]) + if ClaimsJob(queue, step, id) then 1 else 0
  {
  }

  /**
   Without release, retry or cancel, a job is claimed at most as often as its limit allows, and it goes
   to DEAD_LETTER exactly when it has used up all its attempts.
   */
  lemma {:induction false} ClaimedAtMostLimitTimes(queue: Queue, steps: seq<Step>, id: nat)
    requires QueueOk(queue) && id < |queue.jobs|
    requires queue.jobs[id].status == PENDING && queue.jobs[id].attempts == 0
    requires forall k :: 0 <= k < |steps| ==> !IsAdmin(steps[k])
    ensures id < |RunQueue(queue, steps).jobs|
    ensures var job := RunQueue(queue, steps).jobs[id];
      && OnlyWorked(job)
      && Claims(queue, steps, id) == Attempted(job)
      && Claims(queue, steps, id) <= Limit(job)
      && (job.status == DEAD_LETTER <==> job.attempts == Limit(job))
  {
    if |steps| > 0 {
      var init, last := steps[..|steps| - 1], steps[|steps| - 1];
      ClaimedAtMostLimitTimes(queue, init, id);
      EveryReachableQueueIsOk(queue, init);
      StepCountsClaim(RunQueue(queue, init), last, id);
    }
  }
}
