/** What the steps of the queue do to jobs, lists and totals, read off their fields. */
module JobQueueEffects {
  import opened Numbers
  import opened Wrappers
  import opened Sorting
  import opened JobQueueSpec
  import opened JobQueueInvariants
  import opened JobQueueStructure
  import opened JobQueueProgress

  // --- settling a run ---

  /** The milliseconds a job waits after its attempt number `attempt` failed: one second, doubling, at most a
      minute. */
  function Backoff(attempt: nat): int
    requires attempt >= 1
  {
    Min(60_000, 1_000 * PowerOfTwo(attempt - 1))
  }

  lemma {:induction false} BackoffPositive(attempt: nat)
    requires attempt >= 1
    ensures Backoff(attempt) >= 1_000
  {
    PowersGrow(0, attempt - 1);
  }

  /** What a failed run with attempts left leaves: the job alone is changed, it waits for its backoff on the
      pending list, and the retry is counted. */
  ghost predicate Retried(s: State, run: HandlerRun, now: int, r: State)
    requires run.job < |s.jobs| && s.jobs[run.job].attempt >= 1
  {
    var job := s.jobs[run.job];
    && r.jobs == s.jobs[run.job := job.(runAt := now + Backoff(job.attempt))]
    && multiset(r.pending) == multiset(s.pending) + multiset{run.job}
    && r.dead == s.dead && r.dropped == s.dropped
    && r.totals == s.totals.(retried := s.totals.retried + 1)
  }

  /** What a failed run without attempts left leaves: the job's dead letter in front, and the failure counted. */
  ghost predicate Buried(s: State, run: HandlerRun, r: State)
    requires run.job < |s.jobs|
  {
    var job := s.jobs[run.job];
    && r.jobs == s.jobs && r.pending == s.pending && r.dropped == s.dropped
    && r.dead == [DeadLetter(job.id, job.jobType, job.attempt, job.payload, job.createdAt, job.runAt, job.maxAttempts)] + s.dead
    && r.totals == s.totals.(failed := s.totals.failed + 1)
  }

  /** What every settled run leaves: its entry under the job's id is released, whoever holds it, the run is over,
      and nothing else of the queue moves. */
  ghost predicate Released(s: State, run: HandlerRun, r: State)
    requires run.job < |s.jobs|
  {
    && (forall x: Ref :: x in r.active <==> x in s.active && Id(s.jobs, x) != s.jobs[run.job].id)
    && r.unsettled == s.unsettled - {run} && r.swept == s.swept && r.leasesSwept == s.leasesSwept
    && r.handlers == s.handlers && r.concurrency == s.concurrency && r.running == s.running
  }

  lemma {:induction false} RetriedExactly(s: State, run: HandlerRun, now: int)
    requires WellFormed(s) && run in s.unsettled && s.jobs[run.job].attempt < s.jobs[run.job].maxAttempts
    ensures s.jobs[run.job].attempt >= 1
    ensures Retried(s, run, now, Settled(s, run, Failure, now))
  {
    hide Sort, KeyIndex, ActiveDelete, UniqueKeys, JobsHandled, ActiveLeased, Balanced, PendingSorted, PowerOfTwo, RetryDelayMs;
    var job := s.jobs[run.job];
    RetryDelayDoublesToCap(job.attempt);
    SortContents(ByRunAt(s.jobs[run.job := job.(runAt := now + Backoff(job.attempt))]), s.pending + [run.job]);
  }

  lemma {:induction false} ReleasedExactly(s: State, run: HandlerRun, outcome: Outcome, now: int)
    requires WellFormed(s) && run in s.unsettled
    ensures Released(s, run, Settled(s, run, outcome, now))
  {
    hide Sort, JobsHandled, ActiveLeased, Balanced, PendingSorted, RetryDelayMs, UniqueKeys, ActiveDelete;
    SettledShape(s, run, outcome, now);
    ActiveDeleteFacts(s.jobs, s.active, s.jobs[run.job].id);
  }

  /** What settling a run does, before the drain that follows: a failed run with attempts left puts its job
      back with a run time one second later, doubling with each attempt up to a minute; one without attempts
      left becomes a dead letter; a success is counted; a non-retryable error is counted nowhere. In any case
      the lease under the job's id is released. */
  lemma {:induction false} SettleEffect(s: State, run: HandlerRun, outcome: Outcome, now: int)
    requires WellFormed(s) && run in s.unsettled
    ensures 1 <= s.jobs[run.job].attempt
    ensures var job := s.jobs[run.job];
            var r := Settled(s, run, outcome, now);
            && Released(s, run, r)
            && (outcome == Success ==>
                  r.jobs == s.jobs && r.pending == s.pending && r.dead == s.dead && r.dropped == s.dropped
                  && r.totals == s.totals.(completed := s.totals.completed + 1))
            && (outcome == NonRetryable ==>
                  r.jobs == s.jobs && r.pending == s.pending && r.dead == s.dead && r.dropped == s.dropped + 1 && r.totals == s.totals)
            && (outcome == Failure && job.attempt < job.maxAttempts ==> Retried(s, run, now, r))
            && (outcome == Failure && job.attempt >= job.maxAttempts ==> Buried(s, run, r))
  {
    hide Sort, ActiveDelete, UniqueKeys, JobsHandled, ActiveLeased, Balanced, PendingSorted, RetryDelayMs, Retried, Released;
    ReleasedExactly(s, run, outcome, now);
    if outcome == Failure && s.jobs[run.job].attempt < s.jobs[run.job].maxAttempts {
      RetriedExactly(s, run, now);
    }
  }

  /** A drain leaves every pending job alone whose run time has not come. */
  lemma {:induction false} NotBeforeItsTime(s: State, ref: Ref, now: int)
    requires WellFormed(s) && ref < |s.jobs| && s.jobs[ref].runAt > now
    ensures var r := Drain(s, now);
            ref < |r.jobs| && r.jobs[ref] == s.jobs[ref] && multiset(r.pending)[ref] == multiset(s.pending)[ref]
  {
    hide Drain, UniqueKeys, JobsHandled, ActiveLeased, RunsKnown, Balanced, PendingSorted, DueCount, ActiveAfter, SlotsFor;
    DrainIsEarliestFirst(s, now);
    var r := Drain(s, now);
    var k: nat :| k <= |s.pending| && DrainStops(s, k, now) && DrainedBy(s, k, now, r);
    forall i | 0 <= i < k ensures s.pending[..k][i] != ref {
      assert RunAt(s.jobs, s.pending[i]) <= now;
    }
    assert ref !in s.pending[..k];
    assert s.pending == s.pending[..k] + s.pending[k..];
  }

  /** So a failed run is not started again before its backoff is over: neither by the drain of the settle
      itself nor by any drain right after it with an earlier clock reading. */
  lemma {:induction false} BackoffIsKept(s: State, run: HandlerRun, now: int, early: int)
    requires WellFormed(s) && run in s.unsettled && s.jobs[run.job].attempt < s.jobs[run.job].maxAttempts
    requires s.jobs[run.job].attempt >= 1 && early < now + Backoff(s.jobs[run.job].attempt)
    ensures var job := s.jobs[run.job];
            var r := Next(s, Settle(run, Failure, now));
            && RefsValid(r) && run.job < |r.jobs|
            && r.jobs[run.job] == job.(runAt := now + Backoff(job.attempt)) && run.job in r.pending
            && var later := Drain(r, early);
               run.job < |later.jobs| && later.jobs[run.job] == r.jobs[run.job] && run.job in later.pending
  {
    hide Drain, Settled, Sort, UniqueKeys, JobsHandled, ActiveLeased, Balanced, PendingSorted, Backoff;
    var settled := Settled(s, run, Failure, now);
    var ref := run.job;
    BackoffPositive(s.jobs[ref].attempt);
    SettledWellFormed(s, run, Failure, now);
    RetriedExactly(s, run, now);
    assert ref in multiset(settled.pending);
    NotBeforeItsTime(settled, ref, now);
    var r := Drain(settled, now);
    DrainWellFormed(settled, now);
    assert ref in multiset(r.pending);
    NotBeforeItsTime(r, ref, early);
    assert ref in multiset(Drain(r, early).pending);
  }

  // --- enqueueing, hurrying and reviving ---

  /** An accepted job joins the pending list with the delay and the number of attempts asked for: no negative
      delay, three attempts unless told otherwise and one at least. */
  lemma {:induction false} EnqueueEffect(s: State, id: string, t: JobType, payload: string, delayMs: Option<int>, maxAttempts: Option<int>, now: int)
    requires WellFormed(s)
    ensures var n: Ref := |s.jobs|;
            var delay := if delayMs.Some? && delayMs.value > 0 then delayMs.value else 0;
            var attempts: nat := if maxAttempts.None? then 3 else if maxAttempts.value > 1 then maxAttempts.value else 1;
            var (r, drains) := Effect(s, Enqueue(id, t, payload, delayMs, maxAttempts, now));
            && (t !in s.handlers ==> r == s && !drains)
            && (t in s.handlers ==>
                  && drains
                  && r.jobs == s.jobs + [Job(id, t, payload, 0, attempts, now, now + delay, None)]
                  && multiset(r.pending) == multiset(s.pending) + multiset{n}
                  && r == s.(jobs := r.jobs, pending := r.pending, totals := s.totals.(enqueued := s.totals.enqueued + 1)))
  {
    hide Sort;
    var n: Ref := |s.jobs|;
    SortContents(ByRunAt(s.jobs + [NewJob(id, t, payload, delayMs, maxAttempts, now)]), s.pending + [n]);
  }

  lemma {:induction false} ForcedExactly(s: State, d: nat, now: int)
    requires d < |s.dead|
    ensures var n: Ref := |s.jobs|;
            var letter := s.dead[d];
            var r := ForceRetried(s, d, now);
            && r.dead == s.dead[..d] + s.dead[d + 1..]
            && r.jobs == s.jobs + [Job(letter.jobId, letter.jobType, letter.payload, 0, letter.maxAttempts, letter.createdAt, now, None)]
            && multiset(r.pending) == multiset(s.pending) + multiset{n}
            && r == s.(jobs := r.jobs, pending := r.pending, dead := r.dead)
  {
    hide Sort;
    var n: Ref := |s.jobs|;
    SortContents(ByRunAt(s.jobs + [Revived(s.dead[d], now)]), s.pending + [n]);
  }

  lemma {:induction false} HurriedExactly(s: State, p: nat, now: int)
    requires p < |s.pending| && s.pending[p] < |s.jobs|
    ensures var r := HurriedUp(s, p, now);
            && r.jobs == s.jobs[s.pending[p] := s.jobs[s.pending[p]].(runAt := now)]
            && multiset(r.pending) == multiset(s.pending)
            && r == s.(jobs := r.jobs, pending := r.pending)
  {
    hide Sort;
    SortContents(ByRunAt(s.jobs[s.pending[p] := s.jobs[s.pending[p]].(runAt := now)]), s.pending);
  }

  /** A forced retry of a dead letter takes the letter off and puts the job back with its id, its creation
      time and no attempt used, due at once; a retry of a job that has been tried and is pending again moves
      its run time to now; every other retry changes nothing and starts nothing. */
  lemma {:induction false} RetryEffectOnFields(s: State, jobId: string, force: bool, now: int)
    requires WellFormed(s)
    ensures var n: Ref := |s.jobs|;
            var d := DeadIndex(s.dead, jobId);
            var p := KeyIndex(s.jobs, s.pending, jobId);
            var (r, drains) := Effect(s, Retry(jobId, force, now));
            && (d < |s.dead| && force ==>
                  var letter := s.dead[d];
                  && drains && r.dead == s.dead[..d] + s.dead[d + 1..]
                  && r.jobs == s.jobs + [Job(jobId, letter.jobType, letter.payload, 0, letter.maxAttempts, letter.createdAt, now, None)]
                  && multiset(r.pending) == multiset(s.pending) + multiset{n}
                  && r == s.(jobs := r.jobs, pending := r.pending, dead := r.dead))
            && (d == |s.dead| && p < |s.pending| && s.jobs[s.pending[p]].attempt > 0 ==>
                  && drains && s.jobs[s.pending[p]].id == jobId
                  && r.jobs == s.jobs[s.pending[p] := s.jobs[s.pending[p]].(runAt := now)]
                  && multiset(r.pending) == multiset(s.pending)
                  && r == s.(jobs := r.jobs, pending := r.pending))
            && (d < |s.dead| && !force ==> r == s && !drains)
            && (d == |s.dead| && (p == |s.pending| || s.jobs[s.pending[p]].attempt == 0) ==> r == s && !drains)
  {
    hide ForceRetried, HurriedUp, UniqueKeys, JobsHandled, ActiveLeased, RunsKnown, Balanced, PendingSorted;
    var d := DeadIndex(s.dead, jobId);
    var p := KeyIndex(s.jobs, s.pending, jobId);
    if d < |s.dead| {
      ForcedExactly(s, d, now);
    } else if p < |s.pending| {
      HurriedExactly(s, p, now);
    }
  }

  /** A replay of an unknown letter changes nothing; one of a known letter takes the letter off and enqueues its
      work under the new id, with its own number of attempts and due at once. */
  lemma {:induction false} ReplayEffect(s: State, jobId: string, newId: string, now: int)
    requires WellFormed(s)
    ensures var n: Ref := |s.jobs|;
            var d := DeadIndex(s.dead, jobId);
            var (r, drains) := Effect(s, Replay(jobId, newId, now));
            && (d == |s.dead| ==> r == s && !drains)
            && (d < |s.dead| ==>
                  var letter := s.dead[d];
                  && drains && letter.jobId == jobId && r.dead == s.dead[..d] + s.dead[d + 1..]
                  && r.jobs == s.jobs + [Job(newId, letter.jobType, letter.payload, 0, letter.maxAttempts, now, now, None)]
                  && multiset(r.pending) == multiset(s.pending) + multiset{n}
                  && r == s.(jobs := r.jobs, pending := r.pending, dead := r.dead,
                             totals := s.totals.(enqueued := s.totals.enqueued + 1)))
  {
    hide Sort, UniqueKeys, ActiveLeased, RunsKnown, Balanced, PendingSorted;
    var n: Ref := |s.jobs|;
    var d := DeadIndex(s.dead, jobId);
    if d < |s.dead| {
      DeadLetterHandled(s, d);
      SortContents(ByRunAt(s.jobs + [NewJob(newId, s.dead[d].jobType, s.dead[d].payload, None, Some(s.dead[d].maxAttempts), now)]),
                   s.pending + [n]);
    }
  }

  // --- the sweep ---

  /** The lease of the job is older than the limit. */
  predicate OlderThan(job: Job, staleLeaseMs: int, now: int) {
    job.leasedAt.Some? && now - job.leasedAt.value > staleLeaseMs
  }

  /** What a sweep does to each job it finds on the active map: a lease within the limit stays; an older one is
      released, and the job is pending again, due now and without a lease, if it has attempts left, and a dead
      letter if it has none. */
  lemma {:induction false} SweepEffect(s: State, staleLeaseMs: int, now: int, ref: Ref)
    requires WellFormed(s) && ref in s.active
    ensures ref < |s.jobs|
    ensures var job := s.jobs[ref];
            var r := Swept(s, staleLeaseMs, now);
            && (ref in r.active <==> !OlderThan(job, staleLeaseMs, now))
            && r.jobs[ref] == (if OlderThan(job, staleLeaseMs, now) && job.attempt < job.maxAttempts
                               then job.(leasedAt := None, runAt := now) else job)
            && (OlderThan(job, staleLeaseMs, now) && job.attempt < job.maxAttempts ==> ref in r.pending)
            && (OlderThan(job, staleLeaseMs, now) && job.attempt >= job.maxAttempts ==>
                  DeadLetter(job.id, job.jobType, job.attempt, job.payload, job.createdAt, job.runAt, job.maxAttempts) in r.dead)
  {
    hide Sort, Sound, PendingSorted, SweepAll, Swept, DeadLetters, SweptRuns, SweepParts;
    var kept := Filter(Fresh(s.jobs, staleLeaseMs, now), s.active);
    var reclaimed := Filter(Reclaimable(s.jobs, staleLeaseMs, now), s.active);
    var exhausted := Filter(Exhausted(s.jobs, staleLeaseMs, now), s.active);
    var r := Swept(s, staleLeaseMs, now);
    ActiveKnown(s, ref);
    SweptShape(s, staleLeaseMs, now);
    FilterElements(Fresh(s.jobs, staleLeaseMs, now), s.active);
    FilterElements(Reclaimable(s.jobs, staleLeaseMs, now), s.active);
    FilterElements(Exhausted(s.jobs, staleLeaseMs, now), s.active);
    MultisetMembers(r.pending, s.pending + reclaimed, multiset{});
    assert r.active == kept;
    if ref in exhausted {
      LetterWritten(s.jobs, exhausted, ref);
    }
  }

  /** A sweep tries to start jobs exactly when it put one back. */
  lemma {:induction false} SweepDrainsIff(s: State, staleLeaseMs: int, now: int)
    requires WellFormed(s)
    ensures Effect(s, Sweep(staleLeaseMs, now)).1
            <==> exists ref: Ref :: ref in s.active && ref < |s.jobs|
                                    && OlderThan(s.jobs[ref], staleLeaseMs, now) && s.jobs[ref].attempt < s.jobs[ref].maxAttempts
  {
    hide Sort, Sound, PendingSorted, SweepAll, DeadLetters, SweptRuns;
    var reclaimed := Filter(Reclaimable(s.jobs, staleLeaseMs, now), s.active);
    SweptWellFormed(s, staleLeaseMs, now);
    FilterElements(Reclaimable(s.jobs, staleLeaseMs, now), s.active);
    if reclaimed != [] {
      assert reclaimed[0] in reclaimed;
    }
  }

  lemma {:induction false} ActiveKnown(s: State, ref: Ref)
    requires WellFormed(s) && ref in s.active
    ensures ref < |s.jobs|
  {
  }

  lemma {:induction false} LetterWritten(jobs: seq<Job>, refs: seq<Ref>, ref: Ref)
    requires (forall x: Ref :: x in refs ==> x < |jobs|) && ref in refs
    ensures var job := jobs[ref];
            DeadLetter(job.id, job.jobType, job.attempt, job.payload, job.createdAt, job.runAt, job.maxAttempts) in DeadLetters(jobs, refs)
    decreases |refs|
  {
    var last := |refs| - 1;
    assert refs[last] in refs && forall x: Ref :: x in refs[..last] ==> x in refs;
    if refs[last] != ref {
      assert refs == refs[..last] + [refs[last]];
      LetterWritten(jobs, refs[..last], ref);
    }
  }

  // --- no step leaves a free slot beside a due job ---

  /** After an accepted enqueue, a settle, a poll, and the start of a stopped queue, a running queue is full or
      has nothing due. */
  lemma {:induction false} StepsFillTheSlots(s: State, step: Step)
    requires WellFormed(s) && Enabled(s, step)
    requires step.Settle? || step.Poll? || (step.Enqueue? && step.newType in s.handlers) || (step.Start? && !s.running)
    requires step.Start? || s.running
    ensures step.Settle? ==> step.run.job < |s.jobs|
    ensures var r := Next(s, step);
            && r.running
            && (|r.active| == r.concurrency || (forall ref: Ref :: ref in r.pending ==> RunAt(r.jobs, ref) > step.now))
  {
    hide Drain, Sort, RecordOutcome, ActiveDelete, UniqueKeys, JobsHandled, ActiveLeased, Balanced, PendingSorted, RunAt;
    EffectWellFormed(s, step);
    if step.Settle? {
      ReleasedExactly(s, step.run, step.outcome, step.now);
    }
    var changed := Effect(s, step).0;
    DrainIsWorkConserving(changed, step.now);
    KeepsRunning(changed, step.now);
  }

  lemma {:induction false} KeepsRunning(s: State, now: int)
    requires WellFormed(s)
    ensures Drain(s, now).running == s.running
  {
    hide Drain, UniqueKeys, JobsHandled, ActiveLeased, RunsKnown, Balanced, PendingSorted, DueCount, ActiveAfter, SlotsFor;
    DrainIsEarliestFirst(s, now);
  }
}
