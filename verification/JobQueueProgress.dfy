/** What the job queue starts: how many executions a backlog allows, and which jobs a drain picks. */
module JobQueueProgress {
  import opened Wrappers
  import opened Numbers
  import opened Sorting
  import opened Sums
  import opened JobQueueSpec
  import opened JobQueueInvariants
  import opened JobQueueStructure

  // --- the execution budget ---

  function AttemptsLeft(jobs: seq<Job>): Ref -> int {
    (ref: Ref) => if ref < |jobs| then jobs[ref].maxAttempts - jobs[ref].attempt else 0
  }

  function Budget(s: State): int {
    Sum(AttemptsLeft(s.jobs), s.pending) + Sum(AttemptsLeft(s.jobs), s.active)
  }

  lemma {:induction false} BudgetNonNegative(s: State)
    requires Structured(s)
    ensures Budget(s) >= 0
  {
    SumNonNegative(AttemptsLeft(s.jobs), s.pending);
    SumNonNegative(AttemptsLeft(s.jobs), s.active);
  }

  lemma {:induction false} StartSpendsOne(s: State, i: nat, now: int)
    requires Structured(s) && i < |s.pending|
    ensures var r := RunJob(Taken(s, i), s.pending[i], now);
            Budget(r) == Budget(s) - 1 && r.totals.executions == s.totals.executions + 1
  {
    hide Sum, UniqueKeys, JobsHandled, ActiveLeased, RunsKnown, Balanced, PendingSorted, ActiveSet, Tracked, LeasesMatchRuns;
    var ref := s.pending[i];
    var r := RunJob(Taken(s, i), ref, now);
    StartKeepsCounts(s, i, now);
    StartIsLocal(s, i, now);
    SumRemove(AttemptsLeft(s.jobs), s.pending, i);
    SumCongruent(AttemptsLeft(r.jobs), AttemptsLeft(s.jobs), r.pending);
    SumSnoc(AttemptsLeft(r.jobs), s.active, ref);
    SumCongruent(AttemptsLeft(r.jobs), AttemptsLeft(s.jobs), s.active);
  }

  lemma {:induction false} DrainSpends(s: State, now: int)
    requires Structured(s)
    ensures var r := Drain(s, now); r.totals.executions + Budget(r) == s.totals.executions + Budget(s)
    decreases |s.pending|
  {
    if s.running && |s.active| < s.concurrency {
      var i := FirstDue(s.jobs, s.pending, now);
      if i < |s.pending| {
        StartSpendsOne(s, i, now);
        StartStructured(s, i, now);
        DrainSpends(RunJob(Taken(s, i), s.pending[i], now), now);
      }
    }
  }

  lemma {:induction false} SettledBudget(s: State, run: HandlerRun, outcome: Outcome, r: State)
    requires WellFormed(s) && run.job in s.active && SettledTo(s, run, outcome, r)
    requires s.jobs[run.job].attempt <= s.jobs[run.job].maxAttempts
    ensures Budget(r) <= Budget(s)
  {
    var ref := run.job;
    hide Sum, UniqueKeys, JobsHandled, ActiveLeased, RunsKnown, Balanced, PendingSorted, ToDeadLetter;
    var left := AttemptsLeft(s.jobs);
    ActiveHolds(s, ref);
    SumRemove(left, s.active, KeyIndex(s.jobs, s.active, s.jobs[ref].id));
    SumCongruent(AttemptsLeft(r.jobs), left, r.active);
    SumCongruent(AttemptsLeft(r.jobs), left, r.pending);
    if Retries(s, run, outcome) {
      SumExtra(left, r.pending, s.pending, ref);
    } else {
      SumPermutation(left, r.pending, s.pending);
    }
  }

  lemma {:induction false} SettledSpends(s: State, run: HandlerRun, outcome: Outcome, now: int)
    requires Structured(s) && run in s.unsettled - s.swept
    ensures var r := Settled(s, run, outcome, now);
            r.totals.executions == s.totals.executions && Budget(r) <= Budget(s)
  {
    SettledShape(s, run, outcome, now);
    assert run.job in s.active;
    SettledBudget(s, run, outcome, Settled(s, run, outcome, now));
  }

  lemma {:induction false} SweptBudget(s: State, kept: seq<Ref>, reclaimed: seq<Ref>, exhausted: seq<Ref>, now: int, r: State)
    requires forall x: Ref :: x in exhausted ==> x < |s.jobs|
    requires SweptTo(s, kept, reclaimed, exhausted, now, r)
    requires forall x: Ref :: x in exhausted ==> s.jobs[x].attempt == s.jobs[x].maxAttempts
    requires Sum(AttemptsLeft(s.jobs), kept) + Sum(AttemptsLeft(s.jobs), reclaimed) + Sum(AttemptsLeft(s.jobs), exhausted)
          == Sum(AttemptsLeft(s.jobs), s.active)
    ensures Budget(r) == Budget(s)
  {
    var left := AttemptsLeft(s.jobs);
    SumBounds(left, exhausted, 0, 0);
    assert r.active == kept;
    SumCongruent(AttemptsLeft(r.jobs), left, r.active);
    SumCongruent(AttemptsLeft(r.jobs), left, r.pending);
    SumPermutation(left, r.pending, s.pending + reclaimed);
    SumAppend(left, s.pending, reclaimed);
  }

  lemma {:induction false} SweptSpends(s: State, staleLeaseMs: int, now: int)
    requires Structured(s)
    ensures var r := Swept(s, staleLeaseMs, now);
            r.totals.executions == s.totals.executions && Budget(r) == Budget(s)
  {
    var exhausted := Filter(Exhausted(s.jobs, staleLeaseMs, now), s.active);
    SweptShape(s, staleLeaseMs, now);
    FiltersPartition(AttemptsLeft(s.jobs), s.jobs, s.active, staleLeaseMs, now);
    forall x: Ref | x in exhausted ensures s.jobs[x].attempt == s.jobs[x].maxAttempts {
      assert x in s.active;
    }
    SweptBudget(s, Filter(Fresh(s.jobs, staleLeaseMs, now), s.active), Filter(Reclaimable(s.jobs, staleLeaseMs, now), s.active),
                exhausted, now, Swept(s, staleLeaseMs, now));
  }

  /** Steps that bring in no new work: no enqueue, no replay, no forced retry of a dead letter. */
  predicate AddsNoWork(s: State, step: Step) {
    && !step.Enqueue? && !step.Replay?
    && (step.Retry? ==> DeadIndex(s.dead, step.jobId) == |s.dead|)
  }

  lemma {:induction false} HurriedUpSpends(s: State, i: nat, now: int)
    requires Structured(s) && i < |s.pending|
    ensures Budget(HurriedUp(s, i, now)) == Budget(s)
  {
    hide Sum, UniqueKeys, JobsHandled, ActiveLeased, RunsKnown, Balanced, PendingSorted, TrackedOnce, LeasesMatchRuns, DeadKnown;
    var r := HurriedUp(s, i, now);
    HurriedUpWellFormed(s, i, now);
    SumPermutation(AttemptsLeft(r.jobs), r.pending, s.pending);
    SumCongruent(AttemptsLeft(r.jobs), AttemptsLeft(s.jobs), s.pending);
    SumCongruent(AttemptsLeft(r.jobs), AttemptsLeft(s.jobs), s.active);
  }

  lemma {:induction false} EffectSpends(s: State, step: Step)
    requires Structured(s) && Enabled(s, step) && NoLateSettle(s, step) && AddsNoWork(s, step)
    requires step.Settle? ==> step.run.job < |s.jobs|
    ensures var r := Effect(s, step).0; r.totals.executions + Budget(r) <= s.totals.executions + Budget(s)
  {
    hide TrackedOnce, AttemptsInRange, LeasesMatchRuns, DeadKnown, PendingSorted, Sum, UniqueKeys, ActiveLeased, Settled, Swept, Sort, SweepAll;
    match step {
      case Settle(run, outcome, now) => SettledSpends(s, run, outcome, now);
      case Sweep(staleLeaseMs, now) => SweptSpends(s, staleLeaseMs, now);
      case Retry(jobId, _, now) =>
        var p := KeyIndex(s.jobs, s.pending, jobId);
        if p < |s.pending| {
          HurriedUpSpends(s, p, now);
        }
      case _ =>
    }
  }

  lemma {:induction false} NextSpends(s: State, step: Step)
    requires Structured(s) && Enabled(s, step) && NoLateSettle(s, step) && AddsNoWork(s, step)
    ensures var r := Next(s, step); r.totals.executions + Budget(r) <= s.totals.executions + Budget(s)
  {
    hide Effect, Drain, Budget, AttemptsInRange, LeasesMatchRuns, DeadKnown;
    EffectSpends(s, step);
    EffectStructured(s, step);
    DrainSpends(Effect(s, step).0, StepTime(step));
  }

  ghost predicate BringsNoWork(s: State, steps: seq<Step>)
    requires WellFormed(s) && Feasible(s, steps)
    decreases |steps|
  {
    steps == [] || (AddsNoWork(s, steps[0]) && (NextWellFormed(s, steps[0]); BringsNoWork(Next(s, steps[0]), steps[1..])))
  }

  lemma {:induction false} RunsSpend(s: State, steps: seq<Step>)
    requires Structured(s) && Feasible(s, steps) && Punctual(s, steps) && BringsNoWork(s, steps)
    ensures var r := After(s, steps);
            Structured(r) && r.totals.executions + Budget(r) <= s.totals.executions + Budget(s)
    decreases |steps|
  {
    if steps != [] {
      NextStructured(s, steps[0]);
      NextSpends(s, steps[0]);
      RunsSpend(Next(s, steps[0]), steps[1..]);
    }
  }

  /** Without new work, at most the attempts left over pending and active jobs can still be started. */
  lemma {:induction false} ExecutionsBounded(s: State, steps: seq<Step>)
    requires Structured(s) && Feasible(s, steps) && Punctual(s, steps) && BringsNoWork(s, steps)
    ensures After(s, steps).totals.executions - s.totals.executions <= Budget(s)
  {
    RunsSpend(s, steps);
    BudgetNonNegative(After(s, steps));
  }

  // --- what a drain starts ---

  /** How many jobs at the front of the pending list are due. */
  function DueCount(jobs: seq<Job>, pending: seq<Ref>, now: int): (n: nat)
    ensures n <= |pending|
    ensures forall k :: 0 <= k < n ==> RunAt(jobs, pending[k]) <= now
    ensures n < |pending| ==> RunAt(jobs, pending[n]) > now
  {
    if pending == [] || RunAt(jobs, pending[0]) > now then 0
    else 1 + DueCount(jobs, pending[1..], now)
  }

  lemma {:induction false} NothingDue(jobs: seq<Job>, pending: seq<Ref>, now: int)
    requires PendingSorted(jobs, pending)
    ensures DueCount(jobs, pending, now) == 0 <==> FirstDue(jobs, pending, now) == |pending|
    ensures DueCount(jobs, pending, now) > 0 ==> FirstDue(jobs, pending, now) == 0
    ensures forall k :: DueCount(jobs, pending, now) <= k < |pending| ==> RunAt(jobs, pending[k]) > now
  {
  }

  /** The active map after these jobs were started one after the other: a job whose id has an entry
      takes that entry over. */
  function ActiveAfter(jobs: seq<Job>, active: seq<Ref>, refs: seq<Ref>): seq<Ref>
    decreases |refs|
  {
    if refs == [] then active else ActiveAfter(jobs, ActiveSet(jobs, active, refs[0]), refs[1..])
  }

  function StartedJob(job: Job, times: nat, now: int): Job {
    if times == 0 then job else job.(attempt := job.attempt + times, leasedAt := Some(now))
  }

  /** A drain that starts the first k jobs of the pending list, in order. */
  ghost predicate DrainedBy(s: State, k: nat, now: int, r: State)
    requires k <= |s.pending|
  {
    && r.pending == s.pending[k..]
    && r.active == ActiveAfter(s.jobs, s.active, s.pending[..k])
    && |r.jobs| == |s.jobs|
    && (forall ref: Ref :: ref < |s.jobs| ==> r.jobs[ref] == StartedJob(s.jobs[ref], multiset(s.pending[..k])[ref], now))
    && r.dead == s.dead
    && r.totals == s.totals.(executions := s.totals.executions + k)
    && r.unsettled >= s.unsettled && r.swept == s.swept && r.leasesSwept == s.leasesSwept && r.dropped == s.dropped
    && r.concurrency == s.concurrency && r.running == s.running && r.handlers == s.handlers
  }

  /** Each of the first k starts finds a free slot. */
  ghost predicate SlotsFor(s: State, k: nat)
    requires k <= |s.pending|
  {
    forall j :: 0 <= j < k ==> |ActiveAfter(s.jobs, s.active, s.pending[..j])| < s.concurrency
  }

  /** The k jobs are due and each finds a slot, and the next one is not due or finds none. */
  ghost predicate DrainStops(s: State, k: nat, now: int)
    requires k <= |s.pending|
  {
    && k <= DueCount(s.jobs, s.pending, now)
    && SlotsFor(s, k)
    && (k > 0 ==> s.running)
    && (s.running && k < DueCount(s.jobs, s.pending, now) ==>
          |ActiveAfter(s.jobs, s.active, s.pending[..k])| >= s.concurrency)
  }

  lemma {:induction false} DueAfterStart(jobs: seq<Job>, jobs': seq<Job>, pending: seq<Ref>, now: int)
    requires forall ref: Ref :: RunAt(jobs', ref) == RunAt(jobs, ref)
    ensures DueCount(jobs', pending, now) == DueCount(jobs, pending, now)
    decreases |pending|
  {
    if pending != [] {
      DueAfterStart(jobs, jobs', pending[1..], now);
    }
  }

  lemma {:induction false} SameIdsSameActive(jobs: seq<Job>, jobs': seq<Job>, active: seq<Ref>, refs: seq<Ref>)
    requires forall ref: Ref :: Id(jobs', ref) == Id(jobs, ref)
    ensures ActiveAfter(jobs', active, refs) == ActiveAfter(jobs, active, refs)
    decreases |refs|
  {
    if refs != [] {
      SameIdsSameDelete(jobs, jobs', active, Id(jobs, refs[0]));
      SameIdsSameActive(jobs, jobs', ActiveSet(jobs, active, refs[0]), refs[1..]);
    }
  }

  predicate CanStart(s: State, now: int) {
    s.running && |s.active| < s.concurrency && DueCount(s.jobs, s.pending, now) > 0
  }

  /** The first pending job, started. */
  ghost predicate FirstStarted(s: State, now: int, mid: State) {
    && |s.pending| > 0 && s.pending[0] < |s.jobs|
    && mid.pending == s.pending[1..]
    && mid.active == ActiveSet(s.jobs, s.active, s.pending[0])
    && mid.jobs == s.jobs[s.pending[0] := StartedJob(s.jobs[s.pending[0]], 1, now)]
    && mid.dead == s.dead
    && mid.totals == s.totals.(executions := s.totals.executions + 1)
    && mid.unsettled >= s.unsettled && mid.swept == s.swept && mid.leasesSwept == s.leasesSwept && mid.dropped == s.dropped
    && mid.concurrency == s.concurrency && mid.running == s.running && mid.handlers == s.handlers
  }

  lemma {:induction false} StartFirst(s: State, now: int)
    requires WellFormed(s) && |s.pending| > 0
    ensures s.pending[0] < |s.jobs| && FirstStarted(s, now, RunJob(Taken(s, 0), s.pending[0], now))
  {
    hide UniqueKeys, ActiveLeased, RunsKnown, Balanced, PendingSorted, ActiveSet;
    assert Taken(s, 0).pending == s.pending[1..];
    assert s.jobs[s.pending[0]].jobType in s.handlers;
  }

  lemma {:induction false} FirstStartedKeeps(s: State, now: int, mid: State, refs: seq<Ref>)
    requires FirstStarted(s, now, mid)
    ensures DueCount(mid.jobs, mid.pending, now) == DueCount(s.jobs, s.pending[1..], now)
    ensures ActiveAfter(mid.jobs, mid.active, refs) == ActiveAfter(s.jobs, s.active, [s.pending[0]] + refs)
  {
    hide ActiveSet, DueCount;
    assert forall ref: Ref :: RunAt(mid.jobs, ref) == RunAt(s.jobs, ref);
    assert forall ref: Ref :: Id(mid.jobs, ref) == Id(s.jobs, ref);
    DueAfterStart(s.jobs, mid.jobs, s.pending[1..], now);
    SameIdsSameActive(s.jobs, mid.jobs, mid.active, refs);
    assert ([s.pending[0]] + refs)[1..] == refs;
  }

  /** One start at the head of the list, then a drain of k - 1 more, is a drain of k. */
  lemma {:induction false} DrainedStep(s: State, k: nat, now: int, mid: State, r: State)
    requires FirstStarted(s, now, mid) && 0 < k <= |s.pending|
    requires DrainedBy(mid, k - 1, now, r)
    ensures DrainedBy(s, k, now, r)
  {
    hide ActiveAfter, ActiveSet;
    var ref := s.pending[0];
    assert s.pending[..k] == [ref] + mid.pending[..k - 1];
    assert mid.pending[k - 1..] == s.pending[k..];
    FirstStartedKeeps(s, now, mid, mid.pending[..k - 1]);
    assert multiset(s.pending[..k]) == multiset{ref} + multiset(mid.pending[..k - 1]);
  }

  lemma {:induction false} StopsStep(s: State, k: nat, now: int, mid: State)
    requires FirstStarted(s, now, mid) && 0 < k <= |s.pending|
    requires CanStart(s, now)
    requires DrainStops(mid, k - 1, now)
    ensures DrainStops(s, k, now)
  {
    hide ActiveSet;
    FirstStartedKeeps(s, now, mid, mid.pending[..k - 1]);
    assert s.pending[..k] == [s.pending[0]] + mid.pending[..k - 1];
    forall j | 0 <= j < k ensures |ActiveAfter(s.jobs, s.active, s.pending[..j])| < s.concurrency {
      if j > 0 {
        FirstStartedKeeps(s, now, mid, mid.pending[..j - 1]);
        assert s.pending[..j] == [s.pending[0]] + mid.pending[..j - 1];
      }
    }
  }

  lemma {:induction false} DrainedNothing(s: State, now: int)
    ensures DrainedBy(s, 0, now, s)
  {
    assert s.pending[0..] == s.pending;
  }

  lemma {:induction false} DrainUnfolds(s: State, now: int)
    requires WellFormed(s)
    ensures !CanStart(s, now) ==> Drain(s, now) == s
    ensures CanStart(s, now) ==>
              && |s.pending| > 0 && s.pending[0] < |s.jobs|
              && var mid := RunJob(Taken(s, 0), s.pending[0], now);
                 && WellFormed(mid) && FirstStarted(s, now, mid) && |mid.pending| == |s.pending| - 1
                 && Drain(s, now) == Drain(mid, now)
  {
    hide RunJob, FirstStarted, UniqueKeys, JobsHandled, ActiveLeased, RunsKnown, Balanced, PendingSorted, DueCount;
    NothingDue(s.jobs, s.pending, now);
    if CanStart(s, now) {
      StartingTaken(s, 0, now);
      StartFirst(s, now);
    }
  }

  /** Every drain of a well-formed queue, late settles before it included: it starts a prefix of the
      sorted pending list, so the due jobs of smallest run time in list order on ties, and it stops
      exactly when the queue is stopped or full or nothing is due. */
  lemma {:induction false} DrainIsEarliestFirst(s: State, now: int)
    requires WellFormed(s)
    ensures exists k: nat :: k <= |s.pending| && DrainStops(s, k, now) && DrainedBy(s, k, now, Drain(s, now))
    decreases |s.pending|
  {
    hide RefsValid, UniqueKeys, JobsHandled, ActiveLeased, RunsKnown, Balanced, PendingSorted, RunJob, Drain, FirstStarted,
         DrainedBy, DrainStops, DueCount, RunAt;
    DrainUnfolds(s, now);
    if CanStart(s, now) {
      var mid := RunJob(Taken(s, 0), s.pending[0], now);
      DrainIsEarliestFirst(mid, now);
      var k: nat :| k <= |mid.pending| && DrainStops(mid, k, now) && DrainedBy(mid, k, now, Drain(mid, now));
      DrainedStep(s, k + 1, now, mid, Drain(mid, now));
      StopsStep(s, k + 1, now, mid);
      assert DrainStops(s, k + 1, now) && DrainedBy(s, k + 1, now, Drain(s, now));
    } else {
      DrainedNothing(s, now);
      StopsAtOnce(s, now);
    }
  }

  lemma {:induction false} StopsAtOnce(s: State, now: int)
    requires !CanStart(s, now)
    ensures DrainStops(s, 0, now)
  {
    assert s.pending[..0] == [];
  }

  lemma {:induction false} DrainedKeepsTimes(s: State, k: nat, now: int, r: State)
    requires k <= |s.pending| && DrainedBy(s, k, now, r)
    ensures forall ref: Ref :: RunAt(r.jobs, ref) == RunAt(s.jobs, ref)
  {
    hide ActiveAfter;
  }

  lemma {:induction false} LeftoverIsLate(jobs: seq<Job>, jobs': seq<Job>, pending: seq<Ref>, k: nat, now: int)
    requires PendingSorted(jobs, pending) && DueCount(jobs, pending, now) <= k <= |pending|
    requires forall ref: Ref :: RunAt(jobs', ref) == RunAt(jobs, ref)
    ensures forall ref: Ref :: ref in pending[k..] ==> RunAt(jobs', ref) > now
  {
    hide PendingSorted, RunAt;
    NothingDue(jobs, pending, now);
    forall ref: Ref | ref in pending[k..] ensures RunAt(jobs', ref) > now {
      var i :| 0 <= i < |pending[k..]| && pending[k..][i] == ref;
      assert pending[k + i] == ref;
    }
  }

  /** Work conserving: a drain leaves a due job behind only when the queue is stopped or full. */
  lemma {:induction false} DrainIsWorkConserving(s: State, now: int)
    requires WellFormed(s) && s.running
    ensures var r := Drain(s, now);
            |r.active| == r.concurrency || (forall ref: Ref :: ref in r.pending ==> RunAt(r.jobs, ref) > now)
  {
    hide Drain, RunAt, UniqueKeys, JobsHandled, ActiveLeased, RunsKnown, Balanced, PendingSorted, DueCount, ActiveAfter;
    var r := Drain(s, now);
    DrainIsEarliestFirst(s, now);
    DrainWellFormed(s, now);
    var k: nat :| k <= |s.pending| && DrainStops(s, k, now) && DrainedBy(s, k, now, r);
    DrainedKeepsTimes(s, k, now, r);
    if |r.active| < r.concurrency {
      LeftoverIsLate(s.jobs, r.jobs, s.pending, k, now);
    }
  }

  // --- the same drain when each job is in one place ---

  function DrainSize(s: State, now: int): nat {
    if s.running && |s.active| < s.concurrency then Min(s.concurrency - |s.active|, DueCount(s.jobs, s.pending, now)) else 0
  }

  lemma {:induction false} AbsentHead(jobs: seq<Job>, active: seq<Ref>, refs: seq<Ref>)
    requires |refs| > 0
    requires forall i, j :: 0 <= i < j < |refs| ==> Id(jobs, refs[i]) != Id(jobs, refs[j])
    requires forall x: Ref, y: Ref :: x in active && y in refs ==> Id(jobs, x) != Id(jobs, y)
    ensures ActiveSet(jobs, active, refs[0]) == active + [refs[0]]
    ensures forall x: Ref, y: Ref :: x in active + [refs[0]] && y in refs[1..] ==> Id(jobs, x) != Id(jobs, y)
  {
    hide Id;
    SetOfAbsent(jobs, active, refs[0]);
    forall x: Ref, y: Ref | x in active + [refs[0]] && y in refs[1..] ensures Id(jobs, x) != Id(jobs, y) {
      var j :| 0 <= j < |refs[1..]| && refs[1..][j] == y;
      assert refs[j + 1] == y;
    }
  }

  lemma {:induction false} ActiveAfterAppends(jobs: seq<Job>, active: seq<Ref>, refs: seq<Ref>)
    requires forall i, j :: 0 <= i < j < |refs| ==> Id(jobs, refs[i]) != Id(jobs, refs[j])
    requires forall x: Ref, y: Ref :: x in active && y in refs ==> Id(jobs, x) != Id(jobs, y)
    ensures ActiveAfter(jobs, active, refs) == active + refs
    decreases |refs|
  {
    hide Id, ActiveSet;
    if refs == [] {
      assert active + refs == active;
    } else {
      AbsentHead(jobs, active, refs);
      ActiveAfterAppends(jobs, active + [refs[0]], refs[1..]);
      assert active + [refs[0]] + refs[1..] == active + refs;
    }
  }

  lemma {:induction false} PendingIdsDiffer(s: State)
    requires RefsValid(s) && TrackedOnce(s)
    ensures forall i, j :: 0 <= i < j < |s.pending| ==> Id(s.jobs, s.pending[i]) != Id(s.jobs, s.pending[j])
    ensures forall x: Ref, y: Ref :: x in s.active && y in s.pending ==> Id(s.jobs, x) != Id(s.jobs, y)
  {
    hide Id, TrackedOnce;
    forall i, j | 0 <= i < j < |s.pending| ensures Id(s.jobs, s.pending[i]) != Id(s.jobs, s.pending[j]) {
      PendingIsElsewhereAbsent(s, i);
      assert (s.pending[..i] + s.pending[i + 1..])[j - 1] == s.pending[j];
    }
    forall x: Ref, y: Ref | x in s.active && y in s.pending ensures Id(s.jobs, x) != Id(s.jobs, y) {
      var i :| 0 <= i < |s.pending| && s.pending[i] == y;
      PendingIsElsewhereAbsent(s, i);
    }
  }

  lemma {:induction false} CountOfDistinct(jobs: seq<Job>, refs: seq<Ref>, ref: Ref)
    requires forall i, j :: 0 <= i < j < |refs| ==> Id(jobs, refs[i]) != Id(jobs, refs[j])
    ensures multiset(refs)[ref] == if ref in refs then 1 else 0
    decreases |refs|
  {
    if refs != [] {
      assert refs == [refs[0]] + refs[1..];
      CountOfDistinct(jobs, refs[1..], ref);
    }
  }

  /** With each job in one place the number of starts is the number of due jobs or of free slots,
      whichever is smaller, the started jobs join the end of the active map, and each spends one attempt. */
  lemma {:induction false} DrainFillsTheSlots(s: State, now: int)
    requires Structured(s)
    ensures var k := DrainSize(s, now);
            var r := Drain(s, now);
            && DrainedBy(s, k, now, r)
            && r.active == s.active + s.pending[..k]
            && (forall ref: Ref :: ref < |s.jobs| ==>
                  r.jobs[ref] == if ref in s.pending[..k]
                                 then s.jobs[ref].(attempt := s.jobs[ref].attempt + 1, leasedAt := Some(now))
                                 else s.jobs[ref])
  {
    hide Drain, UniqueKeys, JobsHandled, ActiveLeased, RunsKnown, Balanced, PendingSorted, TrackedOnce, AttemptsInRange,
         LeasesMatchRuns, DeadKnown, ActiveAfter, DueCount, Id;
    var r := Drain(s, now);
    DrainIsEarliestFirst(s, now);
    PendingIdsDiffer(s);
    var k: nat :| k <= |s.pending| && DrainStops(s, k, now) && DrainedBy(s, k, now, r);
    forall j: nat | j <= |s.pending| ensures ActiveAfter(s.jobs, s.active, s.pending[..j]) == s.active + s.pending[..j] {
      ActiveAfterAppends(s.jobs, s.active, s.pending[..j]);
    }
    assert k > 0 ==> |ActiveAfter(s.jobs, s.active, s.pending[..k - 1])| < s.concurrency;
    assert s.pending[..0] == [];
    assert k == DrainSize(s, now);
    forall ref: Ref | ref < |s.jobs| ensures multiset(s.pending[..k])[ref] == if ref in s.pending[..k] then 1 else 0 {
      CountOfDistinct(s.jobs, s.pending[..k], ref);
    }
  }

  // --- the sweep against the depth report ---

  function Depth(s: State): nat {
    |s.pending| + |s.active|
  }

  function StuckLease(jobs: seq<Job>, staleLeaseMs: int, now: int): Ref -> int {
    (ref: Ref) => if Stale(jobs, ref, staleLeaseMs, now) then 1 else 0
  }

  lemma {:induction false} FilterSizes(jobs: seq<Job>, refs: seq<Ref>, staleLeaseMs: int, now: int)
    ensures |Filter(Fresh(jobs, staleLeaseMs, now), refs)| + Sum(StuckLease(jobs, staleLeaseMs, now), refs) == |refs|
    ensures |Filter(Reclaimable(jobs, staleLeaseMs, now), refs)| + |Filter(Exhausted(jobs, staleLeaseMs, now), refs)|
         == Sum(StuckLease(jobs, staleLeaseMs, now), refs)
  {
    if refs != [] {
      FilterSizes(jobs, refs[1..], staleLeaseMs, now);
    }
  }

  /** A sweep frees exactly the leases that are stale at that instant, and the depth of the queue falls
      by exactly the number of jobs it gives up on. This holds in every run. */
  lemma {:induction false} SweepFreesTheStuck(s: State, staleLeaseMs: int, now: int)
    requires WellFormed(s)
    ensures var r := Swept(s, staleLeaseMs, now);
            && r.active == Filter(Fresh(s.jobs, staleLeaseMs, now), s.active)
            && r.leasesSwept - s.leasesSwept == Sum(StuckLease(s.jobs, staleLeaseMs, now), s.active)
            && |s.active| - |r.active| == Sum(StuckLease(s.jobs, staleLeaseMs, now), s.active)
            && Depth(s) - Depth(r) == |r.dead| - |s.dead| == r.totals.failed - s.totals.failed
  {
    var r := Swept(s, staleLeaseMs, now);
    SweptShape(s, staleLeaseMs, now);
    FilterSizes(s.jobs, s.active, staleLeaseMs, now);
    var reclaimed := Filter(Reclaimable(s.jobs, staleLeaseMs, now), s.active);
    assert |r.pending| == |multiset(r.pending)| == |multiset(s.pending + reclaimed)| == |s.pending + reclaimed|;
  }
}
