/** Handlers that settle after a sweep took their lease: exactly when the structure of the queue survives. */
module JobQueueLateSettles {
  import opened Wrappers
  import opened Sorting
  import opened Sums
  import opened JobQueueSpec
  import opened JobQueueInvariants
  import opened JobQueueStructure

  /** Nothing on the active map carries the id of the run's job and, when the run failed, nothing on the
      pending list or among the dead letters does either. */
  predicate Undisturbing(s: State, run: HandlerRun, outcome: Outcome)
    requires run.job < |s.jobs|
  {
    var id := s.jobs[run.job].id;
    && KeyIndex(s.jobs, s.active, id) == |s.active|
    && (outcome == Failure ==> KeyIndex(s.jobs, s.pending, id) == |s.pending| && DeadIndex(s.dead, id) == |s.dead|)
  }

  // --- when the structure survives ---

  lemma {:induction false} AbsentCount(jobs: seq<Job>, refs: seq<Ref>, id: string)
    ensures KeyIndex(jobs, refs, id) == |refs| <==> Sum(HasId(jobs, id), refs) == 0
    ensures KeyIndex(jobs, refs, id) < |refs| ==> Sum(HasId(jobs, id), refs) >= 1
    ensures KeyIndex(jobs, refs, id) == |refs| ==> ActiveDelete(jobs, refs, id) == refs
  {
    if KeyIndex(jobs, refs, id) == |refs| {
      CountZero(jobs, refs, id);
    } else {
      CountHasId(jobs, refs, id);
      assert refs[KeyIndex(jobs, refs, id)] in refs;
    }
  }

  lemma {:induction false} AbsentDead(dead: seq<DeadLetter>, id: string)
    ensures DeadIndex(dead, id) == |dead| <==> Sum(DeadHasId(id), dead) == 0
    ensures DeadIndex(dead, id) < |dead| ==> Sum(DeadHasId(id), dead) >= 1
  {
    if DeadIndex(dead, id) == |dead| {
      DeadZero(dead, id);
    } else {
      SumNonNegative(DeadHasId(id), dead);
      assert dead[DeadIndex(dead, id)] in dead;
    }
  }

  /** A settle without a lease under the id adds the failed job to the places of its id. */
  lemma {:induction false} LateCount(s: State, run: HandlerRun, outcome: Outcome, r: State, id: string)
    requires WellFormed(s) && run.job < |s.jobs| && SettledTo(s, run, outcome, r)
    requires KeyIndex(s.jobs, s.active, s.jobs[run.job].id) == |s.active|
    ensures Tracked(r, id) == Tracked(s, id) + (if outcome == Failure && s.jobs[run.job].id == id then 1 else 0)
  {
    hide UniqueKeys, JobsHandled, ActiveLeased, RunsKnown, Balanced, PendingSorted, Sum, ActiveDelete;
    var ref := run.job;
    AbsentCount(s.jobs, s.active, s.jobs[ref].id);
    assert forall x :: Id(r.jobs, x) == Id(s.jobs, x);
    SameIdsSameCount(s.jobs, r.jobs, r.active, id);
    SameIdsSameCount(s.jobs, r.jobs, r.pending, id);
    if Retries(s, run, outcome) {
      SumExtra(HasId(s.jobs, id), r.pending, s.pending, ref);
    } else {
      SumPermutation(HasId(s.jobs, id), r.pending, s.pending);
    }
    if Dies(s, run, outcome) {
      SumAppend(DeadHasId(id), [ToDeadLetter(s.jobs[ref])], s.dead);
      SumSingle(DeadHasId(id), ToDeadLetter(s.jobs[ref]));
    } else {
      assert r.dead == s.dead;
    }
  }

  lemma {:induction false} LateAttempts(s: State, run: HandlerRun, outcome: Outcome, r: State)
    requires Structured(s) && run.job < |s.jobs| && SettledTo(s, run, outcome, r) && r.active == s.active
    ensures AttemptsInRange(r) && DeadKnown(r)
  {
    hide UniqueKeys, JobsHandled, ActiveLeased, RunsKnown, Balanced, PendingSorted, TrackedOnce, LeasesMatchRuns, ActiveDelete;
    var ref := run.job;
    MultisetMembers(r.pending, s.pending, if Retries(s, run, outcome) then multiset{ref} else multiset{});
    forall entry | entry in r.dead ensures entry.attempts == entry.maxAttempts && !FreshId(r, entry.jobId) {
      if entry in s.dead {
        var k :| 0 <= k < |s.jobs| && s.jobs[k].id == entry.jobId;
        assert r.jobs[k].id == entry.jobId;
      } else {
        assert entry == ToDeadLetter(s.jobs[ref]);
        assert r.jobs[ref].id == entry.jobId;
      }
    }
  }

  lemma {:induction false} UndisturbingKeeps(s: State, run: HandlerRun, outcome: Outcome, now: int)
    requires Structured(s) && run in s.unsettled && run in s.swept && Undisturbing(s, run, outcome)
    ensures Structured(Settled(s, run, outcome, now))
  {
    hide UniqueKeys, JobsHandled, ActiveLeased, Balanced, PendingSorted, AttemptsInRange, DeadKnown, Settled, Sum, ActiveDelete;
    var r := Settled(s, run, outcome, now);
    var id := s.jobs[run.job].id;
    SettledWellFormed(s, run, outcome, now);
    SettledShape(s, run, outcome, now);
    AbsentCount(s.jobs, s.active, id);
    LateAttempts(s, run, outcome, r);
    assert r.unsettled - r.swept == s.unsettled - s.swept;
    forall x ensures Tracked(r, x) <= 1 {
      LateCount(s, run, outcome, r, x);
      assert Tracked(s, x) <= 1;
      AbsentCount(s.jobs, s.pending, id);
      AbsentDead(s.dead, id);
    }
  }

  // --- when it does not ---

  /** A run that still counts as leased while the active map does not hold it. */
  predicate Orphan(s: State, run: HandlerRun) {
    && run in s.unsettled - s.swept
    && !(run.job < |s.jobs| && run.job in s.active && run.attempt == s.jobs[run.job].attempt)
  }

  ghost predicate ActiveHasRuns(s: State) {
    forall ref: Ref :: ref in s.active ==> ref < |s.jobs| && HandlerRun(ref, s.jobs[ref].attempt) in s.unsettled - s.swept
  }

  /** Some run has lost its entry, or some id is in two places; every entry still belongs to a run. */
  ghost predicate Broken(s: State) {
    ActiveHasRuns(s) && ((exists run :: Orphan(s, run)) || (exists id :: Tracked(s, id) >= 2))
  }

  lemma {:induction false} BrokenIsUnstructured(s: State)
    requires Broken(s)
    ensures !Structured(s)
  {
    if run :| Orphan(s, run) {
      assert !LeasesMatchRuns(s);
    } else {
      assert !TrackedOnce(s);
    }
  }

  lemma {:induction false} StartKeepsOrphan(s: State, i: nat, now: int, run: HandlerRun)
    requires WellFormed(s) && i < |s.pending| && Orphan(s, run)
    ensures Orphan(RunJob(Taken(s, i), s.pending[i], now), run)
  {
    hide JobsHandled, ActiveLeased, Balanced, PendingSorted, ActiveSet;
    ActiveSetFacts(s.jobs, s.active, s.pending[i]);
    assert run.attempt <= s.jobs[run.job].attempt;
  }

  lemma {:induction false} StartKeepsActiveRuns(s: State, i: nat, now: int)
    requires WellFormed(s) && i < |s.pending| && ActiveHasRuns(s)
    ensures ActiveHasRuns(RunJob(Taken(s, i), s.pending[i], now))
  {
    hide JobsHandled, ActiveLeased, Balanced, PendingSorted, ActiveSet;
    var ref := s.pending[i];
    ActiveSetFacts(s.jobs, s.active, ref);
    assert HandlerRun(ref, s.jobs[ref].attempt + 1) !in s.swept;
  }

  lemma {:induction false} StartKeepsPlaces(s: State, i: nat, now: int, id: string)
    requires WellFormed(s) && i < |s.pending|
    requires KeyIndex(s.jobs, s.active, Id(s.jobs, s.pending[i])) == |s.active|
    ensures Tracked(RunJob(Taken(s, i), s.pending[i], now), id) == Tracked(s, id)
  {
    hide UniqueKeys, ActiveLeased, RunsKnown, Balanced, PendingSorted, Sum;
    var ref := s.pending[i];
    var r := RunJob(Taken(s, i), ref, now);
    assert s.jobs[ref].jobType in s.handlers;
    assert forall k :: Id(r.jobs, k) == Id(s.jobs, k);
    SumRemove(HasId(s.jobs, id), s.pending, i);
    SumSnoc(HasId(s.jobs, id), s.active, ref);
    SameIdsSameCount(s.jobs, r.jobs, r.pending, id);
    SameIdsSameCount(s.jobs, r.jobs, r.active, id);
  }

  /** Starting a job whose id is on the active map takes the entry from the run that holds it. */
  lemma {:induction false} StartOverActive(s: State, i: nat, now: int)
    requires WellFormed(s) && i < |s.pending| && ActiveHasRuns(s)
    requires KeyIndex(s.jobs, s.active, Id(s.jobs, s.pending[i])) < |s.active|
    ensures exists run :: Orphan(RunJob(Taken(s, i), s.pending[i], now), run)
  {
    hide ActiveLeased, RunsKnown, Balanced, PendingSorted;
    var ref := s.pending[i];
    var k := KeyIndex(s.jobs, s.active, Id(s.jobs, ref));
    var held := s.active[k];
    assert held in s.active;
    assert s.jobs[ref].jobType in s.handlers;
    var r := RunJob(Taken(s, i), ref, now);
    assert r.active == s.active[k := ref];
    assert held != ref ==> held !in r.active;
    assert Orphan(r, HandlerRun(held, s.jobs[held].attempt));
  }

  lemma {:induction false} StartKeepsBroken(s: State, i: nat, now: int)
    requires WellFormed(s) && i < |s.pending| && Broken(s)
    ensures Broken(RunJob(Taken(s, i), s.pending[i], now))
  {
    hide UniqueKeys, JobsHandled, ActiveLeased, RunsKnown, Balanced, PendingSorted, ActiveHasRuns, Orphan, Tracked, RunJob;
    var r := RunJob(Taken(s, i), s.pending[i], now);
    StartKeepsActiveRuns(s, i, now);
    if run :| Orphan(s, run) {
      StartKeepsOrphan(s, i, now, run);
    } else if KeyIndex(s.jobs, s.active, Id(s.jobs, s.pending[i])) < |s.active| {
      StartOverActive(s, i, now);
    } else {
      var id :| Tracked(s, id) >= 2;
      StartKeepsPlaces(s, i, now, id);
    }
  }

  lemma {:induction false} DrainKeepsBroken(s: State, now: int)
    requires WellFormed(s) && Broken(s)
    ensures Broken(Drain(s, now))
    decreases |s.pending|
  {
    hide UniqueKeys, JobsHandled, ActiveLeased, RunsKnown, Balanced, PendingSorted, Broken, RunJob;
    if s.running && |s.active| < s.concurrency {
      var i := FirstDue(s.jobs, s.pending, now);
      if i < |s.pending| {
        StartWellFormed(s, i, now);
        StartingTaken(s, i, now);
        StartKeepsBroken(s, i, now);
        DrainKeepsBroken(RunJob(Taken(s, i), s.pending[i], now), now);
      }
    }
  }

  /** The late settle releases the entry of another run. */
  lemma {:induction false} ReleaseOrphans(s: State, run: HandlerRun, outcome: Outcome, r: State)
    requires Structured(s) && run in s.unsettled && run in s.swept && SettledTo(s, run, outcome, r)
    requires KeyIndex(s.jobs, s.active, s.jobs[run.job].id) < |s.active|
    ensures exists other :: Orphan(r, other)
  {
    hide JobsHandled, ActiveLeased, Balanced, PendingSorted, TrackedOnce, AttemptsInRange, DeadKnown, ActiveDelete;
    var id := s.jobs[run.job].id;
    var held := s.active[KeyIndex(s.jobs, s.active, id)];
    assert held in s.active;
    ActiveDeleteFacts(s.jobs, s.active, id);
    assert held !in r.active;
    assert HandlerRun(held, s.jobs[held].attempt) in s.unsettled - s.swept;
    assert Orphan(r, HandlerRun(held, s.jobs[held].attempt));
  }

  lemma {:induction false} SettledKeepsActiveRuns(s: State, run: HandlerRun, outcome: Outcome, r: State)
    requires Structured(s) && run in s.unsettled && run in s.swept && SettledTo(s, run, outcome, r)
    ensures ActiveHasRuns(r)
  {
    hide JobsHandled, ActiveLeased, Balanced, PendingSorted, TrackedOnce, AttemptsInRange, DeadKnown, ActiveDelete;
    ActiveDeleteFacts(s.jobs, s.active, s.jobs[run.job].id);
    forall ref: Ref | ref in r.active
      ensures ref < |r.jobs| && HandlerRun(ref, r.jobs[ref].attempt) in r.unsettled - r.swept
    {
      assert ref in s.active;
    }
  }

  lemma {:induction false} DisturbingBreaks(s: State, run: HandlerRun, outcome: Outcome, now: int)
    requires Structured(s) && run in s.unsettled && run in s.swept && !Undisturbing(s, run, outcome)
    ensures Broken(Settled(s, run, outcome, now))
  {
    hide UniqueKeys, JobsHandled, ActiveLeased, Balanced, PendingSorted, TrackedOnce, AttemptsInRange, DeadKnown,
         LeasesMatchRuns, Settled, Orphan, ActiveHasRuns, Sum, ActiveDelete;
    var r := Settled(s, run, outcome, now);
    var id := s.jobs[run.job].id;
    SettledShape(s, run, outcome, now);
    SettledKeepsActiveRuns(s, run, outcome, r);
    if KeyIndex(s.jobs, s.active, id) < |s.active| {
      ReleaseOrphans(s, run, outcome, r);
    } else {
      AbsentCount(s.jobs, s.pending, id);
      AbsentDead(s.dead, id);
      CountHasId(s.jobs, s.pending, id);
      CountHasId(s.jobs, s.active, id);
      CountDead(s.dead, id);
      LateCount(s, run, outcome, r, id);
      assert Tracked(r, id) >= 2;
    }
  }

  /** A handler that settles after its lease was swept keeps the structure, that is each job in one place and
      each lease with a running handler, if and only if it finds its id nowhere it would touch: no entry on
      the active map to release, and after a failure no other pending entry or dead letter of the id. */
  lemma {:induction false} LateSettleKeepsIff(s: State, run: HandlerRun, outcome: Outcome, now: int)
    requires Structured(s) && run in s.unsettled && run in s.swept
    ensures Structured(Next(s, Settle(run, outcome, now))) <==> Undisturbing(s, run, outcome)
  {
    hide UniqueKeys, JobsHandled, ActiveLeased, Balanced, PendingSorted, TrackedOnce, AttemptsInRange, DeadKnown,
         LeasesMatchRuns, Settled, Broken, Drain, Undisturbing;
    var r := Settled(s, run, outcome, now);
    SettledWellFormed(s, run, outcome, now);
    if Undisturbing(s, run, outcome) {
      UndisturbingKeeps(s, run, outcome, now);
      DrainStructured(r, now);
    } else {
      DisturbingBreaks(s, run, outcome, now);
      DrainKeepsBroken(r, now);
      BrokenIsUnstructured(Drain(r, now));
    }
  }

  // --- the places alone ---

  lemma {:induction false} ReleasedCount(s: State, run: HandlerRun, outcome: Outcome, r: State, id: string)
    requires WellFormed(s) && run.job < |s.jobs| && SettledTo(s, run, outcome, r)
    requires KeyIndex(s.jobs, s.active, s.jobs[run.job].id) < |s.active|
    ensures Tracked(r, id) == Tracked(s, id) + (if outcome == Failure && s.jobs[run.job].id == id then 1 else 0)
                              - (if s.jobs[run.job].id == id then 1 else 0)
  {
    hide UniqueKeys, JobsHandled, ActiveLeased, RunsKnown, Balanced, PendingSorted, Sum;
    var ref := run.job;
    assert forall x :: Id(r.jobs, x) == Id(s.jobs, x);
    SumRemove(HasId(s.jobs, id), s.active, KeyIndex(s.jobs, s.active, s.jobs[ref].id));
    SameIdsSameCount(s.jobs, r.jobs, r.active, id);
    SameIdsSameCount(s.jobs, r.jobs, r.pending, id);
    if Retries(s, run, outcome) {
      SumExtra(HasId(s.jobs, id), r.pending, s.pending, ref);
    } else {
      SumPermutation(HasId(s.jobs, id), r.pending, s.pending);
    }
    if Dies(s, run, outcome) {
      SumAppend(DeadHasId(id), [ToDeadLetter(s.jobs[ref])], s.dead);
      SumSingle(DeadHasId(id), ToDeadLetter(s.jobs[ref]));
    } else {
      assert r.dead == s.dead;
    }
  }

  /** Each id stays in one place through a late settle itself, before the drain that follows, if and only if a
      failing one finds neither a pending entry nor a dead letter of its id: a released lease of another run
      breaks the match of leases and runs, but no place is taken twice. */
  lemma {:induction false} LateSettleKeepsPlacesIff(s: State, run: HandlerRun, outcome: Outcome, now: int)
    requires Structured(s) && run in s.unsettled && run in s.swept
    ensures TrackedOnce(Settled(s, run, outcome, now))
            <==> (outcome == Failure ==> KeyIndex(s.jobs, s.pending, s.jobs[run.job].id) == |s.pending|
                                         && DeadIndex(s.dead, s.jobs[run.job].id) == |s.dead|)
  {
    hide UniqueKeys, JobsHandled, ActiveLeased, Balanced, PendingSorted, AttemptsInRange, DeadKnown, LeasesMatchRuns, Settled, Sum,
         ActiveDelete;
    var r := Settled(s, run, outcome, now);
    var own := s.jobs[run.job].id;
    SettledShape(s, run, outcome, now);
    AbsentCount(s.jobs, s.active, own);
    AbsentCount(s.jobs, s.pending, own);
    AbsentDead(s.dead, own);
    CountHasId(s.jobs, s.pending, own);
    CountHasId(s.jobs, s.active, own);
    CountDead(s.dead, own);
    assert Tracked(s, own) <= 1;
    forall id ensures Tracked(r, id) == Tracked(s, id) + (if outcome == Failure && own == id then 1 else 0)
                                        - (if own == id && KeyIndex(s.jobs, s.active, own) < |s.active| then 1 else 0)
    {
      if KeyIndex(s.jobs, s.active, own) < |s.active| {
        ReleasedCount(s, run, outcome, r, id);
      } else {
        LateCount(s, run, outcome, r, id);
      }
    }
    forall id ensures id == own || Tracked(r, id) <= 1 {
      assert Tracked(s, id) <= 1;
    }
    assert TrackedOnce(r) <==> Tracked(r, own) <= 1;
  }

  // --- over whole runs ---

  predicate Harmless(s: State, step: Step)
    requires step.Settle? ==> step.run.job < |s.jobs|
  {
    step.Settle? && step.run in s.swept ==> Undisturbing(s, step.run, step.outcome)
  }

  ghost predicate HarmlessThroughout(s: State, steps: seq<Step>)
    requires WellFormed(s) && Feasible(s, steps)
    decreases |steps|
  {
    steps == [] || (Harmless(s, steps[0]) && (NextWellFormed(s, steps[0]); HarmlessThroughout(Next(s, steps[0]), steps[1..])))
  }

  ghost predicate StructuredThroughout(s: State, steps: seq<Step>)
    requires WellFormed(s) && Feasible(s, steps)
    decreases |steps|
  {
    Structured(s) && (steps == [] || (NextWellFormed(s, steps[0]); StructuredThroughout(Next(s, steps[0]), steps[1..])))
  }

  lemma {:induction false} NextStructuredIff(s: State, step: Step)
    requires Structured(s) && Enabled(s, step)
    ensures step.Settle? ==> step.run.job < |s.jobs|
    ensures Structured(Next(s, step)) <==> Harmless(s, step)
  {
    hide UniqueKeys, JobsHandled, ActiveLeased, Balanced, PendingSorted, TrackedOnce, AttemptsInRange, DeadKnown,
         LeasesMatchRuns, Effect, Drain, Undisturbing;
    if step.Settle? && step.run in s.swept {
      LateSettleKeepsIff(s, step.run, step.outcome, step.now);
    } else {
      NextStructured(s, step);
    }
  }

  /** The structure, places and leases, holds through a whole run if and only if every late settle in it is
      undisturbing. */
  lemma {:induction false} StructuredIffHarmless(s: State, steps: seq<Step>)
    requires Structured(s) && Feasible(s, steps)
    ensures StructuredThroughout(s, steps) <==> HarmlessThroughout(s, steps)
    decreases |steps|
  {
    hide UniqueKeys, JobsHandled, ActiveLeased, RunsKnown, Balanced, PendingSorted, TrackedOnce, AttemptsInRange, DeadKnown,
         LeasesMatchRuns, Harmless, Next, Enabled;
    if steps != [] {
      NextWellFormed(s, steps[0]);
      NextStructuredIff(s, steps[0]);
      if Harmless(s, steps[0]) {
        StructuredIffHarmless(Next(s, steps[0]), steps[1..]);
      }
    }
  }

  // --- how many handlers run ---

  function RunsOf(jobs: seq<Job>, refs: seq<Ref>): set<HandlerRun>
    requires forall i :: 0 <= i < |refs| ==> refs[i] < |jobs|
  {
    if refs == [] then {} else {HandlerRun(refs[0], jobs[refs[0]].attempt)} + RunsOf(jobs, refs[1..])
  }

  lemma {:induction false} RunsOfMembers(jobs: seq<Job>, refs: seq<Ref>)
    requires forall i :: 0 <= i < |refs| ==> refs[i] < |jobs|
    ensures forall run :: run in RunsOf(jobs, refs) <==> run.job in refs && run.attempt == jobs[run.job].attempt
    decreases |refs|
  {
    if refs != [] {
      RunsOfMembers(jobs, refs[1..]);
    }
  }

  lemma {:induction false} CountRuns(jobs: seq<Job>, refs: seq<Ref>)
    requires forall i :: 0 <= i < |refs| ==> refs[i] < |jobs|
    requires forall i, j :: 0 <= i < j < |refs| ==> refs[i] != refs[j]
    ensures |RunsOf(jobs, refs)| == |refs|
    decreases |refs|
  {
    if refs != [] {
      CountRuns(jobs, refs[1..]);
      RunsOfMembers(jobs, refs[1..]);
      assert HandlerRun(refs[0], jobs[refs[0]].attempt) !in RunsOf(jobs, refs[1..]);
    }
  }

  /** While the structure holds, the runs whose lease was not swept are as many as the active entries,
      so at most the concurrency. */
  lemma {:induction false} LeasedRunsFit(s: State)
    requires Structured(s)
    ensures |s.unsettled - s.swept| == |s.active| <= s.concurrency
  {
    hide JobsHandled, ActiveLeased, RunsKnown, Balanced, PendingSorted, TrackedOnce, AttemptsInRange, DeadKnown;
    CountRuns(s.jobs, s.active);
    RunsOfMembers(s.jobs, s.active);
    forall run ensures run in s.unsettled - s.swept <==> run in RunsOf(s.jobs, s.active) {
    }
    assert s.unsettled - s.swept == RunsOf(s.jobs, s.active);
  }

  // --- a run that breaks the structure ---

  /** A new queue with one slot: the first lease of job "a" is swept while its handler goes on, the job
      starts again, then the first handler settles and another job is enqueued. */
  const NEW_QUEUE := State({}, [], [], [], [], Totals(0, 0, 0, 0, 0), 1, false, {}, {}, 0, 0)

  const UNTIL_TWICE_STARTED: seq<Step> := [
    RegisterHandler(NotificationSend), Start(0), Enqueue("a", NotificationSend, "", None, None, 0), Sweep(5, 10)]

  const LATE_SETTLE := Settle(HandlerRun(0, 1), Success, 20)

  const ANOTHER_JOB := Enqueue("b", NotificationSend, "", None, None, 21)

  function JobOf(id: string, attempt: nat, createdAt: int, startedAt: int): Job {
    Job(id, NotificationSend, "", attempt, 3, createdAt, startedAt, Some(startedAt))
  }

  const STARTED_ONCE := State(
    {NotificationSend}, [JobOf("a", 1, 0, 0)], [], [0], [], Totals(1, 1, 0, 0, 0), 1, true,
    {HandlerRun(0, 1)}, {}, 0, 0)

  const TWICE_STARTED := State(
    {NotificationSend}, [JobOf("a", 2, 0, 10)], [], [0], [], Totals(1, 2, 0, 0, 1), 1, true,
    {HandlerRun(0, 1), HandlerRun(0, 2)}, {HandlerRun(0, 1)}, 1, 0)

  const LEASE_LOST := State(
    {NotificationSend}, [JobOf("a", 2, 0, 10)], [], [], [], Totals(1, 2, 1, 0, 1), 1, true,
    {HandlerRun(0, 2)}, {HandlerRun(0, 1)}, 1, 0)

  const TWO_HANDLERS := State(
    {NotificationSend}, [JobOf("a", 2, 0, 10), JobOf("b", 1, 21, 21)], [], [1], [], Totals(2, 3, 1, 0, 1), 1, true,
    {HandlerRun(0, 2), HandlerRun(1, 1)}, {HandlerRun(0, 1)}, 1, 0)

  lemma {:induction false} EnqueueIntoIdle(s: State, id: string, now: int)
    requires NotificationSend in s.handlers && s.pending == [] && s.active == [] && s.running && s.concurrency == 1
    ensures var n: Ref := |s.jobs|;
            Next(s, Enqueue(id, NotificationSend, "", None, None, now))
            == s.(jobs := s.jobs + [JobOf(id, 1, now, now)], active := [n],
                  totals := s.totals.(enqueued := s.totals.enqueued + 1, executions := s.totals.executions + 1),
                  unsettled := s.unsettled + {HandlerRun(n, 1)})
  {
    var n: Ref := |s.jobs|;
    var job := NewJob(id, NotificationSend, "", None, None, now);
    var queued := Enqueued(s, job);
    assert s.pending + [n] == [n] && [n][1..] == [];
    assert queued.pending == [n];
    assert FirstDue(queued.jobs, queued.pending, now) == 0;
    assert [n][..0] + [n][1..] == [];
    var started := RunJob(queued.(pending := []), n, now);
    assert started.jobs == s.jobs + [JobOf(id, 1, now, now)];
    assert [] + [n] == [n];
    assert started.active == [n];
    assert Drain(queued, now) == Drain(started, now) == started;
  }

  const SWEPT_ONCE := State(
    {NotificationSend}, [Job("a", NotificationSend, "", 1, 3, 0, 10, None)], [0], [], [], Totals(1, 1, 0, 0, 1), 1, true,
    {HandlerRun(0, 1)}, {HandlerRun(0, 1)}, 1, 0)

  lemma {:induction false} SweepTakesTheLease()
    ensures SweepAll(STARTED_ONCE, STARTED_ONCE.active, 5, 10) == SWEPT_ONCE
    ensures Swept(STARTED_ONCE, 5, 10) == SWEPT_ONCE
  {
    hide ByRunAt;
    var s := STARTED_ONCE;
    var zero: Ref := 0;
    assert s.active == [zero] && [zero][..0] == [] && [zero][0] == zero;
    assert SweepAll(s, [], 5, 10) == s;
    assert KeyIndex(s.jobs, s.active, "a") == 0;
    assert [zero][..0] + [zero][1..] == [] && [] + [zero] == [zero];
    var swept := SweepOne(s, zero, 5, 10);
    assert swept.jobs == SWEPT_ONCE.jobs && swept.swept == SWEPT_ONCE.swept;
    assert swept == SWEPT_ONCE;
    assert SweepAll(s, s.active, 5, 10) == SweepOne(SweepAll(s, [], 5, 10), zero, 5, 10);
    SortSingle(ByRunAt(SWEPT_ONCE.jobs), zero);
  }

  lemma {:induction false} SortSingle(leq: (Ref, Ref) -> bool, x: Ref)
    ensures Sort(leq, [x]) == [x]
  {
    assert [x][1..] == [];
  }

  lemma {:induction false} SweepStartsAgain()
    ensures Next(STARTED_ONCE, Sweep(5, 10)) == TWICE_STARTED
  {
    hide SweepAll, Swept;
    var s := SWEPT_ONCE;
    var zero: Ref := 0;
    SweepTakesTheLease();
    assert FirstDue(s.jobs, s.pending, 10) == 0;
    assert [zero][..0] + [zero][1..] == [] && [] + [zero] == [zero];
    var started := RunJob(s.(pending := []), zero, 10);
    assert started.jobs == TWICE_STARTED.jobs && started.unsettled == TWICE_STARTED.unsettled;
    assert Drain(s, 10) == Drain(started, 10) == started;
  }

  lemma {:induction false} LateSettleFrees()
    ensures Next(TWICE_STARTED, LATE_SETTLE) == LEASE_LOST
  {
    var s := TWICE_STARTED;
    var zero: Ref := 0;
    assert KeyIndex(s.jobs, s.active, "a") == 0;
    assert [zero][..0] + [zero][1..] == [];
    var r := Settled(s, HandlerRun(0, 1), Success, 20);
    assert r.active == [];
    assert r.unsettled == {HandlerRun(0, 2)};
    assert Drain(r, 20) == r;
  }

  lemma {:induction false} RunStep(s: State, step: Step, rest: seq<Step>)
    requires WellFormed(s) && Enabled(s, step) && WellFormed(Next(s, step)) && Feasible(Next(s, step), rest)
    ensures Feasible(s, [step] + rest) && After(s, [step] + rest) == After(Next(s, step), rest)
  {
    hide WellFormed, Enabled, Next;
    assert ([step] + rest)[1..] == rest;
  }

  lemma {:induction false} FirstSteps(s: State)
    requires Initial(s) && s.handlers == {} && !s.running
    ensures Next(Next(s, RegisterHandler(NotificationSend)), Start(0)) == s.(handlers := {NotificationSend}, running := true)
  {
  }

  /** The first four steps lead from the new queue to a job that runs twice, once under a swept lease. */
  lemma {:induction false} TwiceStartedReachable()
    ensures Initial(NEW_QUEUE) && Structured(NEW_QUEUE)
    ensures Feasible(NEW_QUEUE, UNTIL_TWICE_STARTED)
    ensures After(NEW_QUEUE, UNTIL_TWICE_STARTED) == TWICE_STARTED && Structured(TWICE_STARTED)
  {
    hide Next, Structured, WellFormed;
    InitialStructured(NEW_QUEUE);
    FirstSteps(NEW_QUEUE);
    var idle := NEW_QUEUE.(handlers := {NotificationSend}, running := true);
    EnqueueIntoIdle(idle, "a", 0);
    assert idle.jobs + [JobOf("a", 1, 0, 0)] == [JobOf("a", 1, 0, 0)] && {} + {HandlerRun(0, 1)} == {HandlerRun(0, 1)};
    assert Next(idle, Enqueue("a", NotificationSend, "", None, None, 0)) == STARTED_ONCE;
    SweepStartsAgain();
    RunOfFour(NEW_QUEUE, RegisterHandler(NotificationSend), Start(0), Enqueue("a", NotificationSend, "", None, None, 0), Sweep(5, 10));
  }

  lemma {:induction false} RunOfFour(s: State, a: Step, b: Step, c: Step, d: Step)
    requires Structured(s) && !a.Settle? && !b.Settle? && !c.Settle? && !d.Settle?
    requires Enabled(s, a) && Enabled(Next(s, a), b) && Enabled(Next(Next(s, a), b), c) && Enabled(Next(Next(Next(s, a), b), c), d)
    ensures Feasible(s, [a, b, c, d])
    ensures After(s, [a, b, c, d]) == Next(Next(Next(Next(s, a), b), c), d)
    ensures Structured(After(s, [a, b, c, d]))
  {
    hide Next, UniqueKeys, JobsHandled, ActiveLeased, RunsKnown, Balanced, PendingSorted, TrackedOnce, AttemptsInRange, DeadKnown,
         LeasesMatchRuns, Enabled;
    NextStructured(s, a);
    NextStructured(Next(s, a), b);
    NextStructured(Next(Next(s, a), b), c);
    NextStructured(Next(Next(Next(s, a), b), c), d);
    RunStep(Next(Next(Next(s, a), b), c), d, []);
    RunStep(Next(Next(s, a), b), c, [d]);
    RunStep(Next(s, a), b, [c, d]);
    RunStep(s, a, [b, c, d]);
    assert [d] + [] == [d] && [c] + [d] == [c, d] && [b] + [c, d] == [b, c, d] && [a] + [b, c, d] == [a, b, c, d];
  }

  lemma {:induction false} RunOfTwo(s: State, a: Step, b: Step)
    requires Structured(s) && Enabled(s, a)
    requires RefsValid(s) && (a.Settle? ==> a.run.job < |s.jobs|) && Enabled(Next(s, a), b) && !b.Settle?
    ensures Feasible(s, [a, b]) && After(s, [a, b]) == Next(Next(s, a), b)
  {
    hide Next, UniqueKeys, JobsHandled, ActiveLeased, RunsKnown, Balanced, PendingSorted, TrackedOnce, AttemptsInRange, DeadKnown,
         LeasesMatchRuns, Enabled;
    NextWellFormed(s, a);
    NextWellFormed(Next(s, a), b);
    RunStep(Next(s, a), b, []);
    RunStep(s, a, [b]);
    assert [b] + [] == [b] && [a] + [b] == [a, b];
  }

  lemma {:induction false} LeaseLostUnstructured()
    ensures !Structured(LEASE_LOST)
  {
    assert HandlerRun(0, 2) in LEASE_LOST.unsettled - LEASE_LOST.swept;
    assert !LeasesMatchRuns(LEASE_LOST);
  }

  /** From there the first handler settles after all: it releases the lease of the second run, which goes
      on, and the next job starts beside it: two leased runs on a queue with one slot. */
  lemma {:induction false} LateSettleBreaksStructure()
    ensures Structured(TWICE_STARTED) && Feasible(TWICE_STARTED, [LATE_SETTLE, ANOTHER_JOB])
    ensures !Structured(Next(TWICE_STARTED, LATE_SETTLE))
    ensures var r := After(TWICE_STARTED, [LATE_SETTLE, ANOTHER_JOB]);
            r.concurrency == 1 && r.unsettled - r.swept == {HandlerRun(0, 2), HandlerRun(1, 1)}
  {
    hide Next, Structured, WellFormed;
    TwiceStartedReachable();
    LateSettleFrees();
    LeaseLostUnstructured();
    EnqueueIntoIdle(LEASE_LOST, "b", 21);
    assert LEASE_LOST.jobs + [JobOf("b", 1, 21, 21)] == TWO_HANDLERS.jobs;
    assert LEASE_LOST.unsettled + {HandlerRun(1, 1)} == TWO_HANDLERS.unsettled;
    assert Next(LEASE_LOST, ANOTHER_JOB) == TWO_HANDLERS;
    RunOfTwo(TWICE_STARTED, LATE_SETTLE, ANOTHER_JOB);
  }
}
