/** What every step of the job queue keeps, also when a handler settles after its lease was swept. */
module JobQueueInvariants {
  import opened Wrappers
  import opened Sorting
  import opened JobQueueSpec

  ghost predicate PendingSorted(jobs: seq<Job>, pending: seq<Ref>) {
    forall i, j :: 0 <= i < j < |pending| ==> RunAt(jobs, pending[i]) <= RunAt(jobs, pending[j])
  }

  /** The active list is a map: no two entries under one id. */
  ghost predicate UniqueKeys(jobs: seq<Job>, active: seq<Ref>) {
    forall i, j :: 0 <= i < j < |active| ==> Id(jobs, active[i]) != Id(jobs, active[j])
  }

  ghost predicate JobsHandled(s: State) {
    && (forall j :: 0 <= j < |s.jobs| ==> s.jobs[j].jobType in s.handlers && s.jobs[j].maxAttempts >= 1)
    && (forall d :: 0 <= d < |s.dead| ==> s.dead[d].jobType in s.handlers && s.dead[d].maxAttempts >= 1)
  }

  ghost predicate Leased(jobs: seq<Job>, ref: Ref) {
    ref < |jobs| && jobs[ref].leasedAt.Some? && jobs[ref].attempt >= 1
  }

  ghost predicate ActiveLeased(jobs: seq<Job>, active: seq<Ref>) {
    forall i :: 0 <= i < |active| ==> Leased(jobs, active[i])
  }

  ghost predicate RunsKnown(jobs: seq<Job>, runs: set<HandlerRun>) {
    forall run :: run in runs ==> run.job < |jobs| && 1 <= run.attempt <= jobs[run.job].attempt
  }

  /** Every execution and every swept lease is accounted for. */
  ghost predicate Balanced(s: State) {
    s.totals.executions + s.leasesSwept
    == s.totals.completed + s.totals.failed + s.totals.retried + s.dropped + |s.unsettled|
  }

  ghost predicate Sound(s: State) {
    && RefsValid(s)
    && UniqueKeys(s.jobs, s.active)
    && |s.active| <= s.concurrency
    && JobsHandled(s)
    && ActiveLeased(s.jobs, s.active)
    && RunsKnown(s.jobs, s.unsettled) && RunsKnown(s.jobs, s.swept)
    && Balanced(s)
  }

  ghost predicate WellFormed(s: State) {
    Sound(s) && PendingSorted(s.jobs, s.pending)
  }

  ghost predicate Initial(s: State) {
    && s.jobs == [] && s.pending == [] && s.active == [] && s.dead == []
    && s.totals == Totals(0, 0, 0, 0, 0)
    && s.unsettled == {} && s.swept == {} && s.leasesSwept == 0 && s.dropped == 0
  }

  // --- pieces ---

  lemma {:induction false} ByRunAtIsPreorder(jobs: seq<Job>)
    ensures TotalPreorder(ByRunAt(jobs))
  {
  }

  lemma {:induction false} SortedPending(s: State)
    requires Sound(s)
    ensures WellFormed(SortPending(s))
    ensures multiset(SortPending(s).pending) == multiset(s.pending)
  {
    ByRunAtIsPreorder(s.jobs);
    SortSorted(ByRunAt(s.jobs), s.pending);
    SortContents(ByRunAt(s.jobs), s.pending);
    var sorted := Sort(ByRunAt(s.jobs), s.pending);
    assert forall i, j :: 0 <= i < j < |sorted| ==> ByRunAt(s.jobs)(sorted[i], sorted[j]);
  }

  lemma {:induction false} ActiveDeleteFacts(jobs: seq<Job>, active: seq<Ref>, id: string)
    requires UniqueKeys(jobs, active)
    ensures UniqueKeys(jobs, ActiveDelete(jobs, active, id))
    ensures |ActiveDelete(jobs, active, id)| <= |active|
    ensures forall r :: r in ActiveDelete(jobs, active, id) <==> r in active && Id(jobs, r) != id
  {
    var i := KeyIndex(jobs, active, id);
    var rest := ActiveDelete(jobs, active, id);
    if i < |active| {
      assert forall k :: 0 <= k < |rest| ==> rest[k] == active[if k < i then k else k + 1];
      forall r | r in active && Id(jobs, r) != id ensures r in rest {
        var k :| 0 <= k < |active| && active[k] == r;
        assert k != i;
        assert rest[if k < i then k else k - 1] == r;
      }
      forall r | r in rest ensures r in active && Id(jobs, r) != id {
        var k :| 0 <= k < |rest| && rest[k] == r;
        var m := if k < i then k else k + 1;
        assert active[m] == r;
        assert Id(jobs, active[i]) == id;
      }
    } else {
      forall r | r in active ensures Id(jobs, r) != id {
        var k :| 0 <= k < |active| && active[k] == r;
      }
    }
  }

  lemma {:induction false} ActiveSetFacts(jobs: seq<Job>, active: seq<Ref>, ref: Ref)
    requires UniqueKeys(jobs, active)
    ensures UniqueKeys(jobs, ActiveSet(jobs, active, ref))
    ensures |active| <= |ActiveSet(jobs, active, ref)| <= |active| + 1
    ensures forall r :: r in ActiveSet(jobs, active, ref) ==> r in active || r == ref
    ensures ref in ActiveSet(jobs, active, ref)
  {
    var i := KeyIndex(jobs, active, Id(jobs, ref));
    var set' := ActiveSet(jobs, active, ref);
    if i < |active| {
      assert set'[i] == ref;
    } else {
      assert set'[|active|] == ref;
    }
  }

  lemma {:induction false} RunJobSound(s: State, ref: Ref, now: int)
    requires Sound(s) && ref < |s.jobs| && |s.active| < s.concurrency
    ensures Sound(RunJob(s, ref, now))
  {
    var job := s.jobs[ref];
    assert job.jobType in s.handlers;
    var r := RunJob(s, ref, now);
    ActiveSetFacts(s.jobs, s.active, ref);
    assert forall k :: Id(r.jobs, k) == Id(s.jobs, k);
    assert HandlerRun(ref, job.attempt + 1) !in s.unsettled;
    forall i | 0 <= i < |r.active| ensures Leased(r.jobs, r.active[i]) {
      assert r.active[i] in r.active;
      if r.active[i] != ref {
        assert r.active[i] in s.active;
      }
    }
  }

  lemma {:induction false} RunAtUnchanged(jobs: seq<Job>, ref: Ref, job: Job)
    requires ref < |jobs| && job.runAt == jobs[ref].runAt
    ensures forall r :: RunAt(jobs[ref := job], r) == RunAt(jobs, r)
  {
  }

  lemma {:induction false} StartingTaken(s: State, i: nat, now: int)
    requires WellFormed(s) && i < |s.pending| && |s.active| < s.concurrency
    ensures var r := RunJob(s.(pending := s.pending[..i] + s.pending[i + 1..]), s.pending[i], now);
            WellFormed(r) && |r.pending| == |s.pending| - 1
  {
    var taken := s.(pending := s.pending[..i] + s.pending[i + 1..]);
    assert Sound(taken);
    RunJobSound(taken, s.pending[i], now);
    var job := s.jobs[s.pending[i]];
    RunAtUnchanged(s.jobs, s.pending[i], job.(attempt := job.attempt + 1, leasedAt := Some(now)));
  }

  lemma {:induction false} DrainWellFormed(s: State, now: int)
    requires WellFormed(s)
    ensures WellFormed(Drain(s, now))
    decreases |s.pending|
  {
    hide RunJob, UniqueKeys, JobsHandled, ActiveLeased, RunsKnown, Balanced, PendingSorted;
    if s.running && |s.active| < s.concurrency {
      var i := FirstDue(s.jobs, s.pending, now);
      if i < |s.pending| {
        StartingTaken(s, i, now);
        DrainWellFormed(RunJob(s.(pending := s.pending[..i] + s.pending[i + 1..]), s.pending[i], now), now);
      }
    }
  }

  lemma {:induction false} RequeueWellFormed(s: State, ref: Ref)
    requires Sound(s) && ref < |s.jobs|
    ensures WellFormed(Requeue(s, ref))
    ensures multiset(Requeue(s, ref).pending) == multiset(s.pending) + multiset{ref}
  {
    SortedPending(s.(pending := s.pending + [ref]));
  }

  lemma {:induction false} ReleasedWellFormed(s: State, ref: Ref)
    requires WellFormed(s)
    ensures WellFormed(ReleaseLease(s, ref))
  {
    ActiveDeleteFacts(s.jobs, s.active, Id(s.jobs, ref));
    var rest := ReleaseLease(s, ref).active;
    forall k | 0 <= k < |rest| ensures Leased(s.jobs, rest[k]) {
      assert rest[k] in rest;
      assert rest[k] in s.active;
    }
  }

  /** Putting a job object back with another run time or lease keeps everything but the order. */
  lemma {:induction false} RescheduledSound(s: State, ref: Ref, job: Job)
    requires Sound(s) && ref < |s.jobs|
    requires job == s.jobs[ref].(runAt := job.runAt, leasedAt := job.leasedAt)
    requires job.leasedAt.None? ==> ref !in s.active
    ensures Sound(s.(jobs := s.jobs[ref := job]))
  {
    var jobs := s.jobs[ref := job];
    assert forall k :: Id(jobs, k) == Id(s.jobs, k);
    forall i | 0 <= i < |s.active| ensures Leased(jobs, s.active[i]) {
      assert s.active[i] in s.active;
      assert Leased(s.jobs, s.active[i]);
    }
  }

  lemma {:induction false} RetryCountedSound(s: State, run: HandlerRun)
    requires Sound(s) && run in s.unsettled
    ensures Sound(s.(unsettled := s.unsettled - {run}, totals := s.totals.(retried := s.totals.retried + 1)))
  {
    assert |s.unsettled - {run}| == |s.unsettled| - 1;
  }

  lemma {:induction false} RequeuedAtWellFormed(s: State, ref: Ref, runAt: int)
    requires Sound(s) && ref < |s.jobs|
    requires s.jobs[ref].leasedAt.None? ==> ref !in s.active
    ensures WellFormed(Requeue(s.(jobs := s.jobs[ref := s.jobs[ref].(runAt := runAt)]), ref))
  {
    RescheduledSound(s, ref, s.jobs[ref].(runAt := runAt));
    RequeueWellFormed(s.(jobs := s.jobs[ref := s.jobs[ref].(runAt := runAt)]), ref);
  }

  lemma {:induction false} UnleasedIsIdle(s: State, ref: Ref)
    requires Sound(s) && ref < |s.jobs| && s.jobs[ref].leasedAt.None?
    ensures ref !in s.active
  {
  }

  lemma {:induction false} RetriedWellFormed(s: State, run: HandlerRun, now: int)
    requires WellFormed(s) && run in s.unsettled && s.jobs[run.job].attempt < s.jobs[run.job].maxAttempts
    ensures WellFormed(RecordOutcome(s.(unsettled := s.unsettled - {run}), run.job, Failure, now))
  {
    RetryCountedSound(s, run);
    var counted := s.(unsettled := s.unsettled - {run}, totals := s.totals.(retried := s.totals.retried + 1));
    var at := now + RetryDelayMs(s.jobs[run.job].attempt);
    if s.jobs[run.job].leasedAt.None? {
      UnleasedIsIdle(s, run.job);
    }
    RequeuedAtWellFormed(counted, run.job, at);
    assert RecordOutcome(s.(unsettled := s.unsettled - {run}), run.job, Failure, now)
        == Requeue(counted.(jobs := s.jobs[run.job := s.jobs[run.job].(runAt := at)]), run.job);
  }

  lemma {:induction false} RecordedWellFormed(s: State, run: HandlerRun, outcome: Outcome, now: int)
    requires WellFormed(s) && run in s.unsettled
    ensures WellFormed(RecordOutcome(s.(unsettled := s.unsettled - {run}), run.job, outcome, now))
  {
    var job := s.jobs[run.job];
    if outcome == Failure && job.attempt < job.maxAttempts {
      RetriedWellFormed(s, run, now);
    } else {
      assert |s.unsettled - {run}| == |s.unsettled| - 1;
    }
  }

  lemma {:induction false} SettledWellFormed(s: State, run: HandlerRun, outcome: Outcome, now: int)
    requires WellFormed(s) && run in s.unsettled
    ensures WellFormed(Settled(s, run, outcome, now))
  {
    RecordedWellFormed(s, run, outcome, now);
    ReleasedWellFormed(RecordOutcome(s.(unsettled := s.unsettled - {run}), run.job, outcome, now), run.job);
  }

  lemma {:induction false} FreedLeaseSound(s: State, ref: Ref)
    requires Sound(s) && ref in s.active
    ensures ref < |s.jobs|
    ensures var rest := ActiveDelete(s.jobs, s.active, s.jobs[ref].id);
            && UniqueKeys(s.jobs, rest) && |rest| <= |s.active| && ActiveLeased(s.jobs, rest)
            && ref !in rest && (forall r :: r in rest ==> r in s.active)
  {
    var i :| 0 <= i < |s.active| && s.active[i] == ref;
    assert Leased(s.jobs, ref);
    var rest := ActiveDelete(s.jobs, s.active, s.jobs[ref].id);
    ActiveDeleteFacts(s.jobs, s.active, s.jobs[ref].id);
    forall k | 0 <= k < |rest| ensures Leased(s.jobs, rest[k]) {
      assert rest[k] in rest;
      assert rest[k] in s.active;
    }
  }

  /** The sweep frees one stale lease and the rest of the queue stays sound. */
  lemma {:induction false} SweepOneSound(s: State, ref: Ref, staleLeaseMs: int, now: int)
    requires Sound(s) && ref in s.active
    ensures Sound(SweepOne(s, ref, staleLeaseMs, now))
  {
    hide KeyIndex, ActiveDelete;
    if Stale(s.jobs, ref, staleLeaseMs, now) {
      var job := s.jobs[ref];
      FreedLeaseSound(s, ref);
      assert Leased(s.jobs, ref) by {
        var i :| 0 <= i < |s.active| && s.active[i] == ref;
      }
      var freed := s.(active := ActiveDelete(s.jobs, s.active, job.id),
                      swept := s.swept + {HandlerRun(ref, job.attempt)},
                      leasesSwept := s.leasesSwept + 1);
      if job.attempt < job.maxAttempts {
        var retried := freed.(totals := s.totals.(retried := s.totals.retried + 1), pending := s.pending + [ref]);
        assert Sound(retried);
        RescheduledSound(retried, ref, job.(leasedAt := None, runAt := now));
      }
    }
  }

  // --- the sweep, entry by entry ---

  /** The entries a sweep keeps, and the ones it puts back on the pending list. */
  function Fresh(jobs: seq<Job>, staleLeaseMs: int, now: int): Ref -> bool {
    (ref: Ref) => !Stale(jobs, ref, staleLeaseMs, now)
  }

  function Reclaimable(jobs: seq<Job>, staleLeaseMs: int, now: int): Ref -> bool {
    (ref: Ref) => Stale(jobs, ref, staleLeaseMs, now) && jobs[ref].attempt < jobs[ref].maxAttempts
  }

  function Exhausted(jobs: seq<Job>, staleLeaseMs: int, now: int): Ref -> bool {
    (ref: Ref) => Stale(jobs, ref, staleLeaseMs, now) && jobs[ref].attempt >= jobs[ref].maxAttempts
  }

  lemma {:induction false} FilterSnoc<T>(keep: T -> bool, s: seq<T>, x: T)
    ensures Filter(keep, s + [x]) == Filter(keep, s) + (if keep(x) then [x] else [])
  {
    FilterAppend(keep, s, [x]);
    assert [x][1..] == [];
  }

  lemma {:induction false} DeleteAt(jobs: seq<Job>, active: seq<Ref>, k: nat)
    requires UniqueKeys(jobs, active) && k < |active|
    ensures ActiveDelete(jobs, active, Id(jobs, active[k])) == active[..k] + active[k + 1..]
  {
    var i := KeyIndex(jobs, active, Id(jobs, active[k]));
    assert i == k;
  }

  /** The dead letters of a sweep, newest first, as `unshift` leaves them. */
  function DeadLetters(jobs: seq<Job>, refs: seq<Ref>): (r: seq<DeadLetter>)
    requires forall ref: Ref :: ref in refs ==> ref < |jobs|
    ensures |r| == |refs|
  {
    if refs == [] then []
    else
      var last := |refs| - 1;
      assert refs[last] in refs && forall ref: Ref :: ref in refs[..last] ==> ref in refs;
      [ToDeadLetter(jobs[refs[last]])] + DeadLetters(jobs, refs[..last])
  }

  ghost predicate SweptRuns(s: State, refs: seq<Ref>, swept: set<HandlerRun>) {
    forall run :: run in swept <==>
      run in s.swept || (run.job in refs && run.job < |s.jobs| && run.attempt == s.jobs[run.job].attempt)
  }

  /** The state of a sweep that has kept, reclaimed and given up on these entries; `todo` is to come. */
  ghost predicate SweepReached(s: State, kept: seq<Ref>, reclaimed: seq<Ref>, exhausted: seq<Ref>, todo: seq<Ref>,
                               now: int, r: State)
    requires forall x: Ref :: x in exhausted ==> x < |s.jobs|
  {
    && |r.jobs| == |s.jobs|
    && r.active == kept + todo
    && (forall ref: Ref :: ref < |s.jobs| ==>
          r.jobs[ref] == if ref in reclaimed then s.jobs[ref].(leasedAt := None, runAt := now) else s.jobs[ref])
    && r.pending == s.pending + reclaimed
    && r.dead == DeadLetters(s.jobs, exhausted) + s.dead
    && r.totals == s.totals.(failed := s.totals.failed + |exhausted|, retried := s.totals.retried + |reclaimed|)
    && SweptRuns(s, reclaimed + exhausted, r.swept)
    && r.leasesSwept == s.leasesSwept + |reclaimed| + |exhausted|
    && r.handlers == s.handlers && r.running == s.running && r.concurrency == s.concurrency
    && r.unsettled == s.unsettled && r.dropped == s.dropped
  }

  ghost predicate SweptSoFar(s: State, done: seq<Ref>, todo: seq<Ref>, staleLeaseMs: int, now: int, r: State) {
    assert forall ref: Ref :: Exhausted(s.jobs, staleLeaseMs, now)(ref) ==> ref < |s.jobs|;
    SweepReached(s, Filter(Fresh(s.jobs, staleLeaseMs, now), done),
                 Filter(Reclaimable(s.jobs, staleLeaseMs, now), done),
                 Filter(Exhausted(s.jobs, staleLeaseMs, now), done), todo, now, r)
  }

  lemma {:induction false} SweepFreshReached(s: State, kept: seq<Ref>, reclaimed: seq<Ref>, exhausted: seq<Ref>, ref: Ref, todo: seq<Ref>,
                          now: int, r: State)
    requires forall x: Ref :: x in exhausted ==> x < |s.jobs|
    requires SweepReached(s, kept, reclaimed, exhausted, [ref] + todo, now, r)
    ensures SweepReached(s, kept + [ref], reclaimed, exhausted, todo, now, r)
  {
    assert kept + ([ref] + todo) == (kept + [ref]) + todo;
  }

  lemma {:induction false} SweepExhaustedReached(s: State, kept: seq<Ref>, reclaimed: seq<Ref>, exhausted: seq<Ref>, ref: Ref, todo: seq<Ref>,
                              staleLeaseMs: int, now: int, r: State)
    requires forall x: Ref :: x in exhausted ==> x < |s.jobs|
    requires SweepReached(s, kept, reclaimed, exhausted, [ref] + todo, now, r)
    requires UniqueKeys(r.jobs, r.active) && Stale(r.jobs, ref, staleLeaseMs, now) && ref !in reclaimed
    requires r.jobs[ref].attempt >= r.jobs[ref].maxAttempts
    ensures SweepReached(s, kept, reclaimed, exhausted + [ref], todo, now, SweepOne(r, ref, staleLeaseMs, now))
  {
    assert r.active[|kept|] == ref;
    DeleteAt(r.jobs, r.active, |kept|);
    assert r.active[..|kept|] == kept && r.active[|kept| + 1..] == todo;
    assert (exhausted + [ref])[..|exhausted|] == exhausted;
    assert DeadLetters(s.jobs, exhausted + [ref]) == [ToDeadLetter(s.jobs[ref])] + DeadLetters(s.jobs, exhausted);
    assert reclaimed + (exhausted + [ref]) == (reclaimed + exhausted) + [ref];
  }

  lemma {:induction false} SweepReclaimedReached(s: State, kept: seq<Ref>, reclaimed: seq<Ref>, exhausted: seq<Ref>, ref: Ref, todo: seq<Ref>,
                              staleLeaseMs: int, now: int, r: State)
    requires forall x: Ref :: x in exhausted ==> x < |s.jobs|
    requires SweepReached(s, kept, reclaimed, exhausted, [ref] + todo, now, r)
    requires UniqueKeys(r.jobs, r.active) && Stale(r.jobs, ref, staleLeaseMs, now) && ref !in reclaimed
    requires r.jobs[ref].attempt < r.jobs[ref].maxAttempts
    ensures SweepReached(s, kept, reclaimed + [ref], exhausted, todo, now, SweepOne(r, ref, staleLeaseMs, now))
  {
    assert r.active[|kept|] == ref;
    DeleteAt(r.jobs, r.active, |kept|);
    assert r.active[..|kept|] == kept && r.active[|kept| + 1..] == todo;
    assert s.pending + reclaimed + [ref] == s.pending + (reclaimed + [ref]);
    assert forall x :: x in (reclaimed + [ref]) + exhausted <==> x in reclaimed + exhausted || x == ref;
  }

  lemma {:induction false} SweepStep(s: State, done: seq<Ref>, ref: Ref, todo: seq<Ref>, staleLeaseMs: int, now: int, r: State)
    requires ref < |s.jobs| && ref !in done
    requires UniqueKeys(r.jobs, r.active)
    requires SweptSoFar(s, done, [ref] + todo, staleLeaseMs, now, r)
    ensures SweptSoFar(s, done + [ref], todo, staleLeaseMs, now, SweepOne(r, ref, staleLeaseMs, now))
  {
    var kept := Filter(Fresh(s.jobs, staleLeaseMs, now), done);
    var reclaimed := Filter(Reclaimable(s.jobs, staleLeaseMs, now), done);
    var exhausted := Filter(Exhausted(s.jobs, staleLeaseMs, now), done);
    assert r.jobs[ref] == s.jobs[ref];
    if !Stale(s.jobs, ref, staleLeaseMs, now) {
      SweepFreshReached(s, kept, reclaimed, exhausted, ref, todo, now, r);
    } else if s.jobs[ref].attempt >= s.jobs[ref].maxAttempts {
      SweepExhaustedReached(s, kept, reclaimed, exhausted, ref, todo, staleLeaseMs, now, r);
    } else {
      SweepReclaimedReached(s, kept, reclaimed, exhausted, ref, todo, staleLeaseMs, now, r);
    }
    FilterSnoc(Fresh(s.jobs, staleLeaseMs, now), done, ref);
    FilterSnoc(Reclaimable(s.jobs, staleLeaseMs, now), done, ref);
    FilterSnoc(Exhausted(s.jobs, staleLeaseMs, now), done, ref);
    assert kept + [] == kept && reclaimed + [] == reclaimed && exhausted + [] == exhausted;
  }

  lemma {:induction false} SnapshotDistinct(s: State, n: nat)
    requires UniqueKeys(s.jobs, s.active) && n < |s.active|
    ensures s.active[n] !in s.active[..n]
  {
  }

  lemma {:induction false} SweepExtend(s: State, done: seq<Ref>, ref: Ref, todo: seq<Ref>, staleLeaseMs: int, now: int)
    requires Sound(s) && ref < |s.jobs| && ref !in done
    requires var r := SweepAll(s, done, staleLeaseMs, now);
             Sound(r) && SweptSoFar(s, done, [ref] + todo, staleLeaseMs, now, r)
    ensures var r := SweepAll(s, done + [ref], staleLeaseMs, now);
            Sound(r) && SweptSoFar(s, done + [ref], todo, staleLeaseMs, now, r)
  {
    var r := SweepAll(s, done, staleLeaseMs, now);
    assert (done + [ref])[..|done|] == done;
    SweepStep(s, done, ref, todo, staleLeaseMs, now, r);
    assert r.active[|Filter(Fresh(s.jobs, staleLeaseMs, now), done)|] == ref;
    SweepOneSound(r, ref, staleLeaseMs, now);
  }

  lemma {:induction false} SweepNothing(s: State, staleLeaseMs: int, now: int)
    requires Sound(s)
    ensures Sound(SweepAll(s, [], staleLeaseMs, now))
    ensures SweptSoFar(s, [], s.active, staleLeaseMs, now, SweepAll(s, [], staleLeaseMs, now))
  {
    assert [] + s.active == s.active && s.pending + [] == s.pending;
  }

  lemma {:induction false} SweepPrefix(s: State, done: seq<Ref>, todo: seq<Ref>, staleLeaseMs: int, now: int)
    requires Sound(s) && s.active == done + todo
    ensures Sound(SweepAll(s, done, staleLeaseMs, now))
    ensures SweptSoFar(s, done, todo, staleLeaseMs, now, SweepAll(s, done, staleLeaseMs, now))
    decreases |done|
  {
    if done == [] {
      assert todo == s.active;
      SweepNothing(s, staleLeaseMs, now);
    } else {
      var n := |done| - 1;
      var ref := done[n];
      assert done == done[..n] + [ref] && s.active == done[..n] + ([ref] + todo);
      assert s.active[n] == ref && s.active[..n] == done[..n];
      SnapshotDistinct(s, n);
      SweepPrefix(s, done[..n], [ref] + todo, staleLeaseMs, now);
      SweepExtend(s, done[..n], ref, todo, staleLeaseMs, now);
    }
  }

  lemma {:induction false} SweptWellFormed(s: State, staleLeaseMs: int, now: int)
    requires WellFormed(s)
    ensures WellFormed(Swept(s, staleLeaseMs, now))
    ensures var r := SweepAll(s, s.active, staleLeaseMs, now);
            && SweptSoFar(s, s.active, [], staleLeaseMs, now, r)
            && Swept(s, staleLeaseMs, now) == r.(pending := Swept(s, staleLeaseMs, now).pending)
            && multiset(Swept(s, staleLeaseMs, now).pending) == multiset(r.pending)
  {
    assert s.active == s.active + [];
    SweepPrefix(s, s.active, [], staleLeaseMs, now);
    var r := SweepAll(s, s.active, staleLeaseMs, now);
    if r.totals.retried > s.totals.retried {
      SortedPending(r);
    } else {
      assert Filter(Reclaimable(s.jobs, staleLeaseMs, now), s.active) == [];
      assert r.pending == s.pending;
      assert r.jobs == s.jobs;
    }
  }

  // --- producers and operators ---

  lemma {:induction false} NewObjectSound(s: State, job: Job)
    requires Sound(s) && job.jobType in s.handlers && job.maxAttempts >= 1
    ensures Sound(s.(jobs := s.jobs + [job]))
  {
    var jobs := s.jobs + [job];
    assert forall i :: 0 <= i < |s.active| ==> Leased(s.jobs, s.active[i]) ==> Id(jobs, s.active[i]) == Id(s.jobs, s.active[i]);
  }

  lemma {:induction false} EnqueuedWellFormed(s: State, job: Job)
    requires Sound(s) && job.jobType in s.handlers && job.maxAttempts >= 1
    ensures WellFormed(Enqueued(s, job))
    ensures multiset(Enqueued(s, job).pending) == multiset(s.pending) + multiset{|s.jobs| as Ref}
  {
    NewObjectSound(s, job);
    RequeueWellFormed(s.(jobs := s.jobs + [job], totals := s.totals.(enqueued := s.totals.enqueued + 1)), |s.jobs|);
  }

  lemma {:induction false} DeadLetterHandled(s: State, i: nat)
    requires JobsHandled(s) && i < |s.dead|
    ensures s.dead[i].jobType in s.handlers && s.dead[i].maxAttempts >= 1
    ensures JobsHandled(RemoveDead(s, i))
  {
  }

  lemma {:induction false} HurriedUpWellFormed(s: State, i: nat, now: int)
    requires WellFormed(s) && i < |s.pending|
    ensures WellFormed(HurriedUp(s, i, now))
    ensures multiset(HurriedUp(s, i, now).pending) == multiset(s.pending)
  {
    var job := s.jobs[s.pending[i]].(runAt := now);
    if job.leasedAt.None? {
      UnleasedIsIdle(s, s.pending[i]);
    }
    RescheduledSound(s, s.pending[i], job);
    SortedPending(s.(jobs := s.jobs[s.pending[i] := job]));
  }

  lemma {:induction false} EffectWellFormed(s: State, step: Step)
    requires WellFormed(s) && Enabled(s, step)
    ensures WellFormed(Effect(s, step).0)
  {
    match step
    case RegisterHandler(t) =>
    case Enqueue(id, t, payload, delayMs, maxAttempts, now) =>
      if t in s.handlers {
        EnqueuedWellFormed(s, NewJob(id, t, payload, delayMs, maxAttempts, now));
      }
    case Settle(run, outcome, now) => SettledWellFormed(s, run, outcome, now);
    case Sweep(staleLeaseMs, now) => SweptWellFormed(s, staleLeaseMs, now);
    case Replay(jobId, newId, now) =>
      var i := DeadIndex(s.dead, jobId);
      if i < |s.dead| {
        var entry := s.dead[i];
        DeadLetterHandled(s, i);
        EnqueuedWellFormed(RemoveDead(s, i), NewJob(newId, entry.jobType, entry.payload, None, Some(entry.maxAttempts), now));
      }
    case Retry(jobId, force, now) =>
      var d := DeadIndex(s.dead, jobId);
      var p := KeyIndex(s.jobs, s.pending, jobId);
      if d < |s.dead| {
        DeadLetterHandled(s, d);
        NewObjectSound(RemoveDead(s, d), Revived(s.dead[d], now));
        RequeueWellFormed(RemoveDead(s, d).(jobs := s.jobs + [Revived(s.dead[d], now)]), |s.jobs|);
      } else if p < |s.pending| && s.jobs[s.pending[p]].attempt > 0 {
        HurriedUpWellFormed(s, p, now);
      }
    case Poll(now) =>
    case Start(now) =>
    case Stop =>
  }

  /** Every step keeps the queue well formed, late settles included: pending stays sorted by run time,
      the active map stays within the concurrency, every job keeps a handler, and the execution
      balance holds. So the branch of `runJob` without a handler is never taken. */
  lemma {:induction false} NextWellFormed(s: State, step: Step)
    requires WellFormed(s) && Enabled(s, step)
    ensures WellFormed(Next(s, step))
  {
    EffectWellFormed(s, step);
    DrainWellFormed(Effect(s, step).0, StepTime(step));
  }

  // --- runs ---

  ghost predicate Feasible(s: State, steps: seq<Step>)
    requires WellFormed(s)
    decreases |steps|
  {
    steps == [] || (Enabled(s, steps[0]) && (NextWellFormed(s, steps[0]); Feasible(Next(s, steps[0]), steps[1..])))
  }

  ghost function After(s: State, steps: seq<Step>): State
    requires WellFormed(s) && Feasible(s, steps)
    decreases |steps|
  {
    if steps == [] then s else NextWellFormed(s, steps[0]); After(Next(s, steps[0]), steps[1..])
  }

  /** Every reachable state is well formed, whatever the handlers, clocks and operators do. */
  lemma {:induction false} RunsWellFormed(s: State, steps: seq<Step>)
    requires WellFormed(s) && Feasible(s, steps)
    ensures WellFormed(After(s, steps))
    decreases |steps|
  {
    if steps != [] {
      NextWellFormed(s, steps[0]);
      RunsWellFormed(Next(s, steps[0]), steps[1..]);
    }
  }

  function Drops(steps: seq<Step>): nat {
    if steps == [] then 0
    else (if steps[0].Settle? && steps[0].outcome == NonRetryable then 1 else 0) + Drops(steps[1..])
  }

  lemma {:induction false} DrainDropsNothing(s: State, now: int)
    requires RefsValid(s)
    ensures Drain(s, now).dropped == s.dropped
    decreases |s.pending|
  {
    if s.running && |s.active| < s.concurrency {
      var i := FirstDue(s.jobs, s.pending, now);
      if i < |s.pending| {
        DrainDropsNothing(RunJob(s.(pending := s.pending[..i] + s.pending[i + 1..]), s.pending[i], now), now);
      }
    }
  }

  lemma {:induction false} EffectDrops(s: State, step: Step)
    requires WellFormed(s) && (step.Settle? ==> step.run.job < |s.jobs|)
    ensures Effect(s, step).0.dropped == s.dropped + Drops([step])
  {
    hide Sort, Sound, PendingSorted, KeyIndex, DeadIndex, ActiveDelete, SweepAll;
    if step.Sweep? {
      SweptWellFormed(s, step.staleLeaseMs, step.now);
    }
    assert [step][1..] == [];
  }

  lemma {:induction false} NextDrops(s: State, step: Step)
    requires WellFormed(s) && Enabled(s, step)
    ensures Next(s, step).dropped == s.dropped + Drops([step])
  {
    hide Effect, Drain, Drops, UniqueKeys, JobsHandled, ActiveLeased, Balanced;
    EffectDrops(s, step);
    DrainDropsNothing(Effect(s, step).0, StepTime(step));
  }

  lemma {:induction false} RunDrops(s: State, steps: seq<Step>)
    requires WellFormed(s) && Feasible(s, steps)
    ensures After(s, steps).dropped == s.dropped + Drops(steps)
    decreases |steps|
  {
    if steps != [] {
      NextWellFormed(s, steps[0]);
      NextDrops(s, steps[0]);
      assert Drops([steps[0]]) == Drops(steps) - Drops(steps[1..]) by { assert [steps[0]][1..] == []; }
      RunDrops(Next(s, steps[0]), steps[1..]);
    }
  }

  /** Conservation over every run from an empty queue, late settles included. The law the totals
      suggest, executions + swept = completed + failed + retried + unsettled, holds if and only if no
      handler run ended with a non-retryable error: `runJob` counts such a run nowhere. */
  lemma {:induction false} ExecutionsConserved(s: State, steps: seq<Step>)
    requires Initial(s) && Feasible(s, steps)
    ensures var r := After(s, steps);
            && r.totals.executions + r.leasesSwept
               == r.totals.completed + r.totals.failed + r.totals.retried + |r.unsettled| + Drops(steps)
            && (r.totals.executions + r.leasesSwept == r.totals.completed + r.totals.failed + r.totals.retried + |r.unsettled|
                <==> Drops(steps) == 0)
  {
    RunsWellFormed(s, steps);
    RunDrops(s, steps);
  }
}
