/** The job queue when no handler settles after its lease was swept: each job is in one place. */
module JobQueueStructure {
  import opened Wrappers
  import opened Sorting
  import opened Sums
  import opened JobQueueSpec
  import opened JobQueueInvariants

  function HasId(jobs: seq<Job>, id: string): Ref -> int {
    (ref: Ref) => if Id(jobs, ref) == id then 1 else 0
  }

  function DeadHasId(id: string): DeadLetter -> int {
    (entry: DeadLetter) => if entry.jobId == id then 1 else 0
  }

  /** In how many places the queue holds the job id. */
  function Tracked(s: State, id: string): int {
    Sum(HasId(s.jobs, id), s.pending) + Sum(HasId(s.jobs, id), s.active) + Sum(DeadHasId(id), s.dead)
  }

  ghost predicate TrackedOnce(s: State) {
    forall id :: Tracked(s, id) <= 1
  }

  ghost predicate AttemptsInRange(s: State) {
    && (forall ref: Ref :: ref in s.pending ==> ref < |s.jobs| && s.jobs[ref].attempt < s.jobs[ref].maxAttempts)
    && (forall ref: Ref :: ref in s.active ==> ref < |s.jobs| && 1 <= s.jobs[ref].attempt <= s.jobs[ref].maxAttempts)
    && (forall k :: 0 <= k < |s.jobs| ==> s.jobs[k].attempt <= s.jobs[k].maxAttempts)
    && (forall entry :: entry in s.dead ==> entry.attempts == entry.maxAttempts)
  }

  /** The runs whose lease was not swept are the runs of the jobs on the active map. */
  ghost predicate LeasesMatchRuns(s: State) {
    && (forall ref: Ref :: ref in s.active ==>
          ref < |s.jobs| && HandlerRun(ref, s.jobs[ref].attempt) in s.unsettled - s.swept)
    && (forall run :: run in s.unsettled - s.swept ==>
          run.job < |s.jobs| && run.job in s.active && run.attempt == s.jobs[run.job].attempt)
  }

  ghost predicate DeadKnown(s: State) {
    forall entry :: entry in s.dead ==> !FreshId(s, entry.jobId)
  }

  ghost predicate Structured(s: State) {
    WellFormed(s) && TrackedOnce(s) && AttemptsInRange(s) && LeasesMatchRuns(s) && DeadKnown(s)
  }

  /** The queue as it is constructed. */
  lemma {:induction false} InitialStructured(s: State)
    requires Initial(s)
    ensures Structured(s)
  {
    forall id ensures Tracked(s, id) == 0 {
      assert Sum(HasId(s.jobs, id), s.pending) == 0 && Sum(DeadHasId(id), s.dead) == 0;
    }
  }

  // --- counting places ---

  lemma {:induction false} CountHasId(jobs: seq<Job>, refs: seq<Ref>, id: string)
    ensures Sum(HasId(jobs, id), refs) >= 0
    ensures forall ref :: ref in refs && Id(jobs, ref) == id ==> Sum(HasId(jobs, id), refs) >= 1
  {
    SumNonNegative(HasId(jobs, id), refs);
  }

  lemma {:induction false} CountDead(dead: seq<DeadLetter>, id: string)
    ensures Sum(DeadHasId(id), dead) >= 0
  {
    SumNonNegative(DeadHasId(id), dead);
  }

  lemma {:induction false} SameIdsSameCount(jobs: seq<Job>, jobs': seq<Job>, refs: seq<Ref>, id: string)
    requires forall ref: Ref :: ref in refs ==> Id(jobs', ref) == Id(jobs, ref)
    ensures Sum(HasId(jobs', id), refs) == Sum(HasId(jobs, id), refs)
  {
    SumCongruent(HasId(jobs', id), HasId(jobs, id), refs);
  }

  /** A job on the pending list is nowhere else. */
  lemma {:induction false} PendingIsElsewhereAbsent(s: State, i: nat)
    requires RefsValid(s) && TrackedOnce(s) && i < |s.pending|
    ensures var id := Id(s.jobs, s.pending[i]);
            && Sum(HasId(s.jobs, id), s.active) == 0 && Sum(DeadHasId(id), s.dead) == 0
            && Sum(HasId(s.jobs, id), s.pending[..i] + s.pending[i + 1..]) == 0
            && (forall ref: Ref :: ref in s.active ==> Id(s.jobs, ref) != id)
            && (forall ref: Ref :: ref in s.pending[..i] + s.pending[i + 1..] ==> Id(s.jobs, ref) != id)
  {
    var id := Id(s.jobs, s.pending[i]);
    var rest := s.pending[..i] + s.pending[i + 1..];
    assert Tracked(s, id) <= 1;
    SumRemove(HasId(s.jobs, id), s.pending, i);
    CountHasId(s.jobs, rest, id);
    CountHasId(s.jobs, s.active, id);
    CountDead(s.dead, id);
  }

  lemma {:induction false} SetOfAbsent(jobs: seq<Job>, active: seq<Ref>, ref: Ref)
    requires forall r: Ref :: r in active ==> Id(jobs, r) != Id(jobs, ref)
    ensures ActiveSet(jobs, active, ref) == active + [ref]
  {
  }

  // --- starting jobs ---

  function Taken(s: State, i: nat): State
    requires i < |s.pending|
  {
    s.(pending := s.pending[..i] + s.pending[i + 1..])
  }

  lemma {:induction false} StartKeepsCounts(s: State, i: nat, now: int)
    requires Structured(s) && i < |s.pending|
    ensures var r := RunJob(Taken(s, i), s.pending[i], now);
            && r.active == s.active + [s.pending[i]]
            && (forall id :: Tracked(r, id) == Tracked(s, id))
  {
    hide Sum, UniqueKeys, ActiveLeased, RunsKnown, Balanced, PendingSorted, AttemptsInRange, LeasesMatchRuns, DeadKnown, ActiveSet;
    var ref := s.pending[i];
    var r := RunJob(Taken(s, i), ref, now);
    PendingIsElsewhereAbsent(s, i);
    SetOfAbsent(s.jobs, s.active, ref);
    assert forall k :: Id(r.jobs, k) == Id(s.jobs, k);
    forall id ensures Tracked(r, id) == Tracked(s, id) {
      SumRemove(HasId(s.jobs, id), s.pending, i);
      SumSnoc(HasId(s.jobs, id), s.active, ref);
      SameIdsSameCount(s.jobs, r.jobs, r.pending, id);
      SameIdsSameCount(s.jobs, r.jobs, r.active, id);
    }
  }

  /** The pending job is the only reference to its object, so starting it changes no other job. */
  lemma {:induction false} StartIsLocal(s: State, i: nat, now: int)
    requires Structured(s) && i < |s.pending|
    ensures var ref := s.pending[i];
            var r := RunJob(Taken(s, i), ref, now);
            && ref < |s.jobs| && s.jobs[ref].attempt < s.jobs[ref].maxAttempts
            && r.jobs == s.jobs[ref := s.jobs[ref].(attempt := s.jobs[ref].attempt + 1, leasedAt := Some(now))]
            && (forall x: Ref :: x in r.active <==> x in s.active || x == ref)
            && (forall x: Ref :: x in r.pending ==> x in s.pending && x != ref)
            && ref !in s.active
            && r.unsettled == s.unsettled + {HandlerRun(ref, s.jobs[ref].attempt + 1)}
  {
    hide Tracked, ActiveSet, Balanced, LeasesMatchRuns, DeadKnown, PendingSorted, UniqueKeys, ActiveLeased;
    StartKeepsCounts(s, i, now);
    PendingIsElsewhereAbsent(s, i);
    assert s.pending[i] in s.pending;
  }

  lemma {:induction false} StartKeepsLeases(s: State, i: nat, now: int)
    requires Structured(s) && i < |s.pending|
    ensures LeasesMatchRuns(RunJob(Taken(s, i), s.pending[i], now))
  {
    StartIsLocal(s, i, now);
    var ref := s.pending[i];
    assert HandlerRun(ref, s.jobs[ref].attempt + 1) !in s.swept;
  }

  lemma {:induction false} StartWellFormed(s: State, i: nat, now: int)
    requires WellFormed(s) && i < |s.pending| && |s.active| < s.concurrency
    ensures WellFormed(RunJob(Taken(s, i), s.pending[i], now))
  {
    var ref := s.pending[i];
    RunJobSound(Taken(s, i), ref, now);
    RunAtUnchanged(s.jobs, ref, s.jobs[ref].(attempt := s.jobs[ref].attempt + 1, leasedAt := Some(now)));
  }

  lemma {:induction false} StartKeepsAttempts(s: State, i: nat, now: int)
    requires Structured(s) && i < |s.pending|
    ensures AttemptsInRange(RunJob(Taken(s, i), s.pending[i], now))
    ensures DeadKnown(RunJob(Taken(s, i), s.pending[i], now))
  {
    StartIsLocal(s, i, now);
    SameIdsDeadKnown(s, RunJob(Taken(s, i), s.pending[i], now));
  }

  lemma {:induction false} StartStructured(s: State, i: nat, now: int)
    requires Structured(s) && i < |s.pending| && |s.active| < s.concurrency
    ensures Structured(RunJob(Taken(s, i), s.pending[i], now))
  {
    StartWellFormed(s, i, now);
    StartKeepsCounts(s, i, now);
    StartKeepsAttempts(s, i, now);
    StartKeepsLeases(s, i, now);
  }

  lemma {:induction false} SameIdsDeadKnown(s: State, r: State)
    requires DeadKnown(s) && r.dead == s.dead && |s.jobs| <= |r.jobs|
    requires forall k :: 0 <= k < |s.jobs| ==> r.jobs[k].id == s.jobs[k].id
    ensures DeadKnown(r)
  {
    forall entry | entry in r.dead ensures !FreshId(r, entry.jobId) {
      var k :| 0 <= k < |s.jobs| && s.jobs[k].id == entry.jobId;
      assert r.jobs[k].id == entry.jobId;
    }
  }

  lemma {:induction false} DrainStructured(s: State, now: int)
    requires Structured(s)
    ensures Structured(Drain(s, now))
    decreases |s.pending|
  {
    hide UniqueKeys, JobsHandled, ActiveLeased, RunsKnown, Balanced, PendingSorted, TrackedOnce, AttemptsInRange,
         LeasesMatchRuns, DeadKnown;
    if s.running && |s.active| < s.concurrency {
      var i := FirstDue(s.jobs, s.pending, now);
      if i < |s.pending| {
        StartStructured(s, i, now);
        DrainStructured(RunJob(Taken(s, i), s.pending[i], now), now);
      }
    }
  }

  // --- settling a run that still holds its lease ---

  predicate Retries(s: State, run: HandlerRun, outcome: Outcome)
    requires run.job < |s.jobs|
  {
    outcome == Failure && s.jobs[run.job].attempt < s.jobs[run.job].maxAttempts
  }

  predicate Dies(s: State, run: HandlerRun, outcome: Outcome)
    requires run.job < |s.jobs|
  {
    outcome == Failure && s.jobs[run.job].attempt >= s.jobs[run.job].maxAttempts
  }

  /** Where the settled job goes, read off the final state. */
  ghost predicate SettledTo(s: State, run: HandlerRun, outcome: Outcome, r: State)
    requires run.job < |s.jobs|
  {
    var ref := run.job;
    && (Retries(s, run, outcome) ==> r.jobs == s.jobs[ref := s.jobs[ref].(runAt := RunAt(r.jobs, ref))])
    && (!Retries(s, run, outcome) ==> r.jobs == s.jobs)
    && multiset(r.pending) == multiset(s.pending) + (if Retries(s, run, outcome) then multiset{ref} else multiset{})
    && r.dead == (if Dies(s, run, outcome) then [ToDeadLetter(s.jobs[ref])] else []) + s.dead
    && r.active == ActiveDelete(s.jobs, s.active, s.jobs[ref].id)
    && r.unsettled == s.unsettled - {run} && r.swept == s.swept
    && r.totals.executions == s.totals.executions
  }

  lemma {:induction false} RetriedShape(s: State, run: HandlerRun, now: int)
    requires WellFormed(s) && run in s.unsettled && Retries(s, run, Failure)
    ensures SettledTo(s, run, Failure, Settled(s, run, Failure, now))
  {
    hide Sort, KeyIndex, ActiveDelete, UniqueKeys, JobsHandled, ActiveLeased, Balanced, PendingSorted;
    var job := s.jobs[run.job];
    var again := job.(runAt := now + RetryDelayMs(job.attempt));
    var jobs := s.jobs[run.job := again];
    SortContents(ByRunAt(jobs), s.pending + [run.job]);
    SameIdsSameDelete(s.jobs, jobs, s.active, job.id);
    var r := Settled(s, run, Failure, now);
    assert r.jobs == jobs && r.pending == Sort(ByRunAt(jobs), s.pending + [run.job]);
    assert r.active == ActiveDelete(jobs, s.active, Id(jobs, run.job));
    assert r.dead == [] + s.dead;
  }

  lemma {:induction false} SettledShape(s: State, run: HandlerRun, outcome: Outcome, now: int)
    requires WellFormed(s) && run in s.unsettled
    ensures SettledTo(s, run, outcome, Settled(s, run, outcome, now))
  {
    if Retries(s, run, outcome) {
      RetriedShape(s, run, now);
    } else {
      assert [] + s.dead == s.dead;
    }
  }

  lemma {:induction false} SameIdsSameDelete(jobs: seq<Job>, jobs': seq<Job>, active: seq<Ref>, id: string)
    requires forall ref: Ref :: ref in active ==> Id(jobs', ref) == Id(jobs, ref)
    ensures KeyIndex(jobs', active, id) == KeyIndex(jobs, active, id)
    ensures ActiveDelete(jobs', active, id) == ActiveDelete(jobs, active, id)
  {
    if active != [] && Id(jobs, active[0]) != id {
      SameIdsSameDelete(jobs, jobs', active[1..], id);
    }
  }

  lemma {:induction false} MultisetMembers<T>(s: seq<T>, t: seq<T>, extra: multiset<T>)
    requires multiset(s) == multiset(t) + extra
    ensures forall x :: x in s <==> x in t || x in extra
  {
    forall x
      ensures x in s <==> x in t || x in extra
    {
      assert x in s <==> x in multiset(s);
      assert x in t <==> x in multiset(t);
    }
  }

  lemma {:induction false} SumExtra(f: Ref -> int, s: seq<Ref>, t: seq<Ref>, x: Ref)
    requires multiset(s) == multiset(t) + multiset{x}
    ensures Sum(f, s) == Sum(f, t) + f(x)
  {
    SumPermutation(f, s, t + [x]);
    SumSnoc(f, t, x);
  }

  lemma {:induction false} ActiveHolds(s: State, ref: Ref)
    requires WellFormed(s) && ref in s.active
    ensures ref < |s.jobs|
    ensures var k := KeyIndex(s.jobs, s.active, s.jobs[ref].id);
            && k < |s.active| && s.active[k] == ref
            && ActiveDelete(s.jobs, s.active, s.jobs[ref].id) == s.active[..k] + s.active[k + 1..]
    ensures forall x: Ref :: x in ActiveDelete(s.jobs, s.active, s.jobs[ref].id) <==> x in s.active && x != ref
  {
    var i :| 0 <= i < |s.active| && s.active[i] == ref;
    var k := KeyIndex(s.jobs, s.active, s.jobs[ref].id);
    assert k == i;
    ActiveDeleteFacts(s.jobs, s.active, s.jobs[ref].id);
    forall x: Ref | x in s.active && x != ref ensures Id(s.jobs, x) != s.jobs[ref].id {
      var j :| 0 <= j < |s.active| && s.active[j] == x;
    }
  }

  /** Settling releases the job from the active map and puts it in at most one other place. */
  lemma {:induction false} SettledCount(s: State, run: HandlerRun, outcome: Outcome, r: State, id: string)
    requires WellFormed(s) && run.job in s.active && SettledTo(s, run, outcome, r)
    ensures Tracked(r, id) <= Tracked(s, id)
  {
    hide Sum, UniqueKeys, JobsHandled, ActiveLeased, RunsKnown, Balanced, PendingSorted;
    var ref := run.job;
    ActiveHolds(s, ref);
    var k := KeyIndex(s.jobs, s.active, s.jobs[ref].id);
    assert forall x :: Id(r.jobs, x) == Id(s.jobs, x);
    SumRemove(HasId(s.jobs, id), s.active, k);
    SameIdsSameCount(s.jobs, r.jobs, r.active, id);
    SameIdsSameCount(s.jobs, r.jobs, r.pending, id);
    if Retries(s, run, outcome) {
      SumExtra(HasId(s.jobs, id), r.pending, s.pending, ref);
    } else {
      SumPermutation(HasId(s.jobs, id), r.pending, s.pending);
      if Dies(s, run, outcome) {
        SumAppend(DeadHasId(id), [ToDeadLetter(s.jobs[ref])], s.dead);
        SumSingle(DeadHasId(id), ToDeadLetter(s.jobs[ref]));
      }
    }
    if !Dies(s, run, outcome) {
      assert r.dead == s.dead;
    }
  }

  lemma {:induction false} SettledLeases(s: State, run: HandlerRun, outcome: Outcome, r: State)
    requires Structured(s) && run in s.unsettled - s.swept && SettledTo(s, run, outcome, r)
    ensures LeasesMatchRuns(r)
  {
    ActiveHolds(s, run.job);
    forall other | other in r.unsettled - r.swept
      ensures other.job < |r.jobs| && other.job in r.active && other.attempt == r.jobs[other.job].attempt
    {
      assert other in s.unsettled - s.swept;
    }
  }

  lemma {:induction false} SettledAttempts(s: State, run: HandlerRun, outcome: Outcome, r: State)
    requires Structured(s) && run in s.unsettled - s.swept && SettledTo(s, run, outcome, r)
    ensures AttemptsInRange(r) && DeadKnown(r)
  {
    var ref := run.job;
    ActiveHolds(s, ref);
    MultisetMembers(r.pending, s.pending, if Retries(s, run, outcome) then multiset{ref} else multiset{});
    assert s.jobs[ref].attempt <= s.jobs[ref].maxAttempts;
    forall entry | entry in r.dead ensures entry.attempts == entry.maxAttempts && !FreshId(r, entry.jobId) {
      if entry in s.dead {
        var k :| 0 <= k < |s.jobs| && s.jobs[k].id == entry.jobId;
        assert r.jobs[k].id == entry.jobId;
      } else {
        assert entry == ToDeadLetter(s.jobs[ref]);
        assert r.jobs[ref].id == entry.jobId;
      }
    }
  }

  lemma {:induction false} SettledStructured(s: State, run: HandlerRun, outcome: Outcome, now: int)
    requires Structured(s) && run in s.unsettled - s.swept
    ensures Structured(Settled(s, run, outcome, now))
  {
    var r := Settled(s, run, outcome, now);
    SettledWellFormed(s, run, outcome, now);
    SettledShape(s, run, outcome, now);
    SettledLeases(s, run, outcome, r);
    SettledAttempts(s, run, outcome, r);
    forall id ensures Tracked(r, id) <= 1 {
      SettledCount(s, run, outcome, r, id);
      assert Tracked(s, id) <= 1;
    }
  }

  // --- the sweep ---

  lemma {:induction false} FiltersPartition(f: Ref -> int, jobs: seq<Job>, refs: seq<Ref>, staleLeaseMs: int, now: int)
    ensures Sum(f, Filter(Fresh(jobs, staleLeaseMs, now), refs)) + Sum(f, Filter(Reclaimable(jobs, staleLeaseMs, now), refs))
          + Sum(f, Filter(Exhausted(jobs, staleLeaseMs, now), refs)) == Sum(f, refs)
  {
    if refs != [] {
      FiltersPartition(f, jobs, refs[1..], staleLeaseMs, now);
      SumAppend(f, [refs[0]], Filter(Fresh(jobs, staleLeaseMs, now), refs[1..]));
      SumAppend(f, [refs[0]], Filter(Reclaimable(jobs, staleLeaseMs, now), refs[1..]));
      SumAppend(f, [refs[0]], Filter(Exhausted(jobs, staleLeaseMs, now), refs[1..]));
      SumSingle(f, refs[0]);
    }
  }

  lemma {:induction false} DeadLettersCount(jobs: seq<Job>, refs: seq<Ref>, id: string)
    requires forall ref: Ref :: ref in refs ==> ref < |jobs|
    ensures Sum(DeadHasId(id), DeadLetters(jobs, refs)) == Sum(HasId(jobs, id), refs)
  {
    if refs != [] {
      var last := |refs| - 1;
      assert refs[last] in refs && forall ref: Ref :: ref in refs[..last] ==> ref in refs;
      DeadLettersCount(jobs, refs[..last], id);
      SumAppend(DeadHasId(id), [ToDeadLetter(jobs[refs[last]])], DeadLetters(jobs, refs[..last]));
      SumSingle(DeadHasId(id), ToDeadLetter(jobs[refs[last]]));
      assert refs == refs[..last] + [refs[last]];
      SumSnoc(HasId(jobs, id), refs[..last], refs[last]);
    }
  }

  lemma {:induction false} DeadLettersOf(jobs: seq<Job>, refs: seq<Ref>)
    requires forall ref: Ref :: ref in refs ==> ref < |jobs|
    ensures forall entry :: entry in DeadLetters(jobs, refs) ==> exists ref: Ref :: ref in refs && entry == ToDeadLetter(jobs[ref])
  {
    if refs != [] {
      var last := |refs| - 1;
      assert refs[last] in refs && forall ref: Ref :: ref in refs[..last] ==> ref in refs;
      DeadLettersOf(jobs, refs[..last]);
    }
  }

  /** The three lists hold the active entries between them, each entry in one. */
  ghost predicate SweepParts(s: State, kept: seq<Ref>, reclaimed: seq<Ref>, exhausted: seq<Ref>)
    requires forall x: Ref :: x in exhausted ==> x < |s.jobs|
  {
    && (forall id :: Sum(HasId(s.jobs, id), kept) + Sum(HasId(s.jobs, id), reclaimed) + Sum(HasId(s.jobs, id), exhausted)
                     == Sum(HasId(s.jobs, id), s.active))
    && (forall x: Ref :: x in s.active <==> x in kept || x in reclaimed || x in exhausted)
    && (forall x: Ref :: x in s.active ==> x < |s.jobs|)
    && (forall x: Ref :: x in kept ==> x !in reclaimed && x !in exhausted)
    && (forall x: Ref :: x in reclaimed ==> s.jobs[x].attempt < s.jobs[x].maxAttempts)
    && (forall x: Ref :: x in exhausted ==> s.jobs[x].attempt >= s.jobs[x].maxAttempts)
  }

  lemma {:induction false} PartsOfSweep(s: State, staleLeaseMs: int, now: int)
    requires RefsValid(s)
    ensures SweepParts(s, Filter(Fresh(s.jobs, staleLeaseMs, now), s.active), Filter(Reclaimable(s.jobs, staleLeaseMs, now), s.active),
                       Filter(Exhausted(s.jobs, staleLeaseMs, now), s.active))
  {
    hide Sum;
    FilterElements(Fresh(s.jobs, staleLeaseMs, now), s.active);
    FilterElements(Reclaimable(s.jobs, staleLeaseMs, now), s.active);
    FilterElements(Exhausted(s.jobs, staleLeaseMs, now), s.active);
    forall id {
      FiltersPartition(HasId(s.jobs, id), s.jobs, s.active, staleLeaseMs, now);
    }
  }

  /** The three ways of the entries of a sweep, and where its result keeps them. */
  ghost predicate SweptTo(s: State, kept: seq<Ref>, reclaimed: seq<Ref>, exhausted: seq<Ref>, now: int, r: State)
    requires forall x: Ref :: x in exhausted ==> x < |s.jobs|
  {
    && SweepReached(s, kept, reclaimed, exhausted, [], now, r.(pending := s.pending + reclaimed))
    && multiset(r.pending) == multiset(s.pending + reclaimed)
    && SweepParts(s, kept, reclaimed, exhausted)
  }

  lemma {:induction false} SweptShape(s: State, staleLeaseMs: int, now: int)
    requires WellFormed(s)
    ensures forall x: Ref :: x in Filter(Exhausted(s.jobs, staleLeaseMs, now), s.active) ==> x < |s.jobs|
    ensures SweptTo(s, Filter(Fresh(s.jobs, staleLeaseMs, now), s.active), Filter(Reclaimable(s.jobs, staleLeaseMs, now), s.active),
                    Filter(Exhausted(s.jobs, staleLeaseMs, now), s.active), now, Swept(s, staleLeaseMs, now))
  {
    hide SweepParts, SweptRuns, DeadLetters, SweepAll, Swept, Filter;
    SweptWellFormed(s, staleLeaseMs, now);
    PartsOfSweep(s, staleLeaseMs, now);
  }

  lemma {:induction false} SweptCount(s: State, kept: seq<Ref>, reclaimed: seq<Ref>, exhausted: seq<Ref>, now: int, r: State, id: string)
    requires forall x: Ref :: x in exhausted ==> x < |s.jobs|
    requires SweptTo(s, kept, reclaimed, exhausted, now, r)
    ensures Tracked(r, id) == Tracked(s, id)
  {
    assert forall x: Ref :: Id(r.jobs, x) == Id(s.jobs, x);
    SameIdsSameCount(s.jobs, r.jobs, r.pending, id);
    SameIdsSameCount(s.jobs, r.jobs, r.active, id);
    SumPermutation(HasId(s.jobs, id), r.pending, s.pending + reclaimed);
    SumAppend(HasId(s.jobs, id), s.pending, reclaimed);
    assert r.active == kept;
    DeadLettersCount(s.jobs, exhausted, id);
    SumAppend(DeadHasId(id), DeadLetters(s.jobs, exhausted), s.dead);
  }

  lemma {:induction false} SweptLeases(s: State, kept: seq<Ref>, reclaimed: seq<Ref>, exhausted: seq<Ref>, now: int, r: State)
    requires forall x: Ref :: x in exhausted ==> x < |s.jobs|
    requires LeasesMatchRuns(s) && SweptTo(s, kept, reclaimed, exhausted, now, r)
    ensures LeasesMatchRuns(r)
  {
    assert r.active == kept;
    forall x: Ref | x in kept ensures x < |r.jobs| && HandlerRun(x, r.jobs[x].attempt) in r.unsettled - r.swept {
      assert x !in reclaimed + exhausted;
    }
    forall run | run in r.unsettled - r.swept
      ensures run.job < |r.jobs| && run.job in kept && run.attempt == r.jobs[run.job].attempt
    {
      assert run in s.unsettled - s.swept;
      assert run.job !in reclaimed + exhausted;
    }
  }

  lemma {:induction false} SweptAttempts(s: State, kept: seq<Ref>, reclaimed: seq<Ref>, exhausted: seq<Ref>, now: int, r: State)
    requires forall x: Ref :: x in exhausted ==> x < |s.jobs|
    requires AttemptsInRange(s) && DeadKnown(s) && SweptTo(s, kept, reclaimed, exhausted, now, r)
    ensures AttemptsInRange(r) && DeadKnown(r)
  {
    assert r.active == kept;
    MultisetMembers(r.pending, s.pending + reclaimed, multiset{});
    forall x: Ref | x in r.pending ensures x < |r.jobs| && r.jobs[x].attempt < r.jobs[x].maxAttempts {
      assert x in s.pending || x in reclaimed;
    }
    DeadLettersOf(s.jobs, exhausted);
    forall entry | entry in r.dead ensures entry.attempts == entry.maxAttempts && !FreshId(r, entry.jobId) {
      if entry in DeadLetters(s.jobs, exhausted) {
        var ref: Ref :| ref in exhausted && entry == ToDeadLetter(s.jobs[ref]);
        assert r.jobs[ref].id == entry.jobId;
      } else {
        assert entry in s.dead;
        var k :| 0 <= k < |s.jobs| && s.jobs[k].id == entry.jobId;
        assert r.jobs[k].id == entry.jobId;
      }
    }
  }

  lemma {:induction false} SweptStructured(s: State, staleLeaseMs: int, now: int)
    requires Structured(s)
    ensures Structured(Swept(s, staleLeaseMs, now))
  {
    var kept := Filter(Fresh(s.jobs, staleLeaseMs, now), s.active);
    var reclaimed := Filter(Reclaimable(s.jobs, staleLeaseMs, now), s.active);
    var exhausted := Filter(Exhausted(s.jobs, staleLeaseMs, now), s.active);
    var r := Swept(s, staleLeaseMs, now);
    SweptWellFormed(s, staleLeaseMs, now);
    SweptShape(s, staleLeaseMs, now);
    SweptLeases(s, kept, reclaimed, exhausted, now, r);
    SweptAttempts(s, kept, reclaimed, exhausted, now, r);
    forall id ensures Tracked(r, id) <= 1 {
      SweptCount(s, kept, reclaimed, exhausted, now, r, id);
      assert Tracked(s, id) <= 1;
    }
  }

  // --- producers and operators ---

  lemma {:induction false} CountZero(jobs: seq<Job>, refs: seq<Ref>, id: string)
    requires forall ref: Ref :: ref in refs ==> Id(jobs, ref) != id
    ensures Sum(HasId(jobs, id), refs) == 0
  {
    if refs != [] {
      CountZero(jobs, refs[1..], id);
    }
  }

  lemma {:induction false} DeadZero(dead: seq<DeadLetter>, id: string)
    requires forall entry :: entry in dead ==> entry.jobId != id
    ensures Sum(DeadHasId(id), dead) == 0
  {
    if dead != [] {
      DeadZero(dead[1..], id);
    }
  }

  lemma {:induction false} FreshIsUntracked(s: State, id: string)
    requires Structured(s) && FreshId(s, id)
    ensures Tracked(s, id) == 0
  {
    forall ref: Ref | ref in s.pending ensures Id(s.jobs, ref) != id {
      assert ref < |s.jobs|;
    }
    forall ref: Ref | ref in s.active ensures Id(s.jobs, ref) != id {
      assert ref < |s.jobs|;
    }
    CountZero(s.jobs, s.pending, id);
    CountZero(s.jobs, s.active, id);
    DeadZero(s.dead, id);
  }

  /** A new job object on the pending list, everything else as before. */
  ghost predicate AddedTo(s: State, job: Job, r: State) {
    && r.jobs == s.jobs + [job]
    && multiset(r.pending) == multiset(s.pending) + multiset{|s.jobs| as Ref}
    && r.active == s.active && r.dead == s.dead && r.unsettled == s.unsettled && r.swept == s.swept
  }

  lemma {:induction false} AddedStructured(s: State, job: Job, r: State)
    requires Structured(s) && WellFormed(r) && AddedTo(s, job, r)
    requires Tracked(s, job.id) == 0 && job.attempt == 0 && job.maxAttempts >= 1
    ensures Structured(r)
  {
    var ref: Ref := |s.jobs|;
    MultisetMembers(r.pending, s.pending, multiset{ref});
    forall x: Ref | x in s.pending || x in s.active ensures x < |s.jobs| && Id(r.jobs, x) == Id(s.jobs, x) {
    }
    forall id ensures Tracked(r, id) <= 1 {
      assert Tracked(s, id) <= 1;
      SumExtra(HasId(r.jobs, id), r.pending, s.pending, ref);
      SameIdsSameCount(s.jobs, r.jobs, s.pending, id);
      SameIdsSameCount(s.jobs, r.jobs, s.active, id);
    }
    SameIdsDeadKnown(s, r);
    assert AttemptsInRange(r);
    assert LeasesMatchRuns(r);
  }

  lemma {:induction false} RemoveDeadStructured(s: State, i: nat)
    requires Structured(s) && i < |s.dead|
    ensures Structured(RemoveDead(s, i))
    ensures Tracked(RemoveDead(s, i), s.dead[i].jobId) == 0
  {
    var r := RemoveDead(s, i);
    DeadLetterHandled(s, i);
    forall id
      ensures Tracked(r, id) == Tracked(s, id) - DeadHasId(id)(s.dead[i])
    {
      SumRemove(DeadHasId(id), s.dead, i);
    }
    forall id ensures Tracked(r, id) <= 1 {
      assert Tracked(s, id) <= 1;
    }
    var id := s.dead[i].jobId;
    assert Tracked(s, id) <= 1;
    CountHasId(s.jobs, s.pending, id);
    CountHasId(s.jobs, s.active, id);
    CountDead(r.dead, id);
    assert forall entry :: entry in r.dead ==> entry in s.dead;
  }

  lemma {:induction false} EnqueuedStructured(s: State, job: Job)
    requires Structured(s) && job.jobType in s.handlers && job.attempt == 0 && job.maxAttempts >= 1
    requires Tracked(s, job.id) == 0
    ensures Structured(Enqueued(s, job))
  {
    EnqueuedWellFormed(s, job);
    AddedStructured(s, job, Enqueued(s, job));
  }

  lemma {:induction false} ReplayedStructured(s: State, i: nat, newId: string, now: int)
    requires Structured(s) && i < |s.dead| && FreshId(s, newId)
    ensures Structured(Replayed(s, i, newId, now))
  {
    var entry := s.dead[i];
    DeadLetterHandled(s, i);
    RemoveDeadStructured(s, i);
    FreshIsUntracked(RemoveDead(s, i), newId);
    EnqueuedStructured(RemoveDead(s, i), NewJob(newId, entry.jobType, entry.payload, None, Some(entry.maxAttempts), now));
  }

  lemma {:induction false} ForceRetriedStructured(s: State, i: nat, now: int)
    requires Structured(s) && i < |s.dead|
    ensures Structured(ForceRetried(s, i, now))
  {
    var job := Revived(s.dead[i], now);
    var removed := RemoveDead(s, i);
    DeadLetterHandled(s, i);
    RemoveDeadStructured(s, i);
    NewObjectSound(removed, job);
    RequeueWellFormed(removed.(jobs := s.jobs + [job]), |s.jobs|);
    AddedStructured(removed, job, ForceRetried(s, i, now));
  }

  lemma {:induction false} HurriedUpStructured(s: State, i: nat, now: int)
    requires Structured(s) && i < |s.pending|
    ensures Structured(HurriedUp(s, i, now))
  {
    hide Sort, Sum, UniqueKeys, JobsHandled, ActiveLeased, RunsKnown, Balanced, PendingSorted;
    var r := HurriedUp(s, i, now);
    HurriedUpWellFormed(s, i, now);
    MultisetMembers(r.pending, s.pending, multiset{});
    assert forall x: Ref :: Id(r.jobs, x) == Id(s.jobs, x);
    forall id ensures Tracked(r, id) <= 1 {
      assert Tracked(s, id) <= 1;
      SumPermutation(HasId(r.jobs, id), r.pending, s.pending);
      SameIdsSameCount(s.jobs, r.jobs, s.pending, id);
      SameIdsSameCount(s.jobs, r.jobs, s.active, id);
    }
    SameIdsDeadKnown(s, r);
    assert AttemptsInRange(r);
    assert LeasesMatchRuns(r);
  }

  // --- runs in which swept handlers never settle ---

  predicate NoLateSettle(s: State, step: Step) {
    step.Settle? ==> step.run !in s.swept
  }

  lemma {:induction false} SwitchedStructured(s: State, handlers: set<JobType>, running: bool)
    requires Structured(s) && s.handlers <= handlers
    ensures Structured(s.(handlers := handlers, running := running))
  {
    var r := s.(handlers := handlers, running := running);
    forall id ensures Tracked(r, id) <= 1 {
      assert Tracked(s, id) <= 1;
    }
  }

  lemma {:induction false} OperatorStructured(s: State, step: Step)
    requires Structured(s) && Enabled(s, step) && (step.Replay? || step.Retry?)
    ensures Structured(Effect(s, step).0)
  {
    var d := DeadIndex(s.dead, step.jobId);
    if d < |s.dead| {
      match step
      case Replay(_, newId, now) => ReplayedStructured(s, d, newId, now);
      case Retry(_, _, now) => ForceRetriedStructured(s, d, now);
    } else if step.Retry? {
      var p := KeyIndex(s.jobs, s.pending, step.jobId);
      if p < |s.pending| {
        HurriedUpStructured(s, p, step.now);
      }
    }
  }

  lemma {:induction false} EffectStructured(s: State, step: Step)
    requires Structured(s) && Enabled(s, step) && NoLateSettle(s, step)
    ensures Structured(Effect(s, step).0)
  {
    match step
    case RegisterHandler(t) => SwitchedStructured(s, s.handlers + {t}, s.running);
    case Enqueue(id, t, payload, delayMs, maxAttempts, now) =>
      if t in s.handlers {
        FreshIsUntracked(s, id);
        EnqueuedStructured(s, NewJob(id, t, payload, delayMs, maxAttempts, now));
      }
    case Settle(run, outcome, now) => SettledStructured(s, run, outcome, now);
    case Sweep(staleLeaseMs, now) => SweptStructured(s, staleLeaseMs, now);
    case Replay(_, _, _) => OperatorStructured(s, step);
    case Retry(_, _, _) => OperatorStructured(s, step);
    case Poll(_) =>
    case Start(_) => SwitchedStructured(s, s.handlers, true);
    case Stop => SwitchedStructured(s, s.handlers, false);
  }

  lemma {:induction false} NextStructured(s: State, step: Step)
    requires Structured(s) && Enabled(s, step) && NoLateSettle(s, step)
    ensures Structured(Next(s, step))
  {
    EffectStructured(s, step);
    DrainStructured(Effect(s, step).0, StepTime(step));
  }

  ghost predicate Punctual(s: State, steps: seq<Step>)
    requires WellFormed(s) && Feasible(s, steps)
    decreases |steps|
  {
    steps == [] || (NoLateSettle(s, steps[0]) && (NextWellFormed(s, steps[0]); Punctual(Next(s, steps[0]), steps[1..])))
  }

  /** In a run where no swept handler settles, each job id is in at most one of the pending list, the
      active map and the dead letters, and the attempt bounds of all three hold. */
  lemma {:induction false} RunsStructured(s: State, steps: seq<Step>)
    requires Structured(s) && Feasible(s, steps) && Punctual(s, steps)
    ensures Structured(After(s, steps))
    decreases |steps|
  {
    if steps != [] {
      NextStructured(s, steps[0]);
      RunsStructured(Next(s, steps[0]), steps[1..]);
    }
  }
}
