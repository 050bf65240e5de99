/** The queue class: its methods, in the form of the source, refine the steps of JobQueueSpec. */
module JobQueue {
  import opened Wrappers
  import opened Sorting
  import opened Sums
  import opened JobQueueSpec
  import opened JobQueueInvariants
  import opened JobQueueStructure
  import opened JobQueueProgress

  const DEFAULT_CONCURRENCY: nat := 2
  const NO_HANDLER := "No job handler registered for type"
  const NOT_FOUND := "Dead-letter job not found"
  const EXHAUSTED := "max_attempts is exhausted. Use ?force=true to retry anyway."
  const NOT_FAILED := "Job not found or not in a failed state"

  datatype ReclaimedJob = ReclaimedJob(jobId: string, jobType: JobType, attempt: nat, maxAttempts: nat, leaseAgeMs: int)

  datatype TypeDepth = TypeDepth(queued: int, delayed: int, active: int, stuckActive: int, deadLetter: int)

  function ReceiptOf(job: Job): Receipt {
    Receipt(job.id, job.jobType, job.runAt, job.maxAttempts)
  }

  function LeaseAge(job: Job, now: int): int {
    if job.leasedAt.Some? then now - job.leasedAt.value else 0
  }

  /** The records a sweep returns for the jobs it put back, in the order of the snapshot. */
  function ReclaimRecords(jobs: seq<Job>, refs: seq<Ref>, now: int): (r: seq<ReclaimedJob>)
    requires forall ref: Ref :: ref in refs ==> ref < |jobs|
    ensures |r| == |refs|
  {
    if refs == [] then []
    else
      var last := |refs| - 1;
      assert refs[last] in refs && forall ref: Ref :: ref in refs[..last] ==> ref in refs;
      var job := jobs[refs[last]];
      ReclaimRecords(jobs, refs[..last], now)
      + [ReclaimedJob(job.id, job.jobType, job.attempt, job.maxAttempts, LeaseAge(job, now))]
  }

  /** The letters a sweep returns, in the order of the snapshot. */
  predicate LettersOf(jobs: seq<Job>, refs: seq<Ref>, letters: seq<DeadLetter>) {
    && |letters| == |refs|
    && (forall k :: 0 <= k < |refs| ==> refs[k] < |jobs| && letters[k] == ToDeadLetter(jobs[refs[k]]))
  }

  lemma {:induction false} NoLetters(jobs: seq<Job>)
    ensures LettersOf(jobs, [], [])
  {
  }

  lemma {:induction false} LetterNext(jobs: seq<Job>, refs: seq<Ref>, letters: seq<DeadLetter>, ref: Ref, exhausted: bool)
    requires LettersOf(jobs, refs, letters) && ref < |jobs|
    ensures LettersOf(jobs, refs + (if exhausted then [ref] else []),
                      letters + (if exhausted then [ToDeadLetter(jobs[ref])] else []))
  {
    hide ToDeadLetter;
    assert refs + [] == refs && letters + [] == letters;
  }

  // --- the depth report ---

  function Indicator(b: bool): int {
    if b then 1 else 0
  }

  function QueuedOf(jobs: seq<Job>, t: JobType, now: int): Ref -> int {
    (ref: Ref) => Indicator(ref < |jobs| && jobs[ref].jobType == t && jobs[ref].runAt <= now)
  }

  function DelayedOf(jobs: seq<Job>, t: JobType, now: int): Ref -> int {
    (ref: Ref) => Indicator(ref < |jobs| && jobs[ref].jobType == t && jobs[ref].runAt > now)
  }

  function OfType(jobs: seq<Job>, t: JobType): Ref -> int {
    (ref: Ref) => Indicator(ref < |jobs| && jobs[ref].jobType == t)
  }

  function StuckOf(jobs: seq<Job>, t: JobType, staleLeaseMs: int, now: int): Ref -> int {
    (ref: Ref) => Indicator(ref < |jobs| && jobs[ref].jobType == t && Stale(jobs, ref, staleLeaseMs, now))
  }

  function DeadOf(t: JobType): DeadLetter -> int {
    (entry: DeadLetter) => Indicator(entry.jobType == t)
  }

  ghost predicate Reports(jobs: seq<Job>, pending: seq<Ref>, active: seq<Ref>, dead: seq<DeadLetter>, t: JobType,
                          staleLeaseMs: int, now: int, d: TypeDepth) {
    && d.queued == Sum(QueuedOf(jobs, t, now), pending)
    && d.delayed == Sum(DelayedOf(jobs, t, now), pending)
    && d.active == Sum(OfType(jobs, t), active)
    && d.stuckActive == Sum(StuckOf(jobs, t, staleLeaseMs, now), active)
    && d.deadLetter == Sum(DeadOf(t), dead)
  }

  /** Where the sequence holds an element that is counted. */
  ghost function Places<T>(counts: T -> bool, s: seq<T>): set<nat> {
    set k: nat | k < |s| && counts(s[k])
  }

  lemma {:induction false} SumCounts<T>(f: T -> int, counts: T -> bool, s: seq<T>)
    requires forall x :: x in s ==> f(x) == if counts(x) then 1 else 0
    ensures Sum(f, s) == |Places(counts, s)|
    decreases |s|
  {
    if s != [] {
      var n: nat := |s| - 1;
      SumCounts(f, counts, s[..n]);
      assert s == s[..n] + [s[n]];
      SumSnoc(f, s[..n], s[n]);
      assert Places(counts, s) == if counts(s[n]) then Places(counts, s[..n]) + {n} else Places(counts, s[..n]);
    }
  }

  lemma {:induction false} Measured(jobs: seq<Job>, t: JobType, staleLeaseMs: int, now: int, ref: Ref)
    ensures QueuedOf(jobs, t, now)(ref) == if ref < |jobs| && jobs[ref].jobType == t && jobs[ref].runAt <= now then 1 else 0
    ensures DelayedOf(jobs, t, now)(ref) == if ref < |jobs| && jobs[ref].jobType == t && now < jobs[ref].runAt then 1 else 0
    ensures OfType(jobs, t)(ref) == if ref < |jobs| && jobs[ref].jobType == t then 1 else 0
    ensures StuckOf(jobs, t, staleLeaseMs, now)(ref)
         == if ref < |jobs| && jobs[ref].jobType == t && jobs[ref].leasedAt.Some? && now - jobs[ref].leasedAt.value > staleLeaseMs
            then 1 else 0
  {
  }

  /** A report counts, of its type, the pending jobs that are due and those that are not, the active jobs, the ones
      among them whose lease is older than the limit, and the dead letters. */
  lemma {:induction false} ReportTells(jobs: seq<Job>, pending: seq<Ref>, active: seq<Ref>, dead: seq<DeadLetter>, t: JobType,
                                       staleLeaseMs: int, now: int, d: TypeDepth)
    requires Reports(jobs, pending, active, dead, t, staleLeaseMs, now, d)
    ensures var due := (ref: Ref) => ref < |jobs| && jobs[ref].jobType == t && jobs[ref].runAt <= now;
            d.queued == |Places(due, pending)|
    ensures var waiting := (ref: Ref) => ref < |jobs| && jobs[ref].jobType == t && now < jobs[ref].runAt;
            d.delayed == |Places(waiting, pending)|
    ensures var ofType := (ref: Ref) => ref < |jobs| && jobs[ref].jobType == t;
            d.active == |Places(ofType, active)|
    ensures var stuck := (ref: Ref) => ref < |jobs| && jobs[ref].jobType == t && jobs[ref].leasedAt.Some?
                                       && now - jobs[ref].leasedAt.value > staleLeaseMs;
            d.stuckActive == |Places(stuck, active)|
    ensures var ofType := (letter: DeadLetter) => letter.jobType == t;
            d.deadLetter == |Places(ofType, dead)|
  {
    hide Places, QueuedOf, DelayedOf, OfType, StuckOf, Sum;
    var due := (ref: Ref) => ref < |jobs| && jobs[ref].jobType == t && jobs[ref].runAt <= now;
    var waiting := (ref: Ref) => ref < |jobs| && jobs[ref].jobType == t && now < jobs[ref].runAt;
    var ofType := (ref: Ref) => ref < |jobs| && jobs[ref].jobType == t;
    var stuck := (ref: Ref) => ref < |jobs| && jobs[ref].jobType == t && jobs[ref].leasedAt.Some?
                               && now - jobs[ref].leasedAt.value > staleLeaseMs;
    forall ref: Ref
      ensures QueuedOf(jobs, t, now)(ref) == if due(ref) then 1 else 0
      ensures DelayedOf(jobs, t, now)(ref) == if waiting(ref) then 1 else 0
      ensures OfType(jobs, t)(ref) == if ofType(ref) then 1 else 0
      ensures StuckOf(jobs, t, staleLeaseMs, now)(ref) == if stuck(ref) then 1 else 0
    {
      Measured(jobs, t, staleLeaseMs, now, ref);
    }
    SumCounts(QueuedOf(jobs, t, now), due, pending);
    SumCounts(DelayedOf(jobs, t, now), waiting, pending);
    SumCounts(OfType(jobs, t), ofType, active);
    SumCounts(StuckOf(jobs, t, staleLeaseMs, now), stuck, active);
    SumCounts(DeadOf(t), (letter: DeadLetter) => letter.jobType == t, dead);
  }

  /** The sum of one measure over the job types. */
  function OverTypes(f: JobType -> int): int {
    Sum(f, JOB_TYPES)
  }

  /** Each job type is listed once. */
  lemma {:induction false} TypeListed(t: JobType)
    ensures multiset(JOB_TYPES)[t] == 1 && t in JOB_TYPES
  {
    assert multiset(JOB_TYPES) == multiset{NotificationSend, DeadlineCheck, OracleCall, AnalyticsRecompute,
                                           ExportGenerate, SessionsCleanup, OutboxRelay, EmbeddingsReindex};
    assert t in multiset(JOB_TYPES);
  }

  /** A measure that is zero for all types but one sums up to its value there. */
  lemma {:induction false} OneType(f: JobType -> int, t: JobType)
    requires forall other: JobType :: other != t ==> f(other) == 0
    ensures OverTypes(f) == f(t)
  {
    TypeListed(t);
    SumOfOne(f, JOB_TYPES, t);
  }

  function StuckPerType(jobs: seq<Job>, refs: seq<Ref>, staleLeaseMs: int, now: int): JobType -> int {
    (t: JobType) => Sum(StuckOf(jobs, t, staleLeaseMs, now), refs)
  }

  function WaitingPerType(jobs: seq<Job>, refs: seq<Ref>, now: int): JobType -> int {
    (t: JobType) => Sum(QueuedOf(jobs, t, now), refs) + Sum(DelayedOf(jobs, t, now), refs)
  }

  function ActivePerType(jobs: seq<Job>, refs: seq<Ref>): JobType -> int {
    (t: JobType) => Sum(OfType(jobs, t), refs)
  }

  lemma {:induction false} SumOfSums<T>(f: T -> int, g: T -> int, h: T -> int, s: seq<T>)
    requires forall x :: x in s ==> h(x) == f(x) + g(x)
    ensures Sum(h, s) == Sum(f, s) + Sum(g, s)
  {
    if s != [] {
      SumOfSums(f, g, h, s[1..]);
    }
  }

  /** Splitting the stuck leases by job type loses none and counts none twice. */
  lemma {:induction false} StuckByType(jobs: seq<Job>, refs: seq<Ref>, staleLeaseMs: int, now: int)
    requires forall ref: Ref :: ref in refs ==> ref < |jobs|
    ensures OverTypes(StuckPerType(jobs, refs, staleLeaseMs, now)) == Sum(StuckLease(jobs, staleLeaseMs, now), refs)
    decreases |refs|
  {
    hide Stale, OverTypes;
    if refs == [] {
      OneType(StuckPerType(jobs, refs, staleLeaseMs, now), NotificationSend);
    } else {
      assert refs[0] in refs && forall ref: Ref :: ref in refs[1..] ==> ref in refs;
      StuckByType(jobs, refs[1..], staleLeaseMs, now);
      var first := (t: JobType) => StuckOf(jobs, t, staleLeaseMs, now)(refs[0]);
      OneType(first, jobs[refs[0]].jobType);
      TypesSplit(first, StuckPerType(jobs, refs[1..], staleLeaseMs, now), StuckPerType(jobs, refs, staleLeaseMs, now));
    }
  }

  lemma {:induction false} TypesSplit(f: JobType -> int, g: JobType -> int, h: JobType -> int)
    requires forall t: JobType :: h(t) == f(t) + g(t)
    ensures OverTypes(h) == OverTypes(f) + OverTypes(g)
  {
    SumOfSums(f, g, h, JOB_TYPES);
  }

  lemma {:induction false} ActiveByType(jobs: seq<Job>, refs: seq<Ref>)
    requires forall ref: Ref :: ref in refs ==> ref < |jobs|
    ensures OverTypes(ActivePerType(jobs, refs)) == |refs|
    decreases |refs|
  {
    hide OverTypes;
    if refs == [] {
      OneType(ActivePerType(jobs, refs), NotificationSend);
    } else {
      assert refs[0] in refs && forall ref: Ref :: ref in refs[1..] ==> ref in refs;
      ActiveByType(jobs, refs[1..]);
      var first := (t: JobType) => OfType(jobs, t)(refs[0]);
      OneType(first, jobs[refs[0]].jobType);
      TypesSplit(first, ActivePerType(jobs, refs[1..]), ActivePerType(jobs, refs));
    }
  }

  lemma {:induction false} WaitingByType(jobs: seq<Job>, refs: seq<Ref>, now: int)
    requires forall ref: Ref :: ref in refs ==> ref < |jobs|
    ensures OverTypes(WaitingPerType(jobs, refs, now)) == |refs|
  {
    forall t: JobType ensures WaitingPerType(jobs, refs, now)(t) == ActivePerType(jobs, refs)(t) {
      assert forall ref: Ref :: ref in refs ==> OfType(jobs, t)(ref) == QueuedOf(jobs, t, now)(ref) + DelayedOf(jobs, t, now)(ref);
      SumOfSums(QueuedOf(jobs, t, now), DelayedOf(jobs, t, now), OfType(jobs, t), refs);
    }
    SumCongruent(WaitingPerType(jobs, refs, now), ActivePerType(jobs, refs), JOB_TYPES);
    ActiveByType(jobs, refs);
  }

  function DepthPerType(jobs: seq<Job>, pending: seq<Ref>, active: seq<Ref>, now: int): JobType -> int {
    (t: JobType) => WaitingPerType(jobs, pending, now)(t) + ActivePerType(jobs, active)(t)
  }

  lemma {:induction false} DepthByType(jobs: seq<Job>, pending: seq<Ref>, active: seq<Ref>, now: int)
    requires forall i :: 0 <= i < |pending| ==> pending[i] < |jobs|
    requires forall i :: 0 <= i < |active| ==> active[i] < |jobs|
    ensures OverTypes(DepthPerType(jobs, pending, active, now)) == |pending| + |active|
  {
    WaitingByType(jobs, pending, now);
    ActiveByType(jobs, active);
    SumOfSums(WaitingPerType(jobs, pending, now), ActivePerType(jobs, active), DepthPerType(jobs, pending, active, now), JOB_TYPES);
  }

  /** A replay is the removal of the dead letter followed by an ordinary enqueue. */
  lemma {:induction false} ReplayIsEnqueue(s: State, i: nat, newId: string, now: int)
    requires WellFormed(s) && i < |s.dead| && DeadIndex(s.dead, s.dead[i].jobId) == i
    ensures WellFormed(RemoveDead(s, i))
    ensures var entry := s.dead[i];
            Next(s, Replay(entry.jobId, newId, now))
            == Next(RemoveDead(s, i), JobQueueSpec.Enqueue(newId, entry.jobType, entry.payload, None, Some(entry.maxAttempts), now))
  {
    DeadLetterHandled(s, i);
  }

  /** When the sweep reaches an entry of its snapshot, the job is as it was and still leased. */
  lemma {:induction false} BeforeEntry(s: State, i: nat, staleLeaseMs: int, now: int)
    requires Sound(s) && i < |s.active|
    ensures var r := SweepAll(s, s.active[..i], staleLeaseMs, now);
            var ref := s.active[i];
            && ref < |s.jobs| && |r.jobs| == |s.jobs| && r.jobs[ref] == s.jobs[ref] && Leased(r.jobs, ref)
            && r.totals.retried - s.totals.retried == |Filter(Reclaimable(s.jobs, staleLeaseMs, now), s.active[..i])|
    ensures Filter(Reclaimable(s.jobs, staleLeaseMs, now), s.active[..i + 1])
         == Filter(Reclaimable(s.jobs, staleLeaseMs, now), s.active[..i])
            + (if Reclaimable(s.jobs, staleLeaseMs, now)(s.active[i]) then [s.active[i]] else [])
    ensures Filter(Exhausted(s.jobs, staleLeaseMs, now), s.active[..i + 1])
         == Filter(Exhausted(s.jobs, staleLeaseMs, now), s.active[..i])
            + (if Exhausted(s.jobs, staleLeaseMs, now)(s.active[i]) then [s.active[i]] else [])
  {
    assert s.active == s.active[..i] + s.active[i..];
    SweepPrefix(s, s.active[..i], s.active[i..], staleLeaseMs, now);
    SnapshotDistinct(s, i);
    assert Leased(s.jobs, s.active[i]);
    assert s.active[..i + 1] == s.active[..i] + [s.active[i]];
    FilterSnoc(Reclaimable(s.jobs, staleLeaseMs, now), s.active[..i], s.active[i]);
    FilterSnoc(Exhausted(s.jobs, staleLeaseMs, now), s.active[..i], s.active[i]);
  }

  lemma {:induction false} SweepAllSnoc(s: State, snapshot: seq<Ref>, i: nat, staleLeaseMs: int, now: int)
    requires i < |snapshot|
    ensures SweepAll(s, snapshot[..i + 1], staleLeaseMs, now)
         == SweepOne(SweepAll(s, snapshot[..i], staleLeaseMs, now), snapshot[i], staleLeaseMs, now)
  {
    assert snapshot[..i + 1][..i] == snapshot[..i];
  }

  lemma {:induction false} RetriedIsReclaimed(s: State, staleLeaseMs: int, now: int)
    requires WellFormed(s)
    ensures SweepAll(s, s.active, staleLeaseMs, now).totals.retried - s.totals.retried
         == |Filter(Reclaimable(s.jobs, staleLeaseMs, now), s.active)|
  {
    SweptWellFormed(s, staleLeaseMs, now);
  }

  lemma {:induction false} SweepIs(s: State, r: State, reclaimed: nat, staleLeaseMs: int, now: int)
    requires RefsValid(s) && RefsValid(r) && r == SweepAll(s, s.active, staleLeaseMs, now)
    requires r.totals.retried - s.totals.retried == reclaimed
    ensures Next(s, Sweep(staleLeaseMs, now)) == if reclaimed > 0 then JobQueueSpec.Drain(SortPending(r), now) else r
  {
    assert Swept(s, staleLeaseMs, now) == if reclaimed > 0 then SortPending(r) else r;
    assert Effect(s, Sweep(staleLeaseMs, now)) == (Swept(s, staleLeaseMs, now), reclaimed > 0);
  }

  lemma {:induction false} SettleIs(s: State, run: HandlerRun, outcome: Outcome, now: int)
    requires RefsValid(s) && run.job < |s.jobs|
    ensures Next(s, Settle(run, outcome, now)) == JobQueueSpec.Drain(Settled(s, run, outcome, now), now)
  {
  }

  lemma {:induction false} DepthOfType(jobs: seq<Job>, pending: seq<Ref>, active: seq<Ref>, dead: seq<DeadLetter>, t: JobType,
                    staleLeaseMs: int, now: int, d: TypeDepth)
    requires Reports(jobs, pending, active, dead, t, staleLeaseMs, now, d)
    ensures DepthPerType(jobs, pending, active, now)(t) == d.queued + d.delayed + d.active
  {
    assert WaitingPerType(jobs, pending, now)(t) == d.queued + d.delayed;
    assert ActivePerType(jobs, active)(t) == d.active;
  }

  /** What one job adds to the depth of its type. */
  function PlusPending(d: TypeDepth, job: Job, now: int): TypeDepth {
    if job.runAt <= now then d.(queued := d.queued + 1) else d.(delayed := d.delayed + 1)
  }

  function PlusActive(d: TypeDepth, job: Job, staleLeaseMs: int, now: int): TypeDepth {
    d.(active := d.active + 1, stuckActive := if LeaseAge(job, now) > staleLeaseMs then d.stuckActive + 1 else d.stuckActive)
  }

  lemma {:induction false} ReportsPending(jobs: seq<Job>, refs: seq<Ref>, ref: Ref, t: JobType, staleLeaseMs: int, now: int, d: TypeDepth)
    requires ref < |jobs| && Reports(jobs, refs, [], [], t, staleLeaseMs, now, d)
    ensures Reports(jobs, refs + [ref], [], [], t, staleLeaseMs, now,
                    if jobs[ref].jobType == t then PlusPending(d, jobs[ref], now) else d)
  {
    SumSnoc(QueuedOf(jobs, t, now), refs, ref);
    SumSnoc(DelayedOf(jobs, t, now), refs, ref);
  }

  lemma {:induction false} ReportsActive(jobs: seq<Job>, pending: seq<Ref>, refs: seq<Ref>, ref: Ref, t: JobType, staleLeaseMs: int, now: int, d: TypeDepth)
    requires Leased(jobs, ref) && Reports(jobs, pending, refs, [], t, staleLeaseMs, now, d)
    ensures Reports(jobs, pending, refs + [ref], [], t, staleLeaseMs, now,
                    if jobs[ref].jobType == t then PlusActive(d, jobs[ref], staleLeaseMs, now) else d)
  {
    SumSnoc(OfType(jobs, t), refs, ref);
    SumSnoc(StuckOf(jobs, t, staleLeaseMs, now), refs, ref);
  }

  lemma {:induction false} RecordsTurn(s: State, i: nat, staleLeaseMs: int, now: int)
    requires Sound(s) && i < |s.active|
    ensures s.active[i] < |s.jobs|
    ensures var ref := s.active[i];
            var before := Filter(Reclaimable(s.jobs, staleLeaseMs, now), s.active[..i]);
            var after := Filter(Reclaimable(s.jobs, staleLeaseMs, now), s.active[..i + 1]);
            && (forall x: Ref :: x in before || x in after ==> x < |s.jobs|)
            && ReclaimRecords(s.jobs, after, now)
               == ReclaimRecords(s.jobs, before, now)
                  + (if Reclaimable(s.jobs, staleLeaseMs, now)(ref)
                     then [ReclaimedJob(s.jobs[ref].id, s.jobs[ref].jobType, s.jobs[ref].attempt, s.jobs[ref].maxAttempts, LeaseAge(s.jobs[ref], now))]
                     else [])
  {
    hide Sound, SweepAll, ReclaimRecords;
    BeforeEntry(s, i, staleLeaseMs, now);
    var before := Filter(Reclaimable(s.jobs, staleLeaseMs, now), s.active[..i]);
    RecordsSnoc(s.jobs, before, s.active[i], now);
    assert before + [] == before;
  }

  lemma {:induction false} RecordsSnoc(jobs: seq<Job>, refs: seq<Ref>, ref: Ref, now: int)
    requires ref < |jobs| && forall x: Ref :: x in refs ==> x < |jobs|
    ensures forall x: Ref :: x in refs + [ref] ==> x < |jobs|
    ensures ReclaimRecords(jobs, refs + [ref], now) == ReclaimRecords(jobs, refs, now)
         + [ReclaimedJob(jobs[ref].id, jobs[ref].jobType, jobs[ref].attempt, jobs[ref].maxAttempts, LeaseAge(jobs[ref], now))]
  {
    assert (refs + [ref])[..|refs|] == refs;
  }

  lemma {:induction false} ReportsDead(jobs: seq<Job>, pending: seq<Ref>, active: seq<Ref>, dead: seq<DeadLetter>, entry: DeadLetter,
                                       t: JobType, staleLeaseMs: int, now: int, d: TypeDepth)
    requires Reports(jobs, pending, active, dead, t, staleLeaseMs, now, d)
    ensures Reports(jobs, pending, active, dead + [entry], t, staleLeaseMs, now,
                    if entry.jobType == t then d.(deadLetter := d.deadLetter + 1) else d)
  {
    SumSnoc(DeadOf(t), dead, entry);
  }

  lemma {:induction false} ReportsNothing(jobs: seq<Job>, t: JobType, staleLeaseMs: int, now: int)
    ensures Reports(jobs, [], [], [], t, staleLeaseMs, now, TypeDepth(0, 0, 0, 0, 0))
  {
  }

  class InMemoryJobQueue {
    var handlers: set<JobType>
    var jobs: seq<Job>
    var pendingJobs: seq<Ref>
    var activeJobs: seq<Ref>
    var deadLetterJobs: seq<DeadLetter>
    var totals: Totals
    const concurrency: nat
    var running: bool

    ghost var unsettled: set<HandlerRun>
    ghost var swept: set<HandlerRun>
    ghost var leasesSwept: nat
    ghost var dropped: nat

    ghost function Abs(): State
      reads this
    {
      State(handlers, jobs, pendingJobs, activeJobs, deadLetterJobs, totals, concurrency, running,
            unsettled, swept, leasesSwept, dropped)
    }

    constructor (concurrencyOption: Option<int>)
      ensures Initial(Abs()) && WellFormed(Abs()) && !running && handlers == {}
      ensures concurrency == if concurrencyOption.Some? && concurrencyOption.value > 0
                             then concurrencyOption.value else DEFAULT_CONCURRENCY
    {
      handlers, jobs, pendingJobs, activeJobs, deadLetterJobs := {}, [], [], [], [];
      totals := Totals(0, 0, 0, 0, 0);
      concurrency := if concurrencyOption.Some? && concurrencyOption.value > 0 then concurrencyOption.value else DEFAULT_CONCURRENCY;
      running := false;
      unsettled, swept, leasesSwept, dropped := {}, {}, 0, 0;
    }

    method RegisterHandler(jobType: JobType)
      requires WellFormed(Abs())
      modifies this`handlers
      ensures Abs() == Next(old(Abs()), JobQueueSpec.RegisterHandler(jobType)) && WellFormed(Abs())
    {
      NextWellFormed(Abs(), JobQueueSpec.RegisterHandler(jobType));
      handlers := handlers + {jobType};
    }

    method SortPendingJobs()
      modifies this`pendingJobs
      ensures Abs() == SortPending(old(Abs()))
    {
      pendingJobs := Sort(ByRunAt(jobs), pendingJobs);
    }

    method RunJob(ref: Ref, now: int)
      requires ref < |jobs|
      modifies this
      ensures Abs() == JobQueueSpec.RunJob(old(Abs()), ref, now) && pendingJobs == old(pendingJobs)
    {
      if jobs[ref].jobType !in handlers {
        return;
      }
      jobs := jobs[ref := jobs[ref].(attempt := jobs[ref].attempt + 1, leasedAt := Some(now))];
      activeJobs := ActiveSet(jobs, activeJobs, ref);
      totals := totals.(executions := totals.executions + 1);
      unsettled := unsettled + {HandlerRun(ref, jobs[ref].attempt)};
    }

    method Drain(now: int)
      requires RefsValid(Abs())
      modifies this
      ensures Abs() == JobQueueSpec.Drain(old(Abs()), now)
    {
      hide JobQueueSpec.RunJob;
      while running && |activeJobs| < concurrency
        invariant RefsValid(Abs())
        invariant JobQueueSpec.Drain(Abs(), now) == JobQueueSpec.Drain(old(Abs()), now)
        decreases |pendingJobs|
      {
        var nextIndex := FirstDue(jobs, pendingJobs, now);
        if nextIndex == |pendingJobs| {
          return;
        }
        var nextJob := pendingJobs[nextIndex];
        pendingJobs := pendingJobs[..nextIndex] + pendingJobs[nextIndex + 1..];
        RunJob(nextJob, now);
      }
    }

    method Enqueue(jobType: JobType, payload: string, delayMs: Option<int>, maxAttempts: Option<int>, id: string, now: int)
      returns (r: Result<Receipt, string>)
      requires WellFormed(Abs()) && FreshId(Abs(), id)
      modifies this
      ensures Abs() == Next(old(Abs()), JobQueueSpec.Enqueue(id, jobType, payload, delayMs, maxAttempts, now))
      ensures WellFormed(Abs())
      ensures r == if jobType in old(handlers)
                   then Ok(ReceiptOf(NewJob(id, jobType, payload, delayMs, maxAttempts, now))) else Err(NO_HANDLER)
      ensures r.Ok? ==> r.value.id == id && r.value.jobType == jobType
                        && r.value.runAt == now + (if delayMs.Some? && delayMs.value > 0 then delayMs.value else 0)
                        && r.value.maxAttempts == (if maxAttempts.None? then 3 else if maxAttempts.value > 1 then maxAttempts.value else 1)
    {
      hide Sort, UniqueKeys, JobsHandled, ActiveLeased, RunsKnown, Balanced, PendingSorted, JobQueueSpec.Drain;
      NextWellFormed(Abs(), JobQueueSpec.Enqueue(id, jobType, payload, delayMs, maxAttempts, now));
      if jobType !in handlers {
        return Err(NO_HANDLER);
      }
      var job := NewJob(id, jobType, payload, delayMs, maxAttempts, now);
      jobs := jobs + [job];
      pendingJobs := pendingJobs + [|jobs| - 1];
      SortPendingJobs();
      totals := totals.(enqueued := totals.enqueued + 1);
      assert Abs() == Enqueued(old(Abs()), job);
      Drain(now);
      r := Ok(ReceiptOf(job));
    }

    method Start(now: int)
      requires WellFormed(Abs())
      modifies this
      ensures Abs() == Next(old(Abs()), JobQueueSpec.Start(now)) && WellFormed(Abs())
    {
      NextWellFormed(Abs(), JobQueueSpec.Start(now));
      if running {
        return;
      }
      running := true;
      Drain(now);
    }

    method Stop()
      requires WellFormed(Abs())
      modifies this`running
      ensures Abs() == Next(old(Abs()), JobQueueSpec.Stop) && WellFormed(Abs())
    {
      NextWellFormed(Abs(), JobQueueSpec.Stop);
      running := false;
    }

    method MoveToDeadLetter(job: Job)
      modifies this`totals, this`deadLetterJobs
      ensures Abs() == JobQueueSpec.MoveToDeadLetter(old(Abs()), job)
    {
      totals := totals.(failed := totals.failed + 1);
      deadLetterJobs := [ToDeadLetter(job)] + deadLetterJobs;
    }

    /** The rest of `runJob`, from the moment the handler's promise settles, up to the `finally` block. */
    method RecordSettled(ref: Ref, outcome: Outcome, now: int)
      requires ref < |jobs|
      modifies this
      ensures Abs() == RecordOutcome(old(Abs()), ref, outcome, now)
    {
      match outcome {
        case Success =>
          totals := totals.(completed := totals.completed + 1);
        case NonRetryable =>
          dropped := dropped + 1;
        case Failure =>
          if jobs[ref].attempt < jobs[ref].maxAttempts {
            totals := totals.(retried := totals.retried + 1);
            jobs := jobs[ref := jobs[ref].(runAt := now + RetryDelayMs(jobs[ref].attempt))];
            pendingJobs := pendingJobs + [ref];
            SortPendingJobs();
          } else {
            MoveToDeadLetter(jobs[ref]);
          }
      }
    }

    method SettleRun(ref: Ref, ghost attempt: nat, outcome: Outcome, now: int)
      requires RefsValid(Abs()) && ref < |jobs| && HandlerRun(ref, attempt) in unsettled
      modifies this
      ensures Abs() == Next(old(Abs()), Settle(HandlerRun(ref, attempt), outcome, now))
    {
      SettleIs(Abs(), HandlerRun(ref, attempt), outcome, now);
      unsettled := unsettled - {HandlerRun(ref, attempt)};
      RecordSettled(ref, outcome, now);
      activeJobs := ActiveDelete(jobs, activeJobs, jobs[ref].id);
      assert Abs() == Settled(old(Abs()), HandlerRun(ref, attempt), outcome, now);
      Drain(now);
    }

    /** One turn of the sweep loop. */
    method SweepEntry(ref: Ref, staleLeaseMs: int, now: int) returns (reclaimed: seq<ReclaimedJob>, deadLettered: seq<DeadLetter>)
      requires Leased(jobs, ref)
      modifies this
      ensures Abs() == SweepOne(old(Abs()), ref, staleLeaseMs, now)
      ensures var job := old(jobs)[ref];
              reclaimed == if Reclaimable(old(jobs), staleLeaseMs, now)(ref)
                           then [ReclaimedJob(job.id, job.jobType, job.attempt, job.maxAttempts, LeaseAge(job, now))] else []
      ensures deadLettered == if Exhausted(old(jobs), staleLeaseMs, now)(ref) then [ToDeadLetter(old(jobs)[ref])] else []
    {
      reclaimed, deadLettered := [], [];
      var job := jobs[ref];
      var leaseAgeMs := LeaseAge(job, now);
      if leaseAgeMs > staleLeaseMs {
        activeJobs := ActiveDelete(jobs, activeJobs, job.id);
        swept := swept + {HandlerRun(ref, job.attempt)};
        leasesSwept := leasesSwept + 1;
        if job.attempt >= job.maxAttempts {
          MoveToDeadLetter(job);
          deadLettered := [deadLetterJobs[0]];
        } else {
          totals := totals.(retried := totals.retried + 1);
          jobs := jobs[ref := job.(leasedAt := None, runAt := now)];
          pendingJobs := pendingJobs + [ref];
          reclaimed := [ReclaimedJob(job.id, job.jobType, job.attempt, job.maxAttempts, leaseAgeMs)];
        }
      }
    }

    method SweepSnapshot(staleLeaseMs: int, now: int) returns (reclaimed: seq<ReclaimedJob>, deadLettered: seq<DeadLetter>)
      requires Sound(Abs())
      modifies this
      ensures Abs() == SweepAll(old(Abs()), old(activeJobs), staleLeaseMs, now)
      ensures reclaimed == ReclaimRecords(old(jobs), Filter(Reclaimable(old(jobs), staleLeaseMs, now), old(activeJobs)), now)
      ensures LettersOf(old(jobs), Filter(Exhausted(old(jobs), staleLeaseMs, now), old(activeJobs)), deadLettered)
    {
      hide Sound, SweepOne, ReclaimRecords, LettersOf;
      NoLetters(jobs);
      ghost var s := Abs();
      var snapshot := activeJobs;
      reclaimed, deadLettered := [], [];
      assert snapshot[..0] == [];
      for i := 0 to |snapshot|
        invariant Abs() == SweepAll(s, snapshot[..i], staleLeaseMs, now)
        invariant reclaimed == ReclaimRecords(s.jobs, Filter(Reclaimable(s.jobs, staleLeaseMs, now), snapshot[..i]), now)
        invariant LettersOf(s.jobs, Filter(Exhausted(s.jobs, staleLeaseMs, now), snapshot[..i]), deadLettered)
      {
        BeforeEntry(s, i, staleLeaseMs, now);
        SweepAllSnoc(s, snapshot, i, staleLeaseMs, now);
        RecordsTurn(s, i, staleLeaseMs, now);
        var record, letter := SweepEntry(snapshot[i], staleLeaseMs, now);
        reclaimed := reclaimed + record;
        LetterNext(s.jobs, Filter(Exhausted(s.jobs, staleLeaseMs, now), snapshot[..i]), deadLettered, snapshot[i],
                   Exhausted(s.jobs, staleLeaseMs, now)(snapshot[i]));
        deadLettered := deadLettered + letter;
      }
      assert snapshot[..|snapshot|] == snapshot;
    }

    method SweepStaleLeases(staleLeaseMs: int, now: int) returns (reclaimed: seq<ReclaimedJob>, deadLettered: seq<DeadLetter>)
      requires WellFormed(Abs())
      modifies this
      ensures Abs() == Next(old(Abs()), Sweep(staleLeaseMs, now))
      ensures reclaimed == ReclaimRecords(old(jobs), Filter(Reclaimable(old(jobs), staleLeaseMs, now), old(activeJobs)), now)
      ensures LettersOf(old(jobs), Filter(Exhausted(old(jobs), staleLeaseMs, now), old(activeJobs)), deadLettered)
    {
      RetriedIsReclaimed(Abs(), staleLeaseMs, now);
      SweepIs(Abs(), SweepAll(Abs(), activeJobs, staleLeaseMs, now),
              |Filter(Reclaimable(jobs, staleLeaseMs, now), activeJobs)|, staleLeaseMs, now);
      reclaimed, deadLettered := SweepSnapshot(staleLeaseMs, now);
      if |reclaimed| > 0 {
        SortPendingJobs();
        Drain(now);
      }
    }

    method ReplayDeadLetter(jobId: string, newId: string, now: int) returns (r: Result<Receipt, string>)
      requires WellFormed(Abs()) && FreshId(Abs(), newId)
      modifies this
      ensures Abs() == Next(old(Abs()), Replay(jobId, newId, now)) && WellFormed(Abs())
      ensures r.Ok? <==> DeadIndex(old(deadLetterJobs), jobId) < |old(deadLetterJobs)|
      ensures r.Err? ==> Abs() == old(Abs()) && r.error == NOT_FOUND
      ensures r.Ok? ==> r.value.id == newId
    {
      var index := DeadIndex(deadLetterJobs, jobId);
      if index == |deadLetterJobs| {
        return Err(NOT_FOUND);
      }
      var entry := deadLetterJobs[index];
      ReplayIsEnqueue(Abs(), index, newId, now);
      DeadLetterHandled(Abs(), index);
      deadLetterJobs := deadLetterJobs[..index] + deadLetterJobs[index + 1..];
      assert Abs() == RemoveDead(old(Abs()), index);
      r := Enqueue(entry.jobType, entry.payload, None, Some(entry.maxAttempts), newId, now);
    }

    method RetryJob(jobId: string, force: bool, now: int) returns (r: Result<Receipt, string>)
      requires WellFormed(Abs())
      modifies this
      ensures Abs() == Next(old(Abs()), Retry(jobId, force, now))
      ensures r.Ok? <==> RetryEffect(old(Abs()), jobId, force, now).Some?
      ensures r.Ok? ==> r.value.id == jobId && r.value.runAt == now
      ensures r.Err? ==> Abs() == old(Abs())
      ensures r == Err(EXHAUSTED) <==> !force && DeadIndex(old(deadLetterJobs), jobId) < |old(deadLetterJobs)|
    {
      hide Sort, UniqueKeys, JobsHandled, ActiveLeased, RunsKnown, Balanced, PendingSorted, JobQueueSpec.Drain;
      var deadLetterIndex := DeadIndex(deadLetterJobs, jobId);
      if deadLetterIndex < |deadLetterJobs| {
        if !force {
          return Err(EXHAUSTED);
        }
        var job := ReviveDeadLetter(deadLetterIndex, now);
        Drain(now);
        return Ok(ReceiptOf(job));
      }
      var pendingIndex := KeyIndex(jobs, pendingJobs, jobId);
      if pendingIndex < |pendingJobs| && jobs[pendingJobs[pendingIndex]].attempt > 0 {
        var job := HurryUp(pendingIndex, now);
        Drain(now);
        return Ok(ReceiptOf(job));
      }
      r := Err(NOT_FAILED);
    }

    method ReviveDeadLetter(index: nat, now: int) returns (job: Job)
      requires RefsValid(Abs()) && index < |deadLetterJobs|
      modifies this
      ensures Abs() == ForceRetried(old(Abs()), index, now) && job == Revived(old(deadLetterJobs)[index], now)
    {
      var entry := deadLetterJobs[index];
      deadLetterJobs := deadLetterJobs[..index] + deadLetterJobs[index + 1..];
      job := Job(entry.jobId, entry.jobType, entry.payload, 0, entry.maxAttempts, entry.createdAt, now, None);
      jobs := jobs + [job];
      pendingJobs := pendingJobs + [|jobs| - 1];
      SortPendingJobs();
    }

    method HurryUp(index: nat, now: int) returns (job: Job)
      requires RefsValid(Abs()) && index < |pendingJobs|
      modifies this
      ensures Abs() == HurriedUp(old(Abs()), index, now) && job == old(jobs)[old(pendingJobs)[index]].(runAt := now)
    {
      var ref := pendingJobs[index];
      job := jobs[ref].(runAt := now);
      jobs := jobs[ref := job];
      SortPendingJobs();
    }

    method GetQueueDepthReport(staleLeaseMs: int, now: int) returns (totalDepth: int, byType: map<JobType, TypeDepth>)
      requires WellFormed(Abs())
      ensures forall t :: t in byType && Reports(jobs, pendingJobs, activeJobs, deadLetterJobs, t, staleLeaseMs, now, byType[t])
      ensures totalDepth == Depth(Abs())
    {
      hide Reports, DepthPerType;
      assert forall ref: Ref :: ref in activeJobs ==> ref < |jobs|;
      forall t: JobType ensures t in JOB_TYPES {
        TypeListed(t);
      }
      forall t: JobType ensures Reports(jobs, [], [], [], t, staleLeaseMs, now, TypeDepth(0, 0, 0, 0, 0)) {
        ReportsNothing(jobs, t, staleLeaseMs, now);
      }
      byType := map t | t in JOB_TYPES :: TypeDepth(0, 0, 0, 0, 0);
      byType := CountPending(byType, staleLeaseMs, now);
      byType := CountActive(byType, staleLeaseMs, now);
      byType := CountDeadLetters(byType, staleLeaseMs, now);
      totalDepth := 0;
      ghost var depth := DepthPerType(jobs, pendingJobs, activeJobs, now);
      for i := 0 to |JOB_TYPES|
        invariant totalDepth == Sum(depth, JOB_TYPES[..i])
      {
        var d := byType[JOB_TYPES[i]];
        DepthOfType(jobs, pendingJobs, activeJobs, deadLetterJobs, JOB_TYPES[i], staleLeaseMs, now, d);
        totalDepth := totalDepth + d.queued + d.delayed + d.active;
        assert JOB_TYPES[..i + 1] == JOB_TYPES[..i] + [JOB_TYPES[i]];
        SumSnoc(depth, JOB_TYPES[..i], JOB_TYPES[i]);
      }
      assert JOB_TYPES[..|JOB_TYPES|] == JOB_TYPES;
      DepthByType(jobs, pendingJobs, activeJobs, now);
    }

    method CountPending(start: map<JobType, TypeDepth>, ghost staleLeaseMs: int, now: int) returns (byType: map<JobType, TypeDepth>)
      requires forall i :: 0 <= i < |pendingJobs| ==> pendingJobs[i] < |jobs|
      requires forall t :: t in start && Reports(jobs, [], [], [], t, staleLeaseMs, now, start[t])
      ensures forall t :: t in byType && Reports(jobs, pendingJobs, [], [], t, staleLeaseMs, now, byType[t])
    {
      hide Reports, PlusPending;
      byType := start;
      assert pendingJobs[..0] == [];
      for i := 0 to |pendingJobs|
        invariant forall t :: t in byType && Reports(jobs, pendingJobs[..i], [], [], t, staleLeaseMs, now, byType[t])
      {
        ghost var before := byType;
        var job := jobs[pendingJobs[i]];
        byType := byType[job.jobType := PlusPending(byType[job.jobType], job, now)];
        assert pendingJobs[..i + 1] == pendingJobs[..i] + [pendingJobs[i]];
        forall t: JobType
          ensures t in byType && Reports(jobs, pendingJobs[..i + 1], [], [], t, staleLeaseMs, now, byType[t])
        {
          assert t in before;
          ReportsPending(jobs, pendingJobs[..i], pendingJobs[i], t, staleLeaseMs, now, before[t]);
        }
      }
      assert pendingJobs[..|pendingJobs|] == pendingJobs;
    }

    method CountActive(start: map<JobType, TypeDepth>, staleLeaseMs: int, now: int) returns (byType: map<JobType, TypeDepth>)
      requires ActiveLeased(jobs, activeJobs)
      requires forall t :: t in start && Reports(jobs, pendingJobs, [], [], t, staleLeaseMs, now, start[t])
      ensures forall t :: t in byType && Reports(jobs, pendingJobs, activeJobs, [], t, staleLeaseMs, now, byType[t])
    {
      hide Reports, PlusActive;
      byType := start;
      assert activeJobs[..0] == [];
      for i := 0 to |activeJobs|
        invariant forall t :: t in byType && Reports(jobs, pendingJobs, activeJobs[..i], [], t, staleLeaseMs, now, byType[t])
      {
        ghost var before := byType;
        var ref := activeJobs[i];
        assert Leased(jobs, ref);
        byType := byType[jobs[ref].jobType := PlusActive(byType[jobs[ref].jobType], jobs[ref], staleLeaseMs, now)];
        assert activeJobs[..i + 1] == activeJobs[..i] + [ref];
        forall t: JobType
          ensures t in byType && Reports(jobs, pendingJobs, activeJobs[..i + 1], [], t, staleLeaseMs, now, byType[t])
        {
          assert t in before;
          ReportsActive(jobs, pendingJobs, activeJobs[..i], ref, t, staleLeaseMs, now, before[t]);
        }
      }
      assert activeJobs[..|activeJobs|] == activeJobs;
    }

    method CountDeadLetters(start: map<JobType, TypeDepth>, ghost staleLeaseMs: int, ghost now: int)
      returns (byType: map<JobType, TypeDepth>)
      requires forall t :: t in start && Reports(jobs, pendingJobs, activeJobs, [], t, staleLeaseMs, now, start[t])
      ensures forall t :: t in byType && Reports(jobs, pendingJobs, activeJobs, deadLetterJobs, t, staleLeaseMs, now, byType[t])
    {
      hide Reports;
      byType := start;
      assert deadLetterJobs[..0] == [];
      for i := 0 to |deadLetterJobs|
        invariant forall t ::
            t in byType && Reports(jobs, pendingJobs, activeJobs, deadLetterJobs[..i], t, staleLeaseMs, now, byType[t])
      {
        ghost var before := byType;
        var entry := deadLetterJobs[i];
        var d := byType[entry.jobType];
        byType := byType[entry.jobType := d.(deadLetter := d.deadLetter + 1)];
        assert deadLetterJobs[..i + 1] == deadLetterJobs[..i] + [entry];
        forall t: JobType
          ensures t in byType && Reports(jobs, pendingJobs, activeJobs, deadLetterJobs[..i + 1], t, staleLeaseMs, now, byType[t])
        {
          assert t in before;
          ReportsDead(jobs, pendingJobs, activeJobs, deadLetterJobs[..i], entry, t, staleLeaseMs, now, before[t]);
        }
      }
      assert deadLetterJobs[..|deadLetterJobs|] == deadLetterJobs;
    }
  }
}
