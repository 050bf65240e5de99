/** The in-memory job queue as a state and atomic steps, one step for each synchronous stretch.

A queued job is an object that the pending list, the active map and the closure of a running
handler may all hold at once. Objects live in the arena `jobs` and a reference is an index into
it, so a job that is re-queued by a sweep while its old handler still holds it stays shared.
*/
module JobQueueSpec {
  import opened Numbers
  import opened Wrappers
  import opened Sorting

  datatype JobType =
    | NotificationSend | DeadlineCheck | OracleCall | AnalyticsRecompute
    | ExportGenerate | SessionsCleanup | OutboxRelay | EmbeddingsReindex

  const JOB_TYPES: seq<JobType> := [
    NotificationSend, DeadlineCheck, OracleCall, AnalyticsRecompute,
    ExportGenerate, SessionsCleanup, OutboxRelay, EmbeddingsReindex
  ]

  type Ref = nat

  datatype Job = Job(
    id: string, jobType: JobType, payload: string, attempt: nat, maxAttempts: nat,
    createdAt: int, runAt: int, leasedAt: Option<int>)

  datatype DeadLetter = DeadLetter(
    jobId: string, jobType: JobType, attempts: nat, payload: string,
    createdAt: int, runAt: int, maxAttempts: nat)

  datatype Totals = Totals(enqueued: nat, executions: nat, completed: nat, failed: nat, retried: nat)

  /** One execution of a handler: the job object it holds and the attempt it was started as. */
  datatype HandlerRun = HandlerRun(job: Ref, attempt: nat)

  /** How a handler run ends: it returns, throws, or throws an error marked `nonRetryable`. */
  datatype Outcome = Success | Failure | NonRetryable

  datatype Receipt = Receipt(id: string, jobType: JobType, runAt: int, maxAttempts: nat)

  /** `unsettled`, `swept`, `leasesSwept` and `dropped` are history: the code does not store them. */
  datatype State = State(
    handlers: set<JobType>,
    jobs: seq<Job>,
    pending: seq<Ref>,
    active: seq<Ref>,
    dead: seq<DeadLetter>,
    totals: Totals,
    concurrency: nat,
    running: bool,
    unsettled: set<HandlerRun>,
    swept: set<HandlerRun>,
    leasesSwept: nat,
    dropped: nat)

  /** Every reference held by the pending list or the active map denotes an object. */
  predicate RefsValid(s: State) {
    && (forall i :: 0 <= i < |s.pending| ==> s.pending[i] < |s.jobs|)
    && (forall i :: 0 <= i < |s.active| ==> s.active[i] < |s.jobs|)
  }

  // --- pending list ---

  function RunAt(jobs: seq<Job>, ref: Ref): int {
    if ref < |jobs| then jobs[ref].runAt else 0
  }

  function ByRunAt(jobs: seq<Job>): (Ref, Ref) -> bool {
    (left: Ref, right: Ref) => RunAt(jobs, left) <= RunAt(jobs, right)
  }

  function SortPending(s: State): (r: State)
    ensures RefsValid(s) ==> RefsValid(r)
  {
    var sorted := Sort(ByRunAt(s.jobs), s.pending);
    SortElements(ByRunAt(s.jobs), s.pending);
    assert forall i :: 0 <= i < |sorted| ==> sorted[i] in sorted;
    s.(pending := sorted)
  }

  /** The first position whose job is due, or the length when none is. */
  function FirstDue(jobs: seq<Job>, pending: seq<Ref>, now: int): (i: nat)
    ensures i <= |pending|
    ensures i < |pending| ==> RunAt(jobs, pending[i]) <= now
    ensures forall k :: 0 <= k < i ==> RunAt(jobs, pending[k]) > now
  {
    if pending == [] || RunAt(jobs, pending[0]) <= now then 0
    else 1 + FirstDue(jobs, pending[1..], now)
  }

  // --- active map, keyed by job id, in insertion order ---

  function Id(jobs: seq<Job>, ref: Ref): string {
    if ref < |jobs| then jobs[ref].id else ""
  }

  function KeyIndex(jobs: seq<Job>, active: seq<Ref>, id: string): (i: nat)
    ensures i <= |active|
    ensures i < |active| ==> Id(jobs, active[i]) == id
    ensures forall k :: 0 <= k < i ==> Id(jobs, active[k]) != id
  {
    if active == [] || Id(jobs, active[0]) == id then 0
    else 1 + KeyIndex(jobs, active[1..], id)
  }

  function ActiveSet(jobs: seq<Job>, active: seq<Ref>, ref: Ref): seq<Ref> {
    var i := KeyIndex(jobs, active, Id(jobs, ref));
    if i < |active| then active[i := ref] else active + [ref]
  }

  function ActiveDelete(jobs: seq<Job>, active: seq<Ref>, id: string): seq<Ref> {
    var i := KeyIndex(jobs, active, id);
    if i < |active| then active[..i] + active[i + 1..] else active
  }

  // --- running jobs ---

  /** Start the job, which has just been taken off the pending list. Without a handler the code calls
      a method that does not exist, so the job is lost; `NextWellFormed` rules that branch out. */
  function RunJob(s: State, ref: Ref, now: int): (r: State)
    requires ref < |s.jobs|
    ensures |s.jobs| <= |r.jobs| && (RefsValid(s) ==> RefsValid(r))
  {
    var job := s.jobs[ref];
    if job.jobType !in s.handlers then s
    else
      var started := job.(attempt := job.attempt + 1, leasedAt := Some(now));
      s.(jobs := s.jobs[ref := started],
         active := ActiveSet(s.jobs, s.active, ref),
         totals := s.totals.(executions := s.totals.executions + 1),
         unsettled := s.unsettled + {HandlerRun(ref, started.attempt)})
  }

  function Drain(s: State, now: int): (r: State)
    requires RefsValid(s)
    ensures RefsValid(r)
    decreases |s.pending|
  {
    if !s.running || |s.active| >= s.concurrency then s
    else
      var i := FirstDue(s.jobs, s.pending, now);
      if i == |s.pending| then s
      else Drain(RunJob(s.(pending := s.pending[..i] + s.pending[i + 1..]), s.pending[i], now), now)
  }

  function RetryDelayMs(attempt: nat): int {
    if attempt == 0 then 500
    else if attempt > 6 then 60_000
    else [1_000, 2_000, 4_000, 8_000, 16_000, 32_000][attempt - 1]
  }

  function Requeue(s: State, ref: Ref): (r: State)
    ensures r.jobs == s.jobs && (RefsValid(s) && ref < |s.jobs| ==> RefsValid(r))
  {
    SortPending(s.(pending := s.pending + [ref]))
  }

  function ToDeadLetter(job: Job): DeadLetter {
    DeadLetter(job.id, job.jobType, job.attempt, job.payload, job.createdAt, job.runAt, job.maxAttempts)
  }

  function MoveToDeadLetter(s: State, job: Job): State {
    s.(totals := s.totals.(failed := s.totals.failed + 1), dead := [ToDeadLetter(job)] + s.dead)
  }

  /** What the handler's outcome does before the `finally` block. */
  function RecordOutcome(s: State, ref: Ref, outcome: Outcome, now: int): (r: State)
    requires ref < |s.jobs|
    ensures |s.jobs| <= |r.jobs| && (RefsValid(s) ==> RefsValid(r))
  {
    var job := s.jobs[ref];
    match outcome
    case Success => s.(totals := s.totals.(completed := s.totals.completed + 1))
    case NonRetryable => s.(dropped := s.dropped + 1)
    case Failure =>
      if job.attempt < job.maxAttempts then
        var again := job.(runAt := now + RetryDelayMs(job.attempt));
        Requeue(s.(jobs := s.jobs[ref := again], totals := s.totals.(retried := s.totals.retried + 1)), ref)
      else MoveToDeadLetter(s, job)
  }

  /** `finally`: the active entry under the job's id goes, whoever put it there. */
  function ReleaseLease(s: State, ref: Ref): (r: State)
    ensures RefsValid(s) ==> RefsValid(r)
  {
    s.(active := ActiveDelete(s.jobs, s.active, Id(s.jobs, ref)))
  }

  function Settled(s: State, run: HandlerRun, outcome: Outcome, now: int): (r: State)
    requires run.job < |s.jobs|
    ensures |s.jobs| <= |r.jobs| && (RefsValid(s) ==> RefsValid(r))
  {
    ReleaseLease(RecordOutcome(s.(unsettled := s.unsettled - {run}), run.job, outcome, now), run.job)
  }

  // --- stale leases ---

  predicate Stale(jobs: seq<Job>, ref: Ref, staleLeaseMs: int, now: int) {
    ref < |jobs| && jobs[ref].leasedAt.Some? && now - jobs[ref].leasedAt.value > staleLeaseMs
  }

  function SweepOne(s: State, ref: Ref, staleLeaseMs: int, now: int): (r: State)
    ensures |r.jobs| == |s.jobs| && (RefsValid(s) ==> RefsValid(r))
  {
    if !Stale(s.jobs, ref, staleLeaseMs, now) then s
    else
      var job := s.jobs[ref];
      var freed := s.(active := ActiveDelete(s.jobs, s.active, job.id),
                      swept := s.swept + {HandlerRun(ref, job.attempt)},
                      leasesSwept := s.leasesSwept + 1);
      if job.attempt >= job.maxAttempts then MoveToDeadLetter(freed, job)
      else freed.(jobs := s.jobs[ref := job.(leasedAt := None, runAt := now)],
                  totals := s.totals.(retried := s.totals.retried + 1),
                  pending := s.pending + [ref])
  }

  /** The sweep loop over a snapshot of the active map. */
  function SweepAll(s: State, snapshot: seq<Ref>, staleLeaseMs: int, now: int): (r: State)
    ensures |r.jobs| == |s.jobs| && (RefsValid(s) ==> RefsValid(r))
  {
    if snapshot == [] then s
    else
      var last := |snapshot| - 1;
      SweepOne(SweepAll(s, snapshot[..last], staleLeaseMs, now), snapshot[last], staleLeaseMs, now)
  }

  function Swept(s: State, staleLeaseMs: int, now: int): (r: State)
    ensures |r.jobs| == |s.jobs| && (RefsValid(s) ==> RefsValid(r))
  {
    var swept := SweepAll(s, s.active, staleLeaseMs, now);
    if swept.totals.retried > s.totals.retried then SortPending(swept) else swept
  }

  // --- producers and operators ---

  function Max(a: int, b: int): int {
    if a < b then b else a
  }

  function NewJob(id: string, jobType: JobType, payload: string, delayMs: Option<int>,
                  maxAttempts: Option<int>, now: int): Job {
    var delay := if delayMs.Some? then delayMs.value else 0;
    var attempts := if maxAttempts.Some? then maxAttempts.value else 3;
    Job(id, jobType, payload, 0, Max(1, attempts), now, now + Max(0, delay), None)
  }

  function Enqueued(s: State, job: Job): (r: State)
    ensures |s.jobs| <= |r.jobs| && (RefsValid(s) ==> RefsValid(r))
  {
    Requeue(s.(jobs := s.jobs + [job], totals := s.totals.(enqueued := s.totals.enqueued + 1)), |s.jobs|)
  }

  function DeadIndex(dead: seq<DeadLetter>, jobId: string): (i: nat)
    ensures i <= |dead|
    ensures i < |dead| ==> dead[i].jobId == jobId
    ensures forall k :: 0 <= k < i ==> dead[k].jobId != jobId
  {
    if dead == [] || dead[0].jobId == jobId then 0 else 1 + DeadIndex(dead[1..], jobId)
  }

  function RemoveDead(s: State, i: nat): State
    requires i < |s.dead|
  {
    s.(dead := s.dead[..i] + s.dead[i + 1..])
  }

  function Replayed(s: State, i: nat, newId: string, now: int): (r: State)
    requires i < |s.dead|
    ensures |s.jobs| <= |r.jobs| && (RefsValid(s) ==> RefsValid(r))
  {
    var entry := s.dead[i];
    if entry.jobType !in s.handlers then RemoveDead(s, i)
    else Enqueued(RemoveDead(s, i), NewJob(newId, entry.jobType, entry.payload, None, Some(entry.maxAttempts), now))
  }

  function Revived(entry: DeadLetter, now: int): Job {
    Job(entry.jobId, entry.jobType, entry.payload, 0, entry.maxAttempts, entry.createdAt, now, None)
  }

  function ForceRetried(s: State, i: nat, now: int): (r: State)
    requires i < |s.dead|
    ensures |s.jobs| <= |r.jobs| && (RefsValid(s) ==> RefsValid(r))
  {
    Requeue(RemoveDead(s, i).(jobs := s.jobs + [Revived(s.dead[i], now)]), |s.jobs|)
  }

  function HurriedUp(s: State, i: nat, now: int): (r: State)
    requires i < |s.pending| && s.pending[i] < |s.jobs|
    ensures |s.jobs| <= |r.jobs| && (RefsValid(s) ==> RefsValid(r))
  {
    SortPending(s.(jobs := s.jobs[s.pending[i] := s.jobs[s.pending[i]].(runAt := now)]))
  }

  /** What `retryJob` does; `None` when it throws. */
  function RetryEffect(s: State, jobId: string, force: bool, now: int): (r: Option<State>)
    requires RefsValid(s)
    ensures r.Some? ==> RefsValid(r.value)
  {
    var d := DeadIndex(s.dead, jobId);
    if d < |s.dead| then (if force then Some(ForceRetried(s, d, now)) else None)
    else
      var p := KeyIndex(s.jobs, s.pending, jobId);
      if p < |s.pending| && s.jobs[s.pending[p]].attempt > 0 then Some(HurriedUp(s, p, now)) else None
  }

  // --- what the pieces mean ---

  /** The backoff doubles from one second on and is capped at a minute. */
  lemma {:induction false} RetryDelayDoublesToCap(attempt: nat)
    requires attempt >= 1
    ensures RetryDelayMs(attempt) == Min(60_000, 1_000 * PowerOfTwo(attempt - 1))
  {
    assert PowerOfTwo(6) == 64 && PowerOfTwo(5) == 32 && PowerOfTwo(4) == 16 && PowerOfTwo(3) == 8;
    if attempt > 6 {
      PowersGrow(6, attempt - 1);
    }
  }

  lemma {:induction false} PowersGrow(m: nat, n: nat)
    requires m <= n
    ensures PowerOfTwo(m) <= PowerOfTwo(n)
    decreases n
  {
    if m < n {
      PowersGrow(m, n - 1);
    }
  }

  /** Dead-lettering loses nothing of the job: a forced retry restores it under its id with fresh attempts,
      and a replay enqueues the same work under a new id. */
  lemma {:induction false} DeadLetterKeepsTheJob(job: Job, newId: string, now: int)
    requires job.maxAttempts >= 1
    ensures Revived(ToDeadLetter(job), now) == job.(attempt := 0, runAt := now, leasedAt := None)
    ensures var entry := ToDeadLetter(job);
            entry.attempts == job.attempt && entry.runAt == job.runAt
            && NewJob(newId, entry.jobType, entry.payload, None, Some(entry.maxAttempts), now)
               == job.(id := newId, attempt := 0, createdAt := now, runAt := now, leasedAt := None)
  {
  }

  // --- the state machine ---

  datatype Step =
    | RegisterHandler(jobType: JobType)
    | Enqueue(id: string, newType: JobType, payload: string, delayMs: Option<int>, maxAttempts: Option<int>, now: int)
    | Settle(run: HandlerRun, outcome: Outcome, now: int)
    | Sweep(staleLeaseMs: int, now: int)
    | Replay(jobId: string, newId: string, now: int)
    | Retry(jobId: string, force: bool, now: int)
    | Poll(now: int)
    | Start(now: int)
    | Stop

  predicate FreshId(s: State, id: string) {
    forall i :: 0 <= i < |s.jobs| ==> s.jobs[i].id != id
  }

  /** A random UUID is one that no job carries; only a handler that is still running can settle. */
  predicate Enabled(s: State, step: Step) {
    match step
    case Enqueue(id, _, _, _, _, _) => FreshId(s, id)
    case Replay(_, newId, _) => FreshId(s, newId)
    case Settle(run, _, _) => run in s.unsettled
    case _ => true
  }

  /** The state a step leads to before it tries to start more jobs, and whether it tries. */
  function Effect(s: State, step: Step): (r: (State, bool))
    requires RefsValid(s) && (step.Settle? ==> step.run.job < |s.jobs|)
    ensures RefsValid(r.0)
  {
    match step
    case RegisterHandler(t) => (s.(handlers := s.handlers + {t}), false)
    case Enqueue(id, t, payload, delayMs, maxAttempts, now) =>
      if t in s.handlers then (Enqueued(s, NewJob(id, t, payload, delayMs, maxAttempts, now)), true) else (s, false)
    case Settle(run, outcome, now) => (Settled(s, run, outcome, now), true)
    case Sweep(staleLeaseMs, now) =>
      (Swept(s, staleLeaseMs, now), SweepAll(s, s.active, staleLeaseMs, now).totals.retried > s.totals.retried)
    case Replay(jobId, newId, now) =>
      var i := DeadIndex(s.dead, jobId);
      if i < |s.dead| then (Replayed(s, i, newId, now), s.dead[i].jobType in s.handlers) else (s, false)
    case Retry(jobId, force, now) =>
      var retried := RetryEffect(s, jobId, force, now);
      if retried.Some? then (retried.value, true) else (s, false)
    case Poll(now) => (s, true)
    case Start(now) => (s.(running := true), !s.running)
    case Stop => (s.(running := false), false)
  }

  function Next(s: State, step: Step): (r: State)
    requires RefsValid(s) && (step.Settle? ==> step.run.job < |s.jobs|)
    ensures RefsValid(r)
  {
    var (changed, tries) := Effect(s, step);
    if tries then Drain(changed, StepTime(step)) else changed
  }

  function StepTime(step: Step): int {
    if step.RegisterHandler? || step.Stop? then 0 else step.now
  }
}
