/** The Horizon listener across restarts: one-at-a-time delivery in ledger order, with crashes anywhere.

`chain` is the whole event stream. A session starts at the first event of the start ledger, hands the
events to `handleEvent` one after the other, and may die at any point of any of them.
*/
module HorizonListenerSpec {
  import opened Wrappers
  import opened EventStoreSpec
  import opened EventStoreProofs

  /** A raw event with what the parser makes of it: `None` when parsing fails or skips the topic. */
  datatype RawEvent = RawEvent(contractId: string, ledger: int, pagingToken: string, parsed: Option<Event>)

  datatype Config = Config(contracts: seq<string>, startLedger: Option<int>, maxRetries: int)

  datatype Checkpoint = Checkpoint(lastLedger: int, pagingToken: Option<string>)

  type Checkpoints = map<string, Checkpoint>

  // --- the start ledger ---

  function DefaultLedger(cfg: Config): int {
    if cfg.startLedger.Some? then cfg.startLedger.value else 1
  }

  /** The ledger one contract asks for: its checkpoint, or the default when it has none or cannot be read. */
  function ContractLedger(cfg: Config, checkpoints: Checkpoints, unreadable: set<string>, contract: string): int {
    if contract in unreadable || contract !in checkpoints then DefaultLedger(cfg) else checkpoints[contract].lastLedger
  }

  /** The running minimum over the first n contracts, `None` standing for infinity. */
  function MinLedger(cfg: Config, checkpoints: Checkpoints, unreadable: set<string>, n: nat): Option<int>
    requires n <= |cfg.contracts|
  {
    if n == 0 then None
    else
      var min := MinLedger(cfg, checkpoints, unreadable, n - 1);
      var ledger := ContractLedger(cfg, checkpoints, unreadable, cfg.contracts[n - 1]);
      if min.None? || ledger < min.value then Some(ledger) else min
  }

  function EffectiveStart(cfg: Config, checkpoints: Checkpoints, unreadable: set<string>): int {
    var min := MinLedger(cfg, checkpoints, unreadable, |cfg.contracts|);
    if min.None? then DefaultLedger(cfg) else min.value
  }

  lemma {:induction false} MinLedgerIsLeast(cfg: Config, checkpoints: Checkpoints, unreadable: set<string>, n: nat)
    requires n <= |cfg.contracts|
    ensures MinLedger(cfg, checkpoints, unreadable, n).None? <==> n == 0
    ensures forall i :: 0 <= i < n ==>
              MinLedger(cfg, checkpoints, unreadable, n).value <= ContractLedger(cfg, checkpoints, unreadable, cfg.contracts[i])
    ensures n > 0 ==> exists i ::
              0 <= i < n && MinLedger(cfg, checkpoints, unreadable, n).value
                            == ContractLedger(cfg, checkpoints, unreadable, cfg.contracts[i])
  {
    if n > 0 {
      MinLedgerIsLeast(cfg, checkpoints, unreadable, n - 1);
      var m := MinLedger(cfg, checkpoints, unreadable, n).value;
      if m == ContractLedger(cfg, checkpoints, unreadable, cfg.contracts[n - 1]) {
      } else {
        var i :| 0 <= i < n - 1 && m == ContractLedger(cfg, checkpoints, unreadable, cfg.contracts[i]);
      }
    }
  }

  /** The start ledger is at most every configured contract's ledger and is one of them. */
  lemma {:induction false} EffectiveStartIsMinimum(cfg: Config, checkpoints: Checkpoints, unreadable: set<string>)
    ensures forall c :: c in cfg.contracts ==>
              EffectiveStart(cfg, checkpoints, unreadable) <= ContractLedger(cfg, checkpoints, unreadable, c)
    ensures cfg.contracts == [] ==> EffectiveStart(cfg, checkpoints, unreadable) == DefaultLedger(cfg)
    ensures cfg.contracts != [] ==> exists c ::
              c in cfg.contracts && EffectiveStart(cfg, checkpoints, unreadable)
                                    == ContractLedger(cfg, checkpoints, unreadable, c)
  {
    var n := |cfg.contracts|;
    MinLedgerIsLeast(cfg, checkpoints, unreadable, n);
    if n > 0 {
      var i :| 0 <= i < n && MinLedger(cfg, checkpoints, unreadable, n).value
                             == ContractLedger(cfg, checkpoints, unreadable, cfg.contracts[i]);
      assert cfg.contracts[i] in cfg.contracts;
    }
  }

  // --- handling one event ---

  datatype Verdict = Ignored | Committed | ReportedFailed

  datatype Handling = Handling(tables: Tables, checkpoints: Checkpoints, verdict: Verdict)

  /** `handleEvent` when it runs to its end. */
  function Handle(cfg: Config, t: Tables, checkpoints: Checkpoints, raw: RawEvent, faults: nat -> Fault,
                  checkpointStored: bool): Handling {
    if raw.contractId !in cfg.contracts then Handling(t, checkpoints, Ignored)
    else if raw.parsed.None? then Handling(t, checkpoints, ReportedFailed)
    else
      var r := Attempts(t, raw.parsed.value, faults, 1, cfg.maxRetries);
      if r.outcome.Err? then Handling(r.tables, checkpoints, ReportedFailed)
      else Handling(r.tables,
                    if checkpointStored then checkpoints[raw.contractId := Checkpoint(raw.ledger, Some(raw.pagingToken))]
                    else checkpoints, Committed)
  }

  /** The tables when the process dies during the event, after the given number of attempts at most. */
  function HandleCutShort(cfg: Config, t: Tables, raw: RawEvent, faults: nat -> Fault, attempts: int): Tables {
    if raw.contractId !in cfg.contracts || raw.parsed.None? then t
    else Attempts(t, raw.parsed.value, faults, 1, if attempts < cfg.maxRetries then attempts else cfg.maxRetries).tables
  }

  // --- sessions ---

  datatype Session = Down | Streaming(next: nat)

  /** `log` and `reported` are history: the first commits, and the positions reported as failed. */
  datatype World = World(
    tables: Tables, checkpoints: Checkpoints, session: Session,
    log: seq<Event>, reported: set<nat>)

  datatype WorldStep =
    | Start(unreadable: set<string>)
    | Deliver(faults: nat -> Fault, checkpointStored: bool)
    | DieDuring(faults: nat -> Fault, attempts: int)
    | Die
    | Relay(rows: seq<OutboxRow>)

  predicate InLedgerOrder(chain: seq<RawEvent>) {
    forall i, j :: 0 <= i < j < |chain| ==> chain[i].ledger <= chain[j].ledger
  }

  /** The first event at or after the ledger: the start cursor is inclusive. */
  function FirstAt(chain: seq<RawEvent>, ledger: int): (n: nat)
    ensures n <= |chain|
    ensures forall i :: 0 <= i < n ==> chain[i].ledger < ledger
    ensures n < |chain| ==> chain[n].ledger >= ledger
  {
    if chain == [] || chain[0].ledger >= ledger then 0 else 1 + FirstAt(chain[1..], ledger)
  }

  /** The relay may rewrite delivery fields of the outbox between any two steps. */
  predicate Possible(chain: seq<RawEvent>, w: World, step: WorldStep) {
    match step
    case Start(_) => w.session.Down?
    case Deliver(_, _) => w.session.Streaming? && w.session.next < |chain|
    case DieDuring(_, _) => w.session.Streaming? && w.session.next < |chain|
    case Die => true
    case Relay(rows) => AllAsWritten(rows) == AllAsWritten(w.tables.outbox)
  }

  function NextWorld(cfg: Config, chain: seq<RawEvent>, w: World, step: WorldStep): World
    requires Possible(chain, w, step)
  {
    match step
    case Start(unreadable) =>
      var ledger := EffectiveStart(cfg, w.checkpoints, unreadable);
      w.(session := Streaming(FirstAt(chain, ledger)))
    case Deliver(faults, checkpointStored) =>
      var raw := chain[w.session.next];
      var h := Handle(cfg, w.tables, w.checkpoints, raw, faults, checkpointStored);
      w.(tables := h.tables, checkpoints := h.checkpoints, session := Streaming(w.session.next + 1),
         log := LogOf(cfg, w, raw, faults, cfg.maxRetries),
         reported := if h.verdict == ReportedFailed then w.reported + {w.session.next} else w.reported)
    case DieDuring(faults, attempts) =>
      var raw := chain[w.session.next];
      w.(tables := HandleCutShort(cfg, w.tables, raw, faults, attempts), session := Down,
         log := LogOf(cfg, w, raw, faults, if attempts < cfg.maxRetries then attempts else cfg.maxRetries))
    case Die => w.(session := Down)
    case Relay(rows) => w.(tables := w.tables.(outbox := rows))
  }

  function LogOf(cfg: Config, w: World, raw: RawEvent, faults: nat -> Fault, attempts: int): seq<Event> {
    if raw.contractId !in cfg.contracts || raw.parsed.None? then w.log
    else LoggedAll(w.log, w.tables, raw.parsed.value, faults, 1, attempts)
  }

  // --- effectively once ---

  /** Whatever is redelivered, aborted, interrupted or lost, the tables are those of applying each
      committed event id exactly once, in the order of first commit. */
  lemma {:induction false} StepReflects(cfg: Config, chain: seq<RawEvent>, w: World, step: WorldStep)
    requires Possible(chain, w, step) && Reflects(w.tables, w.log)
    ensures var w' := NextWorld(cfg, chain, w, step);
            && Reflects(w'.tables, w'.log)
            && (forall id :: id in w.tables.processed ==> id in w'.tables.processed)
  {
    hide Reflects, Attempts, LoggedAll, Business;
    if step.Deliver? || step.DieDuring? {
      var raw := chain[w.session.next];
      if raw.contractId in cfg.contracts && raw.parsed.Some? {
        var attempts := if step.Deliver? || step.attempts >= cfg.maxRetries then cfg.maxRetries else step.attempts;
        AttemptsReflect(w.tables, w.log, raw.parsed.value, step.faults, 1, attempts);
        LogGrowsIds(w.log, LoggedAll(w.log, w.tables, raw.parsed.value, step.faults, 1, attempts));
        ReflectsProcessed(w.tables, w.log);
        ReflectsProcessed(Attempts(w.tables, raw.parsed.value, step.faults, 1, attempts).tables,
                          LoggedAll(w.log, w.tables, raw.parsed.value, step.faults, 1, attempts));
      }
    } else if step.Relay? {
      RelayReflects(w.tables, w.log, step.rows);
    }
  }

  lemma {:induction false} ReflectsProcessed(t: Tables, log: seq<Event>)
    requires Reflects(t, log)
    ensures forall id :: id in t.processed <==> id in Ids(log)
  {
  }

  lemma {:induction false} RelayReflects(t: Tables, log: seq<Event>, rows: seq<OutboxRow>)
    requires Reflects(t, log) && AllAsWritten(rows) == AllAsWritten(t.outbox)
    ensures Reflects(t.(outbox := rows), log)
  {
    assert Business(t.(outbox := rows)) == Business(t);
  }

  lemma {:induction false} LogGrowsIds(log: seq<Event>, log': seq<Event>)
    requires log <= log'
    ensures forall id :: id in Ids(log) ==> id in Ids(log')
  {
    forall id | id in Ids(log) ensures id in Ids(log') {
      var k :| 0 <= k < |log| && Ids(log)[k] == id;
      assert Ids(log')[k] == id;
    }
  }

  // --- a restart never skips ---

  /** The event was committed, reported as failed, or is none of the configured contracts' business. */
  ghost predicate Handled(cfg: Config, chain: seq<RawEvent>, w: World, i: nat)
    requires i < |chain|
  {
    || chain[i].contractId !in cfg.contracts
    || i in w.reported
    || (chain[i].parsed.Some? && chain[i].parsed.value.eventId in w.tables.processed)
  }

  ghost predicate Cleared(cfg: Config, chain: seq<RawEvent>, w: World, low: int, high: int) {
    forall i :: 0 <= i < |chain| && low <= chain[i].ledger < high ==> Handled(cfg, chain, w, i)
  }

  /** A checkpoint is either the one found at the beginning, or nothing below it was skipped. A later
      checkpoint may be lower than an earlier one; that changes nothing. */
  ghost predicate CheckpointsSafe(cfg: Config, chain: seq<RawEvent>, found: Checkpoints, w: World, first: int) {
    && (forall c :: c in found ==> c in w.checkpoints)
    && (forall c :: c in w.checkpoints ==>
          (c in found && w.checkpoints[c] == found[c]) || Cleared(cfg, chain, w, first, w.checkpoints[c].lastLedger))
  }

  ghost predicate SessionSafe(cfg: Config, chain: seq<RawEvent>, w: World, first: int) {
    w.session.Streaming? ==>
      && w.session.next <= |chain|
      && (forall i :: 0 <= i < w.session.next && first <= chain[i].ledger ==> Handled(cfg, chain, w, i))
  }

  /** The ledger that the checkpoints found at the beginning call for: the first start's when it can read them. */
  function FirstLedger(cfg: Config, found: Checkpoints): int {
    EffectiveStart(cfg, found, {})
  }

  ghost predicate Safe(cfg: Config, chain: seq<RawEvent>, found: Checkpoints, w: World) {
    && Reflects(w.tables, w.log)
    && CheckpointsSafe(cfg, chain, found, w, FirstLedger(cfg, found))
    && SessionSafe(cfg, chain, w, FirstLedger(cfg, found))
  }

  /** The listener itself wrote the contract's checkpoint, or wrote it again, since the beginning. */
  predicate Moved(found: Checkpoints, checkpoints: Checkpoints, contract: string) {
    contract in checkpoints && !(contract in found && checkpoints[contract] == found[contract])
  }

  /** When read errors at a start are harmless: the ledger the start falls back to is no later than the first
      ledger or than a checkpoint written since, since everything before such a checkpoint was handled. */
  predicate ReadsHarmless(cfg: Config, found: Checkpoints, checkpoints: Checkpoints, unreadable: set<string>) {
    var start := EffectiveStart(cfg, checkpoints, unreadable);
    start <= FirstLedger(cfg, found) || exists c :: c in checkpoints && Moved(found, checkpoints, c) && start <= checkpoints[c].lastLedger
  }

  lemma {:induction false} UntouchedStart(cfg: Config, found: Checkpoints, checkpoints: Checkpoints)
    requires forall c :: c in found ==> c in checkpoints
    requires forall c :: c in checkpoints && c in cfg.contracts ==> c in found && checkpoints[c] == found[c]
    ensures EffectiveStart(cfg, checkpoints, {}) <= FirstLedger(cfg, found)
  {
    EffectiveStartIsMinimum(cfg, checkpoints, {});
    EffectiveStartIsMinimum(cfg, found, {});
    if cfg.contracts != [] {
      var c :| c in cfg.contracts && EffectiveStart(cfg, found, {}) == ContractLedger(cfg, found, {}, c);
      assert EffectiveStart(cfg, checkpoints, {}) <= ContractLedger(cfg, checkpoints, {}, c);
    }
  }

  /** A start no later than the one that reads everything is harmless. */
  lemma {:induction false} NotLaterHarmless(cfg: Config, found: Checkpoints, checkpoints: Checkpoints, unreadable: set<string>)
    requires forall c :: c in found ==> c in checkpoints
    requires EffectiveStart(cfg, checkpoints, unreadable) <= EffectiveStart(cfg, checkpoints, {})
    ensures ReadsHarmless(cfg, found, checkpoints, unreadable)
  {
    EffectiveStartIsMinimum(cfg, checkpoints, {});
    if c :| c in cfg.contracts && Moved(found, checkpoints, c) {
      assert EffectiveStart(cfg, checkpoints, {}) <= ContractLedger(cfg, checkpoints, {}, c);
    } else {
      UntouchedStart(cfg, found, checkpoints);
    }
  }

  /** The heart of the matter: below the ledger a restart returns, nothing at or above the first ledger
      was skipped, when all checkpoints can be read and also when the read errors are harmless. */
  lemma {:induction false} StartNeverSkips(cfg: Config, chain: seq<RawEvent>, found: Checkpoints, w: World, unreadable: set<string>)
    requires Safe(cfg, chain, found, w)
    ensures Cleared(cfg, chain, w, FirstLedger(cfg, found), EffectiveStart(cfg, w.checkpoints, {}))
    ensures ReadsHarmless(cfg, found, w.checkpoints, unreadable) ==>
              Cleared(cfg, chain, w, FirstLedger(cfg, found), EffectiveStart(cfg, w.checkpoints, unreadable))
  {
    hide EffectiveStart, Handled;
    NotLaterHarmless(cfg, found, w.checkpoints, {});
  }

  lemma {:induction false} HandledStays(cfg: Config, chain: seq<RawEvent>, w: World, w': World)
    requires w.reported <= w'.reported
    requires forall id :: id in w.tables.processed ==> id in w'.tables.processed
    ensures forall i :: 0 <= i < |chain| && Handled(cfg, chain, w, i) ==> Handled(cfg, chain, w', i)
  {
  }

  lemma {:induction false} DeliveredIsHandled(cfg: Config, chain: seq<RawEvent>, w: World, step: WorldStep)
    requires step.Deliver? && Possible(chain, w, step) && Reflects(w.tables, w.log)
    ensures Handled(cfg, chain, NextWorld(cfg, chain, w, step), w.session.next)
  {
    var raw := chain[w.session.next];
    if raw.contractId in cfg.contracts && raw.parsed.Some? {
      AttemptsReflect(w.tables, w.log, raw.parsed.value, step.faults, 1, cfg.maxRetries);
    }
  }

  lemma {:induction false} DeliverSafe(cfg: Config, chain: seq<RawEvent>, found: Checkpoints, w: World, step: WorldStep)
    requires InLedgerOrder(chain) && Safe(cfg, chain, found, w) && step.Deliver? && Possible(chain, w, step)
    ensures Safe(cfg, chain, found, NextWorld(cfg, chain, w, step))
  {
    var w' := NextWorld(cfg, chain, w, step);
    var first := FirstLedger(cfg, found);
    StepReflects(cfg, chain, w, step);
    HandledStays(cfg, chain, w, w');
    DeliveredIsHandled(cfg, chain, w, step);
    assert SessionSafe(cfg, chain, w', first);
    forall c | c in w'.checkpoints
      ensures (c in found && w'.checkpoints[c] == found[c]) || Cleared(cfg, chain, w', first, w'.checkpoints[c].lastLedger)
    {
      if c in w.checkpoints && w'.checkpoints[c] == w.checkpoints[c] {
      } else {
        assert w'.checkpoints[c].lastLedger == chain[w.session.next].ledger;
      }
    }
  }

  lemma {:induction false} StepSafe(cfg: Config, chain: seq<RawEvent>, found: Checkpoints, w: World, step: WorldStep)
    requires InLedgerOrder(chain) && Safe(cfg, chain, found, w) && Possible(chain, w, step)
    requires step.Start? ==> ReadsHarmless(cfg, found, w.checkpoints, step.unreadable)
    ensures Safe(cfg, chain, found, NextWorld(cfg, chain, w, step))
  {
    var w' := NextWorld(cfg, chain, w, step);
    StepReflects(cfg, chain, w, step);
    HandledStays(cfg, chain, w, w');
    if step.Deliver? {
      DeliverSafe(cfg, chain, found, w, step);
    } else if step.Start? {
      StartNeverSkips(cfg, chain, found, w, step.unreadable);
    }
  }

  // --- runs ---

  /** Any run at all, with any read errors at its starts. */
  ghost predicate Plays(cfg: Config, chain: seq<RawEvent>, w: World, steps: seq<WorldStep>)
    decreases |steps|
  {
    steps == [] || (Possible(chain, w, steps[0]) && Plays(cfg, chain, NextWorld(cfg, chain, w, steps[0]), steps[1..]))
  }

  ghost function Played(cfg: Config, chain: seq<RawEvent>, w: World, steps: seq<WorldStep>): World
    requires Plays(cfg, chain, w, steps)
    decreases |steps|
  {
    if steps == [] then w else Played(cfg, chain, NextWorld(cfg, chain, w, steps[0]), steps[1..])
  }

  /** A run in which the read errors of every start were harmless. */
  ghost predicate StartsWell(cfg: Config, chain: seq<RawEvent>, found: Checkpoints, w: World, steps: seq<WorldStep>)
    requires Plays(cfg, chain, w, steps)
    decreases |steps|
  {
    steps == [] || (
      && (steps[0].Start? ==> ReadsHarmless(cfg, found, w.checkpoints, steps[0].unreadable))
      && StartsWell(cfg, chain, found, NextWorld(cfg, chain, w, steps[0]), steps[1..]))
  }

  lemma {:induction false} RunSafe(cfg: Config, chain: seq<RawEvent>, found: Checkpoints, w: World, steps: seq<WorldStep>)
    requires InLedgerOrder(chain) && Safe(cfg, chain, found, w)
    requires Plays(cfg, chain, w, steps) && StartsWell(cfg, chain, found, w, steps)
    ensures Safe(cfg, chain, found, Played(cfg, chain, w, steps))
    decreases |steps|
  {
    if steps != [] {
      StepSafe(cfg, chain, found, w, steps[0]);
      RunSafe(cfg, chain, found, NextWorld(cfg, chain, w, steps[0]), steps[1..]);
    }
  }

  // --- checkpoints move with the commits ---

  /** The delivered event is a configured contract's, it parses, and one of its attempts commits. */
  ghost predicate Commits(cfg: Config, chain: seq<RawEvent>, w: World, step: WorldStep)
    requires Possible(chain, w, step)
  {
    step.Deliver? &&
    var raw := chain[w.session.next];
    raw.contractId in cfg.contracts && raw.parsed.Some?
    && Attempts(w.tables, raw.parsed.value, step.faults, 1, cfg.maxRetries).outcome.Ok?
  }

  /** The position of the contract's last event that the run committed. */
  ghost function LastCommit(cfg: Config, chain: seq<RawEvent>, w: World, steps: seq<WorldStep>, contract: string): Option<nat>
    requires Plays(cfg, chain, w, steps)
    decreases |steps|
  {
    if steps == [] then None
    else
      var later := LastCommit(cfg, chain, NextWorld(cfg, chain, w, steps[0]), steps[1..], contract);
      if later.Some? then later
      else if Commits(cfg, chain, w, steps[0]) && chain[w.session.next].contractId == contract then Some(w.session.next)
      else None
  }

  predicate WritesWork(steps: seq<WorldStep>) {
    forall i :: 0 <= i < |steps| && steps[i].Deliver? ==> steps[i].checkpointStored
  }

  lemma {:induction false} CheckpointStep(cfg: Config, chain: seq<RawEvent>, w: World, step: WorldStep)
    requires Possible(chain, w, step) && (step.Deliver? ==> step.checkpointStored)
    ensures NextWorld(cfg, chain, w, step).checkpoints
         == if Commits(cfg, chain, w, step)
            then var raw := chain[w.session.next]; w.checkpoints[raw.contractId := Checkpoint(raw.ledger, Some(raw.pagingToken))]
            else w.checkpoints
  {
    hide Attempts;
  }

  /** In any run whose checkpoint writes work, starts and deaths in it included, each contract's checkpoint ends
      at the ledger and token of its last committed event, and stays as it was when none was committed. */
  lemma {:induction false} CheckpointsFollowCommits(cfg: Config, chain: seq<RawEvent>, w: World, steps: seq<WorldStep>, contract: string)
    requires Plays(cfg, chain, w, steps) && WritesWork(steps)
    ensures var r := Played(cfg, chain, w, steps).checkpoints;
            match LastCommit(cfg, chain, w, steps, contract)
            case Some(i) =>
              && i < |chain| && chain[i].contractId == contract && contract in cfg.contracts
              && contract in r && r[contract] == Checkpoint(chain[i].ledger, Some(chain[i].pagingToken))
            case None => (contract in r <==> contract in w.checkpoints) && (contract in r ==> r[contract] == w.checkpoints[contract])
    decreases |steps|
  {
    hide NextWorld, Attempts;
    if steps != [] {
      CheckpointStep(cfg, chain, w, steps[0]);
      CheckpointsFollowCommits(cfg, chain, NextWorld(cfg, chain, w, steps[0]), steps[1..], contract);
    }
  }

  function FreshWorld(found: Checkpoints): World {
    World(EMPTY_TABLES, found, Down, [], {})
  }

  lemma {:induction false} FreshIsSafe(cfg: Config, chain: seq<RawEvent>, found: Checkpoints)
    ensures Safe(cfg, chain, found, FreshWorld(found))
  {
    assert Business(EMPTY_TABLES) == EMPTY_TABLES;
    assert Reflects(EMPTY_TABLES, []);
  }

  /** After any sequence of starts, deliveries, crashes at any point and failed checkpoint writes: every
      event of a configured contract at or above the first ledger and below the ledger the next start
      would return was committed or reported as failed, and the tables hold each committed event exactly
      once. */
  lemma {:induction false} RestartNeverSkips(cfg: Config, chain: seq<RawEvent>, found: Checkpoints, steps: seq<WorldStep>,
                                             unreadable: set<string>)
    requires InLedgerOrder(chain)
    requires Plays(cfg, chain, FreshWorld(found), steps) && StartsWell(cfg, chain, found, FreshWorld(found), steps)
    requires ReadsHarmless(cfg, found, Played(cfg, chain, FreshWorld(found), steps).checkpoints, unreadable)
    ensures var w := Played(cfg, chain, FreshWorld(found), steps);
            && Reflects(w.tables, w.log) && References(w.tables) && OneRowPerLifecycleEvent(w.tables, w.log)
            && Cleared(cfg, chain, w, FirstLedger(cfg, found), EffectiveStart(cfg, w.checkpoints, unreadable))
  {
    FreshIsSafe(cfg, chain, found);
    RunSafe(cfg, chain, found, FreshWorld(found), steps);
    var w := Played(cfg, chain, FreshWorld(found), steps);
    ReflectionIntegrity(w.tables, w.log);
    StartNeverSkips(cfg, chain, found, w, unreadable);
  }

  // --- which read errors are harmless ---

  /** Reads that all succeed are harmless. */
  lemma {:induction false} ReadableStart(cfg: Config, checkpoints: Checkpoints, unreadable: set<string>)
    requires forall c :: c in cfg.contracts && c in checkpoints ==> c !in unreadable
    ensures EffectiveStart(cfg, checkpoints, unreadable) == EffectiveStart(cfg, checkpoints, {})
  {
    ReadableMin(cfg, checkpoints, unreadable, |cfg.contracts|);
  }

  lemma {:induction false} ReadableMin(cfg: Config, checkpoints: Checkpoints, unreadable: set<string>, n: nat)
    requires forall c :: c in cfg.contracts && c in checkpoints ==> c !in unreadable
    requires n <= |cfg.contracts|
    ensures MinLedger(cfg, checkpoints, unreadable, n) == MinLedger(cfg, checkpoints, {}, n)
  {
    if n > 0 {
      ReadableMin(cfg, checkpoints, unreadable, n - 1);
      assert cfg.contracts[n - 1] in cfg.contracts;
    }
  }

  /** With a default that is no later than the first ledger every read error is harmless. */
  lemma {:induction false} EarlyDefaultHarmless(cfg: Config, found: Checkpoints, checkpoints: Checkpoints, unreadable: set<string>)
    requires DefaultLedger(cfg) <= FirstLedger(cfg, found)
    requires forall c :: c in found ==> c in checkpoints
    ensures ReadsHarmless(cfg, found, checkpoints, unreadable)
  {
    EffectiveStartIsMinimum(cfg, checkpoints, unreadable);
    if c :| c in cfg.contracts && c in checkpoints && c in unreadable {
      assert ContractLedger(cfg, checkpoints, unreadable, c) == DefaultLedger(cfg);
    } else {
      ReadableStart(cfg, checkpoints, unreadable);
      NotLaterHarmless(cfg, found, checkpoints, unreadable);
    }
  }

  lemma {:induction false} EarlyDefaultStartsWell(cfg: Config, chain: seq<RawEvent>, found: Checkpoints, w: World, steps: seq<WorldStep>)
    requires DefaultLedger(cfg) <= FirstLedger(cfg, found) && Plays(cfg, chain, w, steps)
    requires forall c :: c in found ==> c in w.checkpoints
    ensures StartsWell(cfg, chain, found, w, steps)
    ensures forall c :: c in found ==> c in Played(cfg, chain, w, steps).checkpoints
    decreases |steps|
  {
    if steps != [] {
      if steps[0].Start? {
        EarlyDefaultHarmless(cfg, found, w.checkpoints, steps[0].unreadable);
      }
      EarlyDefaultStartsWell(cfg, chain, found, NextWorld(cfg, chain, w, steps[0]), steps[1..]);
    }
  }

  /** A world that the invariant of the listener allows with these checkpoints, on some chain, in which a start
      with these read errors begins past an event that nobody has handled. */
  ghost predicate CanSkip(cfg: Config, chain: seq<RawEvent>, found: Checkpoints, w: World, unreadable: set<string>) {
    && InLedgerOrder(chain) && Safe(cfg, chain, found, w)
    && !Cleared(cfg, chain, w, FirstLedger(cfg, found), EffectiveStart(cfg, w.checkpoints, unreadable))
  }

  /** The witness: one event of a configured contract right before the start, which no session has reached. */
  lemma {:induction false} HarmfulStartSkips(cfg: Config, found: Checkpoints, checkpoints: Checkpoints, unreadable: set<string>, event: Event)
    requires cfg.contracts != [] && (forall c :: c in found ==> c in checkpoints)
    requires !ReadsHarmless(cfg, found, checkpoints, unreadable)
    ensures CanSkip(cfg, [RawEvent(cfg.contracts[0], EffectiveStart(cfg, checkpoints, unreadable) - 1, "", Some(event))], found,
                    FreshWorld(checkpoints), unreadable)
  {
    hide EffectiveStart;
    var start := EffectiveStart(cfg, checkpoints, unreadable);
    var chain := [RawEvent(cfg.contracts[0], start - 1, "", Some(event))];
    var w := FreshWorld(checkpoints);
    FreshIsSafe(cfg, chain, checkpoints);
    assert cfg.contracts[0] in cfg.contracts;
    forall c | Moved(found, checkpoints, c) ensures Cleared(cfg, chain, w, FirstLedger(cfg, found), checkpoints[c].lastLedger) {
      assert start > checkpoints[c].lastLedger;
    }
    assert !Handled(cfg, chain, w, 0);
  }

  /** For all checkpoints that a run can have led to, the condition is exact for what the invariant knows:
      these read errors can make a start skip if and only if they are not harmless. */
  lemma {:induction false} ReadsHarmlessIff(cfg: Config, found: Checkpoints, checkpoints: Checkpoints, unreadable: set<string>, event: Event)
    requires forall c :: c in found ==> c in checkpoints
    ensures (exists chain, w: World :: w.checkpoints == checkpoints && CanSkip(cfg, chain, found, w, unreadable))
            <==> !ReadsHarmless(cfg, found, checkpoints, unreadable)
  {
    hide Safe, Cleared, EffectiveStart;
    if ReadsHarmless(cfg, found, checkpoints, unreadable) {
      forall chain, w: World | w.checkpoints == checkpoints ensures !CanSkip(cfg, chain, found, w, unreadable) {
        if Safe(cfg, chain, found, w) {
          StartNeverSkips(cfg, chain, found, w, unreadable);
        }
      }
    } else {
      EffectiveStartIsMinimum(cfg, checkpoints, unreadable);
      EffectiveStartIsMinimum(cfg, found, {});
      HarmfulStartSkips(cfg, found, checkpoints, unreadable, event);
      assert FreshWorld(checkpoints).checkpoints == checkpoints;
    }
  }

  /** After this run a start with these read errors begins past an event that nobody has handled. */
  ghost predicate RestartSkips(cfg: Config, chain: seq<RawEvent>, found: Checkpoints, steps: seq<WorldStep>, unreadable: set<string>) {
    && InLedgerOrder(chain) && Plays(cfg, chain, FreshWorld(found), steps)
    && var w := Played(cfg, chain, FreshWorld(found), steps);
       !Cleared(cfg, chain, w, FirstLedger(cfg, found), EffectiveStart(cfg, w.checkpoints, unreadable))
  }

  /** A session that starts and dies at once. */
  const START_AND_DIE: seq<WorldStep> := [Start({}), Die]

  lemma {:induction false} StartAndDie(cfg: Config, chain: seq<RawEvent>, found: Checkpoints)
    ensures Plays(cfg, chain, FreshWorld(found), START_AND_DIE)
    ensures Played(cfg, chain, FreshWorld(found), START_AND_DIE) == FreshWorld(found)
  {
    var w0 := FreshWorld(found);
    var w1 := NextWorld(cfg, chain, w0, Start({}));
    var w2 := NextWorld(cfg, chain, w1, Die);
    assert START_AND_DIE[1..] == [Die] && START_AND_DIE[1..][1..] == [];
    assert Plays(cfg, chain, w2, []);
    assert Plays(cfg, chain, w1, START_AND_DIE[1..]);
  }

  /** The witness: one event of a configured contract at the first ledger. */
  lemma {:induction false} LateStartSkips(cfg: Config, found: Checkpoints, unreadable: set<string>, event: Event)
    requires EffectiveStart(cfg, found, unreadable) > FirstLedger(cfg, found) && cfg.contracts != []
    ensures RestartSkips(cfg, [RawEvent(cfg.contracts[0], FirstLedger(cfg, found), "", Some(event))], found, START_AND_DIE, unreadable)
  {
    hide EffectiveStart, NextWorld;
    var chain := [RawEvent(cfg.contracts[0], FirstLedger(cfg, found), "", Some(event))];
    StartAndDie(cfg, chain, found);
    assert cfg.contracts[0] in cfg.contracts;
    assert !Handled(cfg, chain, FreshWorld(found), 0);
  }

  /** These read errors, at a restart after a session that did nothing, can skip an event on some chain if
      and only if they move the start past the first ledger. */
  lemma {:induction false} ReadErrorSkipsIff(cfg: Config, found: Checkpoints, unreadable: set<string>, event: Event)
    ensures (exists chain :: RestartSkips(cfg, chain, found, START_AND_DIE, unreadable))
            <==> EffectiveStart(cfg, found, unreadable) > FirstLedger(cfg, found)
  {
    hide RestartSkips;
    EffectiveStartIsMinimum(cfg, found, unreadable);
    EffectiveStartIsMinimum(cfg, found, {});
    if EffectiveStart(cfg, found, unreadable) > FirstLedger(cfg, found) {
      LateStartSkips(cfg, found, unreadable, event);
    } else {
      forall chain ensures !RestartSkips(cfg, chain, found, START_AND_DIE, unreadable) {
        NotPastFirst(cfg, chain, found, START_AND_DIE, unreadable);
      }
    }
  }

  lemma {:induction false} NotPastFirst(cfg: Config, chain: seq<RawEvent>, found: Checkpoints, steps: seq<WorldStep>, unreadable: set<string>)
    requires steps == START_AND_DIE && EffectiveStart(cfg, found, unreadable) <= FirstLedger(cfg, found)
    ensures !RestartSkips(cfg, chain, found, steps, unreadable)
  {
    StartAndDie(cfg, chain, found);
  }

  /** The fallback of a failed read is fail-safe, whatever the chain, the run and the read errors on the way
      and at its end, if and only if the default ledger is no later than the first ledger. */
  lemma {:induction false} ReadErrorSkips(cfg: Config, found: Checkpoints, event: Event)
    ensures (exists chain, steps, unreadable :: RestartSkips(cfg, chain, found, steps, unreadable))
            <==> DefaultLedger(cfg) > FirstLedger(cfg, found)
  {
    hide RestartSkips;
    if DefaultLedger(cfg) > FirstLedger(cfg, found) {
      var everyone := set c | c in cfg.contracts;
      EffectiveStartIsMinimum(cfg, found, {});
      EffectiveStartIsMinimum(cfg, found, everyone);
      LateStartSkips(cfg, found, everyone, event);
    } else {
      forall chain, steps, unreadable ensures !RestartSkips(cfg, chain, found, steps, unreadable) {
        EarlyDefaultNeverSkips(cfg, chain, found, steps, unreadable);
      }
    }
  }

  lemma {:induction false} EarlyDefaultNeverSkips(cfg: Config, chain: seq<RawEvent>, found: Checkpoints, steps: seq<WorldStep>,
                                                  unreadable: set<string>)
    requires DefaultLedger(cfg) <= FirstLedger(cfg, found)
    ensures !RestartSkips(cfg, chain, found, steps, unreadable)
  {
    hide Cleared, Reflects, References, OneRowPerLifecycleEvent, EffectiveStart;
    if InLedgerOrder(chain) && Plays(cfg, chain, FreshWorld(found), steps) {
      EarlyDefaultStartsWell(cfg, chain, found, FreshWorld(found), steps);
      EarlyDefaultHarmless(cfg, found, Played(cfg, chain, FreshWorld(found), steps).checkpoints, unreadable);
      RestartNeverSkips(cfg, chain, found, steps, unreadable);
    }
  }
}
