/** What a committed event writes besides its own tables, and which deliveries commit. */
module EventStoreEffects {
  import opened Wrappers
  import opened Sorting
  import opened EventStoreSpec
  import opened EventStoreProofs

  // --- what a commit writes ---

  /** The row says of the event what the relay passes on: its id, its own type and data, and the organization
      of its vault in these vaults, if it has one. */
  predicate Announces(row: OutboxRow, event: Event, vaults: map<string, Vault>)
    requires IsLifecycle(event.payload)
  {
    var id := event.payload.vaultId;
    && row.eventId == event.eventId && row.payload == event.payload
    && row.organizationId == if id != "" && id in vaults && vaults[id].organizationId.Some?
                             then vaults[id].organizationId.value else ""
  }

  /** A committed event is recorded as processed with its transaction, index and ledger, and announced by one
      new outbox row, not yet dispatched, if it is a lifecycle event. Every other row of both tables stays. */
  lemma {:induction false} CommitWrites(t: Tables, event: Event)
    requires Applied(t, event).Ok?
    ensures var r := Applied(t, event).value;
            && r.processed == t.processed[event.eventId := ProcessedRow(event.transactionHash, event.eventIndex, event.ledgerNumber)]
            && (!IsLifecycle(event.payload) ==> r.outbox == t.outbox)
            && (IsLifecycle(event.payload) ==>
                  && |r.outbox| == |t.outbox| + 1 && r.outbox[..|t.outbox|] == t.outbox
                  && var row := r.outbox[|t.outbox|];
                     Announces(row, event, r.vaults) && !row.processed && row.attempts == 0 && row.lastError == None)
  {
    assert Route(t, event.payload).value.outbox == t.outbox && Route(t, event.payload).value.processed == t.processed;
  }

  // --- what the tables say of a whole log ---

  /** The lifecycle events of the log, in order. */
  function LifecycleEvents(log: seq<Event>): (r: seq<Event>)
    ensures forall i :: 0 <= i < |r| ==> IsLifecycle(r[i].payload)
  {
    if log == [] then []
    else LifecycleEvents(log[..|log| - 1]) + (if IsLifecycle(log[|log| - 1].payload) then [log[|log| - 1]] else [])
  }

  /** The rows announce the lifecycle events of the log in order, each with the vaults as its commit left them. */
  ghost predicate AnnouncesLog(rows: seq<OutboxRow>, log: seq<Event>)
    requires Replay(log).Some?
  {
    if log == [] then rows == []
    else
      var init := log[..|log| - 1];
      var last := log[|log| - 1];
      if IsLifecycle(last.payload)
      then rows != [] && Announces(rows[|rows| - 1], last, Replay(log).value.vaults) && AnnouncesLog(rows[..|rows| - 1], init)
      else AnnouncesLog(rows, init)
  }

  lemma {:induction false} ReplayAnnounces(log: seq<Event>)
    requires Replay(log).Some?
    ensures AnnouncesLog(Replay(log).value.outbox, log)
  {
    hide Applied, Announces;
    if log != [] {
      var init := log[..|log| - 1];
      ReplayAnnounces(init);
      CommitWrites(Replay(init).value, log[|log| - 1]);
    }
  }

  /** The relay's own fields do not matter to what a row announces. */
  lemma {:induction false} AsWrittenAnnounces(rows: seq<OutboxRow>, log: seq<Event>)
    requires Replay(log).Some? && AnnouncesLog(AllAsWritten(rows), log)
    ensures AnnouncesLog(rows, log)
    decreases |log|
  {
    hide Applied;
    if log != [] {
      var init := log[..|log| - 1];
      if IsLifecycle(log[|log| - 1].payload) {
        assert AllAsWritten(rows)[..|rows| - 1] == AllAsWritten(rows[..|rows| - 1]);
        AsWrittenAnnounces(rows[..|rows| - 1], init);
      } else {
        AsWrittenAnnounces(rows, init);
      }
    }
  }

  lemma {:induction false} AnnouncedInOrder(rows: seq<OutboxRow>, log: seq<Event>)
    requires Replay(log).Some? && AnnouncesLog(rows, log)
    ensures |rows| == |LifecycleEvents(log)|
    ensures forall i :: 0 <= i < |rows| ==>
              rows[i].eventId == LifecycleEvents(log)[i].eventId && rows[i].payload == LifecycleEvents(log)[i].payload
    decreases |log|
  {
    hide Applied;
    if log != [] {
      var init := log[..|log| - 1];
      if IsLifecycle(log[|log| - 1].payload) {
        AnnouncedInOrder(rows[..|rows| - 1], init);
      } else {
        AnnouncedInOrder(rows, init);
      }
    }
  }

  lemma {:induction false} ReplayRecords(log: seq<Event>)
    requires Replay(log).Some? && Distinct(Ids(log))
    ensures forall e :: e in log ==>
              && e.eventId in Replay(log).value.processed
              && Replay(log).value.processed[e.eventId] == ProcessedRow(e.transactionHash, e.eventIndex, e.ledgerNumber)
  {
    hide Applied;
    if log != [] {
      var n := |log| - 1;
      var init := log[..n];
      assert forall i, j :: 0 <= i < j < n ==> Ids(log)[i] != Ids(log)[j];
      ReplayRecords(init);
      CommitWrites(Replay(init).value, log[n]);
      forall e | e in log && e != log[n] ensures e in init && e.eventId != log[n].eventId {
        var k :| 0 <= k < |log| && log[k] == e;
        assert init[k] == e && Ids(log)[k] != Ids(log)[n];
      }
    }
  }

  /** In every state that the ingestion reaches, whatever the relay has done meanwhile: row i of the outbox
      carries id, type and data of the i-th lifecycle event committed, with the organization its vault had at
      the commit, and each committed event is recorded with its own transaction, index and ledger. */
  lemma {:induction false} TablesTellTheLog(t: Tables, log: seq<Event>)
    requires Reflects(t, log)
    ensures Replay(log).Some? && AnnouncesLog(t.outbox, log)
    ensures |t.outbox| == |LifecycleEvents(log)|
    ensures forall i :: 0 <= i < |t.outbox| ==>
              t.outbox[i].eventId == LifecycleEvents(log)[i].eventId && t.outbox[i].payload == LifecycleEvents(log)[i].payload
    ensures forall e :: e in log ==>
              && e.eventId in t.processed
              && t.processed[e.eventId] == ProcessedRow(e.transactionHash, e.eventIndex, e.ledgerNumber)
  {
    hide Replay, AnnouncesLog, LifecycleEvents;
    ReplayAnnounces(log);
    AsWrittenAnnounces(t.outbox, log);
    AnnouncedInOrder(t.outbox, log);
    ReplayRecords(log);
  }

  // --- which deliveries commit ---

  /** What the event builds on is there: the vault of a closing event or a milestone, the milestone of a
      validation; creating a vault needs nothing. */
  predicate DependencyMet(t: Tables, payload: Payload) {
    match payload
    case VaultCreated(_, _) => true
    case VaultCompleted(id) => id in t.vaults
    case VaultFailed(id) => id in t.vaults
    case VaultCancelled(id) => id in t.vaults
    case MilestoneCreated(_, id, _, _, _, _) => id in t.vaults
    case MilestoneValidated(_, id, _, _, _, _) => id in t.milestones
    case SettlementSummary => false
  }

  /** An attempt that nothing interrupts succeeds exactly for an event that was processed before or whose
      dependency is there, and the event is processed then; a missing dependency and an unknown type are
      told apart, and leave the tables as they were. */
  lemma {:induction false} UninterruptedAttempt(t: Tables, event: Event)
    ensures var r := Attempt(t, event, NoFault);
            && (r.outcome.Ok? <==> event.eventId in t.processed || DependencyMet(t, event.payload))
            && (r.outcome.Ok? ==> event.eventId in r.tables.processed)
            && (event.eventId in t.processed ==> r.tables == t)
            && (r.outcome.Err? ==>
                  r.tables == t
                  && r.outcome.error == if event.payload.SettlementSummary? then UnknownEventType else DependencyNotFound)
  {
  }

  /** The attempts before number n are cut off by faults that pass. */
  predicate PassingFaults(faults: nat -> Fault, from: nat, n: nat) {
    forall k :: from <= k < n ==> faults(k).StopsBefore? && faults(k).statement < STATEMENTS && faults(k).transient
  }

  lemma {:induction false} CutOffAttempt(t: Tables, event: Event, fault: Fault)
    requires fault.StopsBefore? && fault.statement < STATEMENTS && fault.transient
    ensures var r := Attempt(t, event, fault);
            && r.tables == t
            && (event.eventId in t.processed || DependencyMet(t, event.payload) ==>
                  r.outcome.Err? ==> r.outcome.error == Interrupted(true))
  {
    hide Applied;
    UninterruptedAttempt(t, event);
  }

  /** A delivery outlasts passing faults: when fewer attempts are cut off than are allowed and the next one is
      not, an event whose dependency is there is processed and the delivery succeeds. */
  lemma {:induction false} DeliveryOutlastsFaults(t: Tables, event: Event, faults: nat -> Fault, attempt: nat, n: nat, maxAttempts: int)
    requires attempt <= n <= maxAttempts && PassingFaults(faults, attempt, n) && faults(n) == NoFault
    requires event.eventId in t.processed || DependencyMet(t, event.payload)
    ensures var r := Attempts(t, event, faults, attempt, maxAttempts);
            r.outcome.Ok? && event.eventId in r.tables.processed
    decreases n - attempt
  {
    hide Attempt, DependencyMet;
    AttemptShape(t, event, faults(attempt));
    if attempt == n {
      UninterruptedAttempt(t, event);
    } else {
      CutOffAttempt(t, event, faults(attempt));
      if Attempt(t, event, faults(attempt)).outcome.Err? {
        DeliveryOutlastsFaults(t, event, faults, attempt + 1, n, maxAttempts);
      }
    }
  }

  /** Without faults a delivery that cannot be applied fails with its cause, and changes no table. */
  lemma {:induction false} DeliveryFails(t: Tables, event: Event, faults: nat -> Fault, attempt: nat, maxAttempts: int)
    requires attempt <= maxAttempts && forall k: nat :: faults(k) == NoFault
    requires event.eventId !in t.processed && !DependencyMet(t, event.payload)
    ensures Attempts(t, event, faults, attempt, maxAttempts)
         == AttemptResult(t, Err(if event.payload.SettlementSummary? then UnknownEventType else DependencyNotFound))
    decreases maxAttempts - attempt
  {
    hide Attempt, DependencyMet;
    UninterruptedAttempt(t, event);
    if attempt < maxAttempts {
      DeliveryFails(t, event, faults, attempt + 1, maxAttempts);
    }
  }
}
