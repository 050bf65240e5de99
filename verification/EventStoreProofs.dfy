/** The tables reflect each event exactly once, in the order of first commit. */
module EventStoreProofs {
  import opened Wrappers
  import opened Sorting
  import opened EventStoreSpec

  // --- the reference: each event applied once to empty tables ---

  ghost function Replay(log: seq<Event>): Option<Tables> {
    if log == [] then Some(EMPTY_TABLES)
    else
      var before := Replay(log[..|log| - 1]);
      if before.None? then None
      else
        var applied := Applied(before.value, log[|log| - 1]);
        if applied.Ok? then Some(applied.value) else None
  }

  function Ids(log: seq<Event>): (r: seq<string>)
    ensures |r| == |log| && forall i :: 0 <= i < |log| ==> r[i] == log[i].eventId
  {
    seq(|log|, i requires 0 <= i < |log| => log[i].eventId)
  }

  function LifecycleIds(log: seq<Event>): seq<string> {
    if log == [] then []
    else LifecycleIds(log[..|log| - 1])
         + (if IsLifecycle(log[|log| - 1].payload) then [log[|log| - 1].eventId] else [])
  }

  /** An outbox row as it was first written: the relay owns the other fields. */
  function AsWritten(row: OutboxRow): OutboxRow {
    row.(processed := false, attempts := 0, lastError := None)
  }

  function AllAsWritten(rows: seq<OutboxRow>): (r: seq<OutboxRow>)
    ensures |r| == |rows| && forall i :: 0 <= i < |rows| ==> r[i] == AsWritten(rows[i])
  {
    seq(|rows|, i requires 0 <= i < |rows| => AsWritten(rows[i]))
  }

  function Business(t: Tables): Tables {
    t.(outbox := AllAsWritten(t.outbox))
  }

  /** The tables are what the log gives when each of its events is applied exactly once. */
  ghost predicate Reflects(t: Tables, log: seq<Event>) {
    && Replay(log) == Some(Business(t))
    && Distinct(Ids(log))
    && (forall id :: id in t.processed <==> id in Ids(log))
  }

  // --- one attempt ---

  /** Whether the attempt commits the event for the first time, acknowledged or not. */
  predicate FirstCommit(t: Tables, event: Event, fault: Fault) {
    && event.eventId !in t.processed
    && (forall k :: 0 <= k < STATEMENTS ==> !Hits(fault, k))
    && Applied(t, event).Ok?
  }

  function Logged(log: seq<Event>, t: Tables, event: Event, fault: Fault): seq<Event> {
    if FirstCommit(t, event, fault) then log + [event] else log
  }

  lemma {:induction false} AttemptShape(t: Tables, event: Event, fault: Fault)
    ensures var r := Attempt(t, event, fault);
            && (FirstCommit(t, event, fault) ==> r.tables == Applied(t, event).value)
            && (!FirstCommit(t, event, fault) ==> r.tables == t)
            && (r.outcome.Ok? ==> event.eventId in r.tables.processed)
  {
    assert Hits(fault, 0) || Hits(fault, 1) || Hits(fault, 2) || Hits(fault, 3) || Hits(fault, 4)
      <==> !(forall k :: 0 <= k < STATEMENTS ==> !Hits(fault, k));
  }

  /** Nothing the transaction writes depends on how far the relay has come. */
  lemma {:induction false} AppliedIgnoresDelivery(t: Tables, event: Event)
    ensures Applied(t, event).Ok? <==> Applied(Business(t), event).Ok?
    ensures Applied(t, event).Ok? ==> Business(Applied(t, event).value) == Applied(Business(t), event).value
  {
    if Applied(t, event).Ok? {
      var routed := Route(t, event.payload).value;
      var marked := MarkProcessed(routed, event);
      assert Route(Business(t), event.payload).Ok?;
      assert Business(routed) == Route(Business(t), event.payload).value;
      assert Business(marked) == MarkProcessed(Business(routed), event);
      if IsLifecycle(event.payload) {
        var row := OutboxRow(event.eventId, event.payload, OrganizationOf(marked, event.payload.vaultId), false, 0, None);
        assert AllAsWritten(marked.outbox + [row]) == AllAsWritten(marked.outbox) + [row];
      }
    }
  }

  lemma {:induction false} ReplayNext(log: seq<Event>, event: Event)
    ensures Replay(log + [event])
         == if Replay(log).Some? && Applied(Replay(log).value, event).Ok? then Some(Applied(Replay(log).value, event).value) else None
  {
    hide Applied;
    assert (log + [event])[..|log|] == log;
  }

  lemma {:induction false} AppliedProcesses(t: Tables, event: Event)
    requires Applied(t, event).Ok?
    ensures Applied(t, event).value.processed.Keys == t.processed.Keys + {event.eventId}
  {
    assert Route(t, event.payload).value.processed == t.processed;
  }

  lemma {:induction false} CommitReflects(t: Tables, log: seq<Event>, event: Event)
    requires Reflects(t, log) && event.eventId !in t.processed && Applied(t, event).Ok?
    ensures Reflects(Applied(t, event).value, log + [event])
  {
    hide Applied, Business, Replay;
    var log' := log + [event];
    ReplayNext(log, event);
    AppliedIgnoresDelivery(t, event);
    assert Ids(log') == Ids(log) + [event.eventId];
    assert event.eventId !in Ids(log);
    AppliedProcesses(t, event);
  }

  /** Every attempt keeps the reflection, whatever interrupts it and whether or not its commit is
      acknowledged; a redelivery of a processed event, and every aborted attempt, changes no table. */
  lemma {:induction false} AttemptReflects(t: Tables, log: seq<Event>, event: Event, fault: Fault)
    requires Reflects(t, log)
    ensures Reflects(Attempt(t, event, fault).tables, Logged(log, t, event, fault))
  {
    AttemptShape(t, event, fault);
    if FirstCommit(t, event, fault) {
      CommitReflects(t, log, event);
    }
  }

  // --- what the handlers write ---

  /** A lifecycle event touches its vault and nothing else: creation adds it once, as active, and leaves one
      that exists alone; a closing event sets the status it is named after and needs the vault. */
  lemma {:induction false} VaultEventEffect(t: Tables, payload: Payload)
    requires IsLifecycle(payload)
    ensures HandleVault(t, payload).Err? <==> !payload.VaultCreated? && payload.vaultId !in t.vaults
    ensures var r := HandleVault(t, payload);
            r.Ok? ==>
              && r.value == t.(vaults := r.value.vaults)
              && r.value.vaults == t.vaults[payload.vaultId := r.value.vaults[payload.vaultId]]
              && (payload.VaultCreated? && payload.vaultId in t.vaults ==> r.value == t)
              && (payload.VaultCreated? && payload.vaultId !in t.vaults ==>
                    r.value.vaults[payload.vaultId].terms == payload.terms && r.value.vaults[payload.vaultId].status == Active)
              && (payload.VaultCompleted? ==> r.value.vaults[payload.vaultId] == t.vaults[payload.vaultId].(status := Completed))
              && (payload.VaultFailed? ==> r.value.vaults[payload.vaultId] == t.vaults[payload.vaultId].(status := Failed))
              && (payload.VaultCancelled? ==> r.value.vaults[payload.vaultId] == t.vaults[payload.vaultId].(status := Cancelled))
  {
    if HandleVault(t, payload).Ok? && payload.vaultId in t.vaults {
      assert t.vaults == t.vaults[payload.vaultId := t.vaults[payload.vaultId]];
    }
  }

  /** A validation is recorded once and judges its milestone: approval completes it at its target amount,
      rejection fails it with its amount unchanged, anything else leaves it. Nothing else is touched. */
  lemma {:induction false} ValidationEventEffect(t: Tables, payload: Payload)
    requires payload.MilestoneValidated?
    ensures HandleValidation(t, payload).Err? <==> payload.milestoneId !in t.milestones
    ensures var r := HandleValidation(t, payload);
            r.Ok? ==>
              && r.value == t.(milestones := r.value.milestones, validations := r.value.validations)
              && r.value.validations.Keys == t.validations.Keys + {payload.validationId}
              && (forall id :: id in t.validations ==> r.value.validations[id] == t.validations[id])
              && (payload.validationId !in t.validations ==>
                    r.value.validations[payload.validationId].milestoneId == payload.milestoneId
                    && r.value.validations[payload.validationId].result == payload.result)
              && r.value.milestones.Keys == t.milestones.Keys
              && (forall id :: id in t.milestones && id != payload.milestoneId ==> r.value.milestones[id] == t.milestones[id])
              && (var before := t.milestones[payload.milestoneId];
                  r.value.milestones[payload.milestoneId]
                  == before.(status := if payload.result == Approved then MilestoneCompleted
                                       else if payload.result == Rejected then MilestoneFailed else before.status,
                             currentAmount := if payload.result == Approved then before.targetAmount else before.currentAmount))
  {
    hide HandleVault, HandleMilestone;
    if HandleValidation(t, payload).Ok? {
      assert t.milestones[payload.milestoneId := Judged(t.milestones[payload.milestoneId], payload.result)].Keys == t.milestones.Keys;
      if payload.validationId in t.validations {
        assert t.validations.Keys == t.validations.Keys + {payload.validationId};
      }
    }
  }

  /** What a milestone event comes to: it fails exactly when its vault is missing; otherwise the milestone is
      there, a new one pending with nothing reached, an existing one as it was, and nothing else is touched. */
  lemma {:induction false} MilestoneEventEffect(t: Tables, payload: Payload)
    requires payload.MilestoneCreated?
    ensures var r := HandleMilestone(t, payload);
            && (r == Err(DependencyNotFound) <==> payload.vaultId !in t.vaults)
            && (r.Ok? <==> payload.vaultId in t.vaults)
            && (r.Ok? ==>
                  && r.value == t.(milestones := r.value.milestones)
                  && r.value.milestones.Keys == t.milestones.Keys + {payload.milestoneId}
                  && (forall id :: id in t.milestones ==> r.value.milestones[id] == t.milestones[id])
                  && (payload.milestoneId !in t.milestones ==>
                        var m := r.value.milestones[payload.milestoneId];
                        && m.status == MilestonePending && m.currentAmount == "0"
                        && m.vaultId == payload.vaultId && m.targetAmount == payload.targetAmount
                        && m.title == payload.title && m.description == payload.description && m.deadline == payload.deadline))
    ensures Route(t, payload) == HandleMilestone(t, payload)
  {
    hide HandleVault, HandleValidation;
    if payload.milestoneId in t.milestones {
      assert t.milestones.Keys == t.milestones.Keys + {payload.milestoneId};
    }
  }

  // --- integrity of the tables ---

  ghost predicate References(t: Tables) {
    && (forall id :: id in t.milestones ==> t.milestones[id].vaultId in t.vaults)
    && (forall id :: id in t.validations ==> t.validations[id].milestoneId in t.milestones)
    && (forall id :: id in t.milestones && t.milestones[id].status == MilestoneCompleted ==>
          t.milestones[id].currentAmount == t.milestones[id].targetAmount)
  }

  ghost predicate OneRowPerLifecycleEvent(t: Tables, log: seq<Event>) {
    && |t.outbox| == |LifecycleIds(log)|
    && (forall i :: 0 <= i < |t.outbox| ==> t.outbox[i].eventId == LifecycleIds(log)[i])
  }

  lemma {:induction false} RouteKeepsReferences(t: Tables, payload: Payload)
    requires References(t) && Route(t, payload).Ok?
    ensures References(Route(t, payload).value)
  {
  }

  lemma {:induction false} AppliedKeepsReferences(t: Tables, event: Event)
    requires References(t) && Applied(t, event).Ok?
    ensures References(Applied(t, event).value)
  {
    hide Route;
    RouteKeepsReferences(t, event.payload);
  }

  lemma {:induction false} ReplayIntegrity(log: seq<Event>)
    requires Replay(log).Some?
    ensures References(Replay(log).value) && OneRowPerLifecycleEvent(Replay(log).value, log)
  {
    if log != [] {
      var init := log[..|log| - 1];
      var last := log[|log| - 1];
      ReplayIntegrity(init);
      AppliedKeepsReferences(Replay(init).value, last);
    }
  }

  lemma {:induction false} LifecycleIdsOf(log: seq<Event>)
    ensures forall id :: id in LifecycleIds(log) ==> id in Ids(log)
    ensures forall e :: e in log && IsLifecycle(e.payload) ==> e.eventId in LifecycleIds(log)
    ensures Distinct(Ids(log)) ==> Distinct(LifecycleIds(log))
  {
    if log != [] {
      var init := log[..|log| - 1];
      var last := log[|log| - 1];
      LifecycleIdsOf(init);
      assert log == init + [last];
      assert Ids(log) == Ids(init) + [last.eventId];
      if Distinct(Ids(log)) {
        assert forall i, j :: 0 <= i < j < |init| ==> Ids(init)[i] != Ids(init)[j];
        assert last.eventId !in Ids(init);
      }
    }
  }

  /** In every state that reflects a log: each milestone has its vault, each validation its milestone, a
      completed milestone has reached its target, and the outbox holds exactly one row for each processed
      lifecycle event, in the order of first commit. */
  lemma {:induction false} ReflectionIntegrity(t: Tables, log: seq<Event>)
    requires Reflects(t, log)
    ensures References(t)
    ensures OneRowPerLifecycleEvent(t, log) && Distinct(LifecycleIds(log))
    ensures forall e :: e in log && IsLifecycle(e.payload) ==>
              exists i :: 0 <= i < |t.outbox| && t.outbox[i].eventId == e.eventId
  {
    ReplayIntegrity(log);
    LifecycleIdsOf(log);
    assert forall i :: 0 <= i < |t.outbox| ==> Business(t).outbox[i].eventId == t.outbox[i].eventId;
    forall e | e in log && IsLifecycle(e.payload)
      ensures exists i :: 0 <= i < |t.outbox| && t.outbox[i].eventId == e.eventId
    {
      assert e.eventId in LifecycleIds(log);
      var i :| 0 <= i < |LifecycleIds(log)| && LifecycleIds(log)[i] == e.eventId;
      assert t.outbox[i].eventId == e.eventId;
    }
  }

  // --- the retry loop ---

  function LoggedAll(log: seq<Event>, t: Tables, event: Event, faults: nat -> Fault, attempt: nat, maxAttempts: int): seq<Event>
    decreases maxAttempts - attempt
  {
    if attempt > maxAttempts then log
    else
      var r := Attempt(t, event, faults(attempt));
      var log' := Logged(log, t, event, faults(attempt));
      if r.outcome.Ok? || !Retryable(r.outcome.error) || attempt == maxAttempts then log'
      else LoggedAll(log', r.tables, event, faults, attempt + 1, maxAttempts)
  }

  /** However many attempts a delivery takes, it adds the event to the log at most once, and a delivery
      that reports success leaves the event processed. */
  lemma {:induction false} AttemptsReflect(t: Tables, log: seq<Event>, event: Event, faults: nat -> Fault,
                                           attempt: nat, maxAttempts: int)
    requires Reflects(t, log)
    ensures var r := Attempts(t, event, faults, attempt, maxAttempts);
            var log' := LoggedAll(log, t, event, faults, attempt, maxAttempts);
            && Reflects(r.tables, log')
            && (log' == log || (log' == log + [event] && event.eventId !in t.processed))
            && (r.outcome.Ok? ==> event.eventId in r.tables.processed)
    decreases maxAttempts - attempt
  {
    if attempt <= maxAttempts {
      var fault := faults(attempt);
      var r := Attempt(t, event, fault);
      AttemptReflects(t, log, event, fault);
      AttemptShape(t, event, fault);
      if !(r.outcome.Ok? || !Retryable(r.outcome.error) || attempt == maxAttempts) {
        AttemptsReflect(r.tables, Logged(log, t, event, fault), event, faults, attempt + 1, maxAttempts);
        if FirstCommit(t, event, fault) {
          assert event.eventId in r.tables.processed;
        }
      }
    }
  }

  // --- every schedule ---

  /** One transaction attempt of a schedule: any event, delivered for any time, with any fault. */
  datatype Delivery = Delivery(event: Event, fault: Fault)

  function Schedule(t: Tables, deliveries: seq<Delivery>): Tables
    decreases |deliveries|
  {
    if deliveries == [] then t
    else Schedule(Attempt(t, deliveries[0].event, deliveries[0].fault).tables, deliveries[1..])
  }

  function FirstCommits(t: Tables, deliveries: seq<Delivery>): seq<Event>
    decreases |deliveries|
  {
    if deliveries == [] then []
    else
      var d := deliveries[0];
      (if FirstCommit(t, d.event, d.fault) then [d.event] else [])
      + FirstCommits(Attempt(t, d.event, d.fault).tables, deliveries[1..])
  }

  lemma {:induction false} ScheduleReflects(t: Tables, log: seq<Event>, deliveries: seq<Delivery>)
    requires Reflects(t, log)
    ensures Reflects(Schedule(t, deliveries), log + FirstCommits(t, deliveries))
    decreases |deliveries|
  {
    hide Reflects, Attempt;
    if deliveries == [] {
      assert log + [] == log;
    } else {
      var d := deliveries[0];
      var next := Attempt(t, d.event, d.fault).tables;
      AttemptReflects(t, log, d.event, d.fault);
      ScheduleReflects(next, Logged(log, t, d.event, d.fault), deliveries[1..]);
      assert Logged(log, t, d.event, d.fault) + FirstCommits(next, deliveries[1..])
          == log + FirstCommits(t, deliveries);
    }
  }

  /** Effectively once, for every schedule of redeliveries, aborted attempts, crashes and lost
      acknowledgements: the tables equal the result of applying each event id exactly once, in the order
      of first commit, and their integrity holds. */
  lemma {:induction false} EffectivelyOnce(deliveries: seq<Delivery>)
    ensures var t := Schedule(EMPTY_TABLES, deliveries);
            var log := FirstCommits(EMPTY_TABLES, deliveries);
            && Replay(log) == Some(Business(t))
            && Distinct(Ids(log)) && (forall id :: id in t.processed <==> id in Ids(log))
            && References(t) && OneRowPerLifecycleEvent(t, log)
  {
    assert Business(EMPTY_TABLES) == EMPTY_TABLES;
    ScheduleReflects(EMPTY_TABLES, [], deliveries);
    assert [] + FirstCommits(EMPTY_TABLES, deliveries) == FirstCommits(EMPTY_TABLES, deliveries);
    ReflectionIntegrity(Schedule(EMPTY_TABLES, deliveries), FirstCommits(EMPTY_TABLES, deliveries));
  }
}
