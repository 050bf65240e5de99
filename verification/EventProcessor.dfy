/** The event processor and the outbox relay over one database, in the form of the source. */
module EventProcessor {
  import opened Wrappers
  import opened EventStoreSpec
  import opened EventStoreProofs
  import opened EventStoreEffects
  import opened OutboxRelaySpec

  datatype ProcessingResult = ProcessingResult(success: bool, retryCount: int)

  class EventProcessor {
    var tables: Tables
    var failedEvents: map<string, FailedRow>
    const maxRetries: int

    /** The events committed so far, in the order of first commit. */
    ghost var log: seq<Event>

    ghost predicate Valid()
      reads this
    {
      Reflects(tables, log)
    }

    constructor (maxRetries: int)
      ensures Valid() && tables == EMPTY_TABLES && failedEvents == map[] && log == [] && this.maxRetries == maxRetries
    {
      tables, failedEvents, log := EMPTY_TABLES, map[], [];
      this.maxRetries := maxRetries;
      new;
      assert Business(tables) == EMPTY_TABLES;
    }

    // --- the handlers, statement by statement on the transaction's view ---

    method HandleVaultEvent(start: Tables, payload: Payload) returns (trx: Tables, failure: Option<ProcessingError>)
      requires IsLifecycle(payload)
      ensures failure.None? ==> HandleVault(start, payload) == Ok(trx)
      ensures failure.Some? ==> HandleVault(start, payload) == Err(failure.value)
    {
      trx, failure := start, None;
      var id := payload.vaultId;
      if payload.VaultCreated? {
        if id !in trx.vaults {
          trx := trx.(vaults := trx.vaults[id := Vault(payload.terms, None, Active)]);
        }
      } else {
        var updated := 0;
        if id in trx.vaults {
          trx := trx.(vaults := trx.vaults[id := trx.vaults[id].(status := ClosedStatus(payload))]);
          updated := 1;
        }
        if updated == 0 {
          failure := Some(DependencyNotFound);
        }
      }
    }

    method HandleMilestoneEvent(start: Tables, payload: Payload) returns (trx: Tables, failure: Option<ProcessingError>)
      requires payload.MilestoneCreated?
      ensures failure.None? ==> HandleMilestone(start, payload) == Ok(trx)
      ensures failure.Some? ==> HandleMilestone(start, payload) == Err(failure.value)
    {
      trx, failure := start, None;
      if payload.vaultId !in trx.vaults {
        failure := Some(DependencyNotFound);
        return;
      }
      if payload.milestoneId !in trx.milestones {
        trx := trx.(milestones := trx.milestones[payload.milestoneId :=
          Milestone(payload.vaultId, payload.title, payload.description, payload.targetAmount, "0",
                    payload.deadline, MilestonePending)]);
      }
    }

    method HandleValidationEvent(start: Tables, payload: Payload) returns (trx: Tables, failure: Option<ProcessingError>)
      requires payload.MilestoneValidated?
      ensures failure.None? ==> HandleValidation(start, payload) == Ok(trx)
      ensures failure.Some? ==> HandleValidation(start, payload) == Err(failure.value)
    {
      trx, failure := start, None;
      if payload.milestoneId !in trx.milestones {
        failure := Some(DependencyNotFound);
        return;
      }
      var milestone := trx.milestones[payload.milestoneId];
      if payload.validationId !in trx.validations {
        trx := trx.(validations := trx.validations[payload.validationId :=
          Validation(payload.milestoneId, payload.validatorAddress, payload.result, payload.evidenceHash, payload.validatedAt)]);
      }
      var updated := milestone;
      if payload.result == Approved {
        updated := updated.(status := MilestoneCompleted, currentAmount := milestone.targetAmount);
      } else if payload.result == Rejected {
        updated := updated.(status := MilestoneFailed);
      }
      trx := trx.(milestones := trx.milestones[payload.milestoneId := updated]);
    }

    method RouteEvent(start: Tables, payload: Payload) returns (trx: Tables, failure: Option<ProcessingError>)
      ensures failure.None? ==> Route(start, payload) == Ok(trx)
      ensures failure.Some? ==> Route(start, payload) == Err(failure.value)
    {
      match payload
      case VaultCreated(_, _) => trx, failure := HandleVaultEvent(start, payload);
      case VaultCompleted(_) => trx, failure := HandleVaultEvent(start, payload);
      case VaultFailed(_) => trx, failure := HandleVaultEvent(start, payload);
      case VaultCancelled(_) => trx, failure := HandleVaultEvent(start, payload);
      case MilestoneCreated(_, _, _, _, _, _) => trx, failure := HandleMilestoneEvent(start, payload);
      case MilestoneValidated(_, _, _, _, _, _) => trx, failure := HandleValidationEvent(start, payload);
      case SettlementSummary => trx, failure := start, Some(UnknownEventType);
    }

    /** One transaction. `tables` changes only at the commit. */
    method ProcessEventWithTransaction(event: Event, fault: Fault) returns (r: Result<(), ProcessingError>)
      requires Valid()
      modifies this`tables, this`log
      ensures AttemptResult(tables, r) == Attempt(old(tables), event, fault)
      ensures log == Logged(old(log), old(tables), event, fault) && Valid()
      ensures log == old(log) || log == old(log) + [event]
      ensures log == old(log) ==> tables == old(tables)
      ensures log == old(log) + [event] ==>
                && tables.processed
                   == old(tables).processed[event.eventId := ProcessedRow(event.transactionHash, event.eventIndex, event.ledgerNumber)]
                && (!IsLifecycle(event.payload) ==> tables.outbox == old(tables).outbox)
                && (IsLifecycle(event.payload) ==>
                      && |tables.outbox| == |old(tables).outbox| + 1 && tables.outbox[..|old(tables).outbox|] == old(tables).outbox
                      && Announces(tables.outbox[|old(tables).outbox|], event, tables.vaults))
      ensures fault == NoFault ==> (r.Ok? <==> event.eventId in old(tables).processed || DependencyMet(old(tables), event.payload))
    {
      hide Route, Reflects, HandleVault, HandleMilestone, HandleValidation, Announces, DependencyMet;
      AttemptReflects(tables, log, event, fault);
      UninterruptedAttempt(tables, event);
      if Applied(tables, event).Ok? {
        CommitWrites(tables, event);
      }
      AttemptShape(tables, event, fault);
      var trx := tables;
      if Hits(fault, 0) {
        return Err(Interrupted(fault.transient));
      }
      if event.eventId in trx.processed {
        if Hits(fault, 4) {
          return Err(Interrupted(fault.transient));
        }
        return if fault.AckLost? then Err(Interrupted(fault.retry)) else Ok(());
      }
      if Hits(fault, 1) {
        return Err(Interrupted(fault.transient));
      }
      var failure;
      trx, failure := RouteEvent(trx, event.payload);
      if failure.Some? {
        return Err(failure.value);
      }
      if Hits(fault, 2) {
        return Err(Interrupted(fault.transient));
      }
      trx := trx.(processed := trx.processed[event.eventId :=
        ProcessedRow(event.transactionHash, event.eventIndex, event.ledgerNumber)]);
      if Hits(fault, 3) {
        return Err(Interrupted(fault.transient));
      }
      if IsLifecycle(event.payload) {
        var organizationId := OrganizationOf(trx, event.payload.vaultId);
        trx := trx.(outbox := trx.outbox + [OutboxRow(event.eventId, event.payload, organizationId, false, 0, None)]);
      }
      if Hits(fault, 4) {
        return Err(Interrupted(fault.transient));
      }
      assert FirstCommit(tables, event, fault);
      tables := trx;
      log := log + [event];
      r := if fault.AckLost? then Err(Interrupted(fault.retry)) else Ok(());
    }

    /** The retry loop around the transaction, then the dead letters. `deadLetterStored` says whether the
        write to the dead letters works: the code swallows its failure. */
    method ProcessEvent(event: Event, faults: nat -> Fault, deadLetterStored: bool) returns (result: ProcessingResult)
      requires Valid()
      modifies this
      ensures Valid()
      ensures var r := Attempts(old(tables), event, faults, 1, maxRetries);
              && tables == r.tables && result.success == r.outcome.Ok?
              && log == LoggedAll(old(log), old(tables), event, faults, 1, maxRetries)
      ensures log == old(log) || (log == old(log) + [event] && event.eventId !in old(tables).processed)
      ensures result.success ==> event.eventId in tables.processed
      ensures var r := Attempts(old(tables), event, faults, 1, maxRetries);
              var buried := r.outcome.Err?
                            && (r.outcome.error.DependencyNotFound? || (r.outcome.error.Interrupted? && r.outcome.error.transient));
              && failedEvents == (if buried && deadLetterStored
                                  then old(failedEvents)[event.eventId := FailedRow(event, r.outcome.error, maxRetries)]
                                  else old(failedEvents))
              && result.retryCount == (if buried then maxRetries else 0)
    {
      hide Reflects, Attempt, Logged, Announces, DependencyMet;
      AttemptsReflect(tables, log, event, faults, 1, maxRetries);
      var attempt := 1;
      var failure := Interrupted(false);
      while attempt <= maxRetries
        invariant 1 <= attempt && Valid() && failedEvents == old(failedEvents)
        invariant attempt > 1 ==> attempt <= maxRetries
        invariant attempt == 1 ==> failure == Interrupted(false)
        invariant Attempts(tables, event, faults, attempt, maxRetries) == Attempts(old(tables), event, faults, 1, maxRetries)
        invariant LoggedAll(log, tables, event, faults, attempt, maxRetries)
               == LoggedAll(old(log), old(tables), event, faults, 1, maxRetries)
        decreases maxRetries - attempt
      {
        var outcome := ProcessEventWithTransaction(event, faults(attempt));
        if outcome.Ok? {
          return ProcessingResult(true, 0);
        }
        failure := outcome.error;
        if !Retryable(failure) || attempt == maxRetries {
          break;
        }
        attempt := attempt + 1;
      }
      var retryable := Retryable(failure);
      if retryable && deadLetterStored {
        failedEvents := failedEvents[event.eventId := FailedRow(event, failure, maxRetries)];
      }
      result := ProcessingResult(false, if retryable then maxRetries else 0);
    }

    method ReprocessFailedEvent(failedEventId: string, faults: nat -> Fault, deadLetterStored: bool)
      returns (result: Option<ProcessingResult>)
      requires Valid()
      modifies this
      ensures Valid()
      ensures result.None? <==> failedEventId !in old(failedEvents)
      ensures result.None? ==> tables == old(tables) && failedEvents == old(failedEvents)
      ensures result.Some? && result.value.success ==>
                && old(failedEvents)[failedEventId].event.eventId in tables.processed
                && failedEvents == old(failedEvents) - {failedEventId}
      ensures log == old(log) || (result.Some? && log == old(log) + [old(failedEvents)[failedEventId].event])
    {
      if failedEventId !in failedEvents {
        return None;
      }
      var event := failedEvents[failedEventId].event;
      var processed := ProcessEvent(event, faults, deadLetterStored);
      if processed.success {
        failedEvents := failedEvents - {failedEventId};
      }
      result := Some(processed);
    }

    /** One committed relay batch. The claim is the query; the loop updates the claimed rows by id. */
    method RelayOutboxBatch(batchSize: nat, paused: bool, dispatch: Dispatcher) returns (handled: nat)
      requires Valid()
      modifies this`tables
      ensures Valid()
      ensures tables == old(tables).(outbox := tables.outbox)
      ensures var s := RelayState(old(tables).outbox, []);
              tables.outbox == RelayNext(s, Batch(batchSize, paused, dispatch)).rows
      ensures handled == if paused then 0 else |Claim(old(tables).outbox, 0, batchSize)|
    {
      hide Claim;
      if paused {
        return 0;
      }
      var before := tables.outbox;
      var claimed := Claim(before, 0, batchSize);
      var outbox := before;
      for k := 0 to |claimed|
        invariant |outbox| == |before|
        invariant forall i :: 0 <= i < |before| ==>
                    outbox[i] == if i in claimed[..k] then RelayRow(before[i], dispatch(i)) else before[i]
      {
        var id := claimed[k];
        var row := outbox[id];
        assert id !in claimed[..k];
        var attempts := row.attempts + 1;
        var failure := dispatch(id);
        if failure.None? {
          outbox := outbox[id := row.(processed := true, attempts := attempts, lastError := None)];
        } else if attempts >= MAX_ATTEMPTS {
          outbox := outbox[id := row.(processed := true, attempts := attempts,
                                      lastError := Some("Exceeded max attempts. Last error: " + failure.value))];
        } else {
          outbox := outbox[id := row.(attempts := attempts, lastError := Some(failure.value))];
        }
        assert claimed[..k + 1] == claimed[..k] + [id];
      }
      assert claimed[..|claimed|] == claimed;
      assert outbox == Relayed(before, claimed, dispatch);
      tables := tables.(outbox := outbox);
      assert AllAsWritten(outbox) == AllAsWritten(before);
      handled := |claimed|;
    }
  }
}
