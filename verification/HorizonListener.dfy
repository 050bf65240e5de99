/** The listener and its checkpoint table, in the form of the source. */
module HorizonListener {
  import opened Wrappers
  import opened EventStoreSpec
  import opened EventStoreProofs
  import opened HorizonListenerSpec
  import EventProcessor

  class CheckpointStore {
    var rows: Checkpoints

    constructor ()
      ensures rows == map[]
    {
      rows := map[];
    }

    /** `readable` is false when the database fails to answer. */
    method GetCheckpoint(contract: string, readable: bool) returns (r: Result<Option<Checkpoint>, ()>)
      ensures r.Err? <==> !readable
      ensures readable ==> r.value == if contract in rows then Some(rows[contract]) else None
    {
      if !readable {
        return Err(());
      }
      r := Ok(if contract in rows then Some(rows[contract]) else None);
    }

    /** Overwrites: the row is set to the given ledger even when that is lower than the stored one. */
    method UpsertCheckpoint(contract: string, ledger: int, pagingToken: Option<string>, works: bool) returns (stored: bool)
      modifies this
      ensures stored == works
      ensures rows == if works then old(rows)[contract := Checkpoint(ledger, pagingToken)] else old(rows)
    {
      if works {
        rows := rows[contract := Checkpoint(ledger, pagingToken)];
      }
      stored := works;
    }
  }

  class HorizonListener {
    const config: Config
    const eventProcessor: EventProcessor.EventProcessor
    const checkpointStore: CheckpointStore
    var running: bool
    var shutdownRequested: bool
    var inFlightEvents: nat

    constructor (config: Config, eventProcessor: EventProcessor.EventProcessor, checkpointStore: CheckpointStore)
      ensures this.config == config && this.eventProcessor == eventProcessor && this.checkpointStore == checkpointStore
      ensures !running && !shutdownRequested && inFlightEvents == 0
    {
      this.config, this.eventProcessor, this.checkpointStore := config, eventProcessor, checkpointStore;
      running, shutdownRequested, inFlightEvents := false, false, 0;
    }

    method LoadEffectiveStartLedger(unreadable: set<string>) returns (startLedger: int)
      ensures startLedger == EffectiveStart(config, checkpointStore.rows, unreadable)
    {
      var defaultLedger := DefaultLedger(config);
      var minLedger: Option<int> := None;
      for i := 0 to |config.contracts|
        invariant minLedger == MinLedger(config, checkpointStore.rows, unreadable, i)
      {
        var contract := config.contracts[i];
        var checkpoint := checkpointStore.GetCheckpoint(contract, contract !in unreadable);
        if checkpoint.Ok? {
          var ledger := if checkpoint.value.Some? then checkpoint.value.value.lastLedger else defaultLedger;
          if minLedger.None? || ledger < minLedger.value {
            minLedger := Some(ledger);
          }
        } else if minLedger.None? || defaultLedger < minLedger.value {
          minLedger := Some(defaultLedger);
        }
      }
      startLedger := if minLedger.None? then defaultLedger else minLedger.value;
    }

    method PersistCheckpoint(contract: string, ledger: int, pagingToken: string, works: bool)
      modifies checkpointStore
      ensures checkpointStore.rows == if works
                then old(checkpointStore.rows)[contract := Checkpoint(ledger, Some(pagingToken))] else old(checkpointStore.rows)
    {
      var _ := checkpointStore.UpsertCheckpoint(contract, ledger, Some(pagingToken), works);
    }

    method HandleEvent(raw: RawEvent, faults: nat -> Fault, deadLetterStored: bool, checkpointStored: bool)
      returns (verdict: Verdict)
      requires eventProcessor.Valid() && eventProcessor.maxRetries == config.maxRetries
      modifies this`inFlightEvents, eventProcessor, checkpointStore
      ensures eventProcessor.Valid() && inFlightEvents == old(inFlightEvents)
      ensures shutdownRequested ==>
                verdict == Ignored && eventProcessor.tables == old(eventProcessor.tables)
                && checkpointStore.rows == old(checkpointStore.rows)
      ensures !shutdownRequested ==>
                Handling(eventProcessor.tables, checkpointStore.rows, verdict)
                == Handle(config, old(eventProcessor.tables), old(checkpointStore.rows), raw, faults, checkpointStored)
      ensures !shutdownRequested ==>
                && (verdict == Ignored <==> raw.contractId !in config.contracts)
                && (verdict == Committed <==>
                      && raw.contractId in config.contracts && raw.parsed.Some?
                      && Attempts(old(eventProcessor.tables), raw.parsed.value, faults, 1, config.maxRetries).outcome.Ok?)
      ensures checkpointStore.rows
           == if !shutdownRequested && verdict == Committed && checkpointStored
              then old(checkpointStore.rows)[raw.contractId := Checkpoint(raw.ledger, Some(raw.pagingToken))]
              else old(checkpointStore.rows)
      ensures verdict == Committed ==> raw.parsed.Some? && raw.parsed.value.eventId in eventProcessor.tables.processed
    {
      if shutdownRequested {
        return Ignored;
      }
      inFlightEvents := inFlightEvents + 1;
      if raw.contractId !in config.contracts {
        verdict := Ignored;
      } else if raw.parsed.None? {
        verdict := ReportedFailed;
      } else {
        var result := eventProcessor.ProcessEvent(raw.parsed.value, faults, deadLetterStored);
        if result.success {
          PersistCheckpoint(raw.contractId, raw.ledger, raw.pagingToken, checkpointStored);
          verdict := Committed;
        } else {
          verdict := ReportedFailed;
        }
      }
      inFlightEvents := inFlightEvents - 1;
    }
  }
}
