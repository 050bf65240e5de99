/** The event tables as a value and the transaction that applies one chain event to them. */
module EventStoreSpec {
  import opened Wrappers

  datatype VaultStatus = Active | Completed | Failed | Cancelled

  datatype VaultTerms = VaultTerms(
    creator: string, amount: string, startTimestamp: int, endTimestamp: int,
    successDestination: string, failureDestination: string)

  datatype Vault = Vault(terms: VaultTerms, organizationId: Option<string>, status: VaultStatus)

  datatype MilestoneStatus = MilestonePending | MilestoneCompleted | MilestoneFailed

  datatype Milestone = Milestone(
    vaultId: string, title: string, description: string, targetAmount: string, currentAmount: string,
    deadline: int, status: MilestoneStatus)

  datatype ValidationResult = Approved | Rejected | PendingReview

  datatype Validation = Validation(
    milestoneId: string, validatorAddress: string, result: ValidationResult, evidenceHash: string, validatedAt: int)

  /** The parsed payload; `SettlementSummary` is the event type that no handler knows. */
  datatype Payload =
    | VaultCreated(vaultId: string, terms: VaultTerms)
    | VaultCompleted(vaultId: string)
    | VaultFailed(vaultId: string)
    | VaultCancelled(vaultId: string)
    | MilestoneCreated(milestoneId: string, vaultId: string, title: string, description: string,
                       targetAmount: string, deadline: int)
    | MilestoneValidated(validationId: string, milestoneId: string, validatorAddress: string,
                         result: ValidationResult, evidenceHash: string, validatedAt: int)
    | SettlementSummary

  datatype Event = Event(eventId: string, transactionHash: string, eventIndex: nat, ledgerNumber: int, payload: Payload)

  datatype ProcessedRow = ProcessedRow(transactionHash: string, eventIndex: nat, ledgerNumber: int)

  datatype OutboxRow = OutboxRow(
    eventId: string, payload: Payload, organizationId: string,
    processed: bool, attempts: nat, lastError: Option<string>)

  /** The tables the transaction writes. Outbox rows are in insertion order. */
  datatype Tables = Tables(
    vaults: map<string, Vault>,
    milestones: map<string, Milestone>,
    validations: map<string, Validation>,
    processed: map<string, ProcessedRow>,
    outbox: seq<OutboxRow>)

  const EMPTY_TABLES := Tables(map[], map[], map[], map[], [])

  datatype ProcessingError = DependencyNotFound | UnknownEventType | Interrupted(transient: bool)

  predicate IsLifecycle(payload: Payload) {
    payload.VaultCreated? || payload.VaultCompleted? || payload.VaultFailed? || payload.VaultCancelled?
  }

  function ClosedStatus(payload: Payload): VaultStatus
    requires payload.VaultCompleted? || payload.VaultFailed? || payload.VaultCancelled?
  {
    match payload
    case VaultCompleted(_) => Completed
    case VaultFailed(_) => Failed
    case VaultCancelled(_) => Cancelled
  }

  // --- the three handlers ---

  function HandleVault(t: Tables, payload: Payload): Result<Tables, ProcessingError>
    requires IsLifecycle(payload)
  {
    var id := payload.vaultId;
    if payload.VaultCreated? then
      Ok(if id in t.vaults then t else t.(vaults := t.vaults[id := Vault(payload.terms, None, Active)]))
    else if id in t.vaults then
      Ok(t.(vaults := t.vaults[id := t.vaults[id].(status := ClosedStatus(payload))]))
    else Err(DependencyNotFound)
  }

  function HandleMilestone(t: Tables, payload: Payload): Result<Tables, ProcessingError>
    requires payload.MilestoneCreated?
  {
    if payload.vaultId !in t.vaults then Err(DependencyNotFound)
    else if payload.milestoneId in t.milestones then Ok(t)
    else Ok(t.(milestones := t.milestones[payload.milestoneId :=
      Milestone(payload.vaultId, payload.title, payload.description, payload.targetAmount, "0",
                payload.deadline, MilestonePending)]))
  }

  function Judged(m: Milestone, result: ValidationResult): Milestone {
    match result
    case Approved => m.(status := MilestoneCompleted, currentAmount := m.targetAmount)
    case Rejected => m.(status := MilestoneFailed)
    case PendingReview => m
  }

  function HandleValidation(t: Tables, payload: Payload): Result<Tables, ProcessingError>
    requires payload.MilestoneValidated?
  {
    if payload.milestoneId !in t.milestones then Err(DependencyNotFound)
    else
      var recorded := if payload.validationId in t.validations then t
        else t.(validations := t.validations[payload.validationId :=
          Validation(payload.milestoneId, payload.validatorAddress, payload.result, payload.evidenceHash, payload.validatedAt)]);
      Ok(recorded.(milestones := t.milestones[payload.milestoneId := Judged(t.milestones[payload.milestoneId], payload.result)]))
  }

  function Route(t: Tables, payload: Payload): Result<Tables, ProcessingError> {
    if IsLifecycle(payload) then HandleVault(t, payload)
    else if payload.MilestoneCreated? then HandleMilestone(t, payload)
    else if payload.MilestoneValidated? then HandleValidation(t, payload)
    else Err(UnknownEventType)
  }

  // --- the transaction ---

  function OrganizationOf(t: Tables, vaultId: string): string {
    if vaultId != "" && vaultId in t.vaults && t.vaults[vaultId].organizationId.Some?
    then t.vaults[vaultId].organizationId.value else ""
  }

  function MarkProcessed(t: Tables, event: Event): Tables {
    t.(processed := t.processed[event.eventId := ProcessedRow(event.transactionHash, event.eventIndex, event.ledgerNumber)])
  }

  function WriteOutbox(t: Tables, event: Event): Tables {
    if IsLifecycle(event.payload) then
      t.(outbox := t.outbox + [OutboxRow(event.eventId, event.payload, OrganizationOf(t, event.payload.vaultId), false, 0, None)])
    else t
  }

  /** Everything the transaction writes for an event that has not been processed. */
  function Applied(t: Tables, event: Event): Result<Tables, ProcessingError> {
    var routed := Route(t, event.payload);
    if routed.Err? then routed
    else Ok(WriteOutbox(MarkProcessed(routed.value, event), event))
  }

  /** What goes wrong in one attempt besides its own errors: nothing, an interruption (a crash, a lost
      connection, a deadlock) before the given statement, or a commit whose acknowledgement is lost. */
  datatype Fault = NoFault | StopsBefore(statement: nat, transient: bool) | AckLost(retry: bool)

  /** The statements of the transaction before which an interruption can fall, commit included. */
  const STATEMENTS: nat := 5

  function Hits(fault: Fault, statement: nat): bool {
    fault.StopsBefore? && fault.statement == statement
  }

  datatype AttemptResult = AttemptResult(tables: Tables, outcome: Result<(), ProcessingError>)

  /** One attempt: skip, or apply all statements and commit, or roll back. */
  function Attempt(t: Tables, event: Event, fault: Fault): AttemptResult {
    if Hits(fault, 0) then AttemptResult(t, Err(Interrupted(fault.transient)))
    else if event.eventId in t.processed then
      AttemptResult(t, if Hits(fault, 4) then Err(Interrupted(fault.transient))
                       else if fault.AckLost? then Err(Interrupted(fault.retry)) else Ok(()))
    else if Hits(fault, 1) then AttemptResult(t, Err(Interrupted(fault.transient)))
    else
      var applied := Applied(t, event);
      if applied.Err? then AttemptResult(t, Err(applied.error))
      else if Hits(fault, 2) || Hits(fault, 3) || Hits(fault, 4) then AttemptResult(t, Err(Interrupted(fault.transient)))
      else if fault.AckLost? then AttemptResult(applied.value, Err(Interrupted(fault.retry)))
      else AttemptResult(applied.value, Ok(()))
  }

  predicate Retryable(error: ProcessingError) {
    error.DependencyNotFound? || (error.Interrupted? && error.transient)
  }

  // --- the retry loop and the dead letters ---

  datatype FailedRow = FailedRow(event: Event, error: ProcessingError, retryCount: int)

  /** The attempts of `retryWithBackoff` from the given one on. With no attempts allowed nothing is tried
      and the loop throws `undefined`, which is not an error that can be retried. */
  function Attempts(t: Tables, event: Event, faults: nat -> Fault, attempt: nat, maxAttempts: int): AttemptResult
    decreases maxAttempts - attempt
  {
    if attempt > maxAttempts then AttemptResult(t, Err(Interrupted(false)))
    else
      var r := Attempt(t, event, faults(attempt));
      if r.outcome.Ok? || !Retryable(r.outcome.error) || attempt == maxAttempts then r
      else Attempts(r.tables, event, faults, attempt + 1, maxAttempts)
  }
}
