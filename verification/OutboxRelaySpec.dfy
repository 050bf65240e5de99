/** The outbox relay: batches of claimed rows, and what any run of committed batches does. */
module OutboxRelaySpec {
  import opened Wrappers
  import opened Sums
  import opened EventStoreSpec

  const MAX_ATTEMPTS: nat := 5

  /** The outcome of dispatching the row at an index: `None` on success, or the error message. */
  type Dispatcher = nat -> Option<string>

  predicate Open(row: OutboxRow) {
    !row.processed && row.attempts < MAX_ATTEMPTS
  }

  /** The first `limit` open rows at or after index `from`, in insertion order. */
  function Claim(rows: seq<OutboxRow>, from: nat, limit: nat): (r: seq<nat>)
    requires from <= |rows|
    ensures |r| <= limit
    ensures forall k :: 0 <= k < |r| ==> from <= r[k] < |rows| && Open(rows[r[k]])
    ensures forall k, m :: 0 <= k < m < |r| ==> r[k] < r[m]
    decreases |rows| - from
  {
    if from == |rows| || limit == 0 then []
    else if Open(rows[from]) then [from] + Claim(rows, from + 1, limit - 1)
    else Claim(rows, from + 1, limit)
  }

  function RelayRow(row: OutboxRow, failure: Option<string>): OutboxRow {
    var attempts := row.attempts + 1;
    if failure.None? then row.(processed := true, attempts := attempts, lastError := None)
    else if attempts >= MAX_ATTEMPTS then
      row.(processed := true, attempts := attempts, lastError := Some("Exceeded max attempts. Last error: " + failure.value))
    else row.(attempts := attempts, lastError := Some(failure.value))
  }

  /** The rows after a committed batch: each claimed row is dispatched once, the others are untouched. */
  function Relayed(rows: seq<OutboxRow>, claimed: seq<nat>, dispatch: Dispatcher): (r: seq<OutboxRow>)
    ensures |r| == |rows|
    ensures forall i :: 0 <= i < |rows| ==> r[i] == if i in claimed then RelayRow(rows[i], dispatch(i)) else rows[i]
  {
    seq(|rows|, i requires 0 <= i < |rows| => if i in claimed then RelayRow(rows[i], dispatch(i)) else rows[i])
  }

  /** A batch that leaves open rows unclaimed is full; one that claims nothing found nothing open. */
  lemma {:induction false} ClaimIsMaximal(rows: seq<OutboxRow>, from: nat, limit: nat)
    requires from <= |rows|
    ensures |Claim(rows, from, limit)| == limit
         || (forall i :: from <= i < |rows| && Open(rows[i]) ==> i in Claim(rows, from, limit))
    decreases |rows| - from
  {
    if from < |rows| && limit > 0 {
      ClaimIsMaximal(rows, from + 1, if Open(rows[from]) then limit - 1 else limit);
    }
  }

  /** What a committed batch does to one row: nothing to an unclaimed one; a claimed one counts one attempt
      more, is processed after a success without an error, and keeps the error of a failure, with a note and
      closed at the fifth attempt. What the row announces is never touched. */
  lemma {:induction false} BatchEffect(rows: seq<OutboxRow>, limit: nat, dispatch: Dispatcher, i: nat)
    requires i < |rows|
    ensures var claimed := Claim(rows, 0, limit);
            var row := rows[i];
            var r := Relayed(rows, claimed, dispatch)[i];
            && r.eventId == row.eventId && r.payload == row.payload && r.organizationId == row.organizationId
            && (i !in claimed ==> r == row)
            && (i in claimed ==>
                  && !row.processed && row.attempts < 5 && r.attempts == row.attempts + 1
                  && (r.processed <==> dispatch(i).None? || row.attempts == 4)
                  && r.lastError == if dispatch(i).None? then None
                                    else if row.attempts == 4 then Some("Exceeded max attempts. Last error: " + dispatch(i).value)
                                    else dispatch(i))
  {
    var claimed := Claim(rows, 0, limit);
    if i in claimed {
      var k :| 0 <= k < |claimed| && claimed[k] == i;
      assert Open(rows[claimed[k]]);
    }
  }

  // --- runs of the relay ---

  datatype Dispatch = Dispatch(row: nat, delivered: bool)

  /** The outbox and, as history, every dispatch of a committed batch. */
  datatype RelayState = RelayState(rows: seq<OutboxRow>, dispatches: seq<Dispatch>)

  datatype RelayStep =
    | Batch(limit: nat, paused: bool, dispatch: Dispatcher)
    | Insert(row: OutboxRow)

  function DispatchesOf(claimed: seq<nat>, dispatch: Dispatcher): seq<Dispatch> {
    seq(|claimed|, k requires 0 <= k < |claimed| => Dispatch(claimed[k], dispatch(claimed[k]).None?))
  }

  function RelayNext(s: RelayState, step: RelayStep): RelayState {
    match step
    case Insert(row) => s.(rows := s.rows + [row])
    case Batch(limit, paused, dispatch) =>
      if paused then s
      else
        var claimed := Claim(s.rows, 0, limit);
        RelayState(Relayed(s.rows, claimed, dispatch), s.dispatches + DispatchesOf(claimed, dispatch))
  }

  /** The transaction inserts only rows that were never dispatched. */
  predicate InsertsNewRow(step: RelayStep) {
    step.Insert? ==> !step.row.processed && step.row.attempts == 0 && step.row.lastError == None
  }

  /** The outcomes of the dispatches of one row, oldest first. */
  function OutcomesOf(dispatches: seq<Dispatch>, row: nat): seq<bool> {
    if dispatches == [] then []
    else
      var last := |dispatches| - 1;
      OutcomesOf(dispatches[..last], row) + (if dispatches[last].row == row then [dispatches[last].delivered] else [])
  }

  /** A row's dispatches fail until the last, are as many as its attempts, and the row is closed exactly
      when one succeeded or five failed; it holds an error exactly when the last one failed. */
  ghost predicate Accounted(row: OutboxRow, outcomes: seq<bool>) {
    && row.attempts == |outcomes| <= MAX_ATTEMPTS
    && (forall k :: 0 <= k < |outcomes| - 1 ==> !outcomes[k])
    && (row.processed <==> |outcomes| > 0 && (outcomes[|outcomes| - 1] || |outcomes| == MAX_ATTEMPTS))
    && (row.lastError.None? <==> |outcomes| == 0 || outcomes[|outcomes| - 1])
  }

  ghost predicate AllAccounted(s: RelayState) {
    && (forall i :: 0 <= i < |s.rows| ==> Accounted(s.rows[i], OutcomesOf(s.dispatches, i)))
    && (forall k :: 0 <= k < |s.dispatches| ==> s.dispatches[k].row < |s.rows|)
  }

  lemma {:induction false} OutcomesAppend(a: seq<Dispatch>, b: seq<Dispatch>, row: nat)
    ensures OutcomesOf(a + b, row) == OutcomesOf(a, row) + OutcomesOf(b, row)
    decreases |b|
  {
    if b == [] {
      assert a + b == a;
    } else {
      var last := |b| - 1;
      OutcomesAppend(a, b[..last], row);
      assert (a + b)[..|a + b| - 1] == a + b[..last];
    }
  }

  lemma {:induction false} OutcomesAbsent(dispatches: seq<Dispatch>, row: nat)
    requires forall k :: 0 <= k < |dispatches| ==> dispatches[k].row != row
    ensures OutcomesOf(dispatches, row) == []
  {
    if dispatches != [] {
      OutcomesAbsent(dispatches[..|dispatches| - 1], row);
    }
  }

  /** A batch dispatches each claimed row exactly once and no other row. */
  lemma {:induction false} BatchOutcomes(claimed: seq<nat>, dispatch: Dispatcher, row: nat)
    requires forall k, m :: 0 <= k < m < |claimed| ==> claimed[k] < claimed[m]
    ensures OutcomesOf(DispatchesOf(claimed, dispatch), row) == if row in claimed then [dispatch(row).None?] else []
  {
    if claimed != [] {
      var last := |claimed| - 1;
      assert DispatchesOf(claimed, dispatch)[..last] == DispatchesOf(claimed[..last], dispatch);
      BatchOutcomes(claimed[..last], dispatch, row);
      if row in claimed[..last] {
        var k :| 0 <= k < last && claimed[k] == row;
        assert claimed[k] < claimed[last];
      } else if row in claimed {
        var k :| 0 <= k < |claimed| && claimed[k] == row;
        assert k == last;
      }
    }
  }

  lemma {:induction false} RowAccounted(row: OutboxRow, outcomes: seq<bool>, failure: Option<string>)
    requires Accounted(row, outcomes) && Open(row)
    ensures Accounted(RelayRow(row, failure), outcomes + [failure.None?])
  {
  }

  lemma {:induction false} BatchAccounted(s: RelayState, limit: nat, dispatch: Dispatcher, i: nat)
    requires AllAccounted(s) && i < |s.rows|
    ensures var r := RelayNext(s, Batch(limit, false, dispatch));
            Accounted(r.rows[i], OutcomesOf(r.dispatches, i))
  {
    var claimed := Claim(s.rows, 0, limit);
    OutcomesAppend(s.dispatches, DispatchesOf(claimed, dispatch), i);
    BatchOutcomes(claimed, dispatch, i);
    var outcomes := OutcomesOf(s.dispatches, i);
    if i in claimed {
      RowAccounted(s.rows[i], outcomes, dispatch(i));
    } else {
      assert outcomes + [] == outcomes;
    }
  }

  lemma {:induction false} StepAccounted(s: RelayState, step: RelayStep)
    requires AllAccounted(s) && InsertsNewRow(step)
    ensures AllAccounted(RelayNext(s, step))
  {
    match step
    case Insert(row) =>
      OutcomesAbsent(s.dispatches, |s.rows|);
    case Batch(limit, paused, dispatch) =>
      if !paused {
        var r := RelayNext(s, step);
        forall i | 0 <= i < |r.rows| ensures Accounted(r.rows[i], OutcomesOf(r.dispatches, i)) {
          BatchAccounted(s, limit, dispatch, i);
        }
      }
  }

  function RelayRun(s: RelayState, steps: seq<RelayStep>): RelayState
    decreases |steps|
  {
    if steps == [] then s else RelayRun(RelayNext(s, steps[0]), steps[1..])
  }

  /** Over any run of committed batches, pauses and inserts, with any dispatch failures: a row is
      dispatched at most five times, never again after a success, and an open row has fewer than five
      attempts. */
  lemma {:induction false} RunAccounted(s: RelayState, steps: seq<RelayStep>)
    requires AllAccounted(s) && forall k :: 0 <= k < |steps| ==> InsertsNewRow(steps[k])
    ensures AllAccounted(RelayRun(s, steps))
    ensures forall i :: 0 <= i < |RelayRun(s, steps).rows| && !RelayRun(s, steps).rows[i].processed ==>
              RelayRun(s, steps).rows[i].attempts < 5
    decreases |steps|
  {
    if steps == [] {
      forall i | 0 <= i < |s.rows| && !s.rows[i].processed ensures s.rows[i].attempts < 5 {
        assert Accounted(s.rows[i], OutcomesOf(s.dispatches, i));
      }
    } else {
      StepAccounted(s, steps[0]);
      RunAccounted(RelayNext(s, steps[0]), steps[1..]);
    }
  }

  // --- progress ---

  function AttemptsOpen(): OutboxRow -> int {
    (row: OutboxRow) => if Open(row) then MAX_ATTEMPTS - row.attempts else 0
  }

  /** The attempts that the open rows still have. */
  function Remaining(rows: seq<OutboxRow>): int {
    Sum(AttemptsOpen(), rows)
  }

  lemma {:induction false} RemainingNonNegative(rows: seq<OutboxRow>)
    ensures Remaining(rows) >= 0
    ensures Remaining(rows) == 0 <==> forall i :: 0 <= i < |rows| ==> !Open(rows[i])
  {
    SumNonNegative(AttemptsOpen(), rows);
    if forall i :: 0 <= i < |rows| ==> !Open(rows[i]) {
      SumBounds(AttemptsOpen(), rows, 0, 0);
    }
    forall i | 0 <= i < |rows| && Remaining(rows) == 0 ensures !Open(rows[i]) {
      assert rows[i] in rows;
      assert AttemptsOpen()(rows[i]) <= 0;
    }
  }

  /** Each claimed row gives up one attempt at least. */
  lemma {:induction false} UpdateRemaining(before: seq<OutboxRow>, after: seq<OutboxRow>, claimed: seq<nat>, dispatch: Dispatcher)
    requires |after| == |before|
    requires forall k :: 0 <= k < |claimed| ==> claimed[k] < |before| && Open(before[claimed[k]])
    requires forall k, m :: 0 <= k < m < |claimed| ==> claimed[k] < claimed[m]
    requires forall i :: 0 <= i < |before| ==> after[i] == if i in claimed then RelayRow(before[i], dispatch(i)) else before[i]
    ensures Remaining(after) <= Remaining(before) - |claimed|
    decreases |claimed|
  {
    if claimed == [] {
      assert after == before;
    } else {
      var last := |claimed| - 1;
      var c := claimed[last];
      assert c in claimed;
      var middle := after[c := before[c]];
      forall i | 0 <= i < |before|
        ensures middle[i] == if i in claimed[..last] then RelayRow(before[i], dispatch(i)) else before[i]
      {
        assert claimed == claimed[..last] + [c];
      }
      UpdateRemaining(before, middle, claimed[..last], dispatch);
      SumRemove(AttemptsOpen(), after, c);
      SumRemove(AttemptsOpen(), middle, c);
      assert after[..c] + after[c + 1..] == middle[..c] + middle[c + 1..];
    }
  }

  /** Each unpaused batch lowers the remaining attempts by at least the number of rows it claimed, and
      claims some while any row is open. */
  lemma {:induction false} BatchProgress(rows: seq<OutboxRow>, limit: nat, dispatch: Dispatcher)
    requires limit > 0
    ensures var claimed := Claim(rows, 0, limit);
            && Remaining(Relayed(rows, claimed, dispatch)) <= Remaining(rows) - |claimed|
            && (|claimed| == 0 <==> forall i :: 0 <= i < |rows| ==> !Open(rows[i]))
  {
    var claimed := Claim(rows, 0, limit);
    UpdateRemaining(rows, Relayed(rows, claimed, dispatch), claimed, dispatch);
    ClaimIsMaximal(rows, 0, limit);
    if |claimed| > 0 {
      assert Open(rows[claimed[0]]);
    }
  }

  /** The claim is oldest first: it claims among the first n rows as if there were no others, and only with
      what the limit leaves among the rows behind them. */
  lemma {:induction false} ClaimFront(rows: seq<OutboxRow>, from: nat, limit: nat, n: nat)
    requires from <= n <= |rows|
    ensures var front := Claim(rows[..n], from, limit);
            Claim(rows, from, limit) == front + Claim(rows, n, limit - |front|)
    decreases n - from
  {
    hide Claim, Open;
    if from == n || limit == 0 {
      ClaimNothing(rows[..n], from, limit);
      ClaimNothing(rows, n, 0);
      ClaimNothing(rows, from, 0);
      assert [] + Claim(rows, n, limit) == Claim(rows, n, limit);
    } else {
      var left := if Open(rows[from]) then limit - 1 else limit;
      ClaimFirst(rows, from, limit);
      ClaimFirst(rows[..n], from, limit);
      ClaimFront(rows, from + 1, left, n);
      var first: seq<nat> := if Open(rows[from]) then [from] else [];
      var front := Claim(rows[..n], from + 1, left);
      assert first + (front + Claim(rows, n, left - |front|)) == (first + front) + Claim(rows, n, left - |front|);
    }
  }

  lemma {:induction false} ClaimNothing(rows: seq<OutboxRow>, from: nat, limit: nat)
    requires from <= |rows| && (from == |rows| || limit == 0)
    ensures Claim(rows, from, limit) == []
  {
  }

  lemma {:induction false} ClaimFirst(rows: seq<OutboxRow>, from: nat, limit: nat)
    requires from < |rows| && limit > 0
    ensures Claim(rows, from, limit)
         == (if Open(rows[from]) then [from] else []) + Claim(rows, from + 1, if Open(rows[from]) then limit - 1 else limit)
  {
    assert [] + Claim(rows, from + 1, limit) == Claim(rows, from + 1, limit);
  }

  /** For the first n rows an unpaused batch is a batch of their own, whatever was inserted behind them. */
  lemma {:induction false} BatchOfFront(rows: seq<OutboxRow>, limit: nat, dispatch: Dispatcher, n: nat)
    requires n <= |rows|
    ensures Relayed(rows, Claim(rows, 0, limit), dispatch)[..n] == Relayed(rows[..n], Claim(rows[..n], 0, limit), dispatch)
  {
    hide RelayRow, Claim;
    var front := Claim(rows[..n], 0, limit);
    var rest := Claim(rows, n, limit - |front|);
    ClaimFront(rows, 0, limit, n);
    forall i: nat | i < n ensures i in front + rest <==> i in front {
      assert i !in rest;
    }
    var all := Relayed(rows, Claim(rows, 0, limit), dispatch);
    var own := Relayed(rows[..n], front, dispatch);
    assert forall i: nat :: i < n ==> all[..n][i] == own[i];
  }

  predicate Works(step: RelayStep) {
    step.Batch? && !step.paused && step.limit > 0
  }

  /** The batches of a run that were not paused. */
  function WorkingBatches(steps: seq<RelayStep>): nat {
    if steps == [] then 0 else (if Works(steps[0]) then 1 else 0) + WorkingBatches(steps[1..])
  }

  lemma {:induction false} FrontProgress(s: RelayState, step: RelayStep, n: nat)
    requires n <= |s.rows|
    ensures var next := RelayNext(s, step);
            && n <= |next.rows|
            && Remaining(next.rows[..n]) <= Remaining(s.rows[..n])
            && (Works(step) && Remaining(s.rows[..n]) > 0 ==> Remaining(next.rows[..n]) < Remaining(s.rows[..n]))
  {
    hide Remaining, Relayed, Claim;
    match step
    case Insert(row) => assert (s.rows + [row])[..n] == s.rows[..n];
    case Batch(limit, paused, dispatch) =>
      if !paused {
        BatchOfFront(s.rows, limit, dispatch, n);
        if limit > 0 {
          BatchProgress(s.rows[..n], limit, dispatch);
          RemainingNonNegative(s.rows[..n]);
        } else {
          NothingClaimed(s.rows[..n], dispatch);
        }
      }
  }

  lemma {:induction false} NothingClaimed(rows: seq<OutboxRow>, dispatch: Dispatcher)
    ensures Relayed(rows, Claim(rows, 0, 0), dispatch) == rows
  {
  }

  lemma {:induction false} FrontCloses(s: RelayState, steps: seq<RelayStep>, n: nat)
    requires n <= |s.rows| && WorkingBatches(steps) >= Remaining(s.rows[..n])
    ensures n <= |RelayRun(s, steps).rows| && Remaining(RelayRun(s, steps).rows[..n]) == 0
    decreases |steps|
  {
    hide Remaining, RelayNext;
    RemainingNonNegative(s.rows[..n]);
    if steps != [] {
      var next := RelayNext(s, steps[0]);
      FrontProgress(s, steps[0], n);
      RemainingNonNegative(next.rows[..n]);
      FrontCloses(next, steps[1..], n);
    }
  }

  /** So every row closes, in any run of batches, pauses and inserts: once the run holds as many unpaused
      batches as the rows present at its start have attempts left, none of these rows is open, whatever
      the dispatches do and whatever was inserted since. */
  lemma {:induction false} EveryRowCloses(s: RelayState, steps: seq<RelayStep>)
    requires WorkingBatches(steps) >= Remaining(s.rows)
    ensures var rows := RelayRun(s, steps).rows;
            |s.rows| <= |rows| && forall i :: 0 <= i < |s.rows| ==> !Open(rows[i])
  {
    hide Remaining;
    var n := |s.rows|;
    assert s.rows[..n] == s.rows;
    FrontCloses(s, steps, n);
    var rows := RelayRun(s, steps).rows;
    RemainingNonNegative(rows[..n]);
    assert forall i :: 0 <= i < n ==> rows[..n][i] == rows[i];
  }
}
