/** The daily export quota behind its asynchronous mutex, as an interleaving of requests.

A step is one synchronous stretch of one request. A request that queued for the mutex takes no step
until the holder wakes it; being woken, it looks at the lock again, and may find that another request
got there first. `key` is the organization, day and metric that a request counts for.
*/
module ExportQuotaSpec {
  import opened Wrappers

  datatype Entry = Entry(count: nat, limit: nat)

  /** Where a request is: `Reading` has read the entry; `Holding` has incremented inside the mutex;
      `Released` has left the mutex. `Done` remembers the count it got, if it incremented. */
  datatype Phase =
    | Arriving
    | Reading(seen: Option<Entry>)
    | Queued
    | Woken
    | Holding(entry: Entry)
    | Released(entry: Entry)
    | Done(allowed: bool, ticket: Option<nat>)

  datatype State = State(
    keys: seq<string>, dailyLimit: nat, phases: seq<Phase>, locked: bool, waitQueue: seq<nat>, store: map<string, Entry>)

  predicate RightSize(s: State) {
    |s.phases| == |s.keys| && forall k :: 0 <= k < |s.waitQueue| ==> s.waitQueue[k] < |s.keys|
  }

  predicate Enabled(s: State, i: nat) {
    i < |s.phases| && !s.phases[i].Queued? && !s.phases[i].Done?
  }

  function Incremented(s: State, i: nat): Entry
    requires i < |s.keys|
  {
    Entry((if s.keys[i] in s.store then s.store[s.keys[i]].count else 0) + 1, s.dailyLimit)
  }

  /** One turn of the acquiring loop; on success the increment runs at once. */
  function TryAcquire(s: State, i: nat): State
    requires RightSize(s) && i < |s.keys|
  {
    if s.locked then s.(waitQueue := s.waitQueue + [i], phases := s.phases[i := Queued])
    else
      var entry := Incremented(s, i);
      s.(locked := true, store := s.store[s.keys[i] := entry], phases := s.phases[i := Holding(entry)])
  }

  function Release(s: State, i: nat): State
    requires RightSize(s) && i < |s.keys| && s.phases[i].Holding?
  {
    var left := s.phases[i := Released(s.phases[i].entry)];
    if s.waitQueue == [] then s.(locked := false, phases := left)
    else s.(locked := false, waitQueue := s.waitQueue[1..], phases := left[s.waitQueue[0] := Woken])
  }

  function Next(s: State, i: nat): (r: State)
    requires RightSize(s) && Enabled(s, i)
    ensures RightSize(r) && r.keys == s.keys && r.dailyLimit == s.dailyLimit
  {
    match s.phases[i]
    case Arriving =>
      s.(phases := s.phases[i := Reading(if s.keys[i] in s.store then Some(s.store[s.keys[i]]) else None)])
    case Reading(seen) =>
      if seen.Some? && seen.value.count >= seen.value.limit then s.(phases := s.phases[i := Done(false, None)])
      else TryAcquire(s, i)
    case Woken => TryAcquire(s, i)
    case Holding(_) => Release(s, i)
    case Released(entry) => s.(phases := s.phases[i := Done(entry.count <= entry.limit, Some(entry.count))])
  }

  function Initial(keys: seq<string>, dailyLimit: nat): (s: State)
    ensures RightSize(s)
  {
    State(keys, dailyLimit, seq(|keys|, _ => Arriving), false, [], map[])
  }

  predicate Feasible(s: State, steps: seq<nat>)
    requires RightSize(s)
    decreases |steps|
  {
    steps == [] || (Enabled(s, steps[0]) && Feasible(Next(s, steps[0]), steps[1..]))
  }

  function After(s: State, steps: seq<nat>): (r: State)
    requires RightSize(s) && Feasible(s, steps)
    ensures RightSize(r) && r.keys == s.keys && r.dailyLimit == s.dailyLimit
    decreases |steps|
  {
    if steps == [] then s else After(Next(s, steps[0]), steps[1..])
  }
}
