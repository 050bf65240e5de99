/** Mutual exclusion, no lost waiter, and the exact number of exports allowed, in every interleaving. */
module ExportQuotaProofs {
  import opened Numbers
  import opened Wrappers
  import opened ExportQuotaSpec

  // --- the mutex ---

  ghost predicate OneHolder(s: State) {
    && (s.locked <==> exists i :: 0 <= i < |s.phases| && s.phases[i].Holding?)
    && (forall i, j :: 0 <= i < j < |s.phases| ==> !(s.phases[i].Holding? && s.phases[j].Holding?))
  }

  ghost predicate QueueHoldsTheQueued(s: State) {
    && (forall a, b :: 0 <= a < b < |s.waitQueue| ==> s.waitQueue[a] != s.waitQueue[b])
    && (forall a :: 0 <= a < |s.waitQueue| ==> s.waitQueue[a] < |s.phases| && s.phases[s.waitQueue[a]].Queued?)
    && (forall i: nat :: i < |s.phases| && s.phases[i].Queued? ==> i in s.waitQueue)
  }

  /** A waiter is never forgotten: while the lock is free, someone who was woken is on the way. */
  ghost predicate NoLostWaiter(s: State) {
    s.waitQueue != [] && !s.locked ==> exists i :: 0 <= i < |s.phases| && s.phases[i].Woken?
  }

  ghost predicate MutexInv(s: State) {
    RightSize(s) && OneHolder(s) && QueueHoldsTheQueued(s) && NoLostWaiter(s)
  }

  lemma {:induction false} AcquireKeepsMutex(s: State, i: nat)
    requires MutexInv(s) && i < |s.phases| && (s.phases[i].Reading? || s.phases[i].Woken?)
    ensures MutexInv(TryAcquire(s, i))
  {
    var r := TryAcquire(s, i);
    assert i !in s.waitQueue;
    assert r.phases[i].Holding? || r.phases[i].Queued?;
    if s.locked {
      var h :| 0 <= h < |s.phases| && s.phases[h].Holding?;
      assert r.phases[h].Holding?;
      forall j: nat | j < |r.phases| && r.phases[j].Queued? ensures j in r.waitQueue {
        if j == i {
          assert r.waitQueue[|s.waitQueue|] == i;
        } else {
          assert s.phases[j].Queued?;
        }
      }
    }
  }

  lemma {:induction false} ReleaseKeepsMutex(s: State, i: nat)
    requires MutexInv(s) && i < |s.phases| && s.phases[i].Holding?
    ensures MutexInv(Release(s, i))
  {
    var r := Release(s, i);
    if s.waitQueue != [] {
      var head := s.waitQueue[0];
      assert s.phases[head].Queued? && head != i;
      assert r.phases[head].Woken?;
      forall j: nat | j < |r.phases| && r.phases[j].Queued? ensures j in r.waitQueue {
        assert j in s.waitQueue && j != head;
      }
    }
  }

  /** A step that neither takes nor gives the lock, nor touches the queue. */
  lemma {:induction false} PlainStepKeepsMutex(s: State, i: nat, phase: Phase)
    requires MutexInv(s) && i < |s.phases| && (s.phases[i].Arriving? || s.phases[i].Reading? || s.phases[i].Released?)
    requires phase.Reading? || phase.Done?
    ensures MutexInv(s.(phases := s.phases[i := phase]))
  {
    var r := s.(phases := s.phases[i := phase]);
    if s.locked {
      var h :| 0 <= h < |s.phases| && s.phases[h].Holding?;
      assert r.phases[h].Holding?;
    } else if s.waitQueue != [] {
      var w :| 0 <= w < |s.phases| && s.phases[w].Woken?;
      assert r.phases[w].Woken?;
    }
  }

  lemma {:induction false} NextKeepsMutex(s: State, i: nat)
    requires MutexInv(s) && Enabled(s, i)
    ensures MutexInv(Next(s, i))
  {
    hide OneHolder, QueueHoldsTheQueued, NoLostWaiter, TryAcquire, Release;
    match s.phases[i]
    case Arriving =>
      PlainStepKeepsMutex(s, i, Reading(if s.keys[i] in s.store then Some(s.store[s.keys[i]]) else None));
    case Reading(seen) =>
      if seen.Some? && seen.value.count >= seen.value.limit {
        PlainStepKeepsMutex(s, i, Done(false, None));
      } else {
        AcquireKeepsMutex(s, i);
      }
    case Woken => AcquireKeepsMutex(s, i);
    case Holding(_) => ReleaseKeepsMutex(s, i);
    case Released(entry) => PlainStepKeepsMutex(s, i, Done(entry.count <= entry.limit, Some(entry.count)));
  }

  lemma {:induction false} InitialMutex(keys: seq<string>, dailyLimit: nat)
    ensures MutexInv(Initial(keys, dailyLimit))
  {
  }

  lemma {:induction false} RunsKeepMutex(s: State, steps: seq<nat>)
    requires MutexInv(s) && Feasible(s, steps)
    ensures MutexInv(After(s, steps))
    decreases |steps|
  {
    hide OneHolder, QueueHoldsTheQueued, NoLostWaiter, Next;
    if steps != [] {
      NextKeepsMutex(s, steps[0]);
      RunsKeepMutex(Next(s, steps[0]), steps[1..]);
    }
  }

  /** Never stuck: as long as a request is not done, some request can take a step. */
  lemma {:induction false} NeverStuck(s: State, i: nat)
    requires MutexInv(s) && i < |s.phases| && !s.phases[i].Done?
    ensures exists j :: 0 <= j < |s.phases| && Enabled(s, j)
  {
    if s.phases[i].Queued? {
      if s.locked {
        var h :| 0 <= h < |s.phases| && s.phases[h].Holding?;
        assert Enabled(s, h);
      } else {
        var w :| 0 <= w < |s.phases| && s.phases[w].Woken?;
        assert Enabled(s, w);
      }
    } else {
      assert Enabled(s, i);
    }
  }

  // --- every run ends ---

  function Work(phase: Phase): nat {
    match phase
    case Arriving => 5
    case Reading(_) => 4
    case Woken => 4
    case Queued => 3
    case Holding(_) => 3
    case Released(_) => 1
    case Done(_, _) => 0
  }

  function TotalWork(phases: seq<Phase>): nat {
    if phases == [] then 0 else Work(phases[0]) + TotalWork(phases[1..])
  }

  lemma {:induction false} WorkOfUpdate(phases: seq<Phase>, i: nat, phase: Phase)
    requires i < |phases|
    ensures TotalWork(phases[i := phase]) == TotalWork(phases) - Work(phases[i]) + Work(phase)
    decreases |phases|
  {
    if i == 0 {
      assert phases[0 := phase][1..] == phases[1..];
    } else {
      assert phases[i := phase][1..] == phases[1..][i - 1 := phase];
      WorkOfUpdate(phases[1..], i - 1, phase);
    }
  }

  lemma {:induction false} NextWorks(s: State, i: nat)
    requires MutexInv(s) && Enabled(s, i)
    ensures TotalWork(Next(s, i).phases) < TotalWork(s.phases)
  {
    hide TotalWork, OneHolder, NoLostWaiter;
    var r := Next(s, i);
    if s.phases[i].Holding? {
      var left := s.phases[i := Released(s.phases[i].entry)];
      WorkOfUpdate(s.phases, i, Released(s.phases[i].entry));
      if s.waitQueue != [] {
        assert s.phases[s.waitQueue[0]].Queued?;
        WorkOfUpdate(left, s.waitQueue[0], Woken);
      }
    } else {
      WorkOfUpdate(s.phases, i, r.phases[i]);
      assert r.phases == s.phases[i := r.phases[i]];
    }
  }

  lemma {:induction false} RunsWork(s: State, steps: seq<nat>)
    requires MutexInv(s) && Feasible(s, steps)
    ensures |steps| + TotalWork(After(s, steps).phases) <= TotalWork(s.phases)
    decreases |steps|
  {
    hide OneHolder, QueueHoldsTheQueued, NoLostWaiter, Next, TotalWork;
    if steps != [] {
      NextKeepsMutex(s, steps[0]);
      NextWorks(s, steps[0]);
      RunsWork(Next(s, steps[0]), steps[1..]);
    }
  }

  lemma {:induction false} WorkAtMost(phases: seq<Phase>)
    ensures TotalWork(phases) <= 5 * |phases|
    decreases |phases|
  {
    if phases != [] {
      WorkAtMost(phases[1..]);
    }
  }

  /** R requests take at most 5 R steps, however they interleave and however often a woken one finds the
      lock taken again. */
  lemma {:induction false} RunsEnd(keys: seq<string>, dailyLimit: nat, steps: seq<nat>)
    requires Feasible(Initial(keys, dailyLimit), steps)
    ensures |steps| <= 5 * |keys|
  {
    hide Next;
    InitialMutex(keys, dailyLimit);
    RunsWork(Initial(keys, dailyLimit), steps);
    WorkAtMost(Initial(keys, dailyLimit).phases);
  }

  // --- tickets ---

  /** The count a request got when it incremented. */
  function Ticket(phase: Phase): Option<nat> {
    match phase
    case Holding(entry) => Some(entry.count)
    case Released(entry) => Some(entry.count)
    case Done(_, ticket) => ticket
    case _ => None
  }

  function Count(s: State, key: string): nat {
    if key in s.store then s.store[key].count else 0
  }

  /** Number t of a key was handed to request `issued[t - 1]`, and to no other. */
  ghost predicate Issued(s: State, key: string, issued: seq<nat>)
    requires RightSize(s)
  {
    && |issued| == Count(s, key)
    && (forall t :: 0 <= t < |issued| ==>
          issued[t] < |s.phases| && s.keys[issued[t]] == key && Ticket(s.phases[issued[t]]) == Some(t + 1))
    && (forall i: nat :: i < |s.phases| && s.keys[i] == key && Ticket(s.phases[i]).Some? ==> i in issued)
  }

  /** Nobody is turned away without cause, and the limit is the fixed one everywhere. */
  ghost predicate Fair(s: State)
    requires RightSize(s)
  {
    && (forall key :: key in s.store ==> s.store[key].limit == s.dailyLimit)
    && (forall i :: 0 <= i < |s.phases| ==> PhaseFair(s, i))
  }

  predicate PhaseFair(s: State, i: nat)
    requires RightSize(s) && i < |s.phases|
  {
    match s.phases[i]
    case Reading(seen) => seen.Some? ==> seen.value.limit == s.dailyLimit && seen.value.count <= Count(s, s.keys[i])
    case Holding(entry) => entry.limit == s.dailyLimit
    case Released(entry) => entry.limit == s.dailyLimit
    case Done(allowed, None) => !allowed && Count(s, s.keys[i]) >= s.dailyLimit
    case Done(allowed, Some(count)) => allowed <==> count <= s.dailyLimit
    case _ => true
  }

  lemma {:induction false} NextKeepsFair(s: State, i: nat)
    requires RightSize(s) && Enabled(s, i) && Fair(s)
    ensures Fair(Next(s, i))
  {
    var r := Next(s, i);
    assert forall key :: Count(r, key) >= Count(s, key);
    forall j | 0 <= j < |r.phases| ensures PhaseFair(r, j) {
      assert PhaseFair(s, j);
      assert PhaseFair(s, i);
    }
  }

  /** Request `i` got the next number of its key; nothing else changed. */
  lemma {:induction false} OneMoreIssued(s: State, r: State, i: nat, key: string, issued: seq<nat>)
    requires RightSize(s) && RightSize(r) && r.keys == s.keys && i < |s.phases| && s.keys[i] == key
    requires Ticket(s.phases[i]).None? && Issued(s, key, issued)
    requires Count(r, key) == |issued| + 1 && Ticket(r.phases[i]) == Some(|issued| + 1)
    requires forall j :: 0 <= j < |s.phases| && j != i ==> Ticket(r.phases[j]) == Ticket(s.phases[j])
    ensures Issued(r, key, issued + [i])
  {
    hide Ticket, Count;
    var after := issued + [i];
    assert after[|issued|] == i;
    forall t | 0 <= t < |issued| ensures after[t] == issued[t] && issued[t] != i {
      assert Ticket(s.phases[issued[t]]) == Some(t + 1);
    }
    forall j: nat | j < |r.phases| && r.keys[j] == key && Ticket(r.phases[j]).Some? ensures j in after {
      if j != i {
        assert Ticket(s.phases[j]).Some?;
        assert j in issued;
      }
    }
  }

  lemma {:induction false} AcquireIssues(s: State, i: nat, key: string, issued: seq<nat>) returns (after: seq<nat>)
    requires RightSize(s) && i < |s.phases| && !s.locked && Ticket(s.phases[i]).None? && Issued(s, key, issued)
    ensures Issued(TryAcquire(s, i), key, after)
  {
    var r := TryAcquire(s, i);
    assert forall j :: 0 <= j < |s.phases| && j != i ==> r.phases[j] == s.phases[j];
    if s.keys[i] == key {
      OneMoreIssued(s, r, i, key, issued);
      after := issued + [i];
    } else {
      OtherKeyIssued(s, r, i, key, issued);
      after := issued;
    }
  }

  lemma {:induction false} OtherKeyIssued(s: State, r: State, i: nat, key: string, issued: seq<nat>)
    requires RightSize(s) && RightSize(r) && r.keys == s.keys && i < |s.phases| && s.keys[i] != key
    requires Count(r, key) == Count(s, key) && Issued(s, key, issued)
    requires forall j :: 0 <= j < |s.phases| && j != i ==> Ticket(r.phases[j]) == Ticket(s.phases[j])
    ensures Issued(r, key, issued)
  {
    hide Ticket, Count;
  }

  lemma {:induction false} SameTickets(s: State, r: State, key: string, issued: seq<nat>)
    requires RightSize(s) && RightSize(r) && r.keys == s.keys && Count(r, key) == Count(s, key) && Issued(s, key, issued)
    requires forall j :: 0 <= j < |s.phases| ==> Ticket(r.phases[j]) == Ticket(s.phases[j])
    ensures Issued(r, key, issued)
  {
    hide Ticket;
  }

  lemma {:induction false} NextIssues(s: State, i: nat, key: string, issued: seq<nat>) returns (after: seq<nat>)
    requires MutexInv(s) && Enabled(s, i) && Issued(s, key, issued)
    ensures Issued(Next(s, i), key, after)
  {
    hide Issued, OneHolder, NoLostWaiter;
    var acquires := s.phases[i].Woken? || (s.phases[i].Reading? && !(s.phases[i].seen.Some?
                                           && s.phases[i].seen.value.count >= s.phases[i].seen.value.limit));
    if acquires && !s.locked {
      after := AcquireIssues(s, i, key, issued);
    } else {
      after := issued;
      assert s.waitQueue != [] ==> s.phases[s.waitQueue[0]].Queued?;
      SameTickets(s, Next(s, i), key, issued);
    }
  }

  lemma {:induction false} RunsIssue(s: State, steps: seq<nat>, key: string, issued: seq<nat>) returns (after: seq<nat>)
    requires MutexInv(s) && Feasible(s, steps) && Issued(s, key, issued) && Fair(s)
    ensures Issued(After(s, steps), key, after) && Fair(After(s, steps))
    decreases |steps|
  {
    hide OneHolder, QueueHoldsTheQueued, NoLostWaiter, Next, Issued, Fair;
    if steps == [] {
      after := issued;
    } else {
      NextKeepsMutex(s, steps[0]);
      NextKeepsFair(s, steps[0]);
      var next := NextIssues(s, steps[0], key, issued);
      after := RunsIssue(Next(s, steps[0]), steps[1..], key, next);
    }
  }

  // --- counting ---

  function AllowedSet(s: State, key: string): set<nat>
    requires RightSize(s)
  {
    set i: nat | i < |s.phases| && s.keys[i] == key && s.phases[i].Done? && s.phases[i].allowed
  }

  function RequestSet(keys: seq<string>, key: string): set<nat> {
    set i: nat | i < |keys| && keys[i] == key
  }

  function Elements(list: seq<nat>): set<nat> {
    set x | x in list
  }

  /** A list without repetitions has as many elements as entries. */
  lemma {:induction false} ElementsOf(list: seq<nat>)
    requires forall a, b :: 0 <= a < b < |list| ==> list[a] != list[b]
    ensures |Elements(list)| == |list|
    decreases |list|
  {
    if list != [] {
      var init := list[..|list| - 1];
      ElementsOf(init);
      assert list == init + [list[|list| - 1]];
      assert Elements(list) == Elements(init) + {list[|list| - 1]};
    }
  }

  lemma {:induction false} IssuedDistinct(s: State, key: string, issued: seq<nat>)
    requires RightSize(s) && Issued(s, key, issued)
    ensures forall a, b :: 0 <= a < b < |issued| ==> issued[a] != issued[b]
  {
    forall a, b | 0 <= a < b < |issued| ensures issued[a] != issued[b] {
      assert Ticket(s.phases[issued[a]]) == Some(a + 1) && Ticket(s.phases[issued[b]]) == Some(b + 1);
    }
  }

  /** The holders of the first tickets, up to the limit. */
  function Winners(issued: seq<nat>, dailyLimit: nat): set<nat> {
    Elements(issued[..Min(|issued|, dailyLimit)])
  }

  lemma {:induction false} WinnersCount(s: State, key: string, issued: seq<nat>)
    requires RightSize(s) && Issued(s, key, issued)
    ensures |Winners(issued, s.dailyLimit)| == Min(Count(s, key), s.dailyLimit)
  {
    var first := issued[..Min(|issued|, s.dailyLimit)];
    IssuedDistinct(s, key, issued);
    assert forall a, b :: 0 <= a < b < |first| ==> first[a] == issued[a] && first[b] == issued[b];
    ElementsOf(first);
  }

  lemma {:induction false} AllowedAreWinners(s: State, key: string, issued: seq<nat>)
    requires RightSize(s) && Issued(s, key, issued) && Fair(s)
    ensures AllowedSet(s, key) <= Winners(issued, s.dailyLimit)
    ensures (forall i :: 0 <= i < |s.phases| && s.keys[i] == key ==> s.phases[i].Done?) ==>
              AllowedSet(s, key) == Winners(issued, s.dailyLimit)
  {
    var first := issued[..Min(|issued|, s.dailyLimit)];
    forall i | i in AllowedSet(s, key) ensures i in Winners(issued, s.dailyLimit) {
      assert PhaseFair(s, i);
      assert i in issued;
      var t :| 0 <= t < |issued| && issued[t] == i;
      assert first[t] == i;
    }
    if forall i :: 0 <= i < |s.phases| && s.keys[i] == key ==> s.phases[i].Done? {
      forall i | i in Winners(issued, s.dailyLimit) ensures i in AllowedSet(s, key) {
        var t :| 0 <= t < |first| && first[t] == i;
        assert issued[t] == i && PhaseFair(s, i);
      }
    }
  }

  /** When all requests of a key are done, its count reached the limit or all of them incremented. */
  lemma {:induction false} CountOfDone(s: State, key: string, issued: seq<nat>)
    requires RightSize(s) && Issued(s, key, issued) && Fair(s)
    requires forall i :: 0 <= i < |s.phases| && s.keys[i] == key ==> s.phases[i].Done?
    ensures Count(s, key) <= |RequestSet(s.keys, key)|
    ensures Count(s, key) == |RequestSet(s.keys, key)| || Count(s, key) >= s.dailyLimit
  {
    IssuedDistinct(s, key, issued);
    ElementsOf(issued);
    var holders := Elements(issued);
    assert holders <= RequestSet(s.keys, key);
    SubsetSize(holders, RequestSet(s.keys, key));
    if Count(s, key) < s.dailyLimit {
      forall i | i in RequestSet(s.keys, key) ensures i in holders {
        assert PhaseFair(s, i);
      }
      assert holders == RequestSet(s.keys, key);
    }
  }

  lemma {:induction false} InitialFair(keys: seq<string>, dailyLimit: nat, key: string)
    ensures Issued(Initial(keys, dailyLimit), key, []) && Fair(Initial(keys, dailyLimit))
  {
  }

  /** The quota under any interleaving, for any mix of organizations and days: at no moment has a key more
      exports allowed than its daily limit, and once its R requests have finished exactly min(R, limit)
      were allowed. */
  lemma {:induction false} QuotaIsExact(keys: seq<string>, dailyLimit: nat, steps: seq<nat>, key: string)
    requires Feasible(Initial(keys, dailyLimit), steps)
    ensures var r := After(Initial(keys, dailyLimit), steps);
            && |AllowedSet(r, key)| <= dailyLimit
            && ((forall i :: 0 <= i < |keys| && keys[i] == key ==> r.phases[i].Done?) ==>
                  |AllowedSet(r, key)| == Min(|RequestSet(keys, key)|, dailyLimit))
  {
    hide OneHolder, QueueHoldsTheQueued, NoLostWaiter, Next, Issued, Fair, AllowedSet, Winners, RequestSet, Initial;
    var s := Initial(keys, dailyLimit);
    InitialMutexFair(keys, dailyLimit, key);
    var issued := RunsIssue(s, steps, key, []);
    var r := After(s, steps);
    WinnersCount(r, key, issued);
    AllowedAreWinners(r, key, issued);
    SubsetSize(AllowedSet(r, key), Winners(issued, r.dailyLimit));
    if forall i :: 0 <= i < |keys| && keys[i] == key ==> r.phases[i].Done? {
      CountOfDone(r, key, issued);
    }
  }

  lemma {:induction false} InitialMutexFair(keys: seq<string>, dailyLimit: nat, key: string)
    ensures var s := Initial(keys, dailyLimit);
            s.keys == keys && s.dailyLimit == dailyLimit && MutexInv(s) && Issued(s, key, []) && Fair(s)
  {
    InitialMutex(keys, dailyLimit);
    InitialFair(keys, dailyLimit, key);
  }
}
