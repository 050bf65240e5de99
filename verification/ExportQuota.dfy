/** The mutex and the in-memory quota repository, step by step as the code runs them. */
module ExportQuota {
  import opened Wrappers
  import opened ExportQuotaSpec
  import opened ExportQuotaProofs

  class AsyncMutex {
    var locked: bool
    var waitQueue: seq<nat>

    constructor ()
      ensures !locked && waitQueue == []
    {
      locked, waitQueue := false, [];
    }

    /** The test of the acquiring loop, made on arrival and again by each request that was woken. */
    method TryLock(request: nat) returns (acquired: bool)
      modifies this
      ensures acquired == !old(locked) && locked
      ensures waitQueue == if acquired then old(waitQueue) else old(waitQueue) + [request]
    {
      if locked {
        waitQueue := waitQueue + [request];
        return false;
      }
      locked := true;
      acquired := true;
    }

    method Unlock() returns (woken: Option<nat>)
      modifies this
      ensures !locked
      ensures old(waitQueue) == [] ==> woken == None && waitQueue == []
      ensures old(waitQueue) != [] ==> woken == Some(old(waitQueue)[0]) && waitQueue == old(waitQueue)[1..]
    {
      locked := false;
      woken := None;
      if waitQueue != [] {
        woken := Some(waitQueue[0]);
        waitQueue := waitQueue[1..];
      }
    }
  }

  /** The quota service with all its requests; `phases` is what each of them is suspended in. */
  class ExportQuotaService {
    const mutex: AsyncMutex
    const keys: seq<string>
    const dailyLimit: nat
    var store: map<string, Entry>
    var phases: seq<Phase>

    ghost function Abs(): State
      reads this, mutex
    {
      State(keys, dailyLimit, phases, mutex.locked, mutex.waitQueue, store)
    }

    constructor (keys: seq<string>, dailyLimit: nat)
      ensures Abs() == Initial(keys, dailyLimit) && MutexInv(Abs()) && fresh(mutex)
    {
      this.keys, this.dailyLimit := keys, dailyLimit;
      mutex := new AsyncMutex();
      store := map[];
      phases := seq(|keys|, _ => Arriving);
      new;
      InitialMutex(keys, dailyLimit);
    }

    method Increment(key: string) returns (entry: Entry)
      modifies this`store
      ensures entry == Entry((if key in old(store) then old(store)[key].count else 0) + 1, dailyLimit)
      ensures store == old(store)[key := entry]
    {
      entry := Entry((if key in store then store[key].count else 0) + 1, dailyLimit);
      store := store[key := entry];
    }

    method TryIncrement(i: nat)
      requires RightSize(Abs()) && i < |phases|
      modifies this`store, this`phases, mutex
      ensures Abs() == TryAcquire(old(Abs()), i)
    {
      var acquired := mutex.TryLock(i);
      if acquired {
        var entry := Increment(keys[i]);
        phases := phases[i := Holding(entry)];
      } else {
        phases := phases[i := Queued];
      }
    }

    method LeaveMutex(i: nat)
      requires RightSize(Abs()) && i < |phases| && phases[i].Holding?
      modifies this`phases, mutex
      ensures Abs() == Release(old(Abs()), i)
    {
      phases := phases[i := Released(phases[i].entry)];
      var woken := mutex.Unlock();
      if woken.Some? {
        phases := phases[woken.value := Woken];
      }
    }

    /** Request `i` of `checkAndIncrementExportQuota` runs to its next `await` or to its end. */
    method Advance(i: nat)
      requires MutexInv(Abs()) && Enabled(Abs(), i)
      modifies this`store, this`phases, mutex
      ensures Abs() == Next(old(Abs()), i) && MutexInv(Abs())
    {
      hide OneHolder, QueueHoldsTheQueued, NoLostWaiter, TryAcquire, Release;
      NextKeepsMutex(Abs(), i);
      match phases[i] {
        case Arriving =>
          phases := phases[i := Reading(if keys[i] in store then Some(store[keys[i]]) else None)];
        case Reading(existing) =>
          if existing.Some? && existing.value.count >= existing.value.limit {
            phases := phases[i := Done(false, None)];
          } else {
            TryIncrement(i);
          }
        case Woken =>
          TryIncrement(i);
        case Holding(_) =>
          LeaveMutex(i);
        case Released(entry) =>
          phases := phases[i := Done(!(entry.count > entry.limit), Some(entry.count))];
      }
    }
  }
}
