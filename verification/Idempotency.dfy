/** The module-level maps of the response store and the three calls that change them. */
module Idempotency {
  import opened Wrappers
  import opened IdempotencySpec

  class IdempotencyStore {
    var idempotencyStore: map<string, StoreEntry>
    var pendingRequests: map<string, Pending>
    var promises: seq<Option<Settlement>>
    const ttlMs: int

    ghost function Abs(): State
      reads this
    {
      State(idempotencyStore, pendingRequests, promises)
    }

    constructor (ttlMs: int)
      ensures Abs() == EMPTY && Inv(Abs()) && this.ttlMs == ttlMs
    {
      idempotencyStore, pendingRequests, promises := map[], map[], [];
      this.ttlMs := ttlMs;
    }

    method PruneExpiredEntries(now: int)
      modifies this`idempotencyStore
      ensures idempotencyStore == Pruned(old(idempotencyStore), now)
    {
      var todo := idempotencyStore.Keys;
      while todo != {}
        invariant todo <= old(idempotencyStore).Keys
        invariant idempotencyStore == map key | key in old(idempotencyStore)
                                                && (key in todo || old(idempotencyStore)[key].expiresAt > now)
                                          :: old(idempotencyStore)[key]
        decreases |todo|
      {
        var key :| key in todo;
        if idempotencyStore[key].expiresAt <= now {
          idempotencyStore := idempotencyStore - {key};
        }
        todo := todo - {key};
      }
    }

    method GetIdempotentResponse(clientKey: string, hash: string, owner: Option<Owner>, now: int) returns (answer: Answer)
      requires Inv(Abs())
      modifies this
      ensures (Abs(), answer) == Next(old(Abs()), ttlMs, Get(BuildInternalKey(clientKey, owner), hash, now))
      ensures var key := BuildInternalKey(clientKey, owner);
              answer == Lead <==> key !in old(pendingRequests)
                                  && !(key in old(idempotencyStore) && old(idempotencyStore)[key].expiresAt > now)
      ensures Inv(Abs())
    {
      hide Inv, BuildInternalKey;
      var internalKey := BuildInternalKey(clientKey, owner);
      NextKeepsInv(Abs(), ttlMs, Get(internalKey, hash, now));
      AnswerIff(Abs(), ttlMs, internalKey, hash, now);
      PruneExpiredEntries(now);
      if internalKey in pendingRequests {
        var pending := pendingRequests[internalKey];
        if pending.hash != hash {
          return Conflict;
        }
        return Wait(pending.promise);
      }
      if internalKey !in idempotencyStore {
        pendingRequests := pendingRequests[internalKey := Pending(hash, |promises|)];
        promises := promises + [None];
        return Lead;
      }
      var entry := idempotencyStore[internalKey];
      if entry.hash != hash {
        return Conflict;
      }
      answer := Replayed(entry.response);
    }

    method SettlePromise(promise: nat, settlement: Settlement)
      modifies this`promises
      ensures promises == Settle(old(promises), promise, settlement)
    {
      if promise < |promises| && promises[promise].None? {
        promises := promises[promise := Some(settlement)];
      }
    }

    method SaveIdempotentResponse(clientKey: string, hash: string, response: string, owner: Option<Owner>, now: int)
      requires Inv(Abs())
      modifies this
      ensures Abs() == Next(old(Abs()), ttlMs, Save(BuildInternalKey(clientKey, owner), hash, response, now)).0
      ensures Inv(Abs())
    {
      hide Inv, BuildInternalKey;
      var internalKey := BuildInternalKey(clientKey, owner);
      NextKeepsInv(Abs(), ttlMs, Save(internalKey, hash, response, now));
      PruneExpiredEntries(now);
      if internalKey in pendingRequests {
        var pending := pendingRequests[internalKey];
        pendingRequests := pendingRequests - {internalKey};
        SettlePromise(pending.promise, Resolved(response));
      }
      assert pendingRequests == old(pendingRequests) - {internalKey};
      idempotencyStore := idempotencyStore[internalKey := StoreEntry(hash, response, now + ttlMs)];
    }

    method FailPendingIdempotentResponse(clientKey: string, hash: string, error: string, owner: Option<Owner>)
      requires Inv(Abs())
      modifies this
      ensures Abs() == Next(old(Abs()), ttlMs, Fail(BuildInternalKey(clientKey, owner), hash, error)).0
      ensures Inv(Abs())
    {
      hide Inv, BuildInternalKey;
      var internalKey := BuildInternalKey(clientKey, owner);
      NextKeepsInv(Abs(), ttlMs, Fail(internalKey, hash, error));
      if internalKey !in pendingRequests || pendingRequests[internalKey].hash != hash {
        return;
      }
      var pending := pendingRequests[internalKey];
      pendingRequests := pendingRequests - {internalKey};
      SettlePromise(pending.promise, Rejected(error));
    }
  }
}
