/** The store of idempotent responses: stored entries, pending leaders and the promises callers wait on.

Requests are identified by an internal key and the hash of their payload. A step is one synchronous
call; a caller that is handed a promise gets whatever settles that promise later.
*/
module IdempotencySpec {
  import opened Wrappers

  // --- internal keys ---

  datatype Owner = Owner(userId: Option<string>, orgId: Option<string>)

  /** The principal a key is bound to. */
  datatype Principal = Organization(id: string) | User(id: string) | Anonymous

  predicate Given(text: Option<string>) {
    text.Some? && text.value != ""
  }

  function PrincipalOf(owner: Option<Owner>): Principal {
    if owner.Some? && Given(owner.value.orgId) then Organization(owner.value.orgId.value)
    else if owner.Some? && Given(owner.value.userId) then User(owner.value.userId.value)
    else Anonymous
  }

  function BuildInternalKey(clientKey: string, owner: Option<Owner>): string {
    match PrincipalOf(owner)
    case Organization(id) => "org" + ":" + (id + ":" + clientKey)
    case User(id) => "user" + ":" + (id + ":" + clientKey)
    case Anonymous => clientKey
  }

  function ScopeIdempotencyKey(userId: string, clientKey: string): string {
    userId + ":" + clientKey
  }

  predicate KeyChar(c: char) {
    'A' <= c <= 'Z' || 'a' <= c <= 'z' || '0' <= c <= '9' || c == '_' || c == '-'
  }

  predicate ValidKey(key: string) {
    1 <= |key| <= 255 && forall i :: 0 <= i < |key| ==> KeyChar(key[i])
  }

  predicate NoColon(text: string) {
    forall i :: 0 <= i < |text| ==> text[i] != ':'
  }

  lemma {:induction false} FirstColon(a: string, x: string, b: string, y: string)
    requires NoColon(a) && NoColon(b) && a + ":" + x == b + ":" + y
    ensures a == b && x == y
  {
    var s := a + ":" + x;
    var t := b + ":" + y;
    assert s[|a|] == ':' && t[|b|] == ':';
    if |a| == |b| {
      assert a == s[..|a|] && b == t[..|b|];
      assert x == s[|a| + 1..] && y == t[|b| + 1..];
    }
  }

  predicate PlainOwner(owner: Option<Owner>) {
    match PrincipalOf(owner)
    case Organization(id) => NoColon(id)
    case User(id) => NoColon(id)
    case Anonymous => true
  }

  lemma {:induction false} ColonInside(a: string, x: string)
    ensures !NoColon(a + ":" + x)
  {
    assert (a + ":" + x)[|a|] == ':';
  }

  /** A scoped key with the owner's prefix tells the user, the client's key and the principal apart, as
      long as no identifier holds a colon; a valid client key never does. */
  lemma {:induction false} InternalKeyIdentifies(user: string, key: string, owner: Option<Owner>,
                                                 user': string, key': string, owner': Option<Owner>)
    requires ValidKey(key) && ValidKey(key') && NoColon(user) && NoColon(user') && PlainOwner(owner) && PlainOwner(owner')
    requires BuildInternalKey(ScopeIdempotencyKey(user, key), owner) == BuildInternalKey(ScopeIdempotencyKey(user', key'), owner')
    ensures user == user' && key == key' && PrincipalOf(owner) == PrincipalOf(owner')
  {
    var scoped := ScopeIdempotencyKey(user, key);
    var scoped' := ScopeIdempotencyKey(user', key');
    assert NoColon(key) && NoColon(key') && NoColon("org") && NoColon("user");
    var p := PrincipalOf(owner);
    var p' := PrincipalOf(owner');
    if p.Anonymous? && p'.Anonymous? {
      FirstColon(user, key, user', key');
    } else if p.Anonymous? {
      ColonInside(p'.id, scoped');
      FirstColon(user, key, if p'.User? then "user" else "org", p'.id + ":" + scoped');
    } else if p'.Anonymous? {
      ColonInside(p.id, scoped);
      FirstColon(user', key', if p.User? then "user" else "org", p.id + ":" + scoped);
    } else {
      FirstColon(if p.User? then "user" else "org", p.id + ":" + scoped,
                 if p'.User? then "user" else "org", p'.id + ":" + scoped');
      FirstColon(p.id, scoped, p'.id, scoped');
      FirstColon(user, key, user', key');
    }
  }

  /** The expiration scheduler stores under a key without owner or scope. Of callers without colons in their
      identifiers only one without an owner and with the user id of that prefix can spell it. */
  lemma {:induction false} SchedulerKeyIff(user: string, key: string, owner: Option<Owner>, vaultId: string)
    requires NoColon(user) && PlainOwner(owner)
    ensures BuildInternalKey(ScopeIdempotencyKey(user, key), owner) == BuildInternalKey("slash_on_miss:" + vaultId, None)
            <==> PrincipalOf(owner).Anonymous? && user == "slash_on_miss" && key == vaultId
  {
    var scoped := ScopeIdempotencyKey(user, key);
    var p := PrincipalOf(owner);
    assert NoColon("org") && NoColon("user") && NoColon("slash_on_miss");
    assert "slash_on_miss:" + vaultId == "slash_on_miss" + ":" + vaultId;
    if BuildInternalKey(scoped, owner) == "slash_on_miss" + ":" + vaultId {
      if p.Anonymous? {
        FirstColon(user, key, "slash_on_miss", vaultId);
      } else {
        FirstColon(if p.User? then "user" else "org", p.id + ":" + scoped, "slash_on_miss", vaultId);
      }
    }
  }

  /** Every identifier with a colon collides: an organization or user "a:b" with another one "a", whatever
      the parts, and any principal with an anonymous caller whose user id spells its prefix. */
  lemma {:induction false} ColonInIdentifierCollides(a: string, b: string, user: string, key: string)
    requires a != ""
    ensures var long := Some(Owner(None, Some(a + ":" + b)));
            var short := Some(Owner(None, Some(a)));
            && PrincipalOf(long) != PrincipalOf(short)
            && BuildInternalKey(ScopeIdempotencyKey(user, key), long) == BuildInternalKey(ScopeIdempotencyKey(b + ":" + user, key), short)
    ensures var long := Some(Owner(Some(a + ":" + b), None));
            var short := Some(Owner(Some(a), None));
            && PrincipalOf(long) != PrincipalOf(short)
            && BuildInternalKey(ScopeIdempotencyKey(user, key), long) == BuildInternalKey(ScopeIdempotencyKey(b + ":" + user, key), short)
    ensures BuildInternalKey(ScopeIdempotencyKey(user, key), Some(Owner(None, Some(a))))
         == BuildInternalKey(ScopeIdempotencyKey("org:" + a + ":" + user, key), None)
  {
    assert |a + ":" + b| > |a|;
    assert (a + ":" + b) + ":" + (user + ":" + key) == a + ":" + ((b + ":" + user) + ":" + key);
    assert "org" + ":" + (a + ":" + (user + ":" + key)) == ("org:" + a + ":" + user) + ":" + key;
  }

  // --- the store ---

  datatype StoreEntry = StoreEntry(hash: string, response: string, expiresAt: int)

  datatype Pending = Pending(hash: string, promise: nat)

  datatype Settlement = Resolved(response: string) | Rejected(error: string)

  /** `promises` are all the promises ever made; `None` is one that is not settled. */
  datatype State = State(store: map<string, StoreEntry>, pending: map<string, Pending>, promises: seq<Option<Settlement>>)

  datatype Step =
    | Get(key: string, hash: string, now: int)
    | Save(key: string, hash: string, response: string, now: int)
    | Fail(key: string, hash: string, error: string)

  /** `Lead` is the null return: this caller is to do the work. */
  datatype Answer = Lead | Wait(promise: nat) | Replayed(response: string) | Conflict | Nothing

  const EMPTY := State(map[], map[], [])

  function Pruned(store: map<string, StoreEntry>, now: int): map<string, StoreEntry> {
    map key | key in store && store[key].expiresAt > now :: store[key]
  }

  function Settle(promises: seq<Option<Settlement>>, promise: nat, settlement: Settlement): seq<Option<Settlement>> {
    if promise < |promises| && promises[promise].None? then promises[promise := Some(settlement)] else promises
  }

  function Next(s: State, ttlMs: int, step: Step): (State, Answer) {
    match step
    case Get(key, hash, now) =>
      var pruned := s.(store := Pruned(s.store, now));
      if key in s.pending then (pruned, if s.pending[key].hash != hash then Conflict else Wait(s.pending[key].promise))
      else if key !in pruned.store then
        (pruned.(pending := s.pending[key := Pending(hash, |s.promises|)], promises := s.promises + [None]), Lead)
      else (pruned, if pruned.store[key].hash != hash then Conflict else Replayed(pruned.store[key].response))
    case Save(key, hash, response, now) =>
      (State(Pruned(s.store, now)[key := StoreEntry(hash, response, now + ttlMs)], s.pending - {key},
             if key in s.pending then Settle(s.promises, s.pending[key].promise, Resolved(response)) else s.promises), Nothing)
    case Fail(key, hash, error) =>
      if key !in s.pending || s.pending[key].hash != hash then (s, Nothing)
      else (s.(pending := s.pending - {key}, promises := Settle(s.promises, s.pending[key].promise, Rejected(error))), Nothing)
  }

  function After(s: State, ttlMs: int, steps: seq<Step>): State {
    if steps == [] then s else Next(After(s, ttlMs, steps[..|steps| - 1]), ttlMs, steps[|steps| - 1]).0
  }

  // --- what every run keeps ---

  /** A key is pending or stored, never both; every pending request has a promise of its own, unsettled. */
  ghost predicate Inv(s: State) {
    && s.pending.Keys !! s.store.Keys
    && (forall key :: key in s.pending ==>
          s.pending[key].promise < |s.promises| && s.promises[s.pending[key].promise] == None)
    && (forall key, key' :: key in s.pending && key' in s.pending && s.pending[key].promise == s.pending[key'].promise ==> key == key')
  }

  /** The key of a pending request goes, and its promise is settled: the promises of the others stay open. */
  lemma {:induction false} SettlingKeepsInv(s: State, key: string, settlement: Settlement, store: map<string, StoreEntry>)
    requires Inv(s) && key in s.pending && store.Keys !! (s.pending - {key}).Keys
    ensures Inv(State(store, s.pending - {key}, Settle(s.promises, s.pending[key].promise, settlement)))
  {
    var promise := s.pending[key].promise;
    assert forall other :: other in s.pending && other != key ==> s.pending[other].promise != promise;
  }

  lemma {:induction false} LeadKeepsInv(s: State, key: string, hash: string)
    requires Inv(s) && key !in s.pending && key !in s.store
    ensures Inv(s.(pending := s.pending[key := Pending(hash, |s.promises|)], promises := s.promises + [None]))
  {
  }

  lemma {:induction false} PruningKeepsInv(s: State, now: int)
    requires Inv(s)
    ensures Inv(s.(store := Pruned(s.store, now))) && Pruned(s.store, now).Keys <= s.store.Keys
  {
  }

  lemma {:induction false} NextKeepsInv(s: State, ttlMs: int, step: Step)
    requires Inv(s)
    ensures Inv(Next(s, ttlMs, step).0)
  {
    hide Settle, Pruned;
    match step
    case Get(key, hash, now) =>
      PruningKeepsInv(s, now);
      if key !in s.pending && key !in Pruned(s.store, now) {
        LeadKeepsInv(s.(store := Pruned(s.store, now)), key, hash);
      }
    case Save(key, hash, response, now) =>
      PruningKeepsInv(s, now);
      var store := Pruned(s.store, now)[key := StoreEntry(hash, response, now + ttlMs)];
      assert store.Keys == Pruned(s.store, now).Keys + {key};
      if key in s.pending {
        SettlingKeepsInv(s, key, Resolved(response), store);
      } else {
        assert s.pending - {key} == s.pending;
      }
    case Fail(key, hash, error) =>
      if key in s.pending && s.pending[key].hash == hash {
        SettlingKeepsInv(s, key, Rejected(error), s.store);
      }
  }

  lemma {:induction false} RunsKeepInv(s: State, ttlMs: int, steps: seq<Step>)
    requires Inv(s)
    ensures Inv(After(s, ttlMs, steps))
    decreases |steps|
  {
    hide Inv, Next;
    if steps != [] {
      RunsKeepInv(s, ttlMs, steps[..|steps| - 1]);
      NextKeepsInv(After(s, ttlMs, steps[..|steps| - 1]), ttlMs, steps[|steps| - 1]);
    }
  }

  lemma {:induction false} PendingAndStoredDisjoint(ttlMs: int, steps: seq<Step>)
    ensures After(EMPTY, ttlMs, steps).pending.Keys !! After(EMPTY, ttlMs, steps).store.Keys
  {
    hide Next, After;
    assert Inv(EMPTY);
    RunsKeepInv(EMPTY, ttlMs, steps);
  }

  // --- what a caller is told ---

  /** The store holds a response under the key that has not expired. */
  predicate Unexpired(s: State, key: string, now: int) {
    key in s.store && now < s.store[key].expiresAt
  }

  /** What a caller is told, in every state that a run can reach: to lead exactly when its key is neither
      pending nor holds an unexpired response; to wait for the promise of a pending request with its payload;
      the stored response for a stored request with its payload; and a conflict for any other payload. */
  lemma {:induction false} AnswerIff(s: State, ttlMs: int, key: string, hash: string, now: int)
    requires Inv(s)
    ensures var answer := Next(s, ttlMs, Get(key, hash, now)).1;
            && (answer == Lead <==> key !in s.pending && !Unexpired(s, key, now))
            && (forall promise :: answer == Wait(promise) <==> key in s.pending && s.pending[key] == Pending(hash, promise))
            && (forall response :: answer == Replayed(response) <==>
                  Unexpired(s, key, now) && s.store[key].hash == hash && s.store[key].response == response)
            && (answer == Conflict <==>
                  (key in s.pending && s.pending[key].hash != hash) || (Unexpired(s, key, now) && s.store[key].hash != hash))
            && answer != Nothing
  {
    if key in s.pending {
      assert key !in s.store;
    }
  }

  /** What the call leaves: a caller told to lead is pending with its payload and a new unsettled promise, and
      any other caller leaves pending requests and promises alone; of the store only expired entries go. */
  lemma {:induction false} GetLeaves(s: State, ttlMs: int, key: string, hash: string, now: int)
    requires Inv(s)
    ensures var (r, answer) := Next(s, ttlMs, Get(key, hash, now));
            && (answer == Lead ==>
                  r.pending == s.pending[key := Pending(hash, |s.promises|)] && r.promises == s.promises + [None])
            && (answer != Lead ==> r.pending == s.pending && r.promises == s.promises)
            && (forall k :: k in r.store <==> Unexpired(s, k, now))
            && (forall k :: k in r.store ==> r.store[k] == s.store[k])
  {
  }

  /** The first caller of any key leads. */
  lemma {:induction false} FirstCallerLeads(ttlMs: int, key: string, hash: string, now: int)
    ensures Next(EMPTY, ttlMs, Get(key, hash, now)).1 == Lead
  {
    assert Inv(EMPTY);
    AnswerIff(EMPTY, ttlMs, key, hash, now);
  }

  /** After the leader's failure its promise is rejected, and the next caller of the key leads, with any payload
      and at any time. */
  lemma {:induction false} CallerAfterFailureLeads(s: State, ttlMs: int, key: string, error: string, hash: string, now: int)
    requires Inv(s) && key in s.pending
    ensures var failed := Next(s, ttlMs, Fail(key, s.pending[key].hash, error)).0;
            && failed.promises == s.promises[s.pending[key].promise := Some(Rejected(error))]
            && Next(failed, ttlMs, Get(key, hash, now)).1 == Lead
  {
    var failed := Next(s, ttlMs, Fail(key, s.pending[key].hash, error)).0;
    NextKeepsInv(s, ttlMs, Fail(key, s.pending[key].hash, error));
    AnswerIff(failed, ttlMs, key, hash, now);
  }

  /** After the leader's response its promise is resolved, and until it expires a caller with the payload gets
      the response and one with another payload a conflict; from then on a caller leads. */
  lemma {:induction false} CallerAfterResponse(s: State, ttlMs: int, key: string, response: string, saved: int, hash: string, now: int)
    requires Inv(s) && key in s.pending
    ensures var own := s.pending[key].hash;
            var r := Next(s, ttlMs, Save(key, own, response, saved)).0;
            && r.promises == s.promises[s.pending[key].promise := Some(Resolved(response))]
            && Next(r, ttlMs, Get(key, hash, now)).1
               == if now >= saved + ttlMs then Lead else if hash == own then Replayed(response) else Conflict
  {
    var own := s.pending[key].hash;
    var r := Next(s, ttlMs, Save(key, own, response, saved)).0;
    NextKeepsInv(s, ttlMs, Save(key, own, response, saved));
    assert r.store[key] == StoreEntry(own, response, saved + ttlMs) && key !in r.pending;
    AnswerIff(r, ttlMs, key, hash, now);
  }

  // --- one key, seen from its leader ---

  /** What has become of a leader's request: it is at work, its response is stored, or it is over because
      it failed or because its stored response expired. */
  datatype View = Leading | Saved(response: string, expiresAt: int) | Over(settlement: Settlement)

  predicate ReachesTime(step: Step, time: int) {
    !step.Fail? && step.now >= time
  }

  /** The life of one request. Only settling calls for its own key and the clock readings of others count. */
  function Watch(view: View, key: string, hash: string, ttlMs: int, step: Step): View {
    match view
    case Leading =>
      if step.Save? && step.key == key then Saved(step.response, step.now + ttlMs)
      else if step.Fail? && step.key == key && step.hash == hash then Over(Rejected(step.error))
      else Leading
    case Saved(response, expiresAt) => if ReachesTime(step, expiresAt) then Over(Resolved(response)) else view
    case Over(_) => view
  }

  function ViewAfter(key: string, hash: string, ttlMs: int, steps: seq<Step>): View {
    if steps == [] then Leading
    else Watch(ViewAfter(key, hash, ttlMs, steps[..|steps| - 1]), key, hash, ttlMs, steps[|steps| - 1])
  }

  /** While the request lasts, every save under its key is the leader's own and the only one. What happens
      under the key once the request is over, other leaders and their saves included, is free. */
  predicate SettlesAsItself(key: string, hash: string, ttlMs: int, steps: seq<Step>) {
    forall i :: 0 <= i < |steps| && steps[i].Save? && steps[i].key == key ==>
      var view := ViewAfter(key, hash, ttlMs, steps[..i]);
      view.Over? || (steps[i].hash == hash && view.Leading?)
  }

  /** The maps hold exactly what the view says. */
  ghost predicate Holds(s: State, key: string, hash: string, promise: nat, view: View) {
    promise < |s.promises| &&
    match view
    case Leading => key in s.pending && s.pending[key] == Pending(hash, promise)
    case Saved(response, expiresAt) =>
      && key !in s.pending && key in s.store && s.store[key] == StoreEntry(hash, response, expiresAt)
      && s.promises[promise] == Some(Resolved(response))
    case Over(settlement) => s.promises[promise] == Some(settlement)
  }

  lemma {:induction false} StepHolds(s: State, ttlMs: int, key: string, hash: string, promise: nat, view: View, step: Step)
    requires Inv(s) && Holds(s, key, hash, promise, view)
    requires step.Save? && step.key == key && !view.Over? ==> step.hash == hash && view.Leading?
    ensures Holds(Next(s, ttlMs, step).0, key, hash, promise, Watch(view, key, hash, ttlMs, step))
  {
  }

  lemma {:induction false} RunHolds(s: State, ttlMs: int, key: string, hash: string, promise: nat, steps: seq<Step>)
    requires Inv(s) && Holds(s, key, hash, promise, Leading) && SettlesAsItself(key, hash, ttlMs, steps)
    ensures Holds(After(s, ttlMs, steps), key, hash, promise, ViewAfter(key, hash, ttlMs, steps))
    decreases |steps|
  {
    hide Inv, Holds, Next, Watch;
    if steps != [] {
      var n := |steps| - 1;
      assert forall i :: 0 <= i < n ==> steps[..n][..i] == steps[..i];
      RunHolds(s, ttlMs, key, hash, promise, steps[..n]);
      RunsKeepInv(s, ttlMs, steps[..n]);
      StepHolds(After(s, ttlMs, steps[..n]), ttlMs, key, hash, promise, ViewAfter(key, hash, ttlMs, steps[..n]), steps[n]);
    }
  }

  /** What a later caller is told while the request lasts. */
  lemma {:induction false} AnswerOf(s: State, ttlMs: int, key: string, hash: string, promise: nat, view: View, get: Step)
    requires get.Get? && get.key == key && Inv(s) && Holds(s, key, hash, promise, view)
    requires !Watch(view, key, hash, ttlMs, get).Over?
    ensures Next(s, ttlMs, get).1
         == if get.hash != hash then Conflict else if view.Leading? then Wait(promise) else Replayed(view.response)
  {
  }

  lemma {:induction false} LeadHolds(s: State, ttlMs: int, get: Step)
    requires Inv(s) && get.Get? && Next(s, ttlMs, get).1 == Lead
    ensures Holds(Next(s, ttlMs, get).0, get.key, get.hash, |s.promises|, Leading)
  {
  }

  /** One leader per key. After a caller was told to lead, and whatever else happens to this and other
      keys: a later caller of the key is told to lead only when the leader's request is over, that is, it
      failed or its stored response expired. Until then a caller with the same payload waits for the
      leader's promise or gets the leader's response, and one with another payload gets a conflict. */
  lemma {:induction false} OneLeader(s: State, ttlMs: int, lead: Step, steps: seq<Step>, get: Step)
    requires Inv(s) && lead.Get? && Next(s, ttlMs, lead).1 == Lead
    requires get.Get? && get.key == lead.key && SettlesAsItself(lead.key, lead.hash, ttlMs, steps)
    ensures var view := ViewAfter(lead.key, lead.hash, ttlMs, steps);
            var answer := Next(After(Next(s, ttlMs, lead).0, ttlMs, steps), ttlMs, get).1;
            && (answer == Lead ==> Watch(view, lead.key, lead.hash, ttlMs, get).Over?)
            && (!Watch(view, lead.key, lead.hash, ttlMs, get).Over? ==>
                  answer == if get.hash != lead.hash then Conflict
                            else if view.Leading? then Wait(|s.promises|) else Replayed(view.response))
  {
    hide Inv, Holds, Next, Watch;
    var led := Next(s, ttlMs, lead).0;
    var view := ViewAfter(lead.key, lead.hash, ttlMs, steps);
    NextKeepsInv(s, ttlMs, lead);
    LeadHolds(s, ttlMs, lead);
    RunHolds(led, ttlMs, lead.key, lead.hash, |s.promises|, steps);
    RunsKeepInv(led, ttlMs, steps);
    if !Watch(view, lead.key, lead.hash, ttlMs, get).Over? {
      AnswerOf(After(led, ttlMs, steps), ttlMs, lead.key, lead.hash, |s.promises|, view, get);
    }
  }

  /** A promise is settled once and for good, with the leader's own response or error: everyone who was
      handed it gets that. */
  lemma {:induction false} WaitersGetTheLeadersOutcome(s: State, ttlMs: int, lead: Step, steps: seq<Step>)
    requires Inv(s) && lead.Get? && Next(s, ttlMs, lead).1 == Lead
    requires SettlesAsItself(lead.key, lead.hash, ttlMs, steps)
    ensures var r := After(Next(s, ttlMs, lead).0, ttlMs, steps);
            |s.promises| < |r.promises| &&
            match ViewAfter(lead.key, lead.hash, ttlMs, steps)
            case Leading => r.promises[|s.promises|] == None
            case Saved(response, _) => r.promises[|s.promises|] == Some(Resolved(response))
            case Over(settlement) => r.promises[|s.promises|] == Some(settlement)
  {
    hide Next, Watch, After;
    NextKeepsInv(s, ttlMs, lead);
    LeadHolds(s, ttlMs, lead);
    RunHolds(Next(s, ttlMs, lead).0, ttlMs, lead.key, lead.hash, |s.promises|, steps);
    RunsKeepInv(Next(s, ttlMs, lead).0, ttlMs, steps);
  }

  /** No step of any kind changes a settled promise. */
  lemma {:induction false} SettledForGood(s: State, ttlMs: int, steps: seq<Step>, promise: nat)
    requires promise < |s.promises| && s.promises[promise].Some?
    ensures var r := After(s, ttlMs, steps);
            promise < |r.promises| && r.promises[promise] == s.promises[promise]
    decreases |steps|
  {
    if steps != [] {
      SettledForGood(s, ttlMs, steps[..|steps| - 1], promise);
    }
  }

  /** The store does not check who saves: in every state a save under a pending key with another hash
      settles the leader's promise with the foreign response, and callers that repeat the leader's payload
      get a conflict until the foreign entry expires, and are told to lead again from then on. */
  lemma {:induction false} ForeignSaveTakesOver(s: State, ttlMs: int, key: string, hash: string, response: string, now: int, later: int)
    requires Inv(s) && key in s.pending && s.pending[key].hash != hash
    ensures var saved := Next(s, ttlMs, Save(key, hash, response, now)).0;
            && saved.promises == s.promises[s.pending[key].promise := Some(Resolved(response))]
            && Next(saved, ttlMs, Get(key, s.pending[key].hash, later)).1 == (if later < now + ttlMs then Conflict else Lead)
  {
    var saved := Next(s, ttlMs, Save(key, hash, response, now)).0;
    assert key !in saved.pending && saved.store[key] == StoreEntry(hash, response, now + ttlMs);
  }
}
