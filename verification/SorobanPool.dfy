/** The pool class and the submission loop, in the form of the code. */
module SorobanPool {
  import opened Wrappers
  import opened Sorting
  import opened SorobanPoolSpec
  import opened SorobanPoolProofs

  const NO_URLS := "SorobanRpcPool requires at least one URL"

  class SorobanRpcPool {
    var states: seq<Endpoint>
    const failureThreshold: int

    ghost predicate Valid()
      reads this
    {
      StatusesFit(states, failureThreshold)
    }

    constructor (urls: seq<string>, failureThreshold: int)
      ensures states == NewPool(urls) && this.failureThreshold == failureThreshold && Valid()
    {
      states := seq(|urls|, i requires 0 <= i < |urls| => Endpoint(urls[i], Healthy, 0, None, None));
      this.failureThreshold := failureThreshold;
    }

    /** Without any URL the code throws instead of building a pool. */
    static method Create(urls: seq<string>, failureThreshold: int) returns (r: Result<SorobanRpcPool, string>)
      ensures urls == [] ==> r == Err(NO_URLS)
      ensures urls != [] ==> r.Ok? && fresh(r.value) && r.value.Valid()
                             && r.value.states == NewPool(urls) && r.value.failureThreshold == failureThreshold
    {
      if urls == [] {
        return Err(NO_URLS);
      }
      var pool := new SorobanRpcPool(urls, failureThreshold);
      r := Ok(pool);
    }

    /** Healthy endpoints first, degraded next, down last, each kind in the order of the pool. */
    method GetOrderedUrls() returns (urls: seq<string>)
      ensures urls == OrderedUrls(states)
      ensures urls == Urls(Filter(OfStatus(Healthy), states) + Filter(OfStatus(Degraded), states) + Filter(OfStatus(Down), states))
    {
      OrderedByHealth(states);
      urls := Urls(Sort(ByHealth(), states));
    }

    method RecordSuccess(url: string)
      requires Valid()
      modifies this
      ensures states == PoolNext(old(states), failureThreshold, Succeeded(url)) && Valid()
    {
      NextFits(states, failureThreshold, Succeeded(url));
      var i := IndexOf(states, url);
      if i == |states| {
        return;
      }
      states := states[i := states[i].(status := Healthy, failures := 0)];
    }

    method RecordFailure(url: string, now: int)
      requires Valid()
      modifies this
      ensures states == PoolNext(old(states), failureThreshold, Failed(url, now)) && Valid()
    {
      NextFits(states, failureThreshold, Failed(url, now));
      var i := IndexOf(states, url);
      if i == |states| {
        return;
      }
      var state := states[i].(failures := states[i].failures + 1, lastFailureAt := Some(now));
      if state.failures >= failureThreshold {
        state := state.(status := Down);
      } else {
        state := state.(status := Degraded);
      }
      states := states[i := state];
    }

    /** The part of a probe round that runs at once: it stamps exactly the endpoints that are down, and only
        those are probed. */
    method StartProbes(now: int) returns (probing: seq<nat>)
      requires Valid()
      modifies this
      ensures |states| == |old(states)| && Valid()
      ensures forall i: nat :: i < |states| ==>
                (i in probing <==> old(states)[i].status == Down)
                && states[i] == if i in probing then old(states)[i].(lastProbeAt := Some(now)) else old(states)[i]
      ensures forall i: nat :: i in probing ==> i < |states|
    {
      probing := [];
      for i := 0 to |states|
        invariant |states| == |old(states)|
        invariant forall k: nat :: k in probing ==> k < i
        invariant forall k: nat :: k < |states| ==>
                    (k in probing <==> k < i && old(states)[k].status == Down)
                    && states[k] == if k in probing then old(states)[k].(lastProbeAt := Some(now)) else old(states)[k]
      {
        if states[i].status == Down {
          states := states[i := states[i].(lastProbeAt := Some(now))];
          probing := probing + [i];
        }
      }
      assert forall k :: 0 <= k < |states| ==> StatusFits(old(states)[k], failureThreshold);
    }

    method FinishProbe(index: nat, healthy: bool)
      requires Valid() && index < |states|
      modifies this
      ensures states == PoolNext(old(states), failureThreshold, Probed(index, healthy)) && Valid()
    {
      NextFits(states, failureThreshold, Probed(index, healthy));
      if healthy {
        states := states[index := states[index].(status := Healthy, failures := 0)];
      }
    }

    /** Other submissions and probes of the same pool, while this one awaits an endpoint. */
    method Interfere(steps: seq<PoolStep>)
      requires Valid()
      modifies this
      ensures states == PoolAfter(old(states), failureThreshold, steps) && Valid()
    {
      assert steps[..0] == [];
      for k := 0 to |steps|
        invariant states == PoolAfter(old(states), failureThreshold, steps[..k]) && Valid()
      {
        NextFits(states, failureThreshold, steps[k]);
        assert steps[..k + 1][..k] == steps[..k];
        states := PoolNext(states, failureThreshold, steps[k]);
      }
      assert steps[..|steps|] == steps;
    }

    /** The try block: a response hash is kept from the moment a send returns, and a rejected send is
        recorded before the error is thrown. Whatever else happens in the pool happens while the calls are
        awaited, so before anything is recorded. */
    method TryEndpoint(url: string, cfg: Config, visit: Visit) returns (responseHash: Option<string>, result: Answer<string>)
      requires Valid()
      modifies this
      ensures Valid()
      ensures var t := TryBlock(url, cfg, visit);
              && responseHash == t.responseHash && result == t.result
              && states == PoolAfter(PoolAfter(old(states), failureThreshold, visit.meanwhile), failureThreshold, TryRecords(url, t, visit.now))
    {
      hide PoolAfter, StatusesFit;
      responseHash := None;
      Interfere(visit.meanwhile);
      ghost var others := states;
      NoRecord(others, failureThreshold);
      if visit.server.Threw? {
        return responseHash, Threw(visit.server.error);
      }
      var account := RetryWithBackoff(visit.account, Network(), cfg.rpcAttempts);
      if account.answer.Threw? {
        return responseHash, Threw(account.answer.error);
      }
      if visit.built.Threw? {
        return responseHash, Threw(visit.built.error);
      }
      var prepared := RetryWithBackoff(visit.prepared, Network(), cfg.rpcAttempts);
      if prepared.answer.Threw? {
        return responseHash, Threw(prepared.answer.error);
      }
      if visit.signed.Threw? {
        return responseHash, Threw(visit.signed.error);
      }
      var sent := RetryWithBackoff(visit.send, Network(), cfg.rpcAttempts);
      if sent.answer.Threw? {
        return responseHash, Threw(sent.answer.error);
      }
      var response := sent.answer.value;
      responseHash := Some(response.hash);
      if response.status == "ERROR" {
        OneMore(others, failureThreshold, Failed(url, visit.now));
        RecordFailure(url, visit.now);
        return responseHash, Threw(SEND_FAILED);
      }
      var polled := RetryWithBackoff(PollTry(cfg, visit, response.hash), Marked(), cfg.pollAttempts);
      if polled.answer.Threw? {
        return responseHash, polled.answer;
      }
      if polled.answer.value != "SUCCESS" {
        return responseHash, Threw(NotSucceeded(polled.answer.value));
      }
      OneMore(others, failureThreshold, Succeeded(url));
      RecordSuccess(url);
      result := Returned(response.hash);
    }

    /** The failover loop. `turns` is what it did, endpoint by endpoint. */
    method SubmitTransaction(cfg: Config, world: World) returns (result: Result<string, string>, ghost turns: seq<Turn>)
      requires Valid()
      modifies this
      ensures Valid() && states == PoolDuring(old(states), failureThreshold, cfg, turns)
      ensures Runs(old(states), failureThreshold, cfg, OrderedUrls(old(states)), world, turns)
      ensures Through(cfg, OrderedUrls(old(states)), turns) && result == ResultOf(cfg, turns)
      ensures OnlyPollsAfterSend(Calls(cfg, turns)) && PollsFollowSend(Calls(cfg, turns))
    {
      hide OrderedUrls, IsAvailable, StatusesFit, Runs, PoolDuring, PoolAfter, VisitCount, TryBlock, IsNetworkError, Calls,
           OnlyPollsAfterSend, PollsFollowSend;
      NoTurns(states, failureThreshold, cfg, OrderedUrls(states), world);
      ghost var initial := states;
      var orderedUrls := GetOrderedUrls();
      var lastError := ALL_FAILED;
      var visits := 0;
      turns := [];
      for k := 0 to |orderedUrls|
        invariant Valid() && states == PoolDuring(initial, failureThreshold, cfg, turns)
        invariant |turns| == k && visits == VisitCount(turns) && lastError == LastError(cfg, turns)
        invariant Runs(initial, failureThreshold, cfg, orderedUrls, world, turns)
        invariant GoesOn(cfg, turns)
      {
        var url := orderedUrls[k];
        if !IsAvailable(states, url) {
          PassedNext(initial, failureThreshold, cfg, orderedUrls, world, turns);
          turns := turns + [Passed(url)];
          continue;
        }
        var visit := world(visits);
        visits := visits + 1;
        VisitedNext(initial, failureThreshold, cfg, orderedUrls, world, turns);
        turns := turns + [Visited(url, visit)];
        NeverSwitchesAfterSend(initial, failureThreshold, cfg, orderedUrls, world, turns);
        ghost var others := PoolAfter(states, failureThreshold, visit.meanwhile);
        var responseHash, outcome := TryEndpoint(url, cfg, visit);
        RecordsInOrder(others, failureThreshold, url, cfg, visit);
        if outcome.Returned? {
          return Ok(outcome.value), turns;
        }
        var error := outcome.error;
        lastError := error.message;
        if responseHash != None {
          return Err(error.message), turns;
        }
        if IsNetworkError(error) {
          RecordFailure(url, visit.now);
          continue;
        }
        return Err(error.message), turns;
      }
      NeverSwitchesAfterSend(initial, failureThreshold, cfg, orderedUrls, world, turns);
      result := Err(lastError);
    }
  }

  /** `retryWithBackoff`, without the waiting between the tries. */
  method RetryWithBackoff<T>(replies: nat -> Answer<T>, again: RpcError -> bool, maxAttempts: Positive) returns (r: Retried<T>)
    ensures r == Retry(replies, again, maxAttempts)
    ensures 1 <= r.tries <= maxAttempts && r.answer == replies(r.tries)
    ensures forall k: nat :: 1 <= k < r.tries ==> replies(k).Threw? && again(replies(k).error)
    ensures r.answer.Threw? && again(r.answer.error) ==> r.tries == maxAttempts
  {
    var attempt: nat := 1;
    while true
      invariant 1 <= attempt <= maxAttempts
      invariant Retry(replies, again, maxAttempts) == RetryFrom(replies, again, maxAttempts, attempt)
      invariant forall k: nat :: 1 <= k < attempt ==> replies(k).Threw? && again(replies(k).error)
      decreases maxAttempts - attempt
    {
      var answer := replies(attempt);
      if answer.Returned? {
        return Retried(attempt, answer);
      }
      if !again(answer.error) || attempt == maxAttempts {
        return Retried(attempt, answer);
      }
      attempt := attempt + 1;
    }
  }

  /** What the try block itself records. */
  function TryRecords(url: string, tried: Tried, now: int): seq<PoolStep> {
    if tried.result.Returned? then [Succeeded(url)] else if tried.recorded then [Failed(url, now)] else []
  }

  lemma {:induction false} NoRecord(states: seq<Endpoint>, threshold: int)
    ensures PoolAfter(states, threshold, []) == states
  {
  }

  lemma {:induction false} OneMore(states: seq<Endpoint>, threshold: int, step: PoolStep)
    ensures PoolAfter(states, threshold, [step]) == PoolNext(states, threshold, step)
  {
    hide PoolNext;
    assert [step][..0] == [];
  }

  /** The records of the try block, and then that of the catch block when the loop goes on. */
  lemma {:induction false} RecordsInOrder(states: seq<Endpoint>, threshold: int, url: string, cfg: Config, visit: Visit)
    ensures var t := TryBlock(url, cfg, visit);
            var tried := PoolAfter(states, threshold, TryRecords(url, t, visit.now));
            PoolAfter(states, threshold, RecordsOf(url, t, visit.now))
            == if FailsOver(t) then PoolNext(tried, threshold, Failed(url, visit.now)) else tried
  {
    hide PoolNext, IsNetworkError, TryBlock;
    TriedCalls(url, cfg, visit);
    OneRecord(states, threshold, url, TryBlock(url, cfg, visit), visit.now);
    NoRecord(states, threshold);
    OneMore(states, threshold, Succeeded(url));
    OneMore(states, threshold, Failed(url, visit.now));
  }

  lemma {:induction false} NoTurns(initial: seq<Endpoint>, threshold: int, cfg: Config, urls: seq<string>, world: World)
    ensures Runs(initial, threshold, cfg, urls, world, []) && PoolDuring(initial, threshold, cfg, []) == initial && VisitCount([]) == 0
  {
  }

  /** One more turn of the loop. */
  lemma {:induction false} RunsNext(initial: seq<Endpoint>, threshold: int, cfg: Config, urls: seq<string>, world: World, turns: seq<Turn>, turn: Turn)
    requires Runs(initial, threshold, cfg, urls, world, turns) && |turns| < |urls| && GoesOn(cfg, turns)
    requires turn.url == urls[|turns|]
    requires turn.Visited? <==> IsAvailable(PoolDuring(initial, threshold, cfg, turns), urls[|turns|])
    requires turn.Visited? ==> turn.visit == world(VisitCount(turns))
    ensures Runs(initial, threshold, cfg, urls, world, turns + [turn])
  {
    hide IsAvailable, PoolDuring, VisitCount, EndedBy;
    var after := turns + [turn];
    assert after[..|turns|] == turns;
    assert forall k :: 0 <= k < |turns| ==> after[k] == turns[k] && after[..k] == turns[..k];
  }

  lemma {:induction false} PoolNextTurn(initial: seq<Endpoint>, threshold: int, cfg: Config, turns: seq<Turn>, turn: Turn)
    ensures PoolDuring(initial, threshold, cfg, turns + [turn])
         == if turn.Passed? then PoolDuring(initial, threshold, cfg, turns)
            else PoolAfter(PoolAfter(PoolDuring(initial, threshold, cfg, turns), threshold, turn.visit.meanwhile), threshold,
                           RecordsOf(turn.url, TriedIn(cfg, turn), turn.visit.now))
  {
    hide PoolAfter, RecordsOf, TryBlock;
    assert (turns + [turn])[..|turns|] == turns;
  }

  lemma {:induction false} CountsNextTurn(cfg: Config, turns: seq<Turn>, turn: Turn)
    ensures VisitCount(turns + [turn]) == VisitCount(turns) + (if turn.Visited? then 1 else 0)
    ensures LastError(cfg, turns + [turn]) == if turn.Visited? then ErrorOf(TriedIn(cfg, turn)) else LastError(cfg, turns)
  {
    hide ErrorOf, TryBlock;
    assert (turns + [turn])[..|turns|] == turns;
  }

  lemma {:induction false} PassedNext(initial: seq<Endpoint>, threshold: int, cfg: Config, urls: seq<string>, world: World, turns: seq<Turn>)
    requires Runs(initial, threshold, cfg, urls, world, turns) && |turns| < |urls| && GoesOn(cfg, turns)
    requires !IsAvailable(PoolDuring(initial, threshold, cfg, turns), urls[|turns|])
    ensures var after := turns + [Passed(urls[|turns|])];
            && Runs(initial, threshold, cfg, urls, world, after)
            && PoolDuring(initial, threshold, cfg, after) == PoolDuring(initial, threshold, cfg, turns)
            && VisitCount(after) == VisitCount(turns) && LastError(cfg, after) == LastError(cfg, turns)
  {
    hide IsAvailable, Runs, EndedBy, PoolDuring, PoolAfter, VisitCount, LastError;
    RunsNext(initial, threshold, cfg, urls, world, turns, Passed(urls[|turns|]));
    PoolNextTurn(initial, threshold, cfg, turns, Passed(urls[|turns|]));
    CountsNextTurn(cfg, turns, Passed(urls[|turns|]));
  }

  lemma {:induction false} VisitedNext(initial: seq<Endpoint>, threshold: int, cfg: Config, urls: seq<string>, world: World, turns: seq<Turn>)
    requires Runs(initial, threshold, cfg, urls, world, turns) && |turns| < |urls| && GoesOn(cfg, turns)
    requires IsAvailable(PoolDuring(initial, threshold, cfg, turns), urls[|turns|])
    ensures var visit := world(VisitCount(turns));
            var url := urls[|turns|];
            var t := TryBlock(url, cfg, visit);
            var after := turns + [Visited(url, visit)];
            && Runs(initial, threshold, cfg, urls, world, after)
            && PoolDuring(initial, threshold, cfg, after)
               == PoolAfter(PoolAfter(PoolDuring(initial, threshold, cfg, turns), threshold, visit.meanwhile), threshold,
                            RecordsOf(url, t, visit.now))
            && VisitCount(after) == VisitCount(turns) + 1 && LastError(cfg, after) == ErrorOf(t)
  {
    hide IsAvailable, Runs, EndedBy, PoolDuring, PoolAfter, VisitCount, LastError, RecordsOf, ErrorOf, TryBlock;
    var turn := Visited(urls[|turns|], world(VisitCount(turns)));
    RunsNext(initial, threshold, cfg, urls, world, turns, turn);
    PoolNextTurn(initial, threshold, cfg, turns, turn);
    CountsNextTurn(cfg, turns, turn);
  }
}
