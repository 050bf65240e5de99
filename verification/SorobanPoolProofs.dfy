/** What holds of the pool after any steps, and of every submission against any endpoints. */
module SorobanPoolProofs {
  import opened Wrappers
  import opened Sorting
  import opened SorobanPoolSpec

  // --- the status tells the failures ---

  predicate StatusFits(endpoint: Endpoint, threshold: int) {
    endpoint.status == if endpoint.failures == 0 then Healthy else if endpoint.failures >= threshold then Down else Degraded
  }

  predicate StatusesFit(states: seq<Endpoint>, threshold: int) {
    forall i :: 0 <= i < |states| ==> StatusFits(states[i], threshold)
  }

  /** After any records and probes, an endpoint is healthy exactly when it has no consecutive failures, down
      exactly when they have reached the threshold, and degraded otherwise. */
  lemma {:induction false} StatusTellsFailures(urls: seq<string>, threshold: int, steps: seq<PoolStep>)
    ensures StatusesFit(PoolAfter(NewPool(urls), threshold, steps), threshold)
    decreases |steps|
  {
    if steps != [] {
      StatusTellsFailures(urls, threshold, steps[..|steps| - 1]);
      NextFits(PoolAfter(NewPool(urls), threshold, steps[..|steps| - 1]), threshold, steps[|steps| - 1]);
    }
  }

  lemma {:induction false} NextFits(states: seq<Endpoint>, threshold: int, step: PoolStep)
    requires StatusesFit(states, threshold)
    ensures StatusesFit(PoolNext(states, threshold, step), threshold)
  {
  }

  // --- the order of the endpoints ---

  lemma {:induction false} HealthOrder()
    ensures TotalPreorder(ByHealth())
  {
  }

  /** Where each URL of the ordered list comes from. */
  lemma {:induction false} OrderedUrlsContents(states: seq<Endpoint>)
    ensures |OrderedUrls(states)| == |states|
    ensures forall url :: url in OrderedUrls(states) <==> url in Urls(states)
  {
    var sorted := Sort(ByHealth(), states);
    SortElements(ByHealth(), states);
    forall url ensures url in OrderedUrls(states) <==> url in Urls(states) {
      if url in OrderedUrls(states) {
        var i :| 0 <= i < |sorted| && Urls(sorted)[i] == url;
        assert sorted[i] in sorted && sorted[i] in states;
        var j :| 0 <= j < |states| && states[j] == sorted[i];
        assert Urls(states)[j] == url;
      }
      if url in Urls(states) {
        var j :| 0 <= j < |states| && Urls(states)[j] == url;
        assert states[j] in states && states[j] in sorted;
        var i :| 0 <= i < |sorted| && sorted[i] == states[j];
        assert Urls(sorted)[i] == url;
      }
    }
  }

  function OfStatus(status: Status): Endpoint -> bool {
    (endpoint: Endpoint) => endpoint.status == status
  }

  /** Healthy endpoints come first, then degraded, then down ones, each kind in the order of the pool. */
  lemma {:induction false} OrderedByHealth(states: seq<Endpoint>)
    ensures Sort(ByHealth(), states)
         == Filter(OfStatus(Healthy), states) + Filter(OfStatus(Degraded), states) + Filter(OfStatus(Down), states)
  {
    var sorted := Sort(ByHealth(), states);
    HealthOrder();
    SortSorted(ByHealth(), states);
    SortStable(ByHealth(), OfStatus(Healthy), states);
    SortStable(ByHealth(), OfStatus(Degraded), states);
    SortStable(ByHealth(), OfStatus(Down), states);
    SortedIsGrouped(sorted);
  }

  lemma {:induction false} SortedIsGrouped(s: seq<Endpoint>)
    requires Sorted(ByHealth(), s)
    ensures s == Filter(OfStatus(Healthy), s) + Filter(OfStatus(Degraded), s) + Filter(OfStatus(Down), s)
    decreases |s|
  {
    hide Filter;
    KindFirst(Healthy, s);
    KindFirst(Degraded, s);
    KindFirst(Down, s);
    if s != [] {
      var rest := s[1..];
      assert Sorted(ByHealth(), rest);
      SortedIsGrouped(rest);
      assert s == [s[0]] + rest;
      if s[0].status != Healthy {
        NoneLeft(rest, Healthy);
      }
      if s[0].status == Down {
        NoneLeft(rest, Degraded);
      }
      Grouped(s[0], Filter(OfStatus(Healthy), rest), Filter(OfStatus(Degraded), rest), Filter(OfStatus(Down), rest));
    }
  }

  lemma {:induction false} KindFirst(status: Status, s: seq<Endpoint>)
    ensures Filter(OfStatus(status), s)
         == if s == [] then [] else (if s[0].status == status then [s[0]] else []) + Filter(OfStatus(status), s[1..])
  {
    if s != [] {
      assert [] + Filter(OfStatus(status), s[1..]) == Filter(OfStatus(status), s[1..]);
    }
  }

  lemma {:induction false} Grouped(first: Endpoint, a: seq<Endpoint>, b: seq<Endpoint>, c: seq<Endpoint>)
    requires (first.status != Healthy ==> a == []) && (first.status == Down ==> b == [])
    ensures [first] + (a + b + c)
         == ((if first.status == Healthy then [first] else []) + a) + ((if first.status == Degraded then [first] else []) + b)
            + ((if first.status == Down then [first] else []) + c)
  {
  }

  lemma {:induction false} NoneLeft(s: seq<Endpoint>, status: Status)
    requires forall i :: 0 <= i < |s| ==> s[i].status != status
    ensures Filter(OfStatus(status), s) == []
    decreases |s|
  {
    if s != [] {
      NoneLeft(s[1..], status);
    }
  }

  function HasUrl(url: string): Endpoint -> bool {
    (endpoint: Endpoint) => endpoint.url == url
  }

  predicate UrlsDistinct(states: seq<Endpoint>) {
    forall i, j :: 0 <= i < j < |states| ==> states[i].url != states[j].url
  }

  lemma {:induction false} AtMostOne(states: seq<Endpoint>, url: string)
    requires UrlsDistinct(states)
    ensures |Filter(HasUrl(url), states)| <= 1
    decreases |states|
  {
    if states != [] {
      AtMostOne(states[1..], url);
      if states[0].url == url {
        NoneWithUrl(states[1..], url);
      }
    }
  }

  lemma {:induction false} NoneWithUrl(states: seq<Endpoint>, url: string)
    requires forall i :: 0 <= i < |states| ==> states[i].url != url
    ensures Filter(HasUrl(url), states) == []
    decreases |states|
  {
    if states != [] {
      NoneWithUrl(states[1..], url);
    }
  }

  lemma {:induction false} SeenOnce(states: seq<Endpoint>, i: nat, j: nat)
    requires i < j < |states| && |Filter(HasUrl(states[i].url), states)| <= 1
    ensures states[i].url != states[j].url
  {
    var keep := HasUrl(states[i].url);
    var before := states[..j];
    var after := states[j..];
    assert states == before + after;
    FilterAppend(keep, before, after);
    FilterElements(keep, before);
    FilterElements(keep, after);
    var later := after[0];
    assert before[i] in before && later in after;
    assert before[i] in Filter(keep, before);
    assert later in Filter(keep, after) <==> keep(later);
  }

  /** Distinct URLs stay distinct in the ordered list. */
  lemma {:induction false} OrderedUrlsDistinct(states: seq<Endpoint>)
    requires UrlsDistinct(states)
    ensures Distinct(OrderedUrls(states))
  {
    hide Filter, Sort;
    var sorted := Sort(ByHealth(), states);
    HealthOrder();
    forall i, j | 0 <= i < j < |sorted| ensures sorted[i].url != sorted[j].url {
      AtMostOne(states, sorted[i].url);
      SortFiltered(ByHealth(), HasUrl(sorted[i].url), states);
      SeenOnce(sorted, i, j);
    }
  }

  // --- retrying ---

  /** Retrying tries again exactly after errors that call for it and stops at the first other answer or at
      the last attempt. */
  lemma {:induction false} RetryStops<T>(replies: nat -> Answer<T>, again: RpcError -> bool, maxAttempts: Positive)
    ensures var r := Retry(replies, again, maxAttempts);
            && 1 <= r.tries <= maxAttempts && r.answer == replies(r.tries)
            && (forall k: nat :: 1 <= k < r.tries ==> replies(k).Threw? && again(replies(k).error))
            && (r.answer.Threw? && again(r.answer.error) ==> r.tries == maxAttempts)
  {
    RetryFromStops(replies, again, maxAttempts, 1);
  }

  lemma {:induction false} RetryFromStops<T>(replies: nat -> Answer<T>, again: RpcError -> bool, maxAttempts: nat, k: nat)
    requires 1 <= k <= maxAttempts
    ensures var r := RetryFrom(replies, again, maxAttempts, k);
            && k <= r.tries <= maxAttempts && r.answer == replies(r.tries)
            && (forall i: nat :: k <= i < r.tries ==> replies(i).Threw? && again(replies(i).error))
            && (r.answer.Threw? && again(r.answer.error) ==> r.tries == maxAttempts)
    decreases maxAttempts - k
  {
    if replies(k).Threw? && again(replies(k).error) && k < maxAttempts {
      RetryFromStops(replies, again, maxAttempts, k + 1);
    }
  }

  // --- the calls of one visit ---

  /** A send that returned, whatever its status. */
  predicate SentBack(call: Call) {
    call.SendCall? && call.sent.Returned?
  }

  predicate QuietCall(call: Call) {
    !SentBack(call) && !call.PollCall?
  }

  /** No send has returned and nothing was polled. */
  predicate Quiet(calls: seq<Call>) {
    forall k :: 0 <= k < |calls| ==> QuietCall(calls[k])
  }

  /** Call number n is the one send that returned, with this hash, and from it on only this hash is polled,
      at the same endpoint. */
  predicate CommittedAt(calls: seq<Call>, url: string, hash: string, n: nat) {
    && n < |calls| && SentBack(calls[n]) && calls[n].url == url && calls[n].sent.value.hash == hash
    && (forall k :: 0 <= k < n ==> QuietCall(calls[k]))
    && (forall k :: n < k < |calls| ==> calls[k].PollCall? && calls[k].url == url && calls[k].hash == hash)
  }

  ghost predicate Committed(calls: seq<Call>, url: string, hash: string) {
    exists n: nat :: CommittedAt(calls, url, hash, n)
  }

  /** The last call is a poll that found the transaction successful. */
  predicate EndsInSuccess(calls: seq<Call>, hash: string) {
    && calls != []
    && var last := calls[|calls| - 1];
       last.PollCall? && last.hash == hash && last.status == Returned("SUCCESS")
  }

  /** The last call is a send that returned the status ERROR. */
  predicate EndsInRejection(calls: seq<Call>) {
    && calls != []
    && var last := calls[|calls| - 1];
       SentBack(last) && last.sent.value.status == "ERROR"
  }

  lemma {:induction false} RepeatCalls(call: Call, n: nat)
    ensures forall k :: 0 <= k < |Repeat(call, n)| ==> Repeat(call, n)[k] == call
  {
    if n > 0 {
      RepeatCalls(call, n - 1);
    }
  }

  lemma {:induction false} SendCallsAre(url: string, visit: Visit, n: nat)
    ensures |SendCalls(url, visit, n)| == n
    ensures forall k: nat :: k < n ==> SendCalls(url, visit, n)[k] == SendCall(url, visit.send(k + 1))
  {
    if n > 0 {
      SendCallsAre(url, visit, n - 1);
    }
  }

  /** The polls made are the tries before the deadline, in order. */
  lemma {:induction false} PollCallsAre(url: string, cfg: Config, visit: Visit, hash: string, n: nat)
    ensures forall k :: 0 <= k < |PollCalls(url, cfg, visit, hash, n)| ==>
              var call := PollCalls(url, cfg, visit, hash, n)[k];
              call.PollCall? && call.url == url && call.hash == hash
    ensures var calls := PollCalls(url, cfg, visit, hash, n);
            calls != [] ==> exists i: nat :: 1 <= i <= n && PollTriedAt(cfg, visit, i) && calls[|calls| - 1].status == visit.poll(i)
    ensures n > 0 && PollTriedAt(cfg, visit, n) ==>
              var calls := PollCalls(url, cfg, visit, hash, n);
              calls != [] && calls[|calls| - 1] == PollCall(url, hash, visit.poll(n))
  {
    if n > 0 {
      PollCallsAre(url, cfg, visit, hash, n - 1);
      assert PollTriedAt(cfg, visit, n) ==> 1 <= n <= n;
      if !PollTriedAt(cfg, visit, n) {
        assert PollCalls(url, cfg, visit, hash, n) == PollCalls(url, cfg, visit, hash, n - 1);
      }
    }
  }

  predicate PollTriedAt(cfg: Config, visit: Visit, k: nat) {
    visit.clock(k) < visit.clock(0) + cfg.submitTimeoutMs
  }

  lemma {:induction false} PreparingIsQuiet(url: string, cfg: Config, visit: Visit)
    ensures Quiet(Preparing(url, cfg, visit).0)
    ensures forall k :: 0 <= k < |Preparing(url, cfg, visit).0| ==> Preparing(url, cfg, visit).0[k].url == url
  {
    hide Retry;
    RepeatCalls(AccountCall(url), Retry(visit.account, Network(), cfg.rpcAttempts).tries);
    RepeatCalls(PrepareCall(url), Retry(visit.prepared, Network(), cfg.rpcAttempts).tries);
  }

  /** Of the tries of a send only the last can have returned. */
  lemma {:induction false} SendTries(url: string, cfg: Config, visit: Visit)
    ensures var sent := Retry(visit.send, Network(), cfg.rpcAttempts);
            var calls := SendCalls(url, visit, sent.tries);
            && sent.tries >= 1 && |calls| == sent.tries
            && calls[|calls| - 1] == SendCall(url, sent.answer)
            && Quiet(calls[..|calls| - 1])
            && (forall k :: 0 <= k < |calls| ==> calls[k].url == url)
  {
    hide Retry, SendCalls, IsNetworkError;
    RetryStops(visit.send, Network(), cfg.rpcAttempts);
    var tries := Retry(visit.send, Network(), cfg.rpcAttempts).tries;
    SendCallsAre(url, visit, tries);
    var calls := SendCalls(url, visit, tries);
    forall k | 0 <= k < tries - 1 ensures QuietCall(calls[k]) {
      assert visit.send(k + 1).Threw?;
    }
  }

  lemma {:induction false} FollowingPolls(url: string, cfg: Config, visit: Visit, response: SendResponse)
    ensures var rest := Following(url, cfg, visit, response);
            && rest.responseHash == Some(response.hash)
            && (forall k :: 0 <= k < |rest.calls| ==> rest.calls[k].PollCall? && rest.calls[k].url == url && rest.calls[k].hash == response.hash)
            && (rest.result.Returned? ==> rest.result.value == response.hash)
            && (rest.result.Returned? <==> EndsInSuccess(rest.calls, response.hash))
            && (rest.recorded <==> response.status == "ERROR") && (rest.recorded ==> rest.calls == [] && rest.result.Threw?)
  {
    hide Retry, PollCalls;
    if response.status != "ERROR" {
      var replies := PollTry(cfg, visit, response.hash);
      var polled := Retry(replies, Marked(), cfg.pollAttempts);
      RetryStops(replies, Marked(), cfg.pollAttempts);
      PollCallsAre(url, cfg, visit, response.hash, polled.tries);
      var calls := PollCalls(url, cfg, visit, response.hash, polled.tries);
      if EndsInSuccess(calls, response.hash) {
        var i: nat :| 1 <= i <= polled.tries && PollTriedAt(cfg, visit, i) && calls[|calls| - 1].status == visit.poll(i);
        assert replies(i) == Returned("SUCCESS");
        assert i == polled.tries;
      }
    }
  }

  /** What the calls of a visit tell about how it left the try block: a response hash is set exactly when a
      send returned, a failure was recorded there exactly when that send was rejected, and the block
      returns exactly when the last call is a poll that found the transaction successful. */
  lemma {:induction false} TriedCalls(url: string, cfg: Config, visit: Visit)
    ensures var t := TryBlock(url, cfg, visit);
            && (forall k :: 0 <= k < |t.calls| ==> t.calls[k].url == url)
            && (t.responseHash.None? ==> Quiet(t.calls) && t.result.Threw? && !t.recorded)
            && (t.responseHash.Some? ==> Committed(t.calls, url, t.responseHash.value))
            && (t.recorded <==> EndsInRejection(t.calls)) && (t.recorded ==> t.result.Threw?)
            && (t.result.Returned? ==> t.responseHash == Some(t.result.value))
            && (forall hash :: t.result == Returned(hash) <==> EndsInSuccess(t.calls, hash))
  {
    hide Preparing, Retry, SendCalls, Following, Quiet;
    PreparingIsQuiet(url, cfg, visit);
    SendTries(url, cfg, visit);
    var (calls, ready) := Preparing(url, cfg, visit);
    var sent := Retry(visit.send, Network(), cfg.rpcAttempts);
    var sends := SendCalls(url, visit, sent.tries);
    if ready.Threw? {
      QuietEnds(calls);
    } else if sent.answer.Threw? {
      assert sends == sends[..|sends| - 1] + [SendCall(url, sent.answer)];
      QuietSnoc(sends[..|sends| - 1], SendCall(url, sent.answer));
      QuietAppend(calls, sends);
      QuietEnds(calls + sends);
    } else {
      FollowingPolls(url, cfg, visit, sent.answer.value);
      TriedWithHash(url, calls, sends, sent.answer.value, Following(url, cfg, visit, sent.answer.value));
    }
  }

  lemma {:induction false} NothingIsQuiet()
    ensures Quiet([])
  {
  }

  lemma {:induction false} QuietAppend(a: seq<Call>, b: seq<Call>)
    requires Quiet(a) && Quiet(b)
    ensures Quiet(a + b)
  {
  }

  lemma {:induction false} QuietSnoc(a: seq<Call>, call: Call)
    requires Quiet(a) && QuietCall(call)
    ensures Quiet(a + [call])
  {
  }

  lemma {:induction false} QuietEnds(calls: seq<Call>)
    requires Quiet(calls)
    ensures !EndsInRejection(calls) && forall hash :: !EndsInSuccess(calls, hash)
  {
  }

  lemma {:induction false} TriedWithHash(url: string, calls: seq<Call>, sends: seq<Call>, response: SendResponse, rest: Tried)
    requires Quiet(calls) && sends != [] && Quiet(sends[..|sends| - 1]) && sends[|sends| - 1] == SendCall(url, Returned(response))
    requires forall k :: 0 <= k < |rest.calls| ==> rest.calls[k].PollCall? && rest.calls[k].url == url && rest.calls[k].hash == response.hash
    requires rest.result.Returned? ==> rest.result.value == response.hash
    requires rest.result.Returned? <==> EndsInSuccess(rest.calls, response.hash)
    requires (rest.recorded <==> response.status == "ERROR") && (rest.recorded ==> rest.calls == [])
    ensures var all := calls + sends + rest.calls;
            && Committed(all, url, response.hash)
            && (rest.recorded <==> EndsInRejection(all))
            && (forall hash :: rest.result == Returned(hash) <==> EndsInSuccess(all, hash))
  {
    hide QuietCall;
    var all := calls + sends + rest.calls;
    var n := |calls| + |sends| - 1;
    forall k | 0 <= k < n ensures QuietCall(all[k]) {
      assert all[k] == if k < |calls| then calls[k] else sends[..|sends| - 1][k - |calls|];
    }
    assert all[n] == sends[|sends| - 1];
    assert CommittedAt(all, url, response.hash, n);
    assert rest.calls == [] ==> all[|all| - 1] == sends[|sends| - 1];
    assert rest.calls != [] ==> all[|all| - 1] == rest.calls[|rest.calls| - 1];
  }

  // --- one submission, as a list of turns ---

  /** One turn of the loop: an endpoint passed over because it was down, or visited. */
  datatype Turn = Passed(url: string) | Visited(url: string, visit: Visit)

  function TriedIn(cfg: Config, turn: Turn): Tried
    requires turn.Visited?
  {
    TryBlock(turn.url, cfg, turn.visit)
  }

  function VisitCount(turns: seq<Turn>): nat {
    if turns == [] then 0
    else VisitCount(turns[..|turns| - 1]) + (if turns[|turns| - 1].Visited? then 1 else 0)
  }

  function EndedBy(cfg: Config, turn: Turn): Option<Result<string, string>> {
    if turn.Visited? then EndOf(TriedIn(cfg, turn)) else None
  }

  /** The pool while the turns are taken, the submission's own records included. */
  function PoolDuring(states: seq<Endpoint>, threshold: int, cfg: Config, turns: seq<Turn>): (r: seq<Endpoint>)
    ensures |r| == |states| && forall i :: 0 <= i < |states| ==> r[i].url == states[i].url
  {
    if turns == [] then states
    else
      var before := PoolDuring(states, threshold, cfg, turns[..|turns| - 1]);
      var turn := turns[|turns| - 1];
      match turn
      case Passed(_) => before
      case Visited(url, visit) =>
        PoolAfter(PoolAfter(before, threshold, visit.meanwhile), threshold, RecordsOf(url, TriedIn(cfg, turn), visit.now))
  }

  function CallsIn(cfg: Config, turn: Turn): seq<Call> {
    if turn.Visited? then TriedIn(cfg, turn).calls else []
  }

  function Calls(cfg: Config, turns: seq<Turn>): seq<Call> {
    if turns == [] then [] else Calls(cfg, turns[..|turns| - 1]) + CallsIn(cfg, turns[|turns| - 1])
  }

  function ErrorOf(tried: Tried): string {
    if tried.result.Threw? then tried.result.error.message else ""
  }

  /** The error of the last visit, or the initial one. */
  function LastError(cfg: Config, turns: seq<Turn>): string {
    if turns == [] then ALL_FAILED
    else
      var turn := turns[|turns| - 1];
      if turn.Visited? then ErrorOf(TriedIn(cfg, turn)) else LastError(cfg, turns[..|turns| - 1])
  }

  /** These turns are what the loop does over these URLs: each URL in order is visited if it is available at
      that moment and passed over if not, and a visit that ends the submission is the last turn. */
  ghost predicate Runs(states: seq<Endpoint>, threshold: int, cfg: Config, urls: seq<string>, world: World, turns: seq<Turn>) {
    && |turns| <= |urls|
    && (forall k :: 0 <= k < |turns| ==> turns[k].url == urls[k])
    && (forall k :: 0 <= k < |turns| ==>
          (turns[k].Visited? <==> IsAvailable(PoolDuring(states, threshold, cfg, turns[..k]), urls[k])))
    && (forall k :: 0 <= k < |turns| && turns[k].Visited? ==> turns[k].visit == world(VisitCount(turns[..k])))
    && (forall k :: 0 <= k < |turns| - 1 ==> EndedBy(cfg, turns[k]) == None)
  }

  /** No turn has ended the submission. */
  predicate GoesOn(cfg: Config, turns: seq<Turn>) {
    turns == [] || EndedBy(cfg, turns[|turns| - 1]) == None
  }

  /** The loop is through: its last turn ended it, or all URLs have had their turn. */
  predicate Through(cfg: Config, urls: seq<string>, turns: seq<Turn>) {
    |turns| == |urls| || !GoesOn(cfg, turns)
  }

  function ResultOf(cfg: Config, turns: seq<Turn>): Result<string, string> {
    if GoesOn(cfg, turns) then Err(LastError(cfg, turns)) else EndedBy(cfg, turns[|turns| - 1]).value
  }

  // --- what every submission keeps ---

  lemma {:induction false} PassedIsQuiet(cfg: Config, turn: Turn)
    requires EndedBy(cfg, turn) == None
    ensures Quiet(CallsIn(cfg, turn))
  {
    hide TryBlock;
    if turn.Visited? {
      TriedCalls(turn.url, cfg, turn.visit);
    }
  }

  /** Before the last turn no send has returned. */
  lemma {:induction false} QuietBefore(cfg: Config, turns: seq<Turn>)
    requires forall k :: 0 <= k < |turns| ==> EndedBy(cfg, turns[k]) == None
    ensures Quiet(Calls(cfg, turns))
    decreases |turns|
  {
    hide EndedBy, CallsIn, Quiet;
    if turns == [] {
      NothingIsQuiet();
    } else {
      QuietBefore(cfg, turns[..|turns| - 1]);
      PassedIsQuiet(cfg, turns[|turns| - 1]);
      QuietAppend(Calls(cfg, turns[..|turns| - 1]), CallsIn(cfg, turns[|turns| - 1]));
    }
  }
  lemma {:induction false} CommittedAppend(a: seq<Call>, b: seq<Call>, url: string, hash: string, n: nat)
    requires Quiet(a) && CommittedAt(b, url, hash, n)
    ensures CommittedAt(a + b, url, hash, |a| + n)
  {
    hide QuietCall;
    assert forall k :: 0 <= k < |a + b| ==> (a + b)[k] == if k < |a| then a[k] else b[k - |a|];
  }

  /** All calls of a submission: quiet while it goes on, and committed to one hash at the endpoint of its
      last turn once a send has returned. */
  lemma {:induction false} WholeCalls(states: seq<Endpoint>, threshold: int, cfg: Config, urls: seq<string>, world: World, turns: seq<Turn>)
    requires Runs(states, threshold, cfg, urls, world, turns)
    ensures GoesOn(cfg, turns) ==> Quiet(Calls(cfg, turns))
    ensures !GoesOn(cfg, turns) ==>
              && turns[|turns| - 1].Visited?
              && var t := TriedIn(cfg, turns[|turns| - 1]);
                 && (t.responseHash.None? ==> Quiet(Calls(cfg, turns)))
                 && (t.responseHash.Some? ==> Committed(Calls(cfg, turns), turns[|turns| - 1].url, t.responseHash.value))
  {
    hide PoolDuring, IsAvailable, VisitCount, EndOf, TryBlock, Quiet;
    if GoesOn(cfg, turns) {
      QuietBefore(cfg, turns);
    } else {
      var last := turns[|turns| - 1];
      var before := turns[..|turns| - 1];
      QuietBefore(cfg, before);
      TriedCalls(last.url, cfg, last.visit);
      var t := TriedIn(cfg, last);
      if t.responseHash.Some? {
        var n: nat :| CommittedAt(t.calls, last.url, t.responseHash.value, n);
        CommittedAppend(Calls(cfg, before), t.calls, last.url, t.responseHash.value, n);
      } else {
        QuietAppend(Calls(cfg, before), t.calls);
      }
    }
  }

  lemma {:induction false} QuietOrder(calls: seq<Call>)
    requires Quiet(calls)
    ensures OnlyPollsAfterSend(calls) && PollsFollowSend(calls)
  {
  }

  lemma {:induction false} CommittedOrder(calls: seq<Call>, url: string, hash: string, n: nat)
    requires CommittedAt(calls, url, hash, n)
    ensures OnlyPollsAfterSend(calls) && PollsFollowSend(calls)
  {
  }

  /** After a send that returned, every call polls its hash at its endpoint. */
  predicate OnlyPollsAfterSend(calls: seq<Call>) {
    forall i, j :: 0 <= i < j < |calls| && SentBack(calls[i]) ==>
      calls[j].PollCall? && calls[j].url == calls[i].url && calls[j].hash == calls[i].sent.value.hash
  }

  /** Nothing is polled before a send returned. */
  predicate PollsFollowSend(calls: seq<Call>) {
    forall j :: 0 <= j < |calls| && calls[j].PollCall? ==> exists i :: 0 <= i < j && SentBack(calls[i])
  }

  /** Over all calls to all endpoints, whatever errors they raise: after a send returned the loop only polls
      that hash at that endpoint, so no second endpoint gets the transaction, and it polls nothing before.
      The submission ends in that turn, and it succeeds exactly when the last call is a poll that found
      the transaction successful. */
  lemma {:induction false} NeverSwitchesAfterSend(states: seq<Endpoint>, threshold: int, cfg: Config, urls: seq<string>, world: World,
                                                  turns: seq<Turn>)
    requires Runs(states, threshold, cfg, urls, world, turns)
    ensures var calls := Calls(cfg, turns);
            && OnlyPollsAfterSend(calls) && PollsFollowSend(calls)
            && (forall i :: 0 <= i < |calls| && SentBack(calls[i]) ==>
                  turns != [] && !GoesOn(cfg, turns) && turns[|turns| - 1].url == calls[i].url)
            && (forall hash :: ResultOf(cfg, turns) == Ok(hash) <==> EndsInSuccess(calls, hash))
  {
    hide Runs, EndOf, TryBlock, Quiet;
    var calls := Calls(cfg, turns);
    WholeCalls(states, threshold, cfg, urls, world, turns);
    if Quiet(calls) {
      QuietOrder(calls);
      QuietEnds(calls);
      QuietSendsNothing(calls);
    } else {
      var last := turns[|turns| - 1];
      var hash := TriedIn(cfg, last).responseHash.value;
      var n: nat :| CommittedAt(calls, last.url, hash, n);
      CommittedOrder(calls, last.url, hash, n);
      CommittedUrl(calls, last.url, hash, n);
    }
    SuccessIsLast(states, threshold, cfg, urls, world, turns);
  }

  lemma {:induction false} QuietSendsNothing(calls: seq<Call>)
    requires Quiet(calls)
    ensures forall i :: 0 <= i < |calls| ==> !SentBack(calls[i])
  {
  }

  lemma {:induction false} CommittedUrl(calls: seq<Call>, url: string, hash: string, n: nat)
    requires CommittedAt(calls, url, hash, n)
    ensures forall i :: 0 <= i < |calls| && SentBack(calls[i]) ==> calls[i].url == url
  {
  }

  lemma {:induction false} EndsInAppend(before: seq<Call>, calls: seq<Call>, hash: string)
    requires Quiet(before)
    ensures EndsInSuccess(before + calls, hash) <==> EndsInSuccess(calls, hash)
  {
    QuietEnds(before);
    assert calls == [] ==> before + calls == before;
    assert calls != [] ==> (before + calls)[|before + calls| - 1] == calls[|calls| - 1];
  }

  lemma {:induction false} SuccessIsLast(states: seq<Endpoint>, threshold: int, cfg: Config, urls: seq<string>, world: World, turns: seq<Turn>)
    requires Runs(states, threshold, cfg, urls, world, turns)
    ensures forall hash :: ResultOf(cfg, turns) == Ok(hash) <==> EndsInSuccess(Calls(cfg, turns), hash)
  {
    hide PoolDuring, IsAvailable, VisitCount, TryBlock, Quiet, EndsInSuccess, IsNetworkError;
    if GoesOn(cfg, turns) {
      QuietBefore(cfg, turns);
      QuietEnds(Calls(cfg, turns));
    } else {
      var last := turns[|turns| - 1];
      var before := Calls(cfg, turns[..|turns| - 1]);
      QuietBefore(cfg, turns[..|turns| - 1]);
      TriedCalls(last.url, cfg, last.visit);
      var calls := TriedIn(cfg, last).calls;
      assert Calls(cfg, turns) == before + calls;
      forall hash ensures EndsInSuccess(before + calls, hash) <==> EndsInSuccess(calls, hash) {
        EndsInAppend(before, calls, hash);
      }
    }
  }

  lemma {:induction false} SocketFault()
    ensures IsNetworkError(RpcError("socket", false))
  {
    assert Lower(['s', 'o', 'c', 'k', 'e', 't']) == "socket" by {
      assert Lower(['k', 'e', 't']) == ['k', 'e', 't'];
    }
    assert StandsAt("socket", NETWORK_MARKERS[8], 0);
  }

  lemma {:induction false} FailsAfterSend(url: string, cfg: Config, visit: Visit, fault: RpcError)
    requires visit.server.Returned? && visit.built.Returned? && visit.signed.Returned?
    requires forall k: nat :: visit.account(k).Returned? && visit.prepared(k).Returned? && visit.poll(k) == Threw(fault)
    requires forall k: nat :: visit.send(k).Returned? && visit.send(k).value.status != "ERROR"
    requires forall k: nat :: visit.clock(k) < visit.clock(0) + cfg.submitTimeoutMs
    ensures TryBlock(url, cfg, visit).result == Threw(fault) && !Quiet(TryBlock(url, cfg, visit).calls)
  {
    hide Retry, IsNetworkError;
    RetryStops(visit.account, Network(), cfg.rpcAttempts);
    RetryStops(visit.prepared, Network(), cfg.rpcAttempts);
    RetryStops(visit.send, Network(), cfg.rpcAttempts);
    var hash := Retry(visit.send, Network(), cfg.rpcAttempts).answer.value.hash;
    RetryStops(PollTry(cfg, visit, hash), Marked(), cfg.pollAttempts);
    TriedCalls(url, cfg, visit);
    var t := TryBlock(url, cfg, visit);
    assert t.responseHash == Some(hash);
    var n: nat :| CommittedAt(t.calls, url, hash, n);
  }

  /** The guard on the response hash is needed: every error can come up after a send returned, so also the
      network faults that by themselves would make the loop go on to the next endpoint. */
  lemma {:induction false} ErrorAloneWouldSwitch(url: string, cfg: Config, fault: RpcError)
    requires cfg.submitTimeoutMs > 0
    ensures exists visit :: TryBlock(url, cfg, visit).result == Threw(fault) && !Quiet(TryBlock(url, cfg, visit).calls)
    ensures IsNetworkError(RpcError("socket", false))
  {
    hide TryBlock, Quiet;
    SocketFault();
    var ok: Answer<()> := Returned(());
    var visit := Visit(ok, k => ok, ok, k => ok, ok, k => Returned(SendResponse("", "PENDING")), k => Threw(fault), k => 0, [], 0);
    FailsAfterSend(url, cfg, visit, fault);
  }

  /** With distinct URLs each endpoint has at most one turn, and only endpoints of the pool have one. */
  lemma {:induction false} VisitsEachOnce(states: seq<Endpoint>, threshold: int, cfg: Config, world: World, turns: seq<Turn>)
    requires UrlsDistinct(states) && Runs(states, threshold, cfg, OrderedUrls(states), world, turns)
    ensures forall i, j :: 0 <= i < j < |turns| ==> turns[i].url != turns[j].url
    ensures forall k :: 0 <= k < |turns| ==> turns[k].url in Urls(states)
  {
    hide PoolDuring, IsAvailable, VisitCount, OrderedUrls;
    OrderedUrlsDistinct(states);
    OrderedUrlsContents(states);
  }

  /** A turn that leaves the submission open: passed over, or failed with a network fault while no send had
      returned. */
  predicate FailedBeforeSend(cfg: Config, turn: Turn) {
    turn.Visited? ==>
      && Quiet(CallsIn(cfg, turn))
      && TriedIn(cfg, turn).result.Threw? && IsNetworkError(TriedIn(cfg, turn).result.error)
  }

  lemma {:induction false} GoesOnIff(cfg: Config, turn: Turn)
    ensures EndedBy(cfg, turn) == None <==> FailedBeforeSend(cfg, turn)
  {
    hide TryBlock, IsNetworkError;
    if turn.Visited? {
      TriedCalls(turn.url, cfg, turn.visit);
      var t := TriedIn(cfg, turn);
      if t.responseHash.Some? {
        var n: nat :| CommittedAt(t.calls, turn.url, t.responseHash.value, n);
      }
    }
  }

  /** An endpoint is passed over exactly if it is down when its turn comes. */
  lemma {:induction false} PassedOverIffDown(states: seq<Endpoint>, threshold: int, cfg: Config, world: World, turns: seq<Turn>, k: nat, i: nat)
    requires UrlsDistinct(states) && Runs(states, threshold, cfg, OrderedUrls(states), world, turns) && k < |turns|
    requires i < |states| && states[i].url == turns[k].url
    ensures turns[k].Passed? <==> PoolDuring(states, threshold, cfg, turns[..k])[i].status == Down
  {
    hide PoolDuring, OrderedUrls, VisitCount, EndedBy;
    var pool := PoolDuring(states, threshold, cfg, turns[..k]);
    assert pool[IndexOf(pool, turns[k].url)].url == pool[i].url;
  }

  // --- endpoints that answer ---

  /** The k-th try is the first one that returns, and the errors before it call for another try. */
  predicate ComesThrough<T>(replies: nat -> Answer<T>, again: RpcError -> bool, k: nat) {
    k >= 1 && replies(k).Returned? && forall j: nat :: 1 <= j < k ==> replies(j).Threw? && again(replies(j).error)
  }

  lemma {:induction false} RetryReaches<T>(replies: nat -> Answer<T>, again: RpcError -> bool, maxAttempts: Positive, k: nat)
    requires ComesThrough(replies, again, k) && k <= maxAttempts
    ensures Retry(replies, again, maxAttempts) == Retried(k, replies(k))
  {
    hide Retry;
    RetryStops(replies, again, maxAttempts);
  }

  /** A visit succeeds with the hash of the sent transaction when each call returns within its attempts, the
      send is not rejected, and the transaction is found successful after polls that did not find it yet, all
      within the attempts and the deadline. */
  lemma {:induction false} CooperativeVisitSucceeds(url: string, cfg: Config, visit: Visit, a: nat, p: nat, s: nat, q: nat)
    requires visit.server.Returned? && visit.built.Returned? && visit.signed.Returned?
    requires a <= cfg.rpcAttempts && ComesThrough(visit.account, Network(), a)
    requires p <= cfg.rpcAttempts && ComesThrough(visit.prepared, Network(), p)
    requires s <= cfg.rpcAttempts && ComesThrough(visit.send, Network(), s) && visit.send(s).value.status != "ERROR"
    requires 1 <= q <= cfg.pollAttempts && visit.poll(q) == Returned("SUCCESS")
    requires forall j: nat :: 1 <= j < q ==> visit.poll(j) == Returned("NOT_FOUND")
    requires forall j: nat :: 1 <= j <= q ==> visit.clock(j) < visit.clock(0) + cfg.submitTimeoutMs
    ensures TryBlock(url, cfg, visit).result == Returned(visit.send(s).value.hash)
  {
    hide Retry;
    RetryReaches(visit.account, Network(), cfg.rpcAttempts, a);
    RetryReaches(visit.prepared, Network(), cfg.rpcAttempts, p);
    RetryReaches(visit.send, Network(), cfg.rpcAttempts, s);
    var replies := PollTry(cfg, visit, visit.send(s).value.hash);
    assert ComesThrough(replies, Marked(), q);
    RetryReaches(replies, Marked(), cfg.pollAttempts, q);
  }

  /** A submission that visits such an endpoint ends there, with that hash. */
  lemma {:induction false} SuccessfulVisitEnds(states: seq<Endpoint>, threshold: int, cfg: Config, urls: seq<string>, world: World,
                                               turns: seq<Turn>, k: nat, hash: string)
    requires Runs(states, threshold, cfg, urls, world, turns) && k < |turns| && turns[k].Visited?
    requires TriedIn(cfg, turns[k]).result == Returned(hash)
    ensures k == |turns| - 1 && ResultOf(cfg, turns) == Ok(hash)
  {
    hide PoolDuring, IsAvailable, VisitCount, TryBlock;
    assert EndedBy(cfg, turns[k]) == Some(Ok(hash));
  }

  /** A submission gives up exactly when every endpoint had its turn and each was down or failed with a
      network fault before any send returned; the error is that of the last visit. */
  lemma {:induction false} GivesUpLast(states: seq<Endpoint>, threshold: int, cfg: Config, urls: seq<string>, world: World, turns: seq<Turn>)
    requires Runs(states, threshold, cfg, urls, world, turns) && Through(cfg, urls, turns)
    ensures GoesOn(cfg, turns) <==> forall k :: 0 <= k < |turns| ==> FailedBeforeSend(cfg, turns[k])
    ensures GoesOn(cfg, turns) ==> |turns| == |urls| && ResultOf(cfg, turns) == Err(LastError(cfg, turns))
  {
    hide PoolDuring, IsAvailable, VisitCount, EndedBy, FailedBeforeSend;
    forall k | 0 <= k < |turns| ensures EndedBy(cfg, turns[k]) == None <==> FailedBeforeSend(cfg, turns[k]) {
      GoesOnIff(cfg, turns[k]);
    }
  }

  /** What a visit does to its endpoint: a network fault before a send and a rejected send both count as one
      failure more, so the endpoint is not healthy; success makes it healthy; any other end leaves the
      pool as the others have made it. */
  lemma {:induction false} FailedVisitDemotes(states: seq<Endpoint>, threshold: int, cfg: Config, urls: seq<string>, world: World,
                                              turns: seq<Turn>, k: nat)
    requires Runs(states, threshold, cfg, urls, world, turns) && k < |turns| && turns[k].Visited?
    ensures var others := PoolAfter(PoolDuring(states, threshold, cfg, turns[..k]), threshold, turns[k].visit.meanwhile);
            var after := PoolDuring(states, threshold, cfg, turns[..k + 1]);
            var i := IndexOf(others, urls[k]);
            && i < |others| == |after|
            && (FailedBeforeSend(cfg, turns[k]) || EndsInRejection(CallsIn(cfg, turns[k])) ==>
                  after[i].status != Healthy && after[i].failures == others[i].failures + 1)
            && (TriedIn(cfg, turns[k]).result.Returned? ==> after[i].status == Healthy && after[i].failures == 0)
            && (!FailedBeforeSend(cfg, turns[k]) && !EndsInRejection(CallsIn(cfg, turns[k])) && TriedIn(cfg, turns[k]).result.Threw? ==>
                  after == others)
  {
    hide VisitCount, TryBlock, PoolAfter, PoolDuring, FailedBeforeSend, EndsInRejection, Runs, IsNetworkError, EndOf;
    VisitedTurn(states, threshold, cfg, urls, world, turns, k);
    var url := turns[k].url;
    var visit := turns[k].visit;
    var before := PoolDuring(states, threshold, cfg, turns[..k]);
    var others := PoolAfter(before, threshold, visit.meanwhile);
    SameUrlsSameIndex(before, others, url);
    var t := TriedIn(cfg, turns[k]);
    TriedCalls(url, cfg, visit);
    GoesOnIff(cfg, turns[k]);
    GoesOnFailsOver(cfg, turns[k]);
    RecordMarks(others, threshold, url, t, visit.now);
  }

  lemma {:induction false} RecordMarks(states: seq<Endpoint>, threshold: int, url: string, tried: Tried, now: int)
    requires (tried.recorded ==> tried.responseHash.Some?) && (tried.result.Returned? ==> !tried.recorded)
    requires IndexOf(states, url) < |states|
    ensures var after := PoolAfter(states, threshold, RecordsOf(url, tried, now));
            var i := IndexOf(states, url);
            && (FailsOver(tried) || tried.recorded ==> after[i].status != Healthy && after[i].failures == states[i].failures + 1)
            && (tried.result.Returned? ==> after[i].status == Healthy && after[i].failures == 0)
            && (!FailsOver(tried) && !tried.recorded && tried.result.Threw? ==> after == states)
  {
    hide PoolAfter, RecordsOf, IsNetworkError, IndexOf;
    OneRecord(states, threshold, url, tried, now);
  }

  lemma {:induction false} VisitedTurn(states: seq<Endpoint>, threshold: int, cfg: Config, urls: seq<string>, world: World,
                                       turns: seq<Turn>, k: nat)
    requires Runs(states, threshold, cfg, urls, world, turns) && k < |turns| && turns[k].Visited?
    ensures k < |urls| && turns[k].url == urls[k]
    ensures var before := PoolDuring(states, threshold, cfg, turns[..k]);
            var visit := turns[k].visit;
            && IndexOf(before, urls[k]) < |before|
            && PoolDuring(states, threshold, cfg, turns[..k + 1])
               == PoolAfter(PoolAfter(before, threshold, visit.meanwhile), threshold,
                            RecordsOf(urls[k], TriedIn(cfg, turns[k]), visit.now))
  {
    hide VisitCount, TryBlock, PoolAfter, RecordsOf, EndedBy;
    assert turns[..k + 1][..k] == turns[..k] && turns[..k + 1][k] == turns[k];
  }

  lemma {:induction false} GoesOnFailsOver(cfg: Config, turn: Turn)
    requires turn.Visited?
    ensures EndedBy(cfg, turn) == None <==> FailsOver(TriedIn(cfg, turn))
  {
    hide TryBlock, IsNetworkError;
  }

  /** The records of a visit, one at most. */
  lemma {:induction false} OneRecord(states: seq<Endpoint>, threshold: int, url: string, tried: Tried, now: int)
    requires tried.recorded ==> tried.responseHash.Some?
    ensures PoolAfter(states, threshold, RecordsOf(url, tried, now))
         == if tried.result.Returned? then PoolNext(states, threshold, Succeeded(url))
            else if tried.recorded || FailsOver(tried) then PoolNext(states, threshold, Failed(url, now))
            else states
  {
    hide PoolNext, IsNetworkError;
    var records := RecordsOf(url, tried, now);
    if records != [] {
      assert |records| == 1 && records[..0] == [];
    }
  }

  lemma {:induction false} SameUrlsSameIndex(a: seq<Endpoint>, b: seq<Endpoint>, url: string)
    requires |a| == |b| && forall i :: 0 <= i < |a| ==> b[i].url == a[i].url
    ensures IndexOf(b, url) == IndexOf(a, url)
  {
    if a != [] && a[0].url != url {
      SameUrlsSameIndex(a[1..], b[1..], url);
    }
  }
}
