/** The pool of RPC endpoints and the failover loop of a submission.

What an endpoint answers is an oracle, call by call and try by try: one `Visit` for each endpoint that is
visited, together with the records and probes that other submissions and the probe timer make in the
pool meanwhile. The try block and the catch block of the loop are run over these answers.
*/
module SorobanPoolSpec {
  import opened Wrappers
  import opened Sorting

  datatype Status = Healthy | Degraded | Down

  datatype Endpoint = Endpoint(url: string, status: Status, failures: nat, lastFailureAt: Option<int>, lastProbeAt: Option<int>)

  function Order(status: Status): nat {
    match status
    case Healthy => 0
    case Degraded => 1
    case Down => 2
  }

  function NewPool(urls: seq<string>): seq<Endpoint> {
    seq(|urls|, i requires 0 <= i < |urls| => Endpoint(urls[i], Healthy, 0, None, None))
  }

  /** The first endpoint with the URL, or the number of endpoints. */
  function IndexOf(states: seq<Endpoint>, url: string): (i: nat)
    ensures i <= |states|
    ensures i < |states| ==> states[i].url == url
    ensures forall k :: 0 <= k < i ==> states[k].url != url
  {
    if states == [] || states[0].url == url then 0 else 1 + IndexOf(states[1..], url)
  }

  function ByHealth(): (Endpoint, Endpoint) -> bool {
    (a: Endpoint, b: Endpoint) => Order(a.status) <= Order(b.status)
  }

  function Urls(states: seq<Endpoint>): (urls: seq<string>)
    ensures |urls| == |states| && forall i :: 0 <= i < |urls| ==> urls[i] == states[i].url
  {
    if states == [] then [] else [states[0].url] + Urls(states[1..])
  }

  function OrderedUrls(states: seq<Endpoint>): seq<string> {
    Urls(Sort(ByHealth(), states))
  }

  predicate IsAvailable(states: seq<Endpoint>, url: string) {
    IndexOf(states, url) < |states| && states[IndexOf(states, url)].status != Down
  }

  // --- what happens to an endpoint ---

  /** `Probed` is the end of a probe of endpoint number `index`. */
  datatype PoolStep =
    | Succeeded(url: string)
    | Failed(url: string, now: int)
    | ProbeStarted(index: nat, now: int)
    | Probed(index: nat, healthy: bool)

  function Demoted(endpoint: Endpoint, threshold: int, now: int): Endpoint {
    endpoint.(failures := endpoint.failures + 1, lastFailureAt := Some(now),
              status := if endpoint.failures + 1 >= threshold then Down else Degraded)
  }

  function Recovered(endpoint: Endpoint): Endpoint {
    endpoint.(status := Healthy, failures := 0)
  }

  function PoolNext(states: seq<Endpoint>, threshold: int, step: PoolStep): (r: seq<Endpoint>)
    ensures |r| == |states| && forall i :: 0 <= i < |states| ==> r[i].url == states[i].url
  {
    match step
    case Succeeded(url) =>
      var i := IndexOf(states, url);
      if i < |states| then states[i := Recovered(states[i])] else states
    case Failed(url, now) =>
      var i := IndexOf(states, url);
      if i < |states| then states[i := Demoted(states[i], threshold, now)] else states
    case ProbeStarted(i, now) =>
      if i < |states| && states[i].status == Down then states[i := states[i].(lastProbeAt := Some(now))] else states
    case Probed(i, healthy) => if i < |states| && healthy then states[i := Recovered(states[i])] else states
  }

  function PoolAfter(states: seq<Endpoint>, threshold: int, steps: seq<PoolStep>): (r: seq<Endpoint>)
    ensures |r| == |states| && forall i :: 0 <= i < |states| ==> r[i].url == states[i].url
  {
    if steps == [] then states else PoolNext(PoolAfter(states, threshold, steps[..|steps| - 1]), threshold, steps[|steps| - 1])
  }

  // --- calls and errors ---

  /** `marked` is the `retryable` property that an error may carry; the code sets it on a pending result. */
  datatype RpcError = RpcError(message: string, marked: bool)

  datatype Answer<+T> = Returned(value: T) | Threw(error: RpcError)

  datatype SendResponse = SendResponse(hash: string, status: string)

  /** One call to an endpoint, with what came back where it matters. */
  datatype Call =
    | AccountCall(url: string)
    | PrepareCall(url: string)
    | SendCall(url: string, sent: Answer<SendResponse>)
    | PollCall(url: string, hash: string, status: Answer<string>)

  const NETWORK_MARKERS: seq<string> := [
    "timeout", "timed out", "connection", "network", "econnreset", "econnrefused", "enotfound", "etimedout", "socket",
    "429", "rate limit", "too many requests", "503", "502", "504"]

  function Lower(s: string): (r: string)
    ensures |r| == |s|
  {
    if s == [] then []
    else [if 'A' <= s[0] <= 'Z' then s[0] - 'A' + 'a' else s[0]] + Lower(s[1..])
  }

  predicate StandsAt(s: string, part: string, i: nat) {
    i + |part| <= |s| && s[i..i + |part|] == part
  }

  predicate Includes(s: string, part: string) {
    exists i: nat :: i <= |s| && StandsAt(s, part, i)
  }

  /** `isRetryableSorobanRpcError`: the message names a network fault. */
  predicate IsNetworkError(error: RpcError) {
    exists k :: 0 <= k < |NETWORK_MARKERS| && Includes(Lower(error.message), NETWORK_MARKERS[k])
  }

  type Positive = n: nat | n >= 1 witness 1

  datatype Config = Config(rpcAttempts: Positive, pollAttempts: Positive, submitTimeoutMs: int)

  /** What retrying comes to: how often the operation was tried and how the last try ended. */
  datatype Retried<+T> = Retried(tries: nat, answer: Answer<T>)

  /** `retryWithBackoff` from its k-th try on; `replies(k)` is how the k-th try ends. */
  function RetryFrom<T>(replies: nat -> Answer<T>, again: RpcError -> bool, maxAttempts: nat, k: nat): (r: Retried<T>)
    requires 1 <= k <= maxAttempts
    decreases maxAttempts - k
  {
    var answer := replies(k);
    if answer.Returned? || !again(answer.error) || k == maxAttempts then Retried(k, answer)
    else RetryFrom(replies, again, maxAttempts, k + 1)
  }

  function Retry<T>(replies: nat -> Answer<T>, again: RpcError -> bool, maxAttempts: Positive): Retried<T> {
    RetryFrom(replies, again, maxAttempts, 1)
  }

  // --- visiting one endpoint ---

  /** What one endpoint answers in one visit, try by try, how the steps between the calls end, the clock at
      the deadline and before each poll, and what else happens in the pool until the visit is over. */
  datatype Visit = Visit(
    server: Answer<()>,
    account: nat -> Answer<()>,
    built: Answer<()>,
    prepared: nat -> Answer<()>,
    signed: Answer<()>,
    send: nat -> Answer<SendResponse>,
    poll: nat -> Answer<string>,
    clock: nat -> int,
    meanwhile: seq<PoolStep>,
    now: int)

  type World = nat -> Visit

  const ALL_FAILED := "All RPC endpoints failed"
  const SEND_FAILED := RpcError("Soroban sendTransaction failed: ERROR", false)
  const PENDING := RpcError("transaction_pending", true)

  function Digits(n: nat): string {
    if n < 10 then [['0', '1', '2', '3', '4', '5', '6', '7', '8', '9'][n]]
    else Digits(n / 10) + Digits(n % 10)
  }

  function Decimal(n: int): string {
    if n < 0 then "-" + Digits(-n) else Digits(n)
  }

  function TimedOut(hash: string, elapsedMs: int): RpcError {
    RpcError("Soroban transaction " + hash + " did not finalise within " + Decimal(elapsedMs) + "ms", false)
  }

  function NotSucceeded(status: string): RpcError {
    RpcError("Soroban transaction did not succeed: " + status, false)
  }

  function Network(): RpcError -> bool {
    (error: RpcError) => IsNetworkError(error)
  }

  function Marked(): RpcError -> bool {
    (error: RpcError) => error.marked
  }

  /** One try of the polling operation: past the deadline it throws without a call. */
  function PollTry(cfg: Config, visit: Visit, hash: string): nat -> Answer<string> {
    (k: nat) =>
      if visit.clock(k) >= visit.clock(0) + cfg.submitTimeoutMs then Threw(TimedOut(hash, cfg.submitTimeoutMs))
      else if visit.poll(k) == Returned("NOT_FOUND") then Threw(PENDING)
      else visit.poll(k)
  }

  function Repeat(call: Call, n: nat): seq<Call> {
    if n == 0 then [] else Repeat(call, n - 1) + [call]
  }

  function SendCalls(url: string, visit: Visit, n: nat): seq<Call> {
    if n == 0 then [] else SendCalls(url, visit, n - 1) + [SendCall(url, visit.send(n))]
  }

  function PollCalls(url: string, cfg: Config, visit: Visit, hash: string, n: nat): seq<Call> {
    if n == 0 then []
    else PollCalls(url, cfg, visit, hash, n - 1)
         + (if visit.clock(n) >= visit.clock(0) + cfg.submitTimeoutMs then [] else [PollCall(url, hash, visit.poll(n))])
  }

  /** How the try block leaves: the calls it made, the local `responseHash`, whether it recorded a failure
      itself, and the transaction hash it returns or the error it throws. */
  datatype Tried = Tried(calls: seq<Call>, responseHash: Option<string>, recorded: bool, result: Answer<string>)

  /** The steps up to the send. */
  function Preparing(url: string, cfg: Config, visit: Visit): (r: (seq<Call>, Answer<()>)) {
    if visit.server.Threw? then ([], visit.server)
    else
      var account := Retry(visit.account, Network(), cfg.rpcAttempts);
      var calls := Repeat(AccountCall(url), account.tries);
      if account.answer.Threw? then (calls, account.answer)
      else if visit.built.Threw? then (calls, visit.built)
      else
        var prepared := Retry(visit.prepared, Network(), cfg.rpcAttempts);
        (calls + Repeat(PrepareCall(url), prepared.tries), if prepared.answer.Threw? then prepared.answer else visit.signed)
  }

  /** The steps after a send that returned this response. */
  function Following(url: string, cfg: Config, visit: Visit, response: SendResponse): Tried {
    if response.status == "ERROR" then Tried([], Some(response.hash), true, Threw(SEND_FAILED))
    else
      var polled := Retry(PollTry(cfg, visit, response.hash), Marked(), cfg.pollAttempts);
      Tried(PollCalls(url, cfg, visit, response.hash, polled.tries), Some(response.hash), false,
            if polled.answer.Threw? then polled.answer
            else if polled.answer.value != "SUCCESS" then Threw(NotSucceeded(polled.answer.value))
            else Returned(response.hash))
  }

  function TryBlock(url: string, cfg: Config, visit: Visit): Tried {
    var (calls, ready) := Preparing(url, cfg, visit);
    if ready.Threw? then Tried(calls, None, false, Threw(ready.error))
    else
      var sent := Retry(visit.send, Network(), cfg.rpcAttempts);
      var calls := calls + SendCalls(url, visit, sent.tries);
      if sent.answer.Threw? then Tried(calls, None, false, Threw(sent.answer.error))
      else
        var rest := Following(url, cfg, visit, sent.answer.value);
        rest.(calls := calls + rest.calls)
  }

  /** The catch block demotes the endpoint and lets the loop go on when no send returned and the error is a
      network fault. */
  predicate FailsOver(tried: Tried) {
    tried.result.Threw? && tried.responseHash.None? && IsNetworkError(tried.result.error)
  }

  /** What the submission itself records in the pool, the try block before the catch block. */
  function RecordsOf(url: string, tried: Tried, now: int): seq<PoolStep> {
    if tried.result.Returned? then [Succeeded(url)]
    else (if tried.recorded then [Failed(url, now)] else []) + (if FailsOver(tried) then [Failed(url, now)] else [])
  }

  /** Whether the loop goes on to the next endpoint; if not, the result. */
  function EndOf(tried: Tried): Option<Result<string, string>> {
    match tried.result
    case Returned(hash) => Some(Ok(hash))
    case Threw(error) => if FailsOver(tried) then None else Some(Err(error.message))
  }
}
