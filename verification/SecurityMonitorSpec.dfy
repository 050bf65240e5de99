/** The security monitor: the state kept per IP, and the stateless answers it must give.

`Ask` is the rate-limit middleware, `Finish` the metrics hook that runs when a response ends. Times are
milliseconds since the epoch and do not decrease from step to step.
*/
module SecurityMonitorSpec {
  import opened Sorting

  datatype Config = Config(
    rateLimitWindowMs: nat, rateLimitMaxRequests: nat, suspiciousWindowMs: nat, suspicious404Threshold: nat,
    suspiciousDistinctPathThreshold: nat, suspiciousBadRequestThreshold: nat, suspiciousHighVolumeThreshold: nat,
    failedLoginWindowMs: nat, failedLoginBurstThreshold: nat, alertCooldownMs: nat)

  datatype Pattern = HighVolume | EndpointScan | RepeatedBadRequests | FailedLoginBurst

  datatype RequestEvent = RequestEvent(ts: nat, path: string, status: int)

  datatype IpState = IpState(
    requestTimes: seq<nat>, recentEvents: seq<RequestEvent>, failedLoginTimes: seq<nat>,
    lastAlertAt: map<Pattern, nat>, lastSeen: nat)

  datatype AbuseCategory =
    | RateLimitTrip(requestCount: nat, windowMs: nat)
    | Enumeration(notFoundCount: nat, distinctPathCount: nat, windowMs: nat)
    | PayloadAnomaly(badRequestCount: nat, windowMs: nat)
    | BruteForce(failedLoginCount: nat, windowMs: nat)

  // --- reading a request ---

  function Lower(c: char): char {
    if 'A' <= c <= 'Z' then (c as int + 32) as char else c
  }

  function ToLower(s: string): string {
    if s == "" then "" else [Lower(s[0])] + ToLower(s[1..])
  }

  predicate StartsAt(text: string, part: string, i: nat) {
    i + |part| <= |text| && text[i..i + |part|] == part
  }

  predicate Includes(text: string, part: string) {
    exists i :: 0 <= i <= |text| && StartsAt(text, part, i)
  }

  predicate IsFailedLogin(path: string, status: int) {
    (status == 401 || status == 403) && (Includes(ToLower(path), "/auth") || Includes(ToLower(path), "/login"))
  }

  function BeforeQuery(url: string): string {
    if url == "" || url[0] == '?' then "" else [url[0]] + BeforeQuery(url[1..])
  }

  function SanitizePath(url: string): string {
    if BeforeQuery(url) == "" then "/" else BeforeQuery(url)
  }

  // --- thresholds over what lies inside the windows ---

  /** The times at or after the cutoff. */
  function TimesSince(times: seq<nat>, cutoff: int): seq<nat> {
    if times == [] then []
    else
      var n := |times| - 1;
      TimesSince(times[..n], cutoff) + (if times[n] >= cutoff then [times[n]] else [])
  }

  function EventsSince(events: seq<RequestEvent>, cutoff: int): seq<RequestEvent> {
    if events == [] then []
    else
      var n := |events| - 1;
      EventsSince(events[..n], cutoff) + (if events[n].ts >= cutoff then [events[n]] else [])
  }

  function WithStatus(status: int): RequestEvent -> bool {
    (event: RequestEvent) => event.status == status
  }

  function DistinctPaths(events: seq<RequestEvent>): nat {
    |set event | event in events :: event.path|
  }

  predicate Triggered(config: Config, pattern: Pattern, events: seq<RequestEvent>, logins: seq<nat>) {
    match pattern
    case HighVolume => |events| >= config.suspiciousHighVolumeThreshold
    case EndpointScan =>
      && |Filter(WithStatus(404), events)| >= config.suspicious404Threshold
      && DistinctPaths(Filter(WithStatus(404), events)) >= config.suspiciousDistinctPathThreshold
    case RepeatedBadRequests => |Filter(WithStatus(400), events)| >= config.suspiciousBadRequestThreshold
    case FailedLoginBurst => |logins| >= config.failedLoginBurstThreshold
  }

  function Category(config: Config, pattern: Pattern, events: seq<RequestEvent>, logins: seq<nat>): AbuseCategory {
    match pattern
    case HighVolume => RateLimitTrip(|events|, config.suspiciousWindowMs)
    case EndpointScan =>
      Enumeration(|Filter(WithStatus(404), events)|, DistinctPaths(Filter(WithStatus(404), events)), config.suspiciousWindowMs)
    case RepeatedBadRequests => PayloadAnomaly(|Filter(WithStatus(400), events)|, config.suspiciousWindowMs)
    case FailedLoginBurst => BruteForce(|logins|, config.failedLoginWindowMs)
  }

  // --- the monitor's own bookkeeping ---

  const FRESH := IpState([], [], [], map[], 0)

  function StateOf(states: map<string, IpState>, ip: string): IpState {
    if ip in states then states[ip] else FRESH
  }

  function LastAlertAt(state: IpState, pattern: Pattern): nat {
    if pattern in state.lastAlertAt then state.lastAlertAt[pattern] else 0
  }

  function Pruned(config: Config, state: IpState, now: nat): IpState {
    state.(requestTimes := TimesSince(state.requestTimes, now - config.rateLimitWindowMs),
           recentEvents := EventsSince(state.recentEvents, now - config.suspiciousWindowMs),
           failedLoginTimes := TimesSince(state.failedLoginTimes, now - config.failedLoginWindowMs))
  }

  function Asked(config: Config, state: IpState, now: nat): IpState {
    var pruned := Pruned(config, state, now);
    pruned.(requestTimes := pruned.requestTimes + [now], lastSeen := now)
  }

  /** The response is recorded; nothing is evaluated yet. */
  function Recorded(config: Config, state: IpState, path: string, status: int, now: nat): IpState {
    var pruned := Pruned(config, state, now);
    pruned.(recentEvents := pruned.recentEvents + [RequestEvent(now, path, status)],
            failedLoginTimes := pruned.failedLoginTimes + (if IsFailedLogin(path, status) then [now] else []),
            lastSeen := now)
  }

  predicate Emits(config: Config, state: IpState, pattern: Pattern, now: nat) {
    && Triggered(config, pattern, state.recentEvents, state.failedLoginTimes)
    && now - LastAlertAt(state, pattern) >= config.alertCooldownMs
  }

  /** The alert of one pattern, if it is due, and the state after it. */
  function Evaluated(config: Config, state: IpState, pattern: Pattern, now: nat): (IpState, seq<AbuseCategory>) {
    if Emits(config, state, pattern, now)
    then (state.(lastAlertAt := state.lastAlertAt[pattern := now]),
          [Category(config, pattern, state.recentEvents, state.failedLoginTimes)])
    else (state, [])
  }

  function EvaluatedAll(config: Config, state: IpState, now: nat): (IpState, seq<AbuseCategory>) {
    var (s1, a1) := Evaluated(config, state, HighVolume, now);
    var (s2, a2) := Evaluated(config, s1, EndpointScan, now);
    var (s3, a3) := Evaluated(config, s2, RepeatedBadRequests, now);
    var (s4, a4) := Evaluated(config, s3, FailedLoginBurst, now);
    (s4, a1 + a2 + a3 + a4)
  }

  function StaleAfter(config: Config): nat {
    var m := if config.rateLimitWindowMs >= config.suspiciousWindowMs then config.rateLimitWindowMs else config.suspiciousWindowMs;
    (if m >= config.failedLoginWindowMs then m else config.failedLoginWindowMs) + config.alertCooldownMs
  }

  predicate Idle(config: Config, state: IpState, now: nat) {
    now - state.lastSeen > StaleAfter(config)
  }

  // --- steps ---

  /** `Cleanup` may drop any choice of idle IPs at any time; the hook drops all of them at every 200th
      response. `Prune` is what reading a metrics snapshot does. */
  datatype Step =
    | Ask(ip: string, now: nat)
    | Finish(ip: string, now: nat, path: string, status: int)
    | Prune(now: nat)
    | Cleanup(now: nat, victims: set<string>)

  /** What a caller sees: the request count and the decision, or the alerts. */
  datatype Output = Decision(requestCount: nat, limited: bool) | Alerts(categories: seq<AbuseCategory>) | Nothing

  function Decide(config: Config, count: nat): Output {
    Decision(count, count > config.rateLimitMaxRequests)
  }

  function Next(config: Config, states: map<string, IpState>, step: Step): map<string, IpState> {
    match step
    case Ask(ip, now) => states[ip := Asked(config, StateOf(states, ip), now)]
    case Finish(ip, now, path, status) =>
      states[ip := EvaluatedAll(config, Recorded(config, StateOf(states, ip), path, status, now), now).0]
    case Prune(now) => map ip | ip in states :: Pruned(config, states[ip], now)
    case Cleanup(now, victims) => map ip | ip in states && !(ip in victims && Idle(config, states[ip], now)) :: states[ip]
  }

  function Answer(config: Config, states: map<string, IpState>, step: Step): Output {
    match step
    case Ask(ip, now) => Decide(config, |Asked(config, StateOf(states, ip), now).requestTimes|)
    case Finish(ip, now, path, status) =>
      Alerts(EvaluatedAll(config, Recorded(config, StateOf(states, ip), path, status, now), now).1)
    case _ => Nothing
  }

  function StatesAfter(config: Config, steps: seq<Step>): map<string, IpState> {
    if steps == [] then map[] else Next(config, StatesAfter(config, steps[..|steps| - 1]), steps[|steps| - 1])
  }

  function Answers(config: Config, steps: seq<Step>): (answers: seq<Output>)
    ensures |answers| == |steps|
  {
    if steps == [] then []
    else
      var n := |steps| - 1;
      Answers(config, steps[..n]) + [Answer(config, StatesAfter(config, steps[..n]), steps[n])]
  }

  predicate ClockKeeps(steps: seq<Step>) {
    forall i, j :: 0 <= i < j < |steps| ==> steps[i].now <= steps[j].now
  }

  // --- the stateless answers: functions of the whole history of the IP ---

  predicate IsRequest(step: Step) {
    step.Ask? || step.Finish?
  }

  function OfIp(ip: string): Step -> bool {
    (step: Step) => IsRequest(step) && step.ip == ip
  }

  /** Everything one IP ever did. */
  function History(ip: string, steps: seq<Step>): seq<Step> {
    Filter(OfIp(ip), steps)
  }

  function AskTimes(h: seq<Step>): seq<nat> {
    if h == [] then []
    else
      var last := h[|h| - 1];
      AskTimes(h[..|h| - 1]) + (if last.Ask? then [last.now] else [])
  }

  function Events(h: seq<Step>): seq<RequestEvent> {
    if h == [] then []
    else
      var last := h[|h| - 1];
      Events(h[..|h| - 1]) + (if last.Finish? then [RequestEvent(last.now, last.path, last.status)] else [])
  }

  function FailedLogins(h: seq<Step>): seq<nat> {
    if h == [] then []
    else
      var last := h[|h| - 1];
      FailedLogins(h[..|h| - 1]) + (if last.Finish? && IsFailedLogin(last.path, last.status) then [last.now] else [])
  }

  function EventsAt(config: Config, h: seq<Step>, now: nat): seq<RequestEvent> {
    EventsSince(Events(h), now - config.suspiciousWindowMs)
  }

  function LoginsAt(config: Config, h: seq<Step>, now: nat): seq<nat> {
    TimesSince(FailedLogins(h), now - config.failedLoginWindowMs)
  }

  /** Does the last response of the history raise this alert? Its windows trigger it, and the last alert
      of the pattern is at least one cooldown ago. */
  predicate AlertDue(config: Config, h: seq<Step>, pattern: Pattern)
    decreases |h|, 0
  {
    h != [] && h[|h| - 1].Finish? &&
    (var now := h[|h| - 1].now;
     && Triggered(config, pattern, EventsAt(config, h, now), LoginsAt(config, h, now))
     && now - LastAlert(config, h[..|h| - 1], pattern) >= config.alertCooldownMs)
  }

  /** When the pattern was last raised, or 0. */
  function LastAlert(config: Config, h: seq<Step>, pattern: Pattern): nat
    decreases |h|, 1
  {
    if h == [] then 0
    else if AlertDue(config, h, pattern) then h[|h| - 1].now
    else LastAlert(config, h[..|h| - 1], pattern)
  }

  function AlertOf(config: Config, h: seq<Step>, pattern: Pattern, now: nat): seq<AbuseCategory> {
    if AlertDue(config, h, pattern)
    then [Category(config, pattern, EventsAt(config, h, now), LoginsAt(config, h, now))] else []
  }

  /** The answer to a step after an IP's earlier history `h`. */
  function StatelessAnswer(config: Config, h: seq<Step>, step: Step): Output {
    match step
    case Ask(ip, now) => Decide(config, |TimesSince(AskTimes(h + [step]), now - config.rateLimitWindowMs)|)
    case Finish(ip, now, path, status) =>
      var all := h + [step];
      Alerts(AlertOf(config, all, HighVolume, now) + AlertOf(config, all, EndpointScan, now)
             + AlertOf(config, all, RepeatedBadRequests, now) + AlertOf(config, all, FailedLoginBurst, now))
    case _ => Nothing
  }

  function StatelessAnswers(config: Config, steps: seq<Step>): (answers: seq<Output>)
    ensures |answers| == |steps|
  {
    if steps == [] then []
    else
      var n := |steps| - 1;
      var step := steps[n];
      StatelessAnswers(config, steps[..n])
      + [StatelessAnswer(config, if IsRequest(step) then History(step.ip, steps[..n]) else [], step)]
  }
}
