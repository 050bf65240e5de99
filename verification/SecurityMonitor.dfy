/** The monitor with its mutable maps and counters, proved against the stateless answers. */
module SecurityMonitor {
  import opened SecurityMonitorSpec
  import opened SecurityMonitorProofs
  import opened SecurityMonitorMeaning

  /** What one IP did inside the windows, as a metrics snapshot shows it. */
  datatype Source = Source(requests: nat, events: nat, failedLogins: nat)

  function PatternOf(category: AbuseCategory): Pattern {
    match category
    case RateLimitTrip(_, _) => HighVolume
    case Enumeration(_, _, _) => EndpointScan
    case PayloadAnomaly(_, _) => RepeatedBadRequests
    case BruteForce(_, _) => FailedLoginBurst
  }

  function CountPattern(categories: seq<AbuseCategory>, pattern: Pattern): nat {
    if categories == [] then 0
    else CountPattern(categories[1..], pattern) + (if PatternOf(categories[0]) == pattern then 1 else 0)
  }

  // --- totals over a run ---

  function Limited(answers: seq<Output>): nat {
    if answers == [] then 0
    else
      var last := answers[|answers| - 1];
      Limited(answers[..|answers| - 1]) + (if last.Decision? && last.limited then 1 else 0)
  }

  function Raised(answers: seq<Output>, pattern: Pattern): nat {
    if answers == [] then 0
    else
      var last := answers[|answers| - 1];
      Raised(answers[..|answers| - 1], pattern) + (if last.Alerts? then CountPattern(last.categories, pattern) else 0)
  }

  function FailedLoginSteps(steps: seq<Step>): nat {
    if steps == [] then 0
    else
      var last := steps[|steps| - 1];
      FailedLoginSteps(steps[..|steps| - 1]) + (if last.Finish? && IsFailedLogin(last.path, last.status) then 1 else 0)
  }

  // --- one more step ---

  /** The maps and counters of the monitor are those of the run. */
  ghost predicate Reflects(config: Config, steps: seq<Step>, states: map<string, IpState>, failedLogins: nat, limited: nat,
                           patterns: map<Pattern, nat>) {
    && ClockKeeps(steps)
    && states == StatesAfter(config, steps)
    && failedLogins == FailedLoginSteps(steps)
    && limited == Limited(Answers(config, steps))
    && (forall pattern :: pattern in patterns && patterns[pattern] == Raised(Answers(config, steps), pattern))
  }

  predicate CountsFailedLogin(step: Step) {
    step.Finish? && IsFailedLogin(step.path, step.status)
  }

  ghost predicate Added(before: map<Pattern, nat>, after: map<Pattern, nat>, answer: Output) {
    forall p :: p in before && p in after
                && after[p] == before[p] + if answer.Alerts? then CountPattern(answer.categories, p) else 0
  }

  /** The counters move with the answer to the step. */
  lemma {:induction false} StepReflects(config: Config, steps: seq<Step>, step: Step, states: map<string, IpState>,
                                        failedLogins: nat, limited: nat, before: map<Pattern, nat>, after: map<Pattern, nat>)
    requires Reflects(config, steps, states, failedLogins, limited, before) && ClockOf(steps) <= step.now
    requires Added(before, after, Answer(config, states, step))
    ensures Reflects(config, steps + [step], Next(config, states, step),
                     failedLogins + (if CountsFailedLogin(step) then 1 else 0),
                     limited + (if Answer(config, states, step).Decision? && Answer(config, states, step).limited then 1 else 0),
                     after)
  {
    hide Next, Answer, CountPattern, IsFailedLogin;
    assert (steps + [step])[..|steps|] == steps;
    var answers := Answers(config, steps);
    var answer := Answer(config, states, step);
    assert Answers(config, steps + [step]) == answers + [answer];
    forall p ensures p in after && after[p] == Raised(answers + [answer], p) {
      OneMoreAnswer(answers, answer, p);
    }
    OneMoreAnswer(answers, answer, HighVolume);
  }

  lemma {:induction false} QuietStepReflects(config: Config, steps: seq<Step>, step: Step, states: map<string, IpState>,
                                             failedLogins: nat, limited: nat, patterns: map<Pattern, nat>)
    requires Reflects(config, steps, states, failedLogins, limited, patterns) && ClockOf(steps) <= step.now
    requires step.Cleanup? || step.Prune?
    ensures Reflects(config, steps + [step], Next(config, states, step), failedLogins, limited, patterns)
  {
    hide Next, ClockOf;
    StepReflects(config, steps, step, states, failedLogins, limited, patterns, patterns);
  }

  lemma {:induction false} OneMoreAnswer(answers: seq<Output>, last: Output, pattern: Pattern)
    ensures Limited(answers + [last]) == Limited(answers) + (if last.Decision? && last.limited then 1 else 0)
    ensures Raised(answers + [last], pattern)
         == Raised(answers, pattern) + (if last.Alerts? then CountPattern(last.categories, pattern) else 0)
  {
    assert (answers + [last])[..|answers|] == answers;
  }

  /** What the next answer to a request must be, by the stateless specification. */
  lemma {:induction false} NextAnswerIsStateless(config: Config, steps: seq<Step>, step: Step)
    requires ClockKeeps(steps) && ClockOf(steps) <= step.now && IsRequest(step)
    ensures ClockKeeps(steps + [step])
    ensures Answer(config, StatesAfter(config, steps), step) == StatelessAnswer(config, History(step.ip, steps), step)
  {
    hide Answer, StatelessAnswer, KnowsLists, SameCooldowns, StatesAfter, History;
    RunTracks(config, steps, step.ip);
    KnowsLater(config, History(step.ip, steps), ClockOf(steps), step.now, StateOf(StatesAfter(config, steps), step.ip));
    RequestTracks(config, History(step.ip, steps), StatesAfter(config, steps), step);
  }

  lemma {:induction false} CountAppend(a: seq<AbuseCategory>, b: seq<AbuseCategory>, pattern: Pattern)
    ensures CountPattern(a + b, pattern) == CountPattern(a, pattern) + CountPattern(b, pattern)
    decreases |a|
  {
    if a == [] {
      assert a + b == b;
    } else {
      assert (a + b)[1..] == a[1..] + b;
      CountAppend(a[1..], b, pattern);
    }
  }

  lemma {:induction false} CountOne(category: AbuseCategory, pattern: Pattern)
    ensures CountPattern([category], pattern) == if PatternOf(category) == pattern then 1 else 0
  {
    assert [category][1..] == [];
  }

  lemma {:induction false} AskReflects(config: Config, steps: seq<Step>, ip: string, now: nat, states: map<string, IpState>,
                                       failedLogins: nat, limited: nat, patterns: map<Pattern, nat>)
    requires Reflects(config, steps, states, failedLogins, limited, patterns) && ClockOf(steps) <= now
    ensures var after := Asked(config, StateOf(states, ip), now);
            && Reflects(config, steps + [Ask(ip, now)], states[ip := after], failedLogins,
                        limited + (if |after.requestTimes| > config.rateLimitMaxRequests then 1 else 0), patterns)
            && |after.requestTimes|
               == |TimesSince(AskTimes(History(ip, steps) + [Ask(ip, now)]), now - config.rateLimitWindowMs)|
  {
    hide Asked, TimesSince, AskTimes, History, StatesAfter;
    StepReflects(config, steps, Ask(ip, now), states, failedLogins, limited, patterns, patterns);
    NextAnswerIsStateless(config, steps, Ask(ip, now));
  }

  lemma {:induction false} FinishReflects(config: Config, steps: seq<Step>, step: Step, states: map<string, IpState>,
                                          failedLogins: nat, limited: nat, before: map<Pattern, nat>,
                                          state: IpState, alerts: seq<AbuseCategory>, after: map<Pattern, nat>)
    requires step.Finish? && Reflects(config, steps, states, failedLogins, limited, before) && ClockOf(steps) <= step.now
    requires (state, alerts)
          == EvaluatedAll(config, Recorded(config, StateOf(states, step.ip), step.path, step.status, step.now), step.now)
    requires Added(before, after, Alerts(alerts))
    ensures Reflects(config, steps + [step], states[step.ip := state],
                     failedLogins + (if IsFailedLogin(step.path, step.status) then 1 else 0), limited, after)
    ensures Next(config, states, step) == states[step.ip := state]
    ensures Alerts(alerts) == StatelessAnswer(config, History(step.ip, steps), step)
  {
    hide EvaluatedAll, Recorded, StatelessAnswer, History, StatesAfter, Added, IsFailedLogin;
    StepReflects(config, steps, step, states, failedLogins, limited, before, after);
    NextAnswerIsStateless(config, steps, step);
  }

  /** The windows of an IP, from the state that is left of it. */
  function SourceOf(state: IpState): Source {
    Source(|state.requestTimes|, |state.recentEvents|, |state.failedLoginTimes|)
  }

  function StatelessSource(config: Config, h: seq<Step>, now: nat): Source {
    Source(|TimesSince(AskTimes(h), now - config.rateLimitWindowMs)|, |EventsAt(config, h, now)|, |LoginsAt(config, h, now)|)
  }

  lemma {:induction false} SourceOnHistory(config: Config, h: seq<Step>, now: nat)
    ensures StatelessSource(config, h, now)
         == Source(CountSteps(AskedSince(now - config.rateLimitWindowMs), h),
                   CountSteps(AnsweredSince(now - config.suspiciousWindowMs), h),
                   CountSteps(LoginFailedSince(now - config.failedLoginWindowMs), h))
  {
    AskCount(h, now - config.rateLimitWindowMs);
    EventCount(h, now - config.suspiciousWindowMs, 404);
    LoginCount(h, now - config.failedLoginWindowMs);
  }

  lemma {:induction false} SourceIsStateless(config: Config, steps: seq<Step>, ip: string, now: nat)
    requires ClockKeeps(steps) && ClockOf(steps) <= now
    ensures SourceOf(Pruned(config, StateOf(StatesAfter(config, steps), ip), now))
         == StatelessSource(config, History(ip, steps), now)
  {
    var h := History(ip, steps);
    var state := StateOf(StatesAfter(config, steps), ip);
    RunTracks(config, steps, ip);
    KnowsLater(config, h, ClockOf(steps), now, state);
    ListsSource(config, h, now, state);
  }

  lemma {:induction false} ListsSource(config: Config, h: seq<Step>, now: nat, state: IpState)
    requires KnowsLists(config, h, now, state)
    ensures SourceOf(Pruned(config, state, now)) == StatelessSource(config, h, now)
  {
    hide TimesSince, EventsSince, AskTimes, Events, FailedLogins;
  }

  const NO_ALERTS: map<Pattern, nat> :=
    map[HighVolume := 0, EndpointScan := 0, RepeatedBadRequests := 0, FailedLoginBurst := 0]

  lemma {:induction false} NothingReflected(config: Config)
    ensures Reflects(config, [], map[], 0, 0, NO_ALERTS)
  {
    forall pattern: Pattern ensures pattern in NO_ALERTS && NO_ALERTS[pattern] == 0 {
      match pattern
      case HighVolume =>
      case EndpointScan =>
      case RepeatedBadRequests =>
      case FailedLoginBurst =>
    }
  }

  const NOTHING_SEEN := Source(0, 0, 0)

  lemma {:induction false} FreshShowsNothing(config: Config, now: nat)
    ensures SourceOf(Pruned(config, FRESH, now)) == NOTHING_SEEN
  {
  }

  lemma {:induction false} Overwritten(states: map<string, IpState>, ip: string, found: IpState, state: IpState)
    ensures states[ip := found][ip := state] == states[ip := state]
  {
  }

  lemma {:induction false} PruningKeepsLastSeen(config: Config, state: IpState, seen: nat, now: nat)
    ensures Pruned(config, state.(lastSeen := seen), now) == Pruned(config, state, now).(lastSeen := seen)
  {
    hide TimesSince, EventsSince;
  }

  lemma {:induction false} CountOneOf(category: AbuseCategory)
    ensures forall p :: CountPattern([category], p) == if PatternOf(category) == p then 1 else 0
  {
    forall p ensures CountPattern([category], p) == if PatternOf(category) == p then 1 else 0 {
      CountOne(category, p);
    }
  }

  /** The windows of every IP, read off the states that are left. */
  lemma {:induction false} SourcesAreStateless(config: Config, steps: seq<Step>, now: nat)
    requires ClockKeeps(steps) && ClockOf(steps) <= now
    ensures forall ip :: SourceOf(Pruned(config, StateOf(StatesAfter(config, steps), ip), now))
                      == StatelessSource(config, History(ip, steps), now)
  {
    forall ip
      ensures SourceOf(Pruned(config, StateOf(StatesAfter(config, steps), ip), now))
           == StatelessSource(config, History(ip, steps), now)
    {
      SourceIsStateless(config, steps, ip, now);
    }
  }

  // --- pruning all states, one after the other ---

  ghost predicate PrunedBut(config: Config, before: map<string, IpState>, todo: set<string>, now: nat, after: map<string, IpState>) {
    && after.Keys == before.Keys
    && (forall ip :: ip in after ==> after[ip] == if ip in todo then before[ip] else Pruned(config, before[ip], now))
  }

  ghost predicate ShownBut(config: Config, before: map<string, IpState>, todo: set<string>, now: nat, sources: map<string, Source>) {
    && (forall ip :: ip in sources <==> ip in before && ip !in todo && SourceOf(Pruned(config, before[ip], now)) != NOTHING_SEEN)
    && (forall ip :: ip in sources ==> sources[ip] == SourceOf(Pruned(config, before[ip], now)))
  }

  lemma {:induction false} NonePruned(config: Config, states: map<string, IpState>, now: nat)
    ensures PrunedBut(config, states, states.Keys, now, states) && ShownBut(config, states, states.Keys, now, map[])
  {
    hide Pruned, SourceOf;
  }

  lemma {:induction false} PrunedNext(config: Config, before: map<string, IpState>, todo: set<string>, ip: string, now: nat,
                                      after: map<string, IpState>)
    requires PrunedBut(config, before, todo, now, after) && ip in todo && ip in before
    ensures after[ip] == before[ip]
    ensures PrunedBut(config, before, todo - {ip}, now, after[ip := Pruned(config, before[ip], now)])
  {
    hide Pruned;
  }

  lemma {:induction false} ShownNext(config: Config, before: map<string, IpState>, todo: set<string>, ip: string, now: nat,
                                     sources: map<string, Source>)
    requires ShownBut(config, before, todo, now, sources) && ip in todo && ip in before
    ensures var source := SourceOf(Pruned(config, before[ip], now));
            ShownBut(config, before, todo - {ip}, now, if source == NOTHING_SEEN then sources else sources[ip := source])
  {
    hide Pruned, SourceOf;
  }

  lemma {:induction false} AllPruned(config: Config, before: map<string, IpState>, now: nat, after: map<string, IpState>,
                                     sources: map<string, Source>)
    requires PrunedBut(config, before, {}, now, after) && ShownBut(config, before, {}, now, sources)
    ensures after == Next(config, before, SecurityMonitorSpec.Prune(now))
    ensures forall ip :: ip in sources <==> ip in before && SourceOf(Pruned(config, before[ip], now)) != NOTHING_SEEN
    ensures forall ip :: ip in sources ==> sources[ip] == SourceOf(Pruned(config, before[ip], now))
  {
    hide Pruned, SourceOf;
  }

  class SecurityMonitor {
    var ipStates: map<string, IpState>
    var failedLoginAttempts: nat
    var rateLimitTriggers: nat
    var suspiciousPatterns: map<Pattern, nat>
    var processedEvents: nat
    const config: Config

    /** Everything that happened so far. */
    ghost var steps: seq<Step>

    ghost predicate Valid()
      reads this
    {
      Reflects(config, steps, ipStates, failedLoginAttempts, rateLimitTriggers, suspiciousPatterns)
    }

    constructor (config: Config)
      ensures Valid() && steps == [] && this.config == config && processedEvents == 0
    {
      this.config := config;
      ipStates := map[];
      failedLoginAttempts, rateLimitTriggers, processedEvents := 0, 0, 0;
      suspiciousPatterns := NO_ALERTS;
      NothingReflected(config);
      steps := [];
    }

    method GetIpState(ip: string, now: nat) returns (state: IpState)
      modifies this`ipStates
      ensures state == if ip in old(ipStates) then old(ipStates)[ip] else FRESH.(lastSeen := now)
      ensures ipStates == old(ipStates)[ip := state]
    {
      if ip in ipStates {
        state := ipStates[ip];
        assert ipStates == ipStates[ip := state];
        return;
      }
      state := IpState([], [], [], map[], now);
      ipStates := ipStates[ip := state];
    }

    /** The rate-limit middleware: it turns the request away exactly when the IP's whole history holds
        more requests inside the window than are allowed, this one included. */
    method RateLimit(ip: string, now: nat) returns (limited: bool)
      requires Valid() && ClockOf(steps) <= now
      modifies this
      ensures Valid() && steps == old(steps) + [Ask(ip, now)] && processedEvents == old(processedEvents)
      ensures var h := History(ip, old(steps)) + [Ask(ip, now)];
              limited <==> |TimesSince(AskTimes(h), now - config.rateLimitWindowMs)| > config.rateLimitMaxRequests
      ensures limited <==> CountSteps(AskedSince(now - config.rateLimitWindowMs), History(ip, old(steps)) + [Ask(ip, now)])
                           > config.rateLimitMaxRequests
      ensures rateLimitTriggers == old(rateLimitTriggers) + (if limited then 1 else 0)
    {
      hide Reflects, TimesSince, EventsSince, AskTimes, History;
      AskCount(History(ip, steps) + [Ask(ip, now)], now - config.rateLimitWindowMs);
      AskReflects(config, steps, ip, now, ipStates, failedLoginAttempts, rateLimitTriggers, suspiciousPatterns);
      var state := GetIpState(ip, now);
      ghost var found := state;
      state := Pruned(config, state, now);
      state := state.(requestTimes := state.requestTimes + [now], lastSeen := now);
      assert state == Asked(config, StateOf(old(ipStates), ip), now);
      Overwritten(old(ipStates), ip, found, state);
      ipStates := ipStates[ip := state];
      limited := |state.requestTimes| > config.rateLimitMaxRequests;
      if limited {
        rateLimitTriggers := rateLimitTriggers + 1;
      }
      steps := steps + [Ask(ip, now)];
    }

    lemma {:induction false} PatternsKept()
      requires Valid()
      ensures ClockKeeps(steps) && forall p :: p in suspiciousPatterns
    {
    }

    method EmitSuspiciousAlert(pattern: Pattern, state: IpState, now: nat, category: AbuseCategory)
      returns (after: IpState, alerts: seq<AbuseCategory>)
      requires PatternOf(category) == pattern && forall p :: p in suspiciousPatterns
      modifies this`suspiciousPatterns
      ensures var due := now - LastAlertAt(state, pattern) >= config.alertCooldownMs;
              && after == (if due then state.(lastAlertAt := state.lastAlertAt[pattern := now]) else state)
              && alerts == (if due then [category] else [])
      ensures Added(old(suspiciousPatterns), suspiciousPatterns, Alerts(alerts))
    {
      CountOneOf(category);
      var previousAlert := if pattern in state.lastAlertAt then state.lastAlertAt[pattern] else 0;
      if now - previousAlert < config.alertCooldownMs {
        return state, [];
      }
      suspiciousPatterns := suspiciousPatterns[pattern := suspiciousPatterns[pattern] + 1];
      after, alerts := state.(lastAlertAt := state.lastAlertAt[pattern := now]), [category];
    }

    method EvaluatePattern(pattern: Pattern, state: IpState, now: nat) returns (after: IpState, alerts: seq<AbuseCategory>)
      requires forall p :: p in suspiciousPatterns
      modifies this`suspiciousPatterns
      ensures (after, alerts) == Evaluated(config, state, pattern, now)
      ensures Added(old(suspiciousPatterns), suspiciousPatterns, Alerts(alerts))
    {
      if Triggered(config, pattern, state.recentEvents, state.failedLoginTimes) {
        after, alerts := EmitSuspiciousAlert(pattern, state, now,
                                             Category(config, pattern, state.recentEvents, state.failedLoginTimes));
      } else {
        after, alerts := state, [];
      }
    }

    method EvaluateSuspiciousPatterns(state: IpState, now: nat) returns (after: IpState, alerts: seq<AbuseCategory>)
      requires forall p :: p in suspiciousPatterns
      modifies this`suspiciousPatterns
      ensures (after, alerts) == EvaluatedAll(config, state, now)
      ensures Added(old(suspiciousPatterns), suspiciousPatterns, Alerts(alerts))
    {
      hide Evaluated, CountPattern;
      var s1, a1 := EvaluatePattern(HighVolume, state, now);
      var s2, a2 := EvaluatePattern(EndpointScan, s1, now);
      var s3, a3 := EvaluatePattern(RepeatedBadRequests, s2, now);
      var s4, a4 := EvaluatePattern(FailedLoginBurst, s3, now);
      after, alerts := s4, a1 + a2 + a3 + a4;
      forall p
        ensures CountPattern(alerts, p) == CountPattern(a1, p) + CountPattern(a2, p) + CountPattern(a3, p) + CountPattern(a4, p)
      {
        CountAppend(a1, a2, p);
        CountAppend(a1 + a2, a3, p);
        CountAppend(a1 + a2 + a3, a4, p);
      }
    }

    /** When a response ends, its alerts are those the IP's whole history calls for; at every 200th the
        idle IPs are dropped. */
    method FinishResponse(ip: string, url: string, status: int, now: nat) returns (alerts: seq<AbuseCategory>)
      requires Valid() && ClockOf(steps) <= now
      modifies this
      ensures Valid() && processedEvents == old(processedEvents) + 1
      ensures Alerts(alerts) == StatelessAnswer(config, History(ip, old(steps)), Finish(ip, now, SanitizePath(url), status))
      ensures var step := Finish(ip, now, SanitizePath(url), status);
              steps == old(steps) + [step]
                       + (if processedEvents % 200 == 0 then [Cleanup(now, Next(config, old(ipStates), step).Keys)] else [])
      ensures failedLoginAttempts == old(failedLoginAttempts) + (if LoginFailed(SanitizePath(url), status) then 1 else 0)
    {
      hide Reflects, StatelessAnswer, Next, SanitizePath, History, LoginFailed;
      alerts := RecordResponse(ip, SanitizePath(url), status, now);
      MaybeCleanupIdleIpStates(now);
    }

    method RecordResponse(ip: string, path: string, status: int, now: nat) returns (alerts: seq<AbuseCategory>)
      requires Valid() && ClockOf(steps) <= now
      modifies this
      ensures Valid() && processedEvents == old(processedEvents)
      ensures Alerts(alerts) == StatelessAnswer(config, History(ip, old(steps)), Finish(ip, now, path, status))
      ensures steps == old(steps) + [Finish(ip, now, path, status)]
      ensures ipStates == Next(config, old(ipStates), Finish(ip, now, path, status))
      ensures failedLoginAttempts == old(failedLoginAttempts) + (if LoginFailed(path, status) then 1 else 0)
    {
      hide Reflects, StatelessAnswer, EvaluatedAll, IsFailedLogin, LoginFailed, Recorded, StateOf, ClockOf, History, Added, Next, ClockKeeps;
      FailedLoginIff(path, status);
      PatternsKept();
      var state;
      ghost var found;
      state, found := NoteResponse(ip, path, status, now);
      state, alerts := EvaluateSuspiciousPatterns(state, now);
      FinishReflects(config, steps, Finish(ip, now, path, status), old(ipStates), old(failedLoginAttempts), rateLimitTriggers,
                     old(suspiciousPatterns), state, alerts, suspiciousPatterns);
      Overwritten(old(ipStates), ip, found, state);
      ipStates := ipStates[ip := state];
      steps := steps + [Finish(ip, now, path, status)];
    }

    /** The lists and the counter are written; the state goes back into the map after the evaluation. */
    method NoteResponse(ip: string, path: string, status: int, now: nat) returns (state: IpState, ghost found: IpState)
      modifies this`ipStates, this`failedLoginAttempts
      ensures state == Recorded(config, StateOf(old(ipStates), ip), path, status, now)
      ensures failedLoginAttempts == old(failedLoginAttempts) + (if IsFailedLogin(path, status) then 1 else 0)
      ensures ipStates == old(ipStates)[ip := found]
    {
      hide IsFailedLogin, Pruned;
      PruningKeepsLastSeen(config, FRESH, now, now);
      state := GetIpState(ip, now);
      found := state;
      state := Pruned(config, state, now);
      state := state.(recentEvents := state.recentEvents + [RequestEvent(now, path, status)], lastSeen := now);
      if IsFailedLogin(path, status) {
        state := state.(failedLoginTimes := state.failedLoginTimes + [now]);
        failedLoginAttempts := failedLoginAttempts + 1;
      } else {
        assert state.failedLoginTimes + [] == state.failedLoginTimes;
      }
    }

    method MaybeCleanupIdleIpStates(now: nat)
      requires Valid() && ClockOf(steps) <= now
      modifies this`ipStates, this`processedEvents, this`steps
      ensures Valid() && processedEvents == old(processedEvents) + 1
      ensures steps == old(steps) + (if processedEvents % 200 == 0 then [Cleanup(now, old(ipStates).Keys)] else [])
    {
      hide Next, Reflects, ClockOf, Idle;
      processedEvents := processedEvents + 1;
      if processedEvents % 200 != 0 {
        return;
      }
      ghost var step := Cleanup(now, ipStates.Keys);
      QuietStepReflects(config, steps, step, ipStates, failedLoginAttempts, rateLimitTriggers, suspiciousPatterns);
      DropIdle(now);
      steps := steps + [step];
    }

    method DropIdle(now: nat)
      modifies this`ipStates
      ensures ipStates == Next(config, old(ipStates), Cleanup(now, old(ipStates).Keys))
      ensures forall ip :: ip in ipStates <==>
                ip in old(ipStates)
                && (now - old(ipStates)[ip].lastSeen <= config.rateLimitWindowMs + config.alertCooldownMs
                    || now - old(ipStates)[ip].lastSeen <= config.suspiciousWindowMs + config.alertCooldownMs
                    || now - old(ipStates)[ip].lastSeen <= config.failedLoginWindowMs + config.alertCooldownMs)
    {
      var staleAfterMs := StaleAfter(config);
      var todo := ipStates.Keys;
      while todo != {}
        invariant todo <= old(ipStates).Keys
        invariant ipStates == map ip | ip in old(ipStates) && (ip in todo || !Idle(config, old(ipStates)[ip], now)) :: old(ipStates)[ip]
        decreases |todo|
      {
        var ip :| ip in todo;
        if now - ipStates[ip].lastSeen > staleAfterMs {
          ipStates := ipStates - {ip};
        }
        todo := todo - {ip};
      }
    }

    /** A snapshot prunes every state and lists an IP exactly when its history shows something inside the
        windows, with the counts of that history. */
    method GetSecurityMetricsSnapshot(now: nat) returns (sources: map<string, Source>)
      requires Valid() && ClockOf(steps) <= now
      modifies this
      ensures Valid() && steps == old(steps) + [SecurityMonitorSpec.Prune(now)] && processedEvents == old(processedEvents)
      ensures forall ip :: ip in sources <==> StatelessSource(config, History(ip, old(steps)), now) != NOTHING_SEEN
      ensures forall ip :: ip in sources ==> sources[ip] == StatelessSource(config, History(ip, old(steps)), now)
      ensures forall ip :: ip in sources ==>
                var h := History(ip, old(steps));
                && sources[ip].requests == CountSteps(AskedSince(now - config.rateLimitWindowMs), h)
                && sources[ip].events == CountSteps(AnsweredSince(now - config.suspiciousWindowMs), h)
                && sources[ip].failedLogins == CountSteps(LoginFailedSince(now - config.failedLoginWindowMs), h)
    {
      hide StatelessSource, Pruned, SourceOf, StatesAfter, Answers, History, Raised, Limited, FailedLoginSteps;
      ghost var step := SecurityMonitorSpec.Prune(now);
      QuietStepReflects(config, steps, step, ipStates, failedLoginAttempts, rateLimitTriggers, suspiciousPatterns);
      SourcesAreStateless(config, steps, now);
      FreshShowsNothing(config, now);
      forall ip {
        SourceOnHistory(config, History(ip, steps), now);
      }
      sources := PruneAll(now);
      steps := steps + [step];
    }

    method PruneAll(now: nat) returns (sources: map<string, Source>)
      modifies this`ipStates
      ensures ipStates == Next(config, old(ipStates), SecurityMonitorSpec.Prune(now))
      ensures forall ip :: ip in sources <==> ip in old(ipStates) && SourceOf(Pruned(config, old(ipStates)[ip], now)) != NOTHING_SEEN
      ensures forall ip :: ip in sources ==> sources[ip] == SourceOf(Pruned(config, old(ipStates)[ip], now))
    {
      hide Pruned, SourceOf, PrunedBut, ShownBut, Next;
      NonePruned(config, ipStates, now);
      sources := map[];
      var todo := ipStates.Keys;
      while todo != {}
        invariant todo <= ipStates.Keys == old(ipStates).Keys
        invariant PrunedBut(config, old(ipStates), todo, now, ipStates)
        invariant ShownBut(config, old(ipStates), todo, now, sources)
        decreases |todo|
      {
        var ip :| ip in todo;
        var state := Pruned(config, ipStates[ip], now);
        PrunedNext(config, old(ipStates), todo, ip, now, ipStates);
        ipStates := ipStates[ip := state];
        var source := SourceOf(state);
        ShownNext(config, old(ipStates), todo, ip, now, sources);
        if source.requests > 0 || source.events > 0 || source.failedLogins > 0 {
          sources := sources[ip := source];
        }
        todo := todo - {ip};
      }
      AllPruned(config, old(ipStates), now, ipStates, sources);
    }

    /** The counts per abuse category are the alerts of the whole run. */
    method GetAbuseCategoryCounts() returns (counts: map<string, nat>)
      requires Valid()
      ensures counts.Keys == {"brute-force", "enumeration", "payload-anomaly", "rate-limit-trip"}
      ensures counts["brute-force"] == Raised(StatelessAnswers(config, steps), FailedLoginBurst)
      ensures counts["enumeration"] == Raised(StatelessAnswers(config, steps), EndpointScan)
      ensures counts["payload-anomaly"] == Raised(StatelessAnswers(config, steps), RepeatedBadRequests)
      ensures counts["rate-limit-trip"] == Raised(StatelessAnswers(config, steps), HighVolume)
    {
      AnswersAreStateless(config, steps);
      counts := map["brute-force" := suspiciousPatterns[FailedLoginBurst],
                    "enumeration" := suspiciousPatterns[EndpointScan],
                    "payload-anomaly" := suspiciousPatterns[RepeatedBadRequests],
                    "rate-limit-trip" := suspiciousPatterns[HighVolume]];
    }
  }
}
