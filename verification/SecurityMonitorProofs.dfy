/** The monitor's bookkeeping answers like the stateless computation, under every cleanup schedule. */
module SecurityMonitorProofs {
  import opened Sorting
  import opened SecurityMonitorSpec

  // --- cutting off twice ---

  lemma {:induction false} TimesTwice(times: seq<nat>, early: int, late: int)
    requires early <= late
    ensures TimesSince(TimesSince(times, early), late) == TimesSince(times, late)
    decreases |times|
  {
    if times != [] {
      var n := |times| - 1;
      TimesTwice(times[..n], early, late);
      if times[n] >= early {
        OneTimeMore(TimesSince(times[..n], early), times[n], late);
      } else {
        assert TimesSince(times[..n], early) + [] == TimesSince(times[..n], early);
      }
    }
  }

  lemma {:induction false} OneTimeMore(times: seq<nat>, now: nat, cutoff: int)
    ensures TimesSince(times + [now], cutoff) == TimesSince(times, cutoff) + (if now >= cutoff then [now] else [])
  {
    assert (times + [now])[..|times|] == times;
  }

  lemma {:induction false} NoTimes(times: seq<nat>, cutoff: int)
    requires forall i :: 0 <= i < |times| ==> times[i] < cutoff
    ensures TimesSince(times, cutoff) == []
    decreases |times|
  {
    if times != [] {
      NoTimes(times[..|times| - 1], cutoff);
    }
  }

  lemma {:induction false} EventsTwice(events: seq<RequestEvent>, early: int, late: int)
    requires early <= late
    ensures EventsSince(EventsSince(events, early), late) == EventsSince(events, late)
    decreases |events|
  {
    if events != [] {
      var n := |events| - 1;
      EventsTwice(events[..n], early, late);
      if events[n].ts >= early {
        OneEventMore(EventsSince(events[..n], early), events[n], late);
      } else {
        assert EventsSince(events[..n], early) + [] == EventsSince(events[..n], early);
      }
    }
  }

  lemma {:induction false} OneEventMore(events: seq<RequestEvent>, event: RequestEvent, cutoff: int)
    ensures EventsSince(events + [event], cutoff) == EventsSince(events, cutoff) + (if event.ts >= cutoff then [event] else [])
  {
    assert (events + [event])[..|events|] == events;
  }

  lemma {:induction false} NoEvents(events: seq<RequestEvent>, cutoff: int)
    requires forall i :: 0 <= i < |events| ==> events[i].ts < cutoff
    ensures EventsSince(events, cutoff) == []
    decreases |events|
  {
    if events != [] {
      NoEvents(events[..|events| - 1], cutoff);
    }
  }

  lemma {:induction false} FilterLast<T>(keep: T -> bool, s: seq<T>, x: T)
    ensures Filter(keep, s + [x]) == Filter(keep, s) + (if keep(x) then [x] else [])
  {
    FilterAppend(keep, s, [x]);
    assert [x][1..] == [];
    assert Filter(keep, []) == [];
  }

  // --- what a state must know of a history ---

  predicate UpTo(h: seq<Step>, time: int) {
    forall i :: 0 <= i < |h| ==> IsRequest(h[i]) && h[i].now <= time
  }

  /** The same times lie at or after every cutoff from this one on. */
  ghost predicate SameTimes(from: int, times: seq<nat>, all: seq<nat>) {
    forall cutoff: int :: cutoff >= from ==> TimesSince(times, cutoff) == TimesSince(all, cutoff)
  }

  ghost predicate SameEvents(from: int, events: seq<RequestEvent>, all: seq<RequestEvent>) {
    forall cutoff: int :: cutoff >= from ==> EventsSince(events, cutoff) == EventsSince(all, cutoff)
  }

  /** From now on the cooldown test of every pattern comes out the same. */
  ghost predicate SameCooldowns(config: Config, h: seq<Step>, clock: nat, state: IpState) {
    forall pattern ::
      LastAlertAt(state, pattern) == LastAlert(config, h, pattern)
      || (clock - LastAlertAt(state, pattern) >= config.alertCooldownMs
          && clock - LastAlert(config, h, pattern) >= config.alertCooldownMs)
  }

  ghost predicate KnowsLists(config: Config, h: seq<Step>, clock: nat, state: IpState) {
    && SameTimes(clock - config.rateLimitWindowMs, state.requestTimes, AskTimes(h))
    && SameEvents(clock - config.suspiciousWindowMs, state.recentEvents, Events(h))
    && SameTimes(clock - config.failedLoginWindowMs, state.failedLoginTimes, FailedLogins(h))
  }

  /** From `clock` on, the state cannot be told from the whole history. */
  ghost predicate Knows(config: Config, h: seq<Step>, clock: nat, state: IpState) {
    UpTo(h, clock) && KnowsLists(config, h, clock, state) && SameCooldowns(config, h, clock, state)
  }

  ghost predicate Tracks(config: Config, h: seq<Step>, clock: nat, states: map<string, IpState>, ip: string) {
    && Knows(config, h, clock, StateOf(states, ip))
    && (ip in states ==> UpTo(h, states[ip].lastSeen))
  }

  // --- one IP, one step ---

  lemma {:induction false} KnowsLater(config: Config, h: seq<Step>, clock: nat, later: nat, state: IpState)
    requires Knows(config, h, clock, state) && clock <= later
    ensures Knows(config, h, later, state)
  {
  }

  lemma {:induction false} PrunedTimes(from: int, times: seq<nat>, all: seq<nat>)
    requires SameTimes(from, times, all)
    ensures SameTimes(from, TimesSince(times, from), all)
  {
    forall cutoff: int | cutoff >= from
      ensures TimesSince(TimesSince(times, from), cutoff) == TimesSince(all, cutoff)
    {
      TimesTwice(times, from, cutoff);
    }
  }

  lemma {:induction false} PrunedEvents(from: int, events: seq<RequestEvent>, all: seq<RequestEvent>)
    requires SameEvents(from, events, all)
    ensures SameEvents(from, EventsSince(events, from), all)
  {
    forall cutoff: int | cutoff >= from
      ensures EventsSince(EventsSince(events, from), cutoff) == EventsSince(all, cutoff)
    {
      EventsTwice(events, from, cutoff);
    }
  }

  lemma {:induction false} PrunedLists(config: Config, h: seq<Step>, clock: nat, state: IpState)
    requires KnowsLists(config, h, clock, state)
    ensures KnowsLists(config, h, clock, Pruned(config, state, clock))
  {
    hide TimesSince, EventsSince, AskTimes, Events, FailedLogins;
    PrunedTimes(clock - config.rateLimitWindowMs, state.requestTimes, AskTimes(h));
    PrunedEvents(clock - config.suspiciousWindowMs, state.recentEvents, Events(h));
    PrunedTimes(clock - config.failedLoginWindowMs, state.failedLoginTimes, FailedLogins(h));
  }

  lemma {:induction false} SameAlertsSameCooldowns(config: Config, h: seq<Step>, clock: nat, state: IpState, after: IpState)
    requires SameCooldowns(config, h, clock, state) && after.lastAlertAt == state.lastAlertAt
    ensures SameCooldowns(config, h, clock, after)
  {
    assert forall pattern :: LastAlertAt(after, pattern) == LastAlertAt(state, pattern);
  }

  lemma {:induction false} PrunedKnows(config: Config, h: seq<Step>, clock: nat, state: IpState)
    requires Knows(config, h, clock, state)
    ensures Knows(config, h, clock, Pruned(config, state, clock))
  {
    PrunedLists(config, h, clock, state);
    SameAlertsSameCooldowns(config, h, clock, state, Pruned(config, state, clock));
  }

  /** One more time in both lists keeps them the same. */
  lemma {:induction false} OneMoreTime(from: int, times: seq<nat>, all: seq<nat>, now: nat)
    requires SameTimes(from, times, all)
    ensures SameTimes(from, times + [now], all + [now])
  {
    forall cutoff: int | cutoff >= from
      ensures TimesSince(times + [now], cutoff) == TimesSince(all + [now], cutoff)
    {
      OneTimeMore(times, now, cutoff);
      OneTimeMore(all, now, cutoff);
    }
  }

  lemma {:induction false} OneMoreEvent(from: int, events: seq<RequestEvent>, all: seq<RequestEvent>, event: RequestEvent)
    requires SameEvents(from, events, all)
    ensures SameEvents(from, events + [event], all + [event])
  {
    forall cutoff: int | cutoff >= from
      ensures EventsSince(events + [event], cutoff) == EventsSince(all + [event], cutoff)
    {
      OneEventMore(events, event, cutoff);
      OneEventMore(all, event, cutoff);
    }
  }

  lemma {:induction false} HistoryOfAsk(config: Config, h: seq<Step>, step: Step)
    requires step.Ask?
    ensures AskTimes(h + [step]) == AskTimes(h) + [step.now] && Events(h + [step]) == Events(h)
    ensures FailedLogins(h + [step]) == FailedLogins(h)
    ensures forall pattern :: LastAlert(config, h + [step], pattern) == LastAlert(config, h, pattern)
  {
    assert (h + [step])[..|h|] == h;
    assert Events(h) + [] == Events(h) && FailedLogins(h) + [] == FailedLogins(h);
  }

  lemma {:induction false} AskedLists(config: Config, h: seq<Step>, state: IpState, step: Step)
    requires step.Ask? && KnowsLists(config, h, step.now, state)
    ensures KnowsLists(config, h + [step], step.now, Asked(config, state, step.now))
  {
    PrunedLists(config, h, step.now, state);
    HistoryOfAsk(config, h, step);
    OneMoreTime(step.now - config.rateLimitWindowMs, Pruned(config, state, step.now).requestTimes, AskTimes(h), step.now);
  }

  lemma {:induction false} AskedKnows(config: Config, h: seq<Step>, state: IpState, step: Step)
    requires step.Ask? && Knows(config, h, step.now, state)
    ensures Knows(config, h + [step], step.now, Asked(config, state, step.now))
  {
    AskedLists(config, h, state, step);
    SameCooldownsAfterAsk(config, h, state, step);
  }

  lemma {:induction false} SameCooldownsAfterAsk(config: Config, h: seq<Step>, state: IpState, step: Step)
    requires step.Ask? && SameCooldowns(config, h, step.now, state)
    ensures SameCooldowns(config, h + [step], step.now, Asked(config, state, step.now))
  {
    HistoryOfAsk(config, h, step);
    var after := Asked(config, state, step.now);
    assert forall pattern :: LastAlertAt(after, pattern) == LastAlertAt(state, pattern);
  }

  /** The count that the decision is taken on is the count of the whole history. */
  lemma {:induction false} AskedCounts(config: Config, h: seq<Step>, state: IpState, step: Step)
    requires step.Ask? && KnowsLists(config, h, step.now, state)
    ensures Asked(config, state, step.now).requestTimes
         == TimesSince(AskTimes(h + [step]), step.now - config.rateLimitWindowMs)
  {
    var cutoff := step.now - config.rateLimitWindowMs;
    HistoryOfAsk(config, h, step);
    OneTimeMore(AskTimes(h), step.now, cutoff);
  }

  lemma {:induction false} HistoryOfFinish(h: seq<Step>, step: Step)
    requires step.Finish?
    ensures AskTimes(h + [step]) == AskTimes(h)
    ensures Events(h + [step]) == Events(h) + [RequestEvent(step.now, step.path, step.status)]
    ensures FailedLogins(h + [step]) == FailedLogins(h) + (if IsFailedLogin(step.path, step.status) then [step.now] else [])
  {
    assert (h + [step])[..|h|] == h;
    assert AskTimes(h) + [] == AskTimes(h);
  }

  /** Recording keeps the lists in step with the history. */
  lemma {:induction false} RecordedLists(config: Config, h: seq<Step>, state: IpState, step: Step)
    requires step.Finish? && KnowsLists(config, h, step.now, state)
    ensures KnowsLists(config, h + [step], step.now, Recorded(config, state, step.path, step.status, step.now))
  {
    var pruned := Pruned(config, state, step.now);
    PrunedLists(config, h, step.now, state);
    HistoryOfFinish(h, step);
    OneMoreEvent(step.now - config.suspiciousWindowMs, pruned.recentEvents, Events(h), RequestEvent(step.now, step.path, step.status));
    if IsFailedLogin(step.path, step.status) {
      OneMoreTime(step.now - config.failedLoginWindowMs, pruned.failedLoginTimes, FailedLogins(h), step.now);
    } else {
      assert pruned.failedLoginTimes + [] == pruned.failedLoginTimes;
      assert FailedLogins(h) + [] == FailedLogins(h);
    }
  }

  lemma {:induction false} RecordedEvents(config: Config, h: seq<Step>, events: seq<RequestEvent>, step: Step)
    requires step.Finish?
    requires SameEvents(step.now - config.suspiciousWindowMs, events, Events(h))
    ensures EventsSince(events, step.now - config.suspiciousWindowMs) + [RequestEvent(step.now, step.path, step.status)]
         == EventsAt(config, h + [step], step.now)
  {
    HistoryOfFinish(h, step);
    OneEventMore(Events(h), RequestEvent(step.now, step.path, step.status), step.now - config.suspiciousWindowMs);
  }

  lemma {:induction false} RecordedLogins(config: Config, h: seq<Step>, times: seq<nat>, step: Step)
    requires step.Finish?
    requires SameTimes(step.now - config.failedLoginWindowMs, times, FailedLogins(h))
    ensures TimesSince(times, step.now - config.failedLoginWindowMs)
            + (if IsFailedLogin(step.path, step.status) then [step.now] else [])
         == LoginsAt(config, h + [step], step.now)
  {
    hide IsFailedLogin;
    HistoryOfFinish(h, step);
    if IsFailedLogin(step.path, step.status) {
      OneTimeMore(FailedLogins(h), step.now, step.now - config.failedLoginWindowMs);
    } else {
      assert FailedLogins(h) + [] == FailedLogins(h);
      assert LoginsAt(config, h, step.now) + [] == LoginsAt(config, h, step.now);
    }
  }

  /** Right after recording, the lists are exactly what lies inside the windows. */
  lemma {:induction false} RecordedWindows(config: Config, h: seq<Step>, state: IpState, step: Step)
    requires step.Finish? && KnowsLists(config, h, step.now, state)
    ensures Recorded(config, state, step.path, step.status, step.now).recentEvents == EventsAt(config, h + [step], step.now)
    ensures Recorded(config, state, step.path, step.status, step.now).failedLoginTimes == LoginsAt(config, h + [step], step.now)
  {
    hide IsFailedLogin, EventsAt, LoginsAt, EventsSince, TimesSince;
    RecordedEvents(config, h, state.recentEvents, step);
    RecordedLogins(config, h, state.failedLoginTimes, step);
  }

  // --- evaluating the patterns ---

  predicate SameLists(a: IpState, b: IpState) {
    a == b.(lastAlertAt := a.lastAlertAt)
  }

  /** Each pattern is evaluated on the same lists and on its own last alert. */
  lemma {:induction false} EvaluatedOne(config: Config, state: IpState, pattern: Pattern, now: nat)
    ensures var (after, alerts) := Evaluated(config, state, pattern, now);
            && SameLists(after, state)
            && (forall other :: other != pattern ==> LastAlertAt(after, other) == LastAlertAt(state, other))
            && LastAlertAt(after, pattern) == (if Emits(config, state, pattern, now) then now else LastAlertAt(state, pattern))
  {
  }

  function EmittedAlert(config: Config, state: IpState, pattern: Pattern, now: nat): seq<AbuseCategory> {
    if Emits(config, state, pattern, now)
    then [Category(config, pattern, state.recentEvents, state.failedLoginTimes)] else []
  }

  predicate LastAlertsAfter(config: Config, state: IpState, after: IpState, now: nat) {
    forall pattern ::
      LastAlertAt(after, pattern) == if Emits(config, state, pattern, now) then now else LastAlertAt(state, pattern)
  }

  lemma {:induction false} EvaluatedFacts(config: Config, state: IpState, now: nat)
    ensures var (after, alerts) := EvaluatedAll(config, state, now);
            && SameLists(after, state)
            && LastAlertsAfter(config, state, after, now)
            && alerts == EmittedAlert(config, state, HighVolume, now) + EmittedAlert(config, state, EndpointScan, now)
                + EmittedAlert(config, state, RepeatedBadRequests, now) + EmittedAlert(config, state, FailedLoginBurst, now)
  {
    var (s1, a1) := Evaluated(config, state, HighVolume, now);
    var (s2, a2) := Evaluated(config, s1, EndpointScan, now);
    var (s3, a3) := Evaluated(config, s2, RepeatedBadRequests, now);
    EvaluatedOne(config, state, HighVolume, now);
    EvaluatedOne(config, s1, EndpointScan, now);
    EvaluatedOne(config, s2, RepeatedBadRequests, now);
    EvaluatedOne(config, s3, FailedLoginBurst, now);
  }

  /** The state emits exactly the alerts that the history says are due. */
  lemma {:induction false} EmitsIffDue(config: Config, h: seq<Step>, state: IpState, step: Step, pattern: Pattern)
    requires step.Finish? && Knows(config, h, step.now, state)
    ensures Emits(config, Recorded(config, state, step.path, step.status, step.now), pattern, step.now)
       <==> AlertDue(config, h + [step], pattern)
  {
    RecordedWindows(config, h, state, step);
    assert (h + [step])[..|h|] == h;
    assert LastAlertAt(Recorded(config, state, step.path, step.status, step.now), pattern) == LastAlertAt(state, pattern);
  }

  lemma {:induction false} FinishCooldowns(config: Config, h: seq<Step>, state: IpState, step: Step)
    requires step.Finish? && Knows(config, h, step.now, state)
    ensures SameCooldowns(config, h + [step], step.now,
                          EvaluatedAll(config, Recorded(config, state, step.path, step.status, step.now), step.now).0)
  {
    var recorded := Recorded(config, state, step.path, step.status, step.now);
    var after := EvaluatedAll(config, recorded, step.now).0;
    EvaluatedFacts(config, recorded, step.now);
    assert (h + [step])[..|h|] == h;
    forall pattern
      ensures LastAlertAt(after, pattern) == LastAlert(config, h + [step], pattern)
        || (step.now - LastAlertAt(after, pattern) >= config.alertCooldownMs
            && step.now - LastAlert(config, h + [step], pattern) >= config.alertCooldownMs)
    {
      EmitsIffDue(config, h, state, step, pattern);
      assert LastAlertAt(recorded, pattern) == LastAlertAt(state, pattern);
    }
  }

  lemma {:induction false} FinishKnows(config: Config, h: seq<Step>, state: IpState, step: Step)
    requires step.Finish? && Knows(config, h, step.now, state)
    ensures Knows(config, h + [step], step.now,
                  EvaluatedAll(config, Recorded(config, state, step.path, step.status, step.now), step.now).0)
  {
    var recorded := Recorded(config, state, step.path, step.status, step.now);
    EvaluatedFacts(config, recorded, step.now);
    RecordedLists(config, h, state, step);
    FinishCooldowns(config, h, state, step);
  }

  lemma {:induction false} FinishAnswers(config: Config, h: seq<Step>, state: IpState, step: Step)
    requires step.Finish? && Knows(config, h, step.now, state)
    ensures Alerts(EvaluatedAll(config, Recorded(config, state, step.path, step.status, step.now), step.now).1)
         == StatelessAnswer(config, h, step)
  {
    var recorded := Recorded(config, state, step.path, step.status, step.now);
    EvaluatedFacts(config, recorded, step.now);
    RecordedWindows(config, h, state, step);
    EmitsIffDue(config, h, state, step, HighVolume);
    EmitsIffDue(config, h, state, step, EndpointScan);
    EmitsIffDue(config, h, state, step, RepeatedBadRequests);
    EmitsIffDue(config, h, state, step, FailedLoginBurst);
  }

  // --- dropping an idle IP ---

  lemma {:induction false} TimesOf(h: seq<Step>, time: int)
    requires UpTo(h, time)
    ensures forall i :: 0 <= i < |AskTimes(h)| ==> AskTimes(h)[i] <= time
    ensures forall i :: 0 <= i < |Events(h)| ==> Events(h)[i].ts <= time
    ensures forall i :: 0 <= i < |FailedLogins(h)| ==> FailedLogins(h)[i] <= time
    decreases |h|
  {
    if h != [] {
      TimesOf(h[..|h| - 1], time);
    }
  }

  lemma {:induction false} LastAlertUpTo(config: Config, h: seq<Step>, time: nat, pattern: Pattern)
    requires UpTo(h, time)
    ensures LastAlert(config, h, pattern) <= time
    decreases |h|
  {
    if h != [] {
      LastAlertUpTo(config, h[..|h| - 1], time, pattern);
    }
  }

  /** Everything an idle IP did is outside every window and every cooldown, now and later. */
  lemma {:induction false} IdleKnowsNothing(config: Config, h: seq<Step>, clock: nat, state: IpState)
    requires UpTo(h, state.lastSeen) && Idle(config, state, clock)
    ensures Knows(config, h, clock, FRESH)
  {
    TimesOf(h, state.lastSeen);
    forall cutoff: int | cutoff > state.lastSeen
      ensures TimesSince(AskTimes(h), cutoff) == [] && TimesSince(FailedLogins(h), cutoff) == []
      ensures EventsSince(Events(h), cutoff) == []
    {
      NoTimes(AskTimes(h), cutoff);
      NoTimes(FailedLogins(h), cutoff);
      NoEvents(Events(h), cutoff);
    }
    forall pattern ensures LastAlert(config, h, pattern) <= state.lastSeen {
      LastAlertUpTo(config, h, state.lastSeen, pattern);
    }
  }

  // --- all IPs, all steps ---

  lemma {:induction false} HistoryLast(ip: string, steps: seq<Step>, step: Step)
    ensures History(ip, steps + [step])
         == Extended(History(ip, steps), ip, step)
  {
    FilterLast(OfIp(ip), steps, step);
  }

  function Extended(h: seq<Step>, ip: string, step: Step): seq<Step> {
    if IsRequest(step) && step.ip == ip then h + [step] else h
  }

  lemma {:induction false} AskTracks(config: Config, h: seq<Step>, states: map<string, IpState>, step: Step)
    requires step.Ask? && Knows(config, h, step.now, StateOf(states, step.ip))
    ensures Tracks(config, h + [step], step.now, Next(config, states, step), step.ip)
    ensures Answer(config, states, step) == StatelessAnswer(config, h, step)
  {
    hide KnowsLists, SameCooldowns, AskTimes, TimesSince;
    AskedKnows(config, h, StateOf(states, step.ip), step);
    AskedCounts(config, h, StateOf(states, step.ip), step);
  }

  lemma {:induction false} FinishTracks(config: Config, h: seq<Step>, states: map<string, IpState>, step: Step)
    requires step.Finish? && Knows(config, h, step.now, StateOf(states, step.ip))
    ensures Tracks(config, h + [step], step.now, Next(config, states, step), step.ip)
    ensures Answer(config, states, step) == StatelessAnswer(config, h, step)
  {
    hide KnowsLists, SameCooldowns, EvaluatedAll, StatelessAnswer, LastAlertsAfter, EmittedAlert;
    FinishKnows(config, h, StateOf(states, step.ip), step);
    FinishAnswers(config, h, StateOf(states, step.ip), step);
    EvaluatedFacts(config, Recorded(config, StateOf(states, step.ip), step.path, step.status, step.now), step.now);
  }

  lemma {:induction false} RequestTracks(config: Config, h: seq<Step>, states: map<string, IpState>, step: Step)
    requires IsRequest(step) && Knows(config, h, step.now, StateOf(states, step.ip))
    ensures Tracks(config, h + [step], step.now, Next(config, states, step), step.ip)
    ensures Answer(config, states, step) == StatelessAnswer(config, h, step)
  {
    hide Knows, Tracks, Next, Answer, StatelessAnswer;
    if step.Ask? {
      AskTracks(config, h, states, step);
    } else {
      FinishTracks(config, h, states, step);
    }
  }

  lemma {:induction false} PruneTracks(config: Config, h: seq<Step>, states: map<string, IpState>, ip: string, now: nat)
    requires Tracks(config, h, now, states, ip)
    ensures Tracks(config, h, now, Next(config, states, Prune(now)), ip)
  {
    if ip in states {
      PrunedKnows(config, h, now, states[ip]);
    }
  }

  lemma {:induction false} CleanupTracks(config: Config, h: seq<Step>, states: map<string, IpState>, ip: string, now: nat,
                                         victims: set<string>)
    requires Tracks(config, h, now, states, ip)
    ensures Tracks(config, h, now, Next(config, states, Cleanup(now, victims)), ip)
  {
    if ip in states && ip in victims && Idle(config, states[ip], now) {
      IdleKnowsNothing(config, h, now, states[ip]);
    }
  }

  lemma {:induction false} StepTracks(config: Config, h: seq<Step>, clock: nat, states: map<string, IpState>, ip: string, step: Step)
    requires Tracks(config, h, clock, states, ip) && clock <= step.now
    ensures Tracks(config, Extended(h, ip, step), step.now, Next(config, states, step), ip)
  {
    KnowsLater(config, h, clock, step.now, StateOf(states, ip));
    match step
    case Prune(now) => PruneTracks(config, h, states, ip, now);
    case Cleanup(now, victims) => CleanupTracks(config, h, states, ip, now, victims);
    case _ =>
      if step.ip == ip {
        RequestTracks(config, h, states, step);
      }
  }

  function ClockOf(steps: seq<Step>): nat {
    if steps == [] then 0 else steps[|steps| - 1].now
  }

  lemma {:induction false} NothingTracked(config: Config, ip: string)
    ensures Tracks(config, [], 0, map[], ip)
  {
  }

  lemma {:induction false} RunTracks(config: Config, steps: seq<Step>, ip: string)
    requires ClockKeeps(steps)
    ensures Tracks(config, History(ip, steps), ClockOf(steps), StatesAfter(config, steps), ip)
    decreases |steps|
  {
    if steps == [] {
      NothingTracked(config, ip);
    } else {
      var before := steps[..|steps| - 1];
      var step := steps[|steps| - 1];
      RunTracks(config, before, ip);
      assert steps == before + [step];
      HistoryLast(ip, before, step);
      StepTracks(config, History(ip, before), ClockOf(before), StatesAfter(config, before), ip, step);
    }
  }

  /** The monitor refines its stateless specification: with a clock that does not go back, every rate
      limit decision and every alert of every run equals the one computed from the IP's whole history,
      whichever idle IPs are dropped and whenever. */
  lemma {:induction false} AnswersAreStateless(config: Config, steps: seq<Step>)
    requires ClockKeeps(steps)
    ensures Answers(config, steps) == StatelessAnswers(config, steps)
    decreases |steps|
  {
    if steps != [] {
      var n := |steps| - 1;
      var step := steps[n];
      AnswersAreStateless(config, steps[..n]);
      if IsRequest(step) {
        var states := StatesAfter(config, steps[..n]);
        RunTracks(config, steps[..n], step.ip);
        KnowsLater(config, History(step.ip, steps[..n]), ClockOf(steps[..n]), step.now, StateOf(states, step.ip));
        RequestTracks(config, History(step.ip, steps[..n]), states, step);
      }
    }
  }

  // --- the system that never cleans up ---

  function Requests(steps: seq<Step>): seq<Step> {
    if steps == [] then []
    else
      var n := |steps| - 1;
      Requests(steps[..n]) + (if IsRequest(steps[n]) then [steps[n]] else [])
  }

  /** The answers that went to requests. */
  function RequestAnswers(steps: seq<Step>, answers: seq<Output>): seq<Output>
    requires |answers| == |steps|
  {
    if steps == [] then []
    else
      var n := |steps| - 1;
      RequestAnswers(steps[..n], answers[..n]) + (if IsRequest(steps[n]) then [answers[n]] else [])
  }

  lemma {:induction false} RequestsKeepHistory(ip: string, steps: seq<Step>)
    ensures History(ip, Requests(steps)) == History(ip, steps)
    decreases |steps|
  {
    if steps != [] {
      var n := |steps| - 1;
      RequestsKeepHistory(ip, steps[..n]);
      assert steps == steps[..n] + [steps[n]];
      HistoryLast(ip, steps[..n], steps[n]);
      HistoryLast(ip, Requests(steps[..n]), steps[n]);
      assert Requests(steps[..n]) + [] == Requests(steps[..n]);
    }
  }

  lemma {:induction false} RequestsKeepClock(steps: seq<Step>)
    requires ClockKeeps(steps)
    ensures ClockKeeps(Requests(steps))
    ensures forall i :: 0 <= i < |Requests(steps)| ==> IsRequest(Requests(steps)[i]) && Requests(steps)[i].now <= steps[|steps| - 1].now
    decreases |steps|
  {
    if steps != [] {
      RequestsKeepClock(steps[..|steps| - 1]);
    }
  }

  lemma {:induction false} StatelessWithoutCleanups(config: Config, steps: seq<Step>)
    ensures RequestAnswers(steps, StatelessAnswers(config, steps)) == StatelessAnswers(config, Requests(steps))
    decreases |steps|
  {
    if steps != [] {
      var n := |steps| - 1;
      var step := steps[n];
      StatelessWithoutCleanups(config, steps[..n]);
      assert StatelessAnswers(config, steps)[..n] == StatelessAnswers(config, steps[..n]);
      if IsRequest(step) {
        RequestsKeepHistory(step.ip, steps[..n]);
        assert (Requests(steps[..n]) + [step])[..|Requests(steps[..n])|] == Requests(steps[..n]);
      } else {
        assert Requests(steps) == Requests(steps[..n]);
        assert RequestAnswers(steps, StatelessAnswers(config, steps)) == RequestAnswers(steps[..n], StatelessAnswers(config, steps[..n]));
      }
    }
  }

  /** Garbage collection is invisible: leave every cleanup and snapshot out of a run, and each request is
      still answered the same. */
  lemma {:induction false} CleanupInvisible(config: Config, steps: seq<Step>)
    requires ClockKeeps(steps)
    ensures RequestAnswers(steps, Answers(config, steps)) == Answers(config, Requests(steps))
  {
    AnswersAreStateless(config, steps);
    RequestsKeepClock(steps);
    AnswersAreStateless(config, Requests(steps));
    StatelessWithoutCleanups(config, steps);
  }

  // --- what the stateless answers mean ---

  /** The count an alert carries, and whether it reaches the thresholds of its pattern. */
  predicate ReachesThreshold(config: Config, category: AbuseCategory) {
    match category
    case RateLimitTrip(count, windowMs) => count >= config.suspiciousHighVolumeThreshold && windowMs == config.suspiciousWindowMs
    case Enumeration(count, paths, windowMs) =>
      && paths <= count && count >= config.suspicious404Threshold && paths >= config.suspiciousDistinctPathThreshold
      && windowMs == config.suspiciousWindowMs
    case PayloadAnomaly(count, windowMs) => count >= config.suspiciousBadRequestThreshold && windowMs == config.suspiciousWindowMs
    case BruteForce(count, windowMs) => count >= config.failedLoginBurstThreshold && windowMs == config.failedLoginWindowMs
  }

  /** Every alert shows the cause it was raised for: a count over its own window that reaches its threshold. */
  lemma {:induction false} AlertsShowTheirCause(config: Config, h: seq<Step>, step: Step)
    requires step.Finish?
    ensures forall category :: category in StatelessAnswer(config, h, step).categories ==> ReachesThreshold(config, category)
  {
    hide EventsAt, LoginsAt, LastAlert, Filter, DistinctPaths;
    AlertShowsItsCause(config, h + [step], HighVolume, step.now);
    AlertShowsItsCause(config, h + [step], EndpointScan, step.now);
    AlertShowsItsCause(config, h + [step], RepeatedBadRequests, step.now);
    AlertShowsItsCause(config, h + [step], FailedLoginBurst, step.now);
  }

  lemma {:induction false} AlertShowsItsCause(config: Config, h: seq<Step>, pattern: Pattern, now: nat)
    requires h != [] && h[|h| - 1].now == now
    ensures forall category :: category in AlertOf(config, h, pattern, now) ==> ReachesThreshold(config, category)
  {
    hide EventsAt, LoginsAt, LastAlert, Filter, DistinctPaths;
    DistinctAtMost(Filter(WithStatus(404), EventsAt(config, h, now)));
  }

  lemma {:induction false} DistinctAtMost(events: seq<RequestEvent>)
    ensures DistinctPaths(events) <= |events|
    decreases |events|
  {
    if events != [] {
      var init := events[..|events| - 1];
      DistinctAtMost(init);
      var paths := set event | event in init :: event.path;
      assert events == init + [events[|events| - 1]];
      assert (set event | event in events :: event.path) == paths + {events[|events| - 1].path};
    } else {
      assert (set event | event in events :: event.path) == {};
    }
  }

  lemma {:induction false} LastAlertStep(config: Config, h: seq<Step>, step: Step, pattern: Pattern)
    ensures AlertDue(config, h + [step], pattern) ==> step.now - LastAlert(config, h, pattern) >= config.alertCooldownMs
    ensures LastAlert(config, h + [step], pattern)
         == if AlertDue(config, h + [step], pattern) then step.now else LastAlert(config, h, pattern)
  {
    assert (h + [step])[..|h|] == h;
  }

  lemma {:induction false} ClockBefore(h: seq<Step>, step: Step)
    requires ClockKeeps(h + [step])
    ensures ClockKeeps(h) && forall i :: 0 <= i < |h| ==> h[i].now <= step.now
  {
    assert (h + [step])[|h|] == step;
    assert forall i :: 0 <= i < |h| ==> (h + [step])[i] == h[i];
  }

  lemma {:induction false} LastAlertSince(config: Config, alerted: seq<Step>, after: seq<Step>, pattern: Pattern, time: nat)
    requires ClockKeeps(alerted + after) && LastAlert(config, alerted, pattern) == time
    requires forall step :: step in after ==> time <= step.now
    ensures LastAlert(config, alerted + after, pattern) >= time
    decreases |after|
  {
    if after == [] {
      assert alerted + after == alerted;
    } else {
      var n := |after| - 1;
      assert alerted + after == alerted + after[..n] + [after[n]];
      ClockBefore(alerted + after[..n], after[n]);
      LastAlertSince(config, alerted, after[..n], pattern, time);
      LastAlertStep(config, alerted + after[..n], after[n], pattern);
    }
  }

  lemma {:induction false} NotBeforeFirst(h: seq<Step>, first: Step, between: seq<Step>)
    requires ClockKeeps(h + [first] + between)
    ensures forall step :: step in between ==> first.now <= step.now
  {
    var all := h + [first] + between;
    assert all[|h|] == first;
    forall step | step in between ensures first.now <= step.now {
      var i :| 0 <= i < |between| && between[i] == step;
      assert all[|h| + 1 + i] == step;
    }
  }

  /** An IP's alerts of one pattern are at least one cooldown apart: between a response that raised one
      and a later response of the same history that raises one again, that long has passed. */
  lemma {:induction false} AlertsAreSpaced(config: Config, h: seq<Step>, first: Step, between: seq<Step>, second: Step,
                                           pattern: Pattern)
    requires ClockKeeps(h + [first] + between + [second])
    requires AlertDue(config, h + [first], pattern) && AlertDue(config, h + [first] + between + [second], pattern)
    ensures second.now - first.now >= config.alertCooldownMs
  {
    hide AlertDue, LastAlert, ClockKeeps;
    ClockBefore(h + [first] + between, second);
    LastAlertStep(config, h, first, pattern);
    NotBeforeFirst(h, first, between);
    LastAlertSince(config, h + [first], between, pattern, first.now);
    LastAlertStep(config, h + [first] + between, second, pattern);
  }
}
