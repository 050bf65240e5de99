/** What the stateless answers of the security monitor say, counted over the steps of an IP's history. */
module SecurityMonitorMeaning {
  import opened Sorting
  import opened SecurityMonitorSpec

  // --- which requests count ---

  /** The same letter, whatever its case; the second one is not a capital. */
  predicate SameLetter(c: char, d: char) {
    c == d || ('A' <= c <= 'Z' && c as int + 32 == d as int)
  }

  predicate SpelledAt(path: string, part: string, i: nat) {
    i + |part| <= |path| && forall k :: 0 <= k < |part| ==> SameLetter(path[i + k], part[k])
  }

  predicate Mentions(path: string, part: string) {
    exists i: nat :: i <= |path| && SpelledAt(path, part, i)
  }

  /** A login or another call to the authentication routes that was turned away. */
  predicate LoginFailed(path: string, status: int) {
    (status == 401 || status == 403) && (Mentions(path, "/auth") || Mentions(path, "/login"))
  }

  lemma {:induction false} LowerEach(s: string)
    ensures |ToLower(s)| == |s| && forall k :: 0 <= k < |s| ==> ToLower(s)[k] == Lower(s[k])
    decreases |s|
  {
    if s != "" {
      LowerEach(s[1..]);
    }
  }

  lemma {:induction false} SpelledIff(path: string, part: string, i: nat)
    requires forall k :: 0 <= k < |part| ==> !('A' <= part[k] <= 'Z')
    ensures StartsAt(ToLower(path), part, i) <==> SpelledAt(path, part, i)
  {
    LowerEach(path);
    var text := ToLower(path);
    if i + |part| <= |path| {
      if StartsAt(text, part, i) {
        forall k | 0 <= k < |part| ensures SameLetter(path[i + k], part[k]) {
          assert text[i..i + |part|][k] == text[i + k];
        }
      }
      if SpelledAt(path, part, i) {
        assert forall k :: 0 <= k < |part| ==> text[i + k] == part[k];
        assert text[i..i + |part|] == part;
      }
    }
  }

  lemma {:induction false} MentionsIff(path: string, part: string)
    requires forall k :: 0 <= k < |part| ==> !('A' <= part[k] <= 'Z')
    ensures Includes(ToLower(path), part) <==> Mentions(path, part)
  {
    hide StartsAt, SpelledAt, ToLower;
    LowerEach(path);
    if Includes(ToLower(path), part) {
      var i: nat :| i <= |ToLower(path)| && StartsAt(ToLower(path), part, i);
      SpelledIff(path, part, i);
    }
    if Mentions(path, part) {
      var i: nat :| i <= |path| && SpelledAt(path, part, i);
      SpelledIff(path, part, i);
    }
  }

  /** A response counts as a failed login exactly when its status is 401 or 403 and its path mentions `/auth`
      or `/login`, in letters of any case. */
  lemma {:induction false} FailedLoginIff(path: string, status: int)
    ensures IsFailedLogin(path, status) <==> LoginFailed(path, status)
  {
    hide Includes, Mentions, ToLower;
    MentionsIff(path, "/auth");
    MentionsIff(path, "/login");
  }

  /** The path of a request is its URL up to the query, and the root if nothing is left. */
  lemma {:induction false} PathIsBeforeQuery(url: string)
    ensures var path := BeforeQuery(url);
            && |path| <= |url| && url[..|path|] == path && '?' !in path
            && (|path| < |url| ==> url[|path|] == '?')
            && SanitizePath(url) == if path == "" then "/" else path
    decreases |url|
  {
    if url != "" && url[0] != '?' {
      PathIsBeforeQuery(url[1..]);
      assert url == [url[0]] + url[1..];
    }
  }

  // --- counting over a history ---

  function CountSteps(keep: Step -> bool, h: seq<Step>): nat {
    if h == [] then 0 else CountSteps(keep, h[..|h| - 1]) + (if keep(h[|h| - 1]) then 1 else 0)
  }

  function AskedSince(cutoff: int): Step -> bool {
    (step: Step) => step.Ask? && step.now >= cutoff
  }

  function AnsweredSince(cutoff: int): Step -> bool {
    (step: Step) => step.Finish? && step.now >= cutoff
  }

  function StatusSince(status: int, cutoff: int): Step -> bool {
    (step: Step) => step.Finish? && step.now >= cutoff && step.status == status
  }

  function LoginFailedSince(cutoff: int): Step -> bool {
    (step: Step) => step.Finish? && step.now >= cutoff && LoginFailed(step.path, step.status)
  }

  /** The paths that were not found. */
  function MissedPaths(h: seq<Step>, cutoff: int): set<string> {
    set step | step in h && step.Finish? && step.now >= cutoff && step.status == 404 :: step.path
  }

  lemma {:induction false} AskCount(h: seq<Step>, cutoff: int)
    ensures |TimesSince(AskTimes(h), cutoff)| == CountSteps(AskedSince(cutoff), h)
    decreases |h|
  {
    if h != [] {
      var init := h[..|h| - 1];
      var last := h[|h| - 1];
      AskCount(init, cutoff);
      if last.Ask? {
        assert (AskTimes(init) + [last.now])[..|AskTimes(init)|] == AskTimes(init);
      } else {
        assert AskTimes(h) == AskTimes(init);
      }
    }
  }

  lemma {:induction false} LoginCount(h: seq<Step>, cutoff: int)
    ensures |TimesSince(FailedLogins(h), cutoff)| == CountSteps(LoginFailedSince(cutoff), h)
    decreases |h|
  {
    hide IsFailedLogin, LoginFailed;
    if h != [] {
      var init := h[..|h| - 1];
      var last := h[|h| - 1];
      LoginCount(init, cutoff);
      if last.Finish? {
        FailedLoginIff(last.path, last.status);
      }
      if last.Finish? && IsFailedLogin(last.path, last.status) {
        assert (FailedLogins(init) + [last.now])[..|FailedLogins(init)|] == FailedLogins(init);
      } else {
        assert FailedLogins(h) == FailedLogins(init);
      }
    }
  }

  function EventOf(step: Step): RequestEvent
    requires step.Finish?
  {
    RequestEvent(step.now, step.path, step.status)
  }

  lemma {:induction false} EventsOneMore(init: seq<Step>, last: Step, cutoff: int)
    ensures EventsSince(Events(init + [last]), cutoff)
         == EventsSince(Events(init), cutoff) + (if last.Finish? && last.now >= cutoff then [EventOf(last)] else [])
  {
    assert (init + [last])[..|init|] == init;
    if last.Finish? {
      assert (Events(init) + [EventOf(last)])[..|Events(init)|] == Events(init);
    } else {
      assert Events(init) + [] == Events(init);
    }
  }

  lemma {:induction false} CountOneMore(keep: Step -> bool, init: seq<Step>, last: Step)
    ensures CountSteps(keep, init + [last]) == CountSteps(keep, init) + (if keep(last) then 1 else 0)
  {
    assert (init + [last])[..|init|] == init;
  }

  lemma {:induction false} NoEvents(cutoff: int)
    ensures EventsSince(Events([]), cutoff) == []
  {
  }

  lemma {:induction false} EventCount(h: seq<Step>, cutoff: int, status: int)
    ensures |EventsSince(Events(h), cutoff)| == CountSteps(AnsweredSince(cutoff), h)
    ensures |Filter(WithStatus(status), EventsSince(Events(h), cutoff))| == CountSteps(StatusSince(status, cutoff), h)
    decreases |h|
  {
    hide Filter, Events, EventsSince;
    if h == [] {
      NoEvents(cutoff);
      FilterEmpty(WithStatus(status));
    } else {
      var init := h[..|h| - 1];
      var last := h[|h| - 1];
      assert h == init + [last];
      EventCount(init, cutoff, status);
      EventsOneMore(init, last, cutoff);
      CountOneMore(AnsweredSince(cutoff), init, last);
      CountOneMore(StatusSince(status, cutoff), init, last);
      FilterOne(status, EventsSince(Events(init), cutoff), if last.Finish? && last.now >= cutoff then [EventOf(last)] else []);
    }
  }

  lemma {:induction false} FilterOne(status: int, before: seq<RequestEvent>, more: seq<RequestEvent>)
    requires |more| <= 1
    ensures |Filter(WithStatus(status), before + more)|
         == |Filter(WithStatus(status), before)| + (if more != [] && more[0].status == status then 1 else 0)
  {
    FilterAppend(WithStatus(status), before, more);
    if more != [] {
      assert more[1..] == [];
    }
  }

  /** Some response of the history since then gave this event. */
  ghost predicate Gave(h: seq<Step>, cutoff: int, event: RequestEvent) {
    exists step :: step in h && step.Finish? && step.now >= cutoff && EventOf(step) == event
  }

  lemma {:induction false} GaveOneMore(init: seq<Step>, last: Step, cutoff: int, event: RequestEvent)
    ensures Gave(init + [last], cutoff, event) <==> Gave(init, cutoff, event) || (last.Finish? && last.now >= cutoff && EventOf(last) == event)
  {
    if Gave(init, cutoff, event) {
      var step :| step in init && step.Finish? && step.now >= cutoff && EventOf(step) == event;
      assert step in init + [last];
    }
    assert last in init + [last];
  }

  lemma {:induction false} EventsMembers(h: seq<Step>, cutoff: int, event: RequestEvent)
    ensures event in EventsSince(Events(h), cutoff) <==> Gave(h, cutoff, event)
    decreases |h|
  {
    hide Events, EventsSince;
    if h == [] {
      NoEvents(cutoff);
    } else {
      var init := h[..|h| - 1];
      var last := h[|h| - 1];
      assert h == init + [last];
      EventsMembers(init, cutoff, event);
      EventsOneMore(init, last, cutoff);
      GaveOneMore(init, last, cutoff, event);
    }
  }

  lemma {:induction false} MissedCount(h: seq<Step>, cutoff: int)
    ensures DistinctPaths(Filter(WithStatus(404), EventsSince(Events(h), cutoff))) == |MissedPaths(h, cutoff)|
  {
    hide Filter, Events, EventsSince;
    var events := EventsSince(Events(h), cutoff);
    FilterElements(WithStatus(404), events);
    var paths := set event | event in Filter(WithStatus(404), events) :: event.path;
    forall path ensures path in paths <==> path in MissedPaths(h, cutoff) {
      if path in paths {
        var event :| event in events && event.status == 404 && event.path == path;
        EventsMembers(h, cutoff, event);
      }
      if path in MissedPaths(h, cutoff) {
        var step :| step in h && step.Finish? && step.now >= cutoff && step.status == 404 && step.path == path;
        EventsMembers(h, cutoff, EventOf(step));
      }
    }
    assert paths == MissedPaths(h, cutoff);
  }

  // --- the answers ---

  /** A request is turned away exactly when the requests of its IP in the window before it, itself included, are
      more than the allowed number. */
  lemma {:induction false} DecisionOnHistory(config: Config, h: seq<Step>, ip: string, now: nat)
    ensures var count := CountSteps(AskedSince(now - config.rateLimitWindowMs), h + [Ask(ip, now)]);
            StatelessAnswer(config, h, Ask(ip, now)) == Decision(count, count > config.rateLimitMaxRequests)
  {
    AskCount(h + [Ask(ip, now)], now - config.rateLimitWindowMs);
  }

  /** The cooldown of the pattern is over. */
  predicate CooledDown(config: Config, h: seq<Step>, pattern: Pattern, now: nat) {
    now - LastAlert(config, h, pattern) >= config.alertCooldownMs
  }

  /** The alerts of a response, in order: for many requests of any outcome, for many paths not found among many
      such requests, for many bad requests, and for many failed logins, each over its own window up to this
      response and with its counts, and each only when its own last alert is a cooldown ago. */
  lemma {:induction false} AlertsOnHistory(config: Config, h: seq<Step>, step: Step)
    requires step.Finish?
    ensures var all := h + [step];
            var since := step.now - config.suspiciousWindowMs;
            var requests := CountSteps(AnsweredSince(since), all);
            var missed := CountSteps(StatusSince(404, since), all);
            var paths := |MissedPaths(all, since)|;
            var bad := CountSteps(StatusSince(400, since), all);
            var logins := CountSteps(LoginFailedSince(step.now - config.failedLoginWindowMs), all);
            StatelessAnswer(config, h, step)
            == Alerts((if requests >= config.suspiciousHighVolumeThreshold && CooledDown(config, h, HighVolume, step.now)
                       then [RateLimitTrip(requests, config.suspiciousWindowMs)] else [])
                      + (if missed >= config.suspicious404Threshold && paths >= config.suspiciousDistinctPathThreshold
                            && CooledDown(config, h, EndpointScan, step.now)
                         then [Enumeration(missed, paths, config.suspiciousWindowMs)] else [])
                      + (if bad >= config.suspiciousBadRequestThreshold && CooledDown(config, h, RepeatedBadRequests, step.now)
                         then [PayloadAnomaly(bad, config.suspiciousWindowMs)] else [])
                      + (if logins >= config.failedLoginBurstThreshold && CooledDown(config, h, FailedLoginBurst, step.now)
                         then [BruteForce(logins, config.failedLoginWindowMs)] else []))
  {
    hide EventsSince, TimesSince, Events, FailedLogins, Filter, DistinctPaths, CountSteps, MissedPaths, LoginFailed;
    var all := h + [step];
    assert all[..|h|] == h && all[|h|] == step;
    EventCount(all, step.now - config.suspiciousWindowMs, 404);
    EventCount(all, step.now - config.suspiciousWindowMs, 400);
    MissedCount(all, step.now - config.suspiciousWindowMs);
    LoginCount(all, step.now - config.failedLoginWindowMs);
  }

  /** Response number k is the last one of the history to raise the pattern. */
  ghost predicate LastRaised(config: Config, h: seq<Step>, pattern: Pattern, k: nat) {
    && 0 < k <= |h| && AlertDue(config, h[..k], pattern)
    && forall j :: k < j <= |h| ==> !AlertDue(config, h[..j], pattern)
  }

  lemma {:induction false} LastAlertUnfolds(config: Config, h: seq<Step>, pattern: Pattern)
    ensures LastAlert(config, h, pattern)
         == if h == [] then 0 else if AlertDue(config, h, pattern) then h[|h| - 1].now else LastAlert(config, h[..|h| - 1], pattern)
    ensures h == [] ==> !AlertDue(config, h, pattern)
  {
    hide Triggered;
  }

  /** The last alert of a pattern is the time of the last response that raised it, and 0 before the first. */
  lemma {:induction false} LastAlertIs(config: Config, h: seq<Step>, pattern: Pattern)
    ensures (LastAlert(config, h, pattern) == 0 && forall k :: 0 <= k <= |h| ==> !AlertDue(config, h[..k], pattern))
         || (exists k: nat :: LastRaised(config, h, pattern, k) && LastAlert(config, h, pattern) == h[k - 1].now)
    decreases |h|
  {
    hide AlertDue, LastAlert;
    assert h[..|h|] == h;
    LastAlertUnfolds(config, h, pattern);
    if h != [] {
      if AlertDue(config, h, pattern) {
        assert LastRaised(config, h, pattern, |h|);
      } else {
        var init := h[..|h| - 1];
        LastAlertIs(config, init, pattern);
        assert forall k :: 0 <= k <= |init| ==> init[..k] == h[..k];
        if k: nat :| LastRaised(config, init, pattern, k) && LastAlert(config, init, pattern) == init[k - 1].now {
          assert LastRaised(config, h, pattern, k);
        }
      }
    }
  }
}
