/** What the limiter lets through, over every run of the exchange. */
module ExchangeLimits {
  import opened Clock
  import opened Keys
  import opened Exchange
  import opened InstallTable
  import opened Challenges
  import FixedWindow

  /** The counter of one key is what its own calls alone would have made it. */
  ghost predicate CounterOk(s: State, key: string) {
    var own := FixedWindow.Run(CallsOf(s, key), key, RATE_WINDOW_SEC);
    && (key in s.counters <==> key in own) && (key in own ==> s.counters[key] == own[key])
    && FixedWindow.Ordered(CallsOf(s, key))
    && (CallsOf(s, key) != [] ==> CallsOf(s, key)[|CallsOf(s, key)| - 1] <= s.now)
  }

  lemma CallKeepsCounter(s: State, called: string, key: string)
    requires CounterOk(s, key)
    ensures CounterOk(CallLimiter(s, called), key)
  {
    hide FixedWindow.Hit, FixedWindow.Run;
    FixedWindow.RunGrows(CallsOf(s, key), key, RATE_WINDOW_SEC, s.now);
    FixedWindow.HitIsLocal(s.counters, FixedWindow.Run(CallsOf(s, key), key, RATE_WINDOW_SEC), called, key, RATE_WINDOW_SEC, s.now);
  }

  /** Only limiter calls touch the limiter. */
  lemma OtherStepsKeepLimiter(s: State, step: Step)
    requires !step.LimiterCall? && !step.Admit? && !step.AdmitChallenge?
    ensures var s' := Apply(s, step);
            s'.counters == s.counters && s'.calls == s.calls && s'.admissions == s.admissions && s'.now >= s.now
  {
    hide ApplyGrant, ApplyConsume, ApplyIssue, AttestKey, CandidateId;
    match step
    case Tick(_) =>
    case IssueChallenge(q, platform, nonce) => IssueFrame(s, q, platform, nonce);
    case ConsumeChallenge(r, platform, challenge, fault) => ConsumeFrame(s, r, platform, challenge, fault);
    case Grant(r, tenant, platform, verdict, deviceKey, entropy, fault) =>
      GrantFrame(s, r, tenant, platform, verdict, deviceKey, CandidateId(entropy), fault);
  }

  lemma QuietKeepsCounter(s: State, s': State, key: string)
    requires CounterOk(s, key) && s'.counters == s.counters && s'.calls == s.calls && s'.now >= s.now
    ensures CounterOk(s', key)
  {
    hide FixedWindow.Run;
  }

  lemma StepKeepsCounter(s: State, step: Step, key: string)
    requires CounterOk(s, key)
    ensures CounterOk(Apply(s, step), key)
  {
    hide CounterOk, TokenKey, WithinCeiling;
    match step
    case LimiterCall(called) => CallKeepsCounter(s, called, key);
    case Admit(r, client) => AdmitKeepsCounter(s, r, client, key);
    case AdmitChallenge(q, client) => AdmitChallengeKeepsCounter(s, q, client, key);
    case _ =>
      OtherStepsKeepLimiter(s, step);
      QuietKeepsCounter(s, Apply(s, step), key);
  }

  lemma AdmitKeepsCounter(s: State, r: nat, client: string, key: string)
    requires CounterOk(s, key)
    ensures CounterOk(ApplyAdmit(s, r, client), key)
  {
    hide TokenKey, WithinCeiling, FixedWindow.Run;
    if r !in s.exchanges {
      CallKeepsCounter(s, TokenKey(client), key);
      QuietKeepsCounter(CallLimiter(s, TokenKey(client)), ApplyAdmit(s, r, client), key);
    }
  }

  lemma AdmitChallengeKeepsCounter(s: State, q: nat, client: string, key: string)
    requires CounterOk(s, key)
    ensures CounterOk(ApplyAdmitChallenge(s, q, client), key)
  {
    hide ChallengeKey, WithinCeiling, FixedWindow.Run;
    if q !in s.asks {
      CallKeepsCounter(s, ChallengeKey(client), key);
      QuietKeepsCounter(CallLimiter(s, ChallengeKey(client)), ApplyAdmitChallenge(s, q, client), key);
    }
  }

  lemma {:induction false} RunKeepsCounter(steps: seq<Step>, key: string)
    ensures CounterOk(Exec(steps), key)
  {
    if steps != [] {
      RunKeepsCounter(steps[..|steps| - 1], key);
      StepKeepsCounter(Exec(steps[..|steps| - 1]), steps[|steps| - 1], key);
    }
  }

  /** The calls of a key let through in [lo, hi]. */
  function AdmittedIn(a: seq<Admission>, key: string, lo: int, hi: int): nat {
    if a == [] then 0
    else
      var last := a[|a| - 1];
      AdmittedIn(a[..|a| - 1], key, lo, hi) + (if last.key == key && lo <= last.at <= hi then 1 else 0)
  }

  function Allowed(s: State, key: string, lo: int, hi: int): nat {
    FixedWindow.AllowedIn(CallsOf(s, key), key, RATE_WINDOW_SEC, RATE_PER_MINUTE, lo, hi)
  }

  lemma CallAllows(s: State, called: string, key: string, lo: int, hi: int)
    requires CounterOk(s, key)
    ensures Allowed(CallLimiter(s, called), key, lo, hi) ==
            Allowed(s, key, lo, hi) + (if called == key && lo <= s.now <= hi && WithinCeiling(s, called) then 1 else 0)
  {
    hide FixedWindow.AllowedIn, FixedWindow.Run, FixedWindow.Hit;
    FixedWindow.AllowedGrows(CallsOf(s, key), key, RATE_WINDOW_SEC, RATE_PER_MINUTE, lo, hi, s.now);
  }

  lemma SameCallsSameAllowed(s: State, s': State, key: string, lo: int, hi: int)
    requires s'.calls == s.calls
    ensures Allowed(s', key, lo, hi) == Allowed(s, key, lo, hi)
  {
  }

  lemma OneMoreAdmitted(a: seq<Admission>, x: Admission, key: string, lo: int, hi: int)
    ensures AdmittedIn(a + [x], key, lo, hi) == AdmittedIn(a, key, lo, hi) + (if x.key == key && lo <= x.at <= hi then 1 else 0)
  {
    assert (a + [x])[..|a|] == a;
  }

  /** A call that is recorded as let through only when it was within the ceiling. */
  lemma RecordedIsAllowed(s: State, s': State, called: string, key: string, lo: int, hi: int)
    requires CounterOk(s, key)
    requires AdmittedIn(s.admissions, key, lo, hi) <= Allowed(s, key, lo, hi)
    requires s'.calls == CallLimiter(s, called).calls
    requires s'.admissions == s.admissions
             || (WithinCeiling(s, called) && s'.admissions == s.admissions + [Admission(called, s.now)])
    ensures AdmittedIn(s'.admissions, key, lo, hi) <= Allowed(s', key, lo, hi)
  {
    hide Allowed, AdmittedIn, CallLimiter, WithinCeiling, CounterOk;
    CallAllows(s, called, key, lo, hi);
    SameCallsSameAllowed(CallLimiter(s, called), s', key, lo, hi);
    OneMoreAdmitted(s.admissions, Admission(called, s.now), key, lo, hi);
  }

  lemma StepKeepsAllowed(s: State, step: Step, key: string, lo: int, hi: int)
    requires CounterOk(s, key) && AdmittedIn(s.admissions, key, lo, hi) <= Allowed(s, key, lo, hi)
    ensures AdmittedIn(Apply(s, step).admissions, key, lo, hi) <= Allowed(Apply(s, step), key, lo, hi)
  {
    hide Allowed, TokenKey, ChallengeKey, WithinCeiling, AdmittedIn, CounterOk, FixedWindow.Hit;
    var s' := Apply(s, step);
    match step
    case LimiterCall(called) =>
      if s' != s {
        RecordedIsAllowed(s, s', called, key, lo, hi);
      }
    case Admit(_, client) =>
      if s' != s {
        RecordedIsAllowed(s, s', TokenKey(client), key, lo, hi);
      }
    case AdmitChallenge(_, client) =>
      if s' != s {
        RecordedIsAllowed(s, s', ChallengeKey(client), key, lo, hi);
      }
    case _ =>
      OtherStepsKeepLimiter(s, step);
      SameCallsSameAllowed(s, s', key, lo, hi);
  }

  lemma {:induction false} AdmissionsAreAllowed(steps: seq<Step>, key: string, lo: int, hi: int)
    ensures AdmittedIn(Exec(steps).admissions, key, lo, hi) <= Allowed(Exec(steps), key, lo, hi)
  {
    if steps != [] {
      hide Apply, CounterOk, Allowed;
      AdmissionsAreAllowed(steps[..|steps| - 1], key, lo, hi);
      RunKeepsCounter(steps[..|steps| - 1], key);
      StepKeepsAllowed(Exec(steps[..|steps| - 1]), steps[|steps| - 1], key, lo, hi);
    }
  }

  lemma AdmissionsAreRateLimited(steps: seq<Step>, key: string, lo: int, w: nat)
    requires w > 0
    ensures var minute := RATE_WINDOW_SEC * NS_PER_SEC;
            AdmittedIn(Exec(steps).admissions, key, lo, lo + w - 1) <= RATE_PER_MINUTE * ((w + minute - 1) / minute + 1)
  {
    hide Exec, AdmittedIn, FixedWindow.AllowedIn, FixedWindow.Run;
    AdmissionsAreAllowed(steps, key, lo, lo + w - 1);
    RunKeepsCounter(steps, key);
    FixedWindow.AllowedCallsBounded(CallsOf(Exec(steps), key), key, RATE_WINDOW_SEC, RATE_PER_MINUTE, lo, w);
  }

  /** Over any run, in any interval of w nanoseconds, at most 30 * (ceil(w / 1 min) + 1) exchanges of
      one client get past the limiter, whatever else is counted or stored in the same Redis. */
  lemma ExchangesAreRateLimited(steps: seq<Step>, client: string, lo: int, w: nat)
    requires w > 0
    ensures var minute := RATE_WINDOW_SEC * NS_PER_SEC;
            AdmittedIn(Exec(steps).admissions, TokenKey(client), lo, lo + w - 1)
            <= RATE_PER_MINUTE * ((w + minute - 1) / minute + 1)
  {
    AdmissionsAreRateLimited(steps, TokenKey(client), lo, w);
  }

  function AsksOf(asks: map<nat, Ask>, client: string): set<nat> {
    set q | q in asks && asks[q].client == client
  }

  function Answers(asks: map<nat, Ask>): set<nat> {
    set q | q in asks && asks[q].Answered?
  }

  function AdmittedOn(a: seq<Admission>, key: string): nat {
    if a == [] then 0 else AdmittedOn(a[..|a| - 1], key) + (if a[|a| - 1].key == key then 1 else 0)
  }

  lemma ChallengeKeysApart(a: string, b: string)
    ensures ChallengeKey(a) == ChallengeKey(b) <==> a == b
    ensures ChallengeKey(a) != TokenKey(b)
  {
    assert ChallengeKey(a)[13..] == a && ChallengeKey(b)[13..] == b;
    assert FamilyOf(ChallengeKey(a)) != FamilyOf(TokenKey(b));
  }

  ghost predicate AsksOk(s: State, client: string) {
    |AsksOf(s.asks, client)| == AdmittedOn(s.admissions, ChallengeKey(client)) && |s.issued| == |Answers(s.asks)|
  }

  lemma AskCounts(asks: map<nat, Ask>, q: nat, client: string, other: string)
    requires q !in asks
    ensures |AsksOf(asks[q := Asked(client)], other)| == |AsksOf(asks, other)| + (if client == other then 1 else 0)
    ensures Answers(asks[q := Asked(client)]) == Answers(asks)
  {
    var asks' := asks[q := Asked(client)];
    if client == other {
      assert AsksOf(asks', other) == AsksOf(asks, other) + {q};
    } else {
      assert AsksOf(asks', other) == AsksOf(asks, other);
    }
    assert Answers(asks') == Answers(asks);
  }

  lemma AnswerCounts(asks: map<nat, Ask>, q: nat, client: string)
    requires q in asks && asks[q].Asked?
    ensures var asks' := asks[q := Answered(asks[q].client)];
            AsksOf(asks', client) == AsksOf(asks, client) && |Answers(asks')| == |Answers(asks)| + 1
  {
    assert Answers(asks[q := Answered(asks[q].client)]) == Answers(asks) + {q};
  }

  lemma NewAsk(s: State, q: nat, client: string, other: string)
    requires AsksOk(s, other)
    ensures AsksOk(ApplyAdmitChallenge(s, q, client), other)
  {
    hide CallLimiter, WithinCeiling, ChallengeKey, AsksOf, Answers;
    CallFrame(s, ChallengeKey(client));
    ChallengeKeysApart(client, other);
    assert (s.admissions + [Admission(ChallengeKey(client), s.now)])[..|s.admissions|] == s.admissions;
    if q !in s.asks {
      AskCounts(s.asks, q, client, other);
    }
  }

  lemma NewAnswer(s: State, q: nat, platform: string, nonce: string, client: string)
    requires AsksOk(s, client)
    ensures AsksOk(ApplyIssue(s, q, platform, nonce), client)
  {
    hide AttestKey, ChallengeKey, AdmittedOn, AsksOf, Answers;
    var s' := ApplyIssue(s, q, platform, nonce);
    if s' != s {
      AnswerCounts(s.asks, q, client);
      assert Challenge(AttestKey(s.asks[q].client, platform), nonce) !in s.issued;
    }
  }

  lemma OthersKeepAsks(s: State, step: Step, client: string)
    requires AsksOk(s, client) && !step.AdmitChallenge? && !step.IssueChallenge?
    ensures AsksOk(Apply(s, step), client)
  {
    hide AsksOf, Answers, FixedWindow.Hit, ApplyGrant, ApplyConsume, WithinCeiling, TokenKey, ChallengeKey, CandidateId;
    var s' := Apply(s, step);
    match step
    case Admit(r, c) =>
      hide AttestKey;
      ChallengeKeysApart(client, c);
      AdmitFrame(s, r, c);
      assert s'.admissions == s.admissions || s'.admissions == s.admissions + [Admission(TokenKey(c), s.now)];
      assert (s.admissions + [Admission(TokenKey(c), s.now)])[..|s.admissions|] == s.admissions;
    case ConsumeChallenge(r, platform, challenge, fault) =>
      ConsumeFrame(s, r, platform, challenge, fault);
      OtherIssued(s, step);
    case Grant(r, tenant, platform, verdict, deviceKey, entropy, fault) =>
      GrantFrame(s, r, tenant, platform, verdict, deviceKey, CandidateId(entropy), fault);
      OtherIssued(s, step);
    case _ =>
  }

  lemma {:induction false} RunKeepsAsks(steps: seq<Step>, client: string)
    ensures AsksOk(Exec(steps), client)
  {
    if steps == [] {
      assert AsksOf(map[], client) == {} && Answers(map[]) == {};
    } else {
      hide AsksOk, Apply;
      var s, step := Exec(steps[..|steps| - 1]), steps[|steps| - 1];
      RunKeepsAsks(steps[..|steps| - 1], client);
      StepKeepsAsks(s, step, client);
    }
  }

  lemma StepKeepsAsks(s: State, step: Step, client: string)
    requires AsksOk(s, client)
    ensures AsksOk(Apply(s, step), client)
  {
    hide AsksOk, ApplyIssue, ApplyAdmitChallenge;
    match step
    case AdmitChallenge(q, c) => NewAsk(s, q, c, client);
    case IssueChallenge(q, platform, nonce) => NewAnswer(s, q, platform, nonce, client);
    case _ => OthersKeepAsks(s, step, client);
  }

  /** Every challenge is issued to a request of its own that the limiter let through: requests of a
      client number exactly the calls let through on its key, at most 30 * (ceil(w / 1 min) + 1) in any
      interval of w nanoseconds, and nonces exactly the requests that were answered. */
  lemma ChallengesAreRateLimited(steps: seq<Step>, client: string, lo: int, w: nat)
    requires w > 0
    ensures var s, minute := Exec(steps), RATE_WINDOW_SEC * NS_PER_SEC;
            && |AsksOf(s.asks, client)| == AdmittedOn(s.admissions, ChallengeKey(client))
            && |s.issued| == |Answers(s.asks)|
            && AdmittedIn(s.admissions, ChallengeKey(client), lo, lo + w - 1) <= RATE_PER_MINUTE * ((w + minute - 1) / minute + 1)
  {
    RunKeepsAsks(steps, client);
    AdmissionsAreRateLimited(steps, ChallengeKey(client), lo, w);
  }
}
