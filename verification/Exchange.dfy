/** The token exchange: rate-limited admission, one-shot attestation nonces, tier assignment and
    install identity (services/ingest/internal/handler/token.go, attest/attest.go,
    pkg/controlplane/store.go). Platform attestation is an oracle; nonces come from enough entropy
    never to repeat. */
module Exchange {
  import opened Wrappers
  import opened Keys
  import opened Challenges
  import opened InstallTable
  import FixedWindow
  import Redis

  const RATE_PER_MINUTE := 30
  const RATE_WINDOW_SEC := 60

  // ---- Runs ------------------------------------------------------------------------------

  /** Where an exchange stands: within its client's ceiling; with its challenge consumed (and the
      right one, or not); or given a tier and an install identity. */
  datatype Progress =
    | Admitted(client: string)
    | Attesting(won: Option<Challenge>)
    | Granted(tier: nat, who: Identity, id: string)
    | Refused

  /** A challenge request that is within its client's ceiling, and one that has been answered. */
  datatype Ask = Asked(client: string) | Answered(client: string)

  /** A call the limiter let through, by its key. */
  datatype Admission = Admission(key: string, at: int)

  /** Redis and its time, the installs table and the exchanges under way; `calls`, `admissions`,
      `issued`, `latest`, `spent` and `grants` only record what happened. */
  datatype State = State(
    counters: Redis.Db, nonces: Nonces, now: int, installs: seq<Install>, exchanges: map<nat, Progress>, asks: map<nat, Ask>,
    calls: map<string, seq<int>>, admissions: seq<Admission>,
    issued: set<Challenge>, latest: Nonces, spent: seq<Challenge>, grants: seq<Challenge>)

  /** A LimiterCall is one whose reply is lost. An Admit beyond the ceiling, a 429, only counts; an
      unknown client, a lookup that fails and a command without effect take no step. */
  datatype Step =
    | Tick(d: nat)
    | LimiterCall(key: string)
    | Admit(r: nat, client: string)
    | AdmitChallenge(q: nat, client: string)
    | IssueChallenge(q: nat, platform: string, nonce: string)
    | ConsumeChallenge(r: nat, platform: string, challenge: string, fault: Fault)
    | Grant(r: nat, tenant: string, platform: string, verdict: Option<string>, deviceKey: string, entropy: seq<Byte>, fault: Fault)

  function CallsOf(s: State, key: string): seq<int> {
    if key in s.calls then s.calls[key] else []
  }

  function CallLimiter(s: State, key: string): State {
    s.(counters := FixedWindow.Hit(s.counters, key, RATE_WINDOW_SEC, s.now), calls := s.calls[key := CallsOf(s, key) + [s.now]])
  }

  predicate WithinCeiling(s: State, key: string) {
    Redis.Get(s.counters, key, s.now) + 1 <= RATE_PER_MINUTE
  }

  function ApplyAdmit(s: State, r: nat, client: string): State {
    if r in s.exchanges then s
    else
      var s1 := CallLimiter(s, TokenKey(client));
      if WithinCeiling(s, TokenKey(client)) then
        s1.(exchanges := s.exchanges[r := Admitted(client)], admissions := s.admissions + [Admission(TokenKey(client), s.now)])
      else s1
  }

  function ApplyAdmitChallenge(s: State, q: nat, client: string): State {
    if q in s.asks then s
    else
      var s1 := CallLimiter(s, ChallengeKey(client));
      if WithinCeiling(s, ChallengeKey(client)) then
        s1.(asks := s.asks[q := Asked(client)], admissions := s.admissions + [Admission(ChallengeKey(client), s.now)])
      else s1
  }

  predicate FreshNonce(s: State, nonce: string) {
    nonce != "" && forall c :: c in s.issued ==> c.nonce != nonce
  }

  function ApplyIssue(s: State, q: nat, platform: string, nonce: string): State {
    if q !in s.asks || !s.asks[q].Asked? || !FreshNonce(s, nonce) then s
    else
      var key := AttestKey(s.asks[q].client, platform);
      var nonces := Store(s.nonces, key, nonce, s.now);
      s.(nonces := nonces, asks := s.asks[q := Answered(s.asks[q].client)], issued := s.issued + {Challenge(key, nonce)}, latest := s.latest[key := nonces[key]])
  }

  function ApplyConsume(s: State, r: nat, platform: string, challenge: string, fault: Fault): State {
    if r !in s.exchanges || !s.exchanges[r].Admitted? then s
    else
      var key := AttestKey(s.exchanges[r].client, platform);
      var (nonces, ok) := Take(s.nonces, key, challenge, s.now, fault);
      s.(nonces := nonces,
         exchanges := s.exchanges[r := Attesting(if ok then Some(Challenge(key, challenge)) else None)],
         spent := if ok then s.spent + [Challenge(key, challenge)] else s.spent)
  }

  /** Tier 0 takes a won challenge and a positive verdict; anything else is tier 1. */
  function ApplyGrant(s: State, r: nat, tenant: string, platform: string, verdict: Option<string>, deviceKey: string, candidate: InstallId, fault: Fault): State {
    if r !in s.exchanges || !s.exchanges[r].Attesting? then s
    else
      var won := s.exchanges[r].won;
      var attested := won.Some? && verdict.Some?;
      var tier := if attested then 0 else 1;
      var who := IdentityFor(tenant, if attested then verdict.value else "", deviceKey);
      var rows := if fault.NoEffect? then None else UpsertInstall(s.installs, who, platform, deviceKey, tier, candidate);
      if rows.None? then s.(exchanges := s.exchanges[r := Refused])
      else if fault.ReplyLost? then s.(installs := rows.value, exchanges := s.exchanges[r := Refused])
      else
        var id := IdOf(rows.value, who);
        s.(installs := rows.value,
           exchanges := s.exchanges[r := Granted(tier, who, if id.Some? then id.value else "")],
           grants := if attested then s.grants + [won.value] else s.grants)
  }

  function Apply(s: State, step: Step): State {
    match step
    case Tick(d) => s.(now := s.now + d)
    case LimiterCall(key) => if FamilyOf(key) in {TokenLimiter, ChallengeLimiter} then CallLimiter(s, key) else s
    case Admit(r, client) => ApplyAdmit(s, r, client)
    case AdmitChallenge(q, client) => ApplyAdmitChallenge(s, q, client)
    case IssueChallenge(q, platform, nonce) => ApplyIssue(s, q, platform, nonce)
    case ConsumeChallenge(r, platform, challenge, fault) => ApplyConsume(s, r, platform, challenge, fault)
    case Grant(r, tenant, platform, verdict, deviceKey, entropy, fault) =>
      ApplyGrant(s, r, tenant, platform, verdict, deviceKey, CandidateId(entropy), fault)
  }

  /** The tables a step does not concern stay as they are. */
  ghost predicate SameLimiter(s: State, s': State) {
    s'.counters == s.counters && s'.calls == s.calls && s'.admissions == s.admissions && s'.now == s.now
  }

  lemma IssueFrame(s: State, q: nat, platform: string, nonce: string)
    ensures var s' := ApplyIssue(s, q, platform, nonce);
            && SameLimiter(s, s') && s'.installs == s.installs && s'.exchanges == s.exchanges && SameBut(s.asks, s'.asks, q)
  {
    hide FreshNonce, AttestKey;
  }

  ghost predicate SameNonces(s: State, s': State) {
    s'.nonces == s.nonces && s'.issued == s.issued && s'.latest == s.latest && s'.spent == s.spent && s'.grants == s.grants
  }

  ghost predicate SameBut<T>(m: map<nat, T>, m': map<nat, T>, r: nat) {
    forall q :: q != r ==> (q in m' <==> q in m) && (q in m ==> m'[q] == m[q])
  }

  lemma CallFrame(s: State, key: string)
    ensures var s' := CallLimiter(s, key);
            && s'.installs == s.installs && s'.exchanges == s.exchanges && s'.asks == s.asks
            && s'.admissions == s.admissions && s'.now == s.now && SameNonces(s, s')
  {
    hide FixedWindow.Hit;
  }

  lemma AdmitChallengeFrame(s: State, q: nat, client: string)
    ensures var s' := ApplyAdmitChallenge(s, q, client);
            s'.installs == s.installs && s'.exchanges == s.exchanges && SameNonces(s, s') && SameBut(s.asks, s'.asks, q)
  {
    hide CallLimiter, WithinCeiling, ChallengeKey;
    CallFrame(s, ChallengeKey(client));
  }

  lemma AdmitFrame(s: State, r: nat, client: string)
    ensures var s' := ApplyAdmit(s, r, client);
            s'.installs == s.installs && s'.asks == s.asks && SameNonces(s, s') && SameBut(s.exchanges, s'.exchanges, r)
  {
    hide CallLimiter, WithinCeiling, TokenKey;
    CallFrame(s, TokenKey(client));
  }

  lemma ConsumeFrame(s: State, r: nat, platform: string, challenge: string, fault: Fault)
    ensures var s' := ApplyConsume(s, r, platform, challenge, fault);
            && SameLimiter(s, s') && s'.installs == s.installs && s'.asks == s.asks && s'.issued == s.issued
            && (forall k :: k in s'.nonces ==> k in s.nonces)
            && SameBut(s.exchanges, s'.exchanges, r)
  {
    hide AttestKey;
  }

  lemma GrantFrame(s: State, r: nat, tenant: string, platform: string, verdict: Option<string>, deviceKey: string, candidate: InstallId, fault: Fault)
    ensures var s' := ApplyGrant(s, r, tenant, platform, verdict, deviceKey, candidate, fault);
            && SameLimiter(s, s') && s'.asks == s.asks && s'.issued == s.issued && s'.nonces == s.nonces
            && SameBut(s.exchanges, s'.exchanges, r)
  {
    hide UpsertInstall, IdOf, IdentityFor;
  }

  const START := State(map[], map[], 0, [], map[], map[], map[], [], {}, map[], [], [])

  function ExecFrom(s: State, steps: seq<Step>): State {
    if steps == [] then s else Apply(ExecFrom(s, steps[..|steps| - 1]), steps[|steps| - 1])
  }

  function Exec(steps: seq<Step>): State {
    ExecFrom(START, steps)
  }

  lemma LastStep(before: seq<Step>, step: Step)
    ensures Exec(before + [step]) == Apply(Exec(before), step)
  {
    assert (before + [step])[..|before|] == before;
  }

  lemma {:induction false} ExecSplits(a: seq<Step>, b: seq<Step>)
    ensures Exec(a + b) == ExecFrom(Exec(a), b)
  {
    if b == [] {
      assert a + b == a;
    } else {
      hide Apply;
      ExecSplits(a, b[..|b| - 1]);
      assert (a + b)[..|a + b| - 1] == a + b[..|b| - 1];
    }
  }

  /** Only issuing stores a nonce. */
  lemma OtherIssued(s: State, step: Step)
    requires !step.IssueChallenge?
    ensures Apply(s, step).issued == s.issued
    ensures forall key :: key in Apply(s, step).nonces ==> key in s.nonces
  {
    hide ApplyGrant, ApplyConsume, ApplyAdmit, ApplyAdmitChallenge, CallLimiter, CandidateId;
    match step
    case Tick(_) =>
    case LimiterCall(key) => CallFrame(s, key);
    case Admit(r, client) => AdmitFrame(s, r, client);
    case AdmitChallenge(q, client) => AdmitChallengeFrame(s, q, client);
    case ConsumeChallenge(r, platform, challenge, fault) => ConsumeFrame(s, r, platform, challenge, fault);
    case Grant(r, tenant, platform, verdict, deviceKey, entropy, fault) =>
      GrantFrame(s, r, tenant, platform, verdict, deviceKey, CandidateId(entropy), fault);
  }

  // ---- Nonces ----------------------------------------------------------------------------

  /** An outstanding nonce is the latest one issued for its key and unspent. */
  ghost predicate NoncesOk(s: State) {
    && (forall key :: key in s.nonces ==>
          key in s.latest && s.nonces[key] == s.latest[key]
          && Challenge(key, s.nonces[key].nonce) in s.issued && Challenge(key, s.nonces[key].nonce) !in s.spent)
    && Distinct(s.spent) && (forall c :: c in s.spent ==> c in s.issued)
  }

  /** What was won was spent, by one exchange, and has been used for at most one grant. */
  ghost predicate GrantsOk(s: State) {
    && Distinct(s.grants) && (forall c :: c in s.grants ==> c in s.spent)
    && (forall r :: r in s.exchanges && s.exchanges[r].Attesting? && s.exchanges[r].won.Some? ==>
          s.exchanges[r].won.value in s.spent && s.exchanges[r].won.value !in s.grants)
    && (forall q, r :: q in s.exchanges && r in s.exchanges && q != r
                       && s.exchanges[q].Attesting? && s.exchanges[r].Attesting? && s.exchanges[q].won.Some? ==>
          s.exchanges[q].won != s.exchanges[r].won)
  }

  ghost predicate NonceInv(s: State) {
    NoncesOk(s) && GrantsOk(s)
  }

  lemma ConsumeKeepsNonces(s: State, r: nat, platform: string, challenge: string, fault: Fault)
    requires NonceInv(s)
    ensures NoncesOk(ApplyConsume(s, r, platform, challenge, fault))
  {
    hide GrantsOk, AttestKey;
  }

  lemma ConsumeKeepsGrants(s: State, r: nat, platform: string, challenge: string, fault: Fault)
    requires NonceInv(s)
    ensures GrantsOk(ApplyConsume(s, r, platform, challenge, fault))
  {
    hide AttestKey, Distinct;
    var s' := ApplyConsume(s, r, platform, challenge, fault);
    assert forall c :: c in s.spent ==> c in s'.spent;
    assert |s'.spent| > |s.spent| ==> s'.spent[|s.spent|] !in s.spent;
  }

  lemma GrantKeepsNonceInv(s: State, r: nat, tenant: string, platform: string, verdict: Option<string>, deviceKey: string, candidate: InstallId, fault: Fault)
    requires NonceInv(s)
    ensures NonceInv(ApplyGrant(s, r, tenant, platform, verdict, deviceKey, candidate, fault))
  {
    hide NoncesOk, GrantsOk, ApplyGrant;
    GrantLeavesNonces(s, r, tenant, platform, verdict, deviceKey, candidate, fault);
    GrantUsesItsChallenge(s, r, tenant, platform, verdict, deviceKey, candidate, fault);
    LeavingKeepsGrants(s, ApplyGrant(s, r, tenant, platform, verdict, deviceKey, candidate, fault), r);
  }

  /** The exchange is over, and at most the challenge it had won is now a grant. */
  ghost predicate Leaves(s: State, s': State, r: nat) {
    && s'.spent == s.spent && r in s.exchanges && r in s'.exchanges && !s'.exchanges[r].Attesting?
    && (forall q :: q != r ==> (q in s'.exchanges <==> q in s.exchanges) && (q in s.exchanges ==> s'.exchanges[q] == s.exchanges[q]))
    && (s'.grants == s.grants
        || (s.exchanges[r].Attesting? && s.exchanges[r].won.Some? && s'.grants == s.grants + [s.exchanges[r].won.value]))
  }

  lemma GrantUsesItsChallenge(s: State, r: nat, tenant: string, platform: string, verdict: Option<string>, deviceKey: string, candidate: InstallId, fault: Fault)
    ensures var s' := ApplyGrant(s, r, tenant, platform, verdict, deviceKey, candidate, fault);
            s' == s || Leaves(s, s', r)
  {
    hide UpsertInstall, IdOf, IdentityFor, AttestKey;
  }

  lemma LeavingKeepsGrants(s: State, s': State, r: nat)
    requires GrantsOk(s) && (s' == s || Leaves(s, s', r))
    ensures GrantsOk(s')
  {
  }

  lemma GrantLeavesNonces(s: State, r: nat, tenant: string, platform: string, verdict: Option<string>, deviceKey: string, candidate: InstallId, fault: Fault)
    requires NoncesOk(s)
    ensures NoncesOk(ApplyGrant(s, r, tenant, platform, verdict, deviceKey, candidate, fault))
  {
    hide UpsertInstall, IdOf, IdentityFor, Distinct;
  }

  lemma IssueKeepsNonceInv(s: State, q: nat, platform: string, nonce: string)
    requires NonceInv(s)
    ensures NonceInv(ApplyIssue(s, q, platform, nonce))
  {
    hide AttestKey, Distinct;
    IssueFrame(s, q, platform, nonce);
    SameGrants(s, ApplyIssue(s, q, platform, nonce));
  }

  lemma SameGrants(s: State, s': State)
    requires GrantsOk(s) && s'.exchanges == s.exchanges && s'.spent == s.spent && s'.grants == s.grants
    ensures GrantsOk(s')
  {
    hide Distinct;
  }

  /** A new exchange has won nothing yet. */
  lemma NewExchangeKeepsNonceInv(s: State, s': State, r: nat)
    requires NonceInv(s) && r !in s.exchanges
    requires s'.nonces == s.nonces && s'.issued == s.issued && s'.latest == s.latest && s'.spent == s.spent && s'.grants == s.grants
    requires s'.exchanges == s.exchanges || exists client :: s'.exchanges == s.exchanges[r := Admitted(client)]
    ensures NonceInv(s')
  {
    hide Distinct;
  }

  lemma QuietKeepsNonceInv(s: State, s': State)
    requires NonceInv(s) && s'.exchanges == s.exchanges
    requires s'.nonces == s.nonces && s'.issued == s.issued && s'.latest == s.latest && s'.spent == s.spent && s'.grants == s.grants
    ensures NonceInv(s')
  {
    hide GrantsOk, Distinct;
    SameGrants(s, s');
  }

  lemma OtherStepsKeepNonceInv(s: State, step: Step)
    requires NonceInv(s) && !step.ConsumeChallenge? && !step.Grant?
    ensures NonceInv(Apply(s, step))
  {
    hide NonceInv, TokenKey, ChallengeKey, WithinCeiling, ApplyIssue, CallLimiter, ApplyAdmitChallenge;
    match step
    case Tick(_) => QuietKeepsNonceInv(s, Apply(s, step));
    case LimiterCall(key) =>
      CallFrame(s, key);
      QuietKeepsNonceInv(s, Apply(s, step));
    case Admit(r, client) =>
      if r !in s.exchanges {
        CallFrame(s, TokenKey(client));
        AdmitFrame(s, r, client);
        NewExchangeKeepsNonceInv(s, Apply(s, step), r);
      }
    case AdmitChallenge(q, client) =>
      AdmitChallengeFrame(s, q, client);
      QuietKeepsNonceInv(s, Apply(s, step));
    case IssueChallenge(q, platform, nonce) => IssueKeepsNonceInv(s, q, platform, nonce);
  }

  lemma StepKeepsNonceInv(s: State, step: Step)
    requires NonceInv(s)
    ensures NonceInv(Apply(s, step))
  {
    hide NoncesOk, GrantsOk, ApplyConsume, ApplyGrant;
    match step
    case ConsumeChallenge(r, platform, challenge, fault) =>
      ConsumeKeepsNonces(s, r, platform, challenge, fault);
      ConsumeKeepsGrants(s, r, platform, challenge, fault);
    case Grant(r, tenant, platform, verdict, deviceKey, entropy, fault) =>
      GrantKeepsNonceInv(s, r, tenant, platform, verdict, deviceKey, CandidateId(entropy), fault);
    case _ => OtherStepsKeepNonceInv(s, step);
  }

  lemma {:induction false} RunKeepsNonceInv(steps: seq<Step>)
    ensures NonceInv(Exec(steps))
  {
    if steps != [] {
      hide NonceInv, Apply;
      RunKeepsNonceInv(steps[..|steps| - 1]);
      StepKeepsNonceInv(Exec(steps[..|steps| - 1]), steps[|steps| - 1]);
    } else {
    }
  }

  /** Each nonce is spent at most once. */
  lemma NonceIsSpentOnce(steps: seq<Step>)
    ensures Distinct(Exec(steps).spent)
    ensures forall c :: c in Exec(steps).spent ==> c in Exec(steps).issued
  {
    RunKeepsNonceInv(steps);
  }

  /** Presenting a nonce succeeds only if it is the latest one issued for that client and platform,
      within five minutes of its issue, and has not been spent: a superseded nonce never succeeds. */
  lemma OnlyTheLatestNonceSucceeds(steps: seq<Step>, client: string, platform: string, challenge: string, fault: Fault)
    requires var s := Exec(steps); Take(s.nonces, AttestKey(client, platform), challenge, s.now, fault).1
    ensures var s, key := Exec(steps), AttestKey(client, platform);
            && key in s.latest && s.latest[key].nonce == challenge && s.now < s.latest[key].expireAt
            && Challenge(key, challenge) in s.issued && Challenge(key, challenge) !in s.spent
  {
    hide GrantsOk, AttestKey;
    RunKeepsNonceInv(steps);
  }

  function CountFor(s: seq<Challenge>, key: string): nat {
    if s == [] then 0 else CountFor(s[..|s| - 1], key) + (if s[|s| - 1].key == key then 1 else 0)
  }

  function IssuedFor(issued: set<Challenge>, key: string): set<Challenge> {
    set c | c in issued && c.key == key
  }

  lemma {:induction false} CountIsBounded(s: seq<Challenge>, all: set<Challenge>, key: string)
    requires Distinct(s) && forall c :: c in s ==> c in all
    ensures CountFor(s, key) <= |IssuedFor(all, key)|
  {
    if s != [] {
      var front, c := s[..|s| - 1], s[|s| - 1];
      assert s == front + [c];
      CountIsBounded(front, all - {c}, key);
      if c.key == key {
        assert IssuedFor(all - {c}, key) == IssuedFor(all, key) - {c};
        assert c in IssuedFor(all, key);
      } else {
        assert IssuedFor(all - {c}, key) == IssuedFor(all, key);
      }
    }
  }

  /** Tier-0 grants for a client and platform never outnumber the challenges issued to it. */
  lemma GrantsNeverExceedChallenges(steps: seq<Step>, client: string, platform: string)
    ensures var s, key := Exec(steps), AttestKey(client, platform);
            CountFor(s.grants, key) <= |IssuedFor(s.issued, key)|
  {
    RunKeepsNonceInv(steps);
    var s := Exec(steps);
    CountIsBounded(s.grants, s.issued, AttestKey(client, platform));
  }

  // ---- Nonces are used up -------------------------------------------------------------------

  /** The key holds no nonce, unless one has been issued on it since. */
  ghost predicate Spent(s0: State, s: State, key: string) {
    && (forall c :: c in s0.issued ==> c in s.issued)
    && (key in s.nonces ==> exists c :: c in s.issued && c !in s0.issued && c.key == key)
  }

  lemma StepStaysSpent(s0: State, s: State, step: Step, key: string)
    requires Spent(s0, s, key)
    ensures Spent(s0, Apply(s, step), key)
  {
    var s' := Apply(s, step);
    if step.IssueChallenge? {
      IssueStaysSpent(s0, s, step.q, step.platform, step.nonce, key);
    } else {
      OtherIssued(s, step);
    }
  }

  lemma IssueStaysSpent(s0: State, s: State, q: nat, platform: string, nonce: string, key: string)
    requires Spent(s0, s, key)
    ensures Spent(s0, ApplyIssue(s, q, platform, nonce), key)
  {
    hide AttestKey;
    var s' := ApplyIssue(s, q, platform, nonce);
    if s' != s {
      var c := Challenge(AttestKey(s.asks[q].client, platform), nonce);
      assert c in s'.issued && c !in s.issued;
    }
  }

  lemma {:induction false} RunStaysSpent(s0: State, steps: seq<Step>, key: string)
    requires key !in s0.nonces
    ensures Spent(s0, ExecFrom(s0, steps), key)
  {
    if steps != [] {
      hide Apply, Spent;
      RunStaysSpent(s0, steps[..|steps| - 1], key);
      StepStaysSpent(s0, ExecFrom(s0, steps[..|steps| - 1]), steps[|steps| - 1], key);
    }
  }

  /** A guess costs the nonce: after any presentation on a key whose command took effect, right or
      wrong, no exchange wins on that key, whatever it presents, until a new challenge has been issued
      on it. */
  lemma GuessUsesUpNonce(before: seq<Step>, guess: Step, after: seq<Step>, next: Step)
    requires guess.ConsumeChallenge? && guess.challenge != "" && !guess.fault.NoEffect?
    requires var s := Exec(before); guess.r in s.exchanges && s.exchanges[guess.r].Admitted?
    requires next.ConsumeChallenge?
    requires var s := Exec(before + [guess] + after);
             && next.r in s.exchanges && s.exchanges[next.r].Admitted?
             && AttestKey(s.exchanges[next.r].client, next.platform) == AttestKey(Exec(before).exchanges[guess.r].client, guess.platform)
             && forall c :: c in s.issued && c.key == AttestKey(Exec(before).exchanges[guess.r].client, guess.platform) ==> c in Exec(before).issued
    ensures Apply(Exec(before + [guess] + after), next).exchanges[next.r] == Attesting(None)
  {
    hide AttestKey, Exec, Apply;
    var s, key := Exec(before), AttestKey(Exec(before).exchanges[guess.r].client, guess.platform);
    var s1, s2 := Exec(before + [guess]), Exec(before + [guess] + after);
    LastStep(before, guess);
    ConsumedIsGone(s, guess);
    ExecSplits(before + [guess], after);
    RunStaysSpent(s1, after, key);
    OtherIssued(s, guess);
    NothingToWin(s2, next);
  }

  lemma ConsumedIsGone(s: State, guess: Step)
    requires guess.ConsumeChallenge? && guess.challenge != "" && !guess.fault.NoEffect?
    requires guess.r in s.exchanges && s.exchanges[guess.r].Admitted?
    ensures AttestKey(s.exchanges[guess.r].client, guess.platform) !in Apply(s, guess).nonces
  {
    hide AttestKey;
  }

  lemma NothingToWin(s: State, next: Step)
    requires next.ConsumeChallenge? && next.r in s.exchanges && s.exchanges[next.r].Admitted?
    requires AttestKey(s.exchanges[next.r].client, next.platform) !in s.nonces
    ensures Apply(s, next).exchanges[next.r] == Attesting(None)
  {
    hide AttestKey;
  }
}
