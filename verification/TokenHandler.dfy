/** The exchange endpoints as they are written (services/ingest/internal/handler/token.go), calling
    shared dependencies between which anything may happen; every run they leave is a run of
    Exchange. */
module TokenHandler {
  import opened Wrappers
  import opened Clock
  import opened Keys
  import opened KeyCache
  import opened Tokens
  import opened Exchange
  import opened InstallTable
  import opened Challenges
  import opened ExchangeIds
  import Redis

  /** A decoded TokenRequest. */
  datatype TokenRequest = TokenRequest(clientId: string, platform: string, attestation: string, challenge: string, deviceHint: string)

  /** A client_ids row. */
  datatype Client = Client(tenantId: string, revoked: bool)

  function ResolveTenant(clients: map<string, Client>, clientId: string): Option<string> {
    if clientId in clients && !clients[clientId].revoked then Some(clients[clientId].tenantId) else None
  }

  /** The tier-1 anchor; the SHA-256 over this text is idealised as the text itself. */
  function DeviceKey(req: TokenRequest): string {
    req.clientId + [NUL] + (req.platform + [NUL] + req.deviceHint)
  }

  function FirstIndex(s: string, c: char): nat {
    if s == "" || s[0] == c then 0 else 1 + FirstIndex(s[1..], c)
  }

  lemma {:induction false} FirstIndexOfCut(a: string, c: char, b: string)
    requires c !in a
    ensures FirstIndex(a + [c] + b, c) == |a|
  {
    if a != "" {
      FirstIndexOfCut(a[1..], c, b);
      assert (a + [c] + b)[1..] == a[1..] + [c] + b;
    }
  }

  lemma SplitFirst(a1: string, b1: string, a2: string, b2: string, c: char)
    requires c !in a1 && c !in a2 && a1 + [c] + b1 == a2 + [c] + b2
    ensures a1 == a2 && b1 == b2
  {
    FirstIndexOfCut(a1, c, b1);
    FirstIndexOfCut(a2, c, b2);
    var s := a1 + [c] + b1;
    assert a1 == s[..|a1|] && a2 == s[..|a2|];
    assert b1 == s[|a1| + 1..] && b2 == s[|a2| + 1..];
  }

  /** Client ids come from a Postgres text column, which holds no NUL, so two clients never share a
      device anchor. The platform and the hint are free text: within a client they are told apart
      exactly when their joined text is, which is always so while platforms hold no NUL. */
  lemma DeviceKeysApart(a: TokenRequest, b: TokenRequest)
    requires NUL !in a.clientId && NUL !in b.clientId
    ensures DeviceKey(a) == DeviceKey(b) <==>
            a.clientId == b.clientId && a.platform + [NUL] + a.deviceHint == b.platform + [NUL] + b.deviceHint
    ensures NUL !in a.platform && NUL !in b.platform ==>
              (DeviceKey(a) == DeviceKey(b) <==>
               a.clientId == b.clientId && a.platform == b.platform && a.deviceHint == b.deviceHint)
  {
    var ta, tb := a.platform + [NUL] + a.deviceHint, b.platform + [NUL] + b.deviceHint;
    if DeviceKey(a) == DeviceKey(b) {
      assert DeviceKey(a) == a.clientId + [NUL] + ta && DeviceKey(b) == b.clientId + [NUL] + tb;
      SplitFirst(a.clientId, ta, b.clientId, tb, NUL);
      if NUL !in a.platform && NUL !in b.platform {
        SplitFirst(a.platform, a.deviceHint, b.platform, b.deviceHint, NUL);
      }
    }
  }

  /** A platform with a NUL could share an anchor with another, but no exchange with one is ever
      granted: the platform goes into a text column itself. */
  lemma NulPlatformsCollide(client: string, rows: seq<Install>, who: Identity, tier: nat, candidate: InstallId)
    ensures var a := TokenRequest(client, "ios", "", "", "x" + [NUL] + "y");
            var b := TokenRequest(client, "ios" + [NUL] + "x", "", "", "y");
            && DeviceKey(a) == DeviceKey(b)
            && UpsertInstall(rows, who, b.platform, DeviceKey(b), tier, candidate).None?
  {
    assert "ios" + [NUL] + ("x" + [NUL] + "y") == ("ios" + [NUL] + "x") + [NUL] + "y";
    var platform := "ios" + [NUL] + "x";
    assert platform[3] == NUL;
  }

  /** So requests that can be granted share an anchor only if client, platform and hint agree. */
  lemma GrantedAnchorsApart(a: TokenRequest, b: TokenRequest, rowsA: seq<Install>, rowsB: seq<Install>, whoA: Identity, whoB: Identity,
                            tierA: nat, tierB: nat, candidateA: InstallId, candidateB: InstallId)
    requires NUL !in a.clientId && NUL !in b.clientId
    requires UpsertInstall(rowsA, whoA, a.platform, DeviceKey(a), tierA, candidateA).Some?
    requires UpsertInstall(rowsB, whoB, b.platform, DeviceKey(b), tierB, candidateB).Some?
    ensures DeviceKey(a) == DeviceKey(b) <==>
            a.clientId == b.clientId && a.platform == b.platform && a.deviceHint == b.deviceHint
  {
    DeviceKeysApart(a, b);
  }

  datatype Reply =
    | Issued(token: Wire, expiresInSec: int, tier: nat)
    | Challenged(nonce: string)
    | UnknownClient401
    | RateLimited429(retryAfterSec: int)
    | Unavailable503

  /** The claims of a granted exchange. */
  function ClaimsOf(tenant: string, p: Progress): TokenClaims
    requires p.Granted?
  {
    TokenClaims(tenant, p.id, SCOPE_WRITE, p.tier)
  }

  lemma WriteScopeIsMintable()
    ensures HasScope(SCOPE_WRITE, SCOPE_WRITE)
  {
    assert StandsAt(SCOPE_WRITE, SCOPE_WRITE, 0, |SCOPE_WRITE|);
    ScopeIsByWholeWord(SCOPE_WRITE, SCOPE_WRITE);
  }

  /** A token minted for a granted exchange verifies, throughout its window, to the exchange's own
      tenant, install and tier. */
  lemma GrantedTokenVerifies(m: Minter, tenant: string, p: Progress, minted: int, key: Jwk, now: int)
    requires p.Granted? && p.tier <= 1 && p.id != "" && tenant != ""
    requires key.material == m.pair && InWindow(m, minted, now)
    ensures VerifyUnder(Mint(m, ClaimsOf(tenant, p), minted).token, Some(key), m.issuer, m.audience, now)
            == Ok(ClaimsOf(tenant, p))
  {
    WriteScopeIsMintable();
    MintVerifyRoundTrip(m, ClaimsOf(tenant, p), minted, key, now);
  }

  // ---- The endpoints ------------------------------------------------------------------------

  /** The step is taken on behalf of this request, an exchange or a challenge. */
  predicate IsBy(step: Step, me: nat) {
    match step
    case AdmitChallenge(q, _) => q == me
    case IssueChallenge(q, _, _) => q == me
    case Admit(r, _) => r == me
    case ConsumeChallenge(r, _, _, _) => r == me
    case Grant(r, _, _, _, _, _, _) => r == me
    case _ => false
  }

  lemma OthersLeaveMine(s: State, step: Step, me: nat)
    requires !IsBy(step, me)
    ensures var s' := Apply(s, step);
            && (me in s'.exchanges <==> me in s.exchanges) && (me in s.exchanges ==> s'.exchanges[me] == s.exchanges[me])
            && (me in s'.asks <==> me in s.asks) && (me in s.asks ==> s'.asks[me] == s.asks[me])
  {
    hide ApplyGrant, ApplyConsume, ApplyIssue, ApplyAdmit, ApplyAdmitChallenge, CallLimiter, CandidateId;
    match step
    case Tick(_) =>
    case LimiterCall(key) => CallFrame(s, key);
    case Admit(r, client) => AdmitFrame(s, r, client);
    case AdmitChallenge(q, client) => AdmitChallengeFrame(s, q, client);
    case IssueChallenge(q, platform, nonce) => IssueFrame(s, q, platform, nonce);
    case ConsumeChallenge(r, platform, challenge, fault) => ConsumeFrame(s, r, platform, challenge, fault);
    case Grant(r, tenant, platform, verdict, deviceKey, entropy, fault) =>
      GrantFrame(s, r, tenant, platform, verdict, deviceKey, CandidateId(entropy), fault);
  }

  /** The identity an exchange is for: its attested subject, or else its device. */
  predicate IsFor(who: Identity, tenant: string, subject: Option<string>, deviceKey: string) {
    if subject.Some? && subject.value != "" then who == Attested(tenant, subject.value) else who == Unattested(tenant, deviceKey)
  }

  /** What granting does to the exchange itself; it is refused only by a failing statement, text with a
      NUL, or a candidate id that is taken. */
  lemma GrantOutcome(s: State, trace: seq<Step>, r: nat, tenant: string, platform: string, verdict: Option<string>, deviceKey: string,
                     candidate: InstallId, fault: Fault)
    requires s == Exec(trace) && r in s.exchanges && s.exchanges[r].Attesting?
    ensures var s' := ApplyGrant(s, r, tenant, platform, verdict, deviceKey, candidate, fault);
            var won := s.exchanges[r].won;
            var attested := won.Some? && verdict.Some?;
            && r in s'.exchanges
            && (s'.exchanges[r] == Refused
                || (s'.exchanges[r].Granted? && s'.exchanges[r].tier == (if attested then 0 else 1)
                    && IsFor(s'.exchanges[r].who, tenant, if attested then verdict else None, deviceKey)
                    && (attested ==> won.value in s'.grants)
                    && IdOf(s'.installs, s'.exchanges[r].who) == Some(s'.exchanges[r].id)))
            && (s'.exchanges[r] == Refused ==>
                  !fault.NoFault? || NUL in platform || (verdict.Some? && NUL in verdict.value) || IdTaken(s.installs, candidate))
  {
    hide Exec, UpsertInstall, IdOf;
    var attested := s.exchanges[r].won.Some? && verdict.Some?;
    var who := IdentityFor(tenant, if attested then verdict.value else "", deviceKey);
    IssueGivesId(s.installs, who, platform, deviceKey, if attested then 0 else 1, candidate, trace);
    UpsertMeaning(s.installs, who, platform, deviceKey, if attested then 0 else 1, candidate);
  }

  lemma IssueGivesId(rows: seq<Install>, who: Identity, platform: string, deviceKey: string, tier: nat, candidate: InstallId, trace: seq<Step>)
    requires rows == Exec(trace).installs
    ensures var r := UpsertInstall(rows, who, platform, deviceKey, tier, candidate); r.Some? ==> IdOf(r.value, who).Some?
  {
    hide Exec, UpsertInstall, IdOf, InstallInv;
    RunInv(trace, who);
    IssueKeepsIds(rows, who, platform, deviceKey, tier, candidate, who);
  }

  predicate OverCeiling(s: State, key: string) {
    Redis.Get(s.counters, key, s.now) + 1 > RATE_PER_MINUTE
  }

  /** The nonce presented is the outstanding one and has not expired. */
  predicate NonceAlive(s: State, key: string, challenge: string) {
    challenge != "" && key in s.nonces && s.now < s.nonces[key].expireAt && s.nonces[key].nonce == challenge
  }

  /** After the first `from` steps of the run came this one, in a state that was over the ceiling or not. */
  ghost predicate Limited(trace: seq<Step>, from: nat, step: Step, key: string, over: bool) {
    exists n: nat :: from <= n < |trace| && trace[n] == step && (over <==> OverCeiling(Exec(trace[..n]), key))
  }

  /** After them came this presentation, of a nonce that was alive or not. */
  ghost predicate Presented(trace: seq<Step>, from: nat, step: Step, key: string, challenge: string, alive: bool) {
    exists n: nat :: from <= n < |trace| && trace[n] == step && (alive <==> NonceAlive(Exec(trace[..n]), key, challenge))
  }

  lemma StaysLimited(trace: seq<Step>, more: seq<Step>, from: nat, earlier: nat, step: Step, key: string, over: bool)
    requires Limited(trace, from, step, key, over) && trace <= more && earlier <= from
    ensures Limited(more, earlier, step, key, over)
  {
    hide Exec, OverCeiling;
    var n: nat :| from <= n < |trace| && trace[n] == step && (over <==> OverCeiling(Exec(trace[..n]), key));
    assert more[..n] == trace[..n];
  }

  lemma StaysPresented(trace: seq<Step>, more: seq<Step>, from: nat, earlier: nat, step: Step, key: string, challenge: string, alive: bool)
    requires Presented(trace, from, step, key, challenge, alive) && trace <= more && earlier <= from
    ensures Presented(more, earlier, step, key, challenge, alive)
  {
    hide Exec, NonceAlive;
    var n: nat :| from <= n < |trace| && trace[n] == step && (alive <==> NonceAlive(Exec(trace[..n]), key, challenge));
    assert more[..n] == trace[..n];
  }

  lemma JustLimited(trace: seq<Step>, s: State, step: Step, key: string)
    requires s == Exec(trace)
    ensures Limited(trace + [step], |trace|, step, key, OverCeiling(s, key))
  {
    hide Exec, OverCeiling;
    assert (trace + [step])[..|trace|] == trace;
  }

  lemma JustPresented(trace: seq<Step>, s: State, step: Step, key: string, challenge: string)
    requires s == Exec(trace)
    ensures Presented(trace + [step], |trace|, step, key, challenge, NonceAlive(s, key, challenge))
  {
    hide Exec, NonceAlive;
    assert (trace + [step])[..|trace|] == trace;
  }

  lemma AdmitOutcome(s: State, me: nat, client: string)
    requires me !in s.exchanges
    ensures var s' := Apply(s, Admit(me, client));
            if OverCeiling(s, TokenKey(client)) then me !in s'.exchanges
            else me in s'.exchanges && s'.exchanges[me] == Admitted(client)
  {
    hide CallLimiter, TokenKey;
    CallFrame(s, TokenKey(client));
  }

  lemma AdmitChallengeOutcome(s: State, me: nat, client: string)
    requires me !in s.asks
    ensures var s' := Apply(s, AdmitChallenge(me, client));
            if OverCeiling(s, ChallengeKey(client)) then me !in s'.asks
            else me in s'.asks && s'.asks[me] == Asked(client)
  {
    hide CallLimiter, ChallengeKey;
    CallFrame(s, ChallengeKey(client));
  }

  lemma ConsumeOutcome(s: State, me: nat, req: TokenRequest, fault: Fault)
    requires me in s.exchanges && s.exchanges[me] == Admitted(req.clientId)
    ensures var s' := Apply(s, ConsumeChallenge(me, req.platform, req.challenge, fault));
            var key := AttestKey(req.clientId, req.platform);
            var won := fault.NoFault? && NonceAlive(s, key, req.challenge);
            && me in s'.exchanges && s'.exchanges[me] == Attesting(if won then Some(Challenge(key, req.challenge)) else None)
            && (won ==> Challenge(key, req.challenge) in s'.spent)
            && (won <==> Take(s.nonces, key, req.challenge, s.now, fault).1)
  {
    hide AttestKey;
  }

  /** The server's side of both endpoints, and the system it runs in; `trace` is the run so far. The
      attestor is an oracle; a `fault` says how a call to a dependency goes. */
  class Server {
    const minter: Minter
    const attestor: (string, string, string) -> Option<string>
    var clients: map<string, Client>
    var s: State
    ghost var trace: seq<Step>

    ghost predicate Valid()
      reads this
    {
      s == Exec(trace)
    }

    constructor (minter: Minter, attestor: (string, string, string) -> Option<string>, clients: map<string, Client>)
      ensures this.minter == minter && this.attestor == attestor && this.clients == clients
      ensures Valid() && s == START && trace == []
    {
      this.minter, this.attestor, this.clients := minter, attestor, clients;
      s, trace := START, [];
    }

    /** One atomic step. */
    method Do(step: Step)
      requires Valid()
      modifies `s, `trace
      ensures Valid() && trace == old(trace) + [step] && s == Apply(old(s), step)
    {
      s := Apply(s, step);
      trace := trace + [step];
      assert trace[..|trace| - 1] == old(trace);
    }

    /** Everybody else gets to run: any number of steps, none of them for this request. */
    method Interfere(me: nat)
      requires Valid()
      modifies `s, `trace
      ensures Valid() && old(trace) <= trace
      ensures (me in s.exchanges <==> me in old(s).exchanges) && (me in s.exchanges ==> s.exchanges[me] == old(s).exchanges[me])
      ensures (me in s.asks <==> me in old(s).asks) && (me in s.asks ==> s.asks[me] == old(s).asks[me])
    {
      hide Exec, Apply;
      var more: bool := *;
      var budget: nat := *;
      while more && budget > 0
        invariant Valid() && old(trace) <= trace
        invariant (me in s.exchanges <==> me in old(s).exchanges) && (me in s.exchanges ==> s.exchanges[me] == old(s).exchanges[me])
        invariant (me in s.asks <==> me in old(s).asks) && (me in s.asks ==> s.asks[me] == old(s).asks[me])
        decreases budget
      {
        var step: Step := *;
        if !IsBy(step, me) {
          OthersLeaveMine(s, step, me);
          Do(step);
        }
        more := *;
        budget := budget - 1;
      }
    }

    /** ResolveTenant; a lookup that fails answers like an unknown client. */
    method Resolve(clientId: string, works: bool) returns (tenant: Option<string>)
      ensures tenant.Some? <==> works && clientId in clients && !clients[clientId].revoked
      ensures tenant.Some? ==> tenant.value == clients[clientId].tenantId
    {
      return if works then ResolveTenant(clients, clientId) else None;
    }

    /** The token endpoint's limiter: None lets the exchange pass. The state the call met decides. */
    method LimitToken(me: nat, client: string, fault: Fault) returns (refusal: Option<Reply>)
      requires Valid() && me !in s.exchanges
      modifies `s, `trace
      ensures Valid()
      ensures fault.NoFault? ==> trace == old(trace) + [Admit(me, client)]
      ensures fault.NoEffect? ==> trace == old(trace)
      ensures fault.ReplyLost? ==> trace == old(trace) + [LimiterCall(TokenKey(client))]
      ensures refusal == if !fault.NoFault? then Some(Unavailable503)
                         else if OverCeiling(old(s), TokenKey(client)) then Some(RateLimited429(60)) else None
      ensures fault.NoFault? ==> Limited(trace, |old(trace)|, Admit(me, client), TokenKey(client), refusal.Some?)
      ensures refusal.None? ==> me in s.exchanges && s.exchanges[me] == Admitted(client)
      ensures refusal.Some? ==> me !in s.exchanges
    {
      hide Exec, TokenKey, CallLimiter, Limited;
      CallFrame(s, TokenKey(client));
      if !fault.NoFault? {
        if fault.ReplyLost? {
          Do(LimiterCall(TokenKey(client)));
        }
        return Some(Unavailable503);
      }
      AdmitOutcome(s, me, client);
      JustLimited(trace, s, Admit(me, client), TokenKey(client));
      var ok := WithinCeiling(s, TokenKey(client));
      Do(Admit(me, client));
      return if ok then None else Some(RateLimited429(60));
    }

    /** Consume, for this exchange. */
    method Consume(me: nat, req: TokenRequest, fault: Fault) returns (won: bool)
      requires Valid() && me in s.exchanges && s.exchanges[me] == Admitted(req.clientId)
      modifies `s, `trace
      ensures Valid() && trace == old(trace) + [ConsumeChallenge(me, req.platform, req.challenge, fault)]
      ensures won <==> fault.NoFault? && NonceAlive(old(s), AttestKey(req.clientId, req.platform), req.challenge)
      ensures Presented(trace, |old(trace)|, ConsumeChallenge(me, req.platform, req.challenge, fault), AttestKey(req.clientId, req.platform),
                        req.challenge, NonceAlive(old(s), AttestKey(req.clientId, req.platform), req.challenge))
      ensures me in s.exchanges
      ensures var challenge := Challenge(AttestKey(req.clientId, req.platform), req.challenge);
              s.exchanges[me] == Attesting(if won then Some(challenge) else None) && (won ==> challenge in s.spent)
    {
      hide Exec, AttestKey, Apply, NonceAlive, Presented;
      ConsumeOutcome(s, me, req, fault);
      JustPresented(trace, s, ConsumeChallenge(me, req.platform, req.challenge, fault), AttestKey(req.clientId, req.platform), req.challenge);
      won := Take(s.nonces, AttestKey(req.clientId, req.platform), req.challenge, s.now, fault).1;
      Do(ConsumeChallenge(me, req.platform, req.challenge, fault));
    }

    /** IssueInstall, for this exchange: its id, unless the statement fails or its reply is lost, the text
        holds a NUL, or the candidate id is taken. */
    method IssueInstall(me: nat, tenant: string, req: TokenRequest, verdict: Option<string>, entropy: seq<Byte>, fault: Fault)
      returns (id: Option<string>)
      requires Valid() && me in s.exchanges && s.exchanges[me].Attesting?
      modifies `s, `trace
      ensures Valid() && trace == old(trace) + [Grant(me, tenant, req.platform, verdict, DeviceKey(req), entropy, fault)]
      ensures me in s.exchanges
      ensures id.None? ==> s.exchanges[me] == Refused
      ensures id.None? ==> !fault.NoFault? || NUL in req.platform || (verdict.Some? && NUL in verdict.value)
                           || IdTaken(old(s).installs, CandidateId(entropy))
      ensures id.Some? ==>
                var won, x := old(s).exchanges[me].won, s.exchanges[me];
                var attested := won.Some? && verdict.Some?;
                && x.Granted? && x.tier == (if attested then 0 else 1) && x.id == id.value
                && IsFor(x.who, tenant, if attested then verdict else None, DeviceKey(req))
                && (attested ==> won.value in s.grants)
                && id == IdOf(s.installs, x.who)
    {
      hide Exec, ApplyGrant, DeviceKey, CandidateId, IdOf, IsFor, IdTaken;
      GrantOutcome(s, trace, me, tenant, req.platform, verdict, DeviceKey(req), CandidateId(entropy), fault);
      Do(Grant(me, tenant, req.platform, verdict, DeviceKey(req), entropy, fault));
      if s.exchanges[me].Granted? {
        return Some(s.exchanges[me].id);
      }
      return None;
    }

    /** The token endpoint, from its decoded body, with everybody else running in between; the parameters
        say how its own calls go. The run it leaves is a run of Exchange in which this exchange's outcome
        is the reply. 401 means exactly an unknown or revoked client or a failing lookup; 429 that the
        limiter's call, a step of that run, met a full window; a request none of whose calls fail, within
        its ceiling, without NUL text and with an unused candidate id gets a token. The token carries the
        tier and the identity that run has granted; tier 0 is exactly a nonce alive when it was presented
        and a positive verdict. */
    method NewToken(me: nat, req: TokenRequest, now: int, entropy: seq<Byte>,
                    lookupWorks: bool, limiterFault: Fault, nonceFault: Fault, installFault: Fault)
      returns (reply: Reply)
      requires Valid() && me !in s.exchanges
      modifies `s, `trace
      ensures Valid() && old(trace) <= trace
      ensures reply.UnknownClient401? <==> !(lookupWorks && req.clientId in clients && !clients[req.clientId].revoked)
      ensures !reply.UnknownClient401? && !limiterFault.NoFault? ==> reply == Unavailable503
      ensures !reply.UnknownClient401? && limiterFault.NoFault? ==>
                Limited(trace, |old(trace)|, Admit(me, req.clientId), TokenKey(req.clientId), reply == RateLimited429(60))
      ensures reply.UnknownClient401? || reply.RateLimited429? ==> me !in s.exchanges
      ensures reply.RateLimited429? ==> reply.retryAfterSec == 60
      ensures reply.Unavailable503? ==>
                || (me !in s.exchanges && !limiterFault.NoFault?)
                || (me in s.exchanges && s.exchanges[me] == Refused && trace != []
                    && var verdict := attestor(req.platform, req.attestation, req.challenge);
                       || !installFault.NoFault? || NUL in req.platform || (verdict.Some? && NUL in verdict.value)
                       || IdTaken(Exec(trace[..|trace| - 1]).installs, CandidateId(entropy)))
      ensures !reply.Challenged?
      ensures reply.Issued? ==>
                var tenant := clients[req.clientId].tenantId;
                var verdict := attestor(req.platform, req.attestation, req.challenge);
                var key := AttestKey(req.clientId, req.platform);
                && me in s.exchanges && s.exchanges[me].Granted?
                && reply.token == Mint(minter, ClaimsOf(tenant, s.exchanges[me]), now)
                && reply.expiresInSec == minter.ttl / NS_PER_SEC && reply.tier == s.exchanges[me].tier <= 1
                && Redeemed(trace, |old(trace)|, me, req, nonceFault, reply.tier)
                && (reply.tier == 0 ==> Challenge(key, req.challenge) in s.grants)
                && IsFor(s.exchanges[me].who, tenant, if reply.tier == 0 then verdict else None, DeviceKey(req))
                && IdOf(s.installs, s.exchanges[me].who) == Some(s.exchanges[me].id)
    {
      hide Exec, Mint, IdOf, DeviceKey, AttestKey, TokenKey, OverCeiling, NonceAlive, IsFor, IdTaken, CandidateId, Limited, Redeemed;
      var tenant := Resolve(req.clientId, lookupWorks);
      if tenant.None? {
        return UnknownClient401;
      }
      Interfere(me);
      ghost var t0 := |trace|;
      var refusal := LimitToken(me, req.clientId, limiterFault);
      ghost var limited := trace;
      if refusal.Some? {
        if limiterFault.NoFault? {
          StaysLimited(limited, trace, t0, |old(trace)|, Admit(me, req.clientId), TokenKey(req.clientId), true);
        }
        return refusal.value;
      }

      var installId, tier := Redeem(me, tenant.value, req, entropy, nonceFault, installFault);
      StaysLimited(limited, trace, t0, |old(trace)|, Admit(me, req.clientId), TokenKey(req.clientId), false);
      StaysRedeemed(trace, |limited|, |old(trace)|, me, req, nonceFault, tier);
      if !installId.Some? {
        return Unavailable503;
      }
      return Issued(Mint(minter, TokenClaims(tenant.value, installId.value, SCOPE_WRITE, tier), now), minter.ttl / NS_PER_SEC, tier);
    }

    lemma StaysRedeemed(t: seq<Step>, from: nat, earlier: nat, me: nat, req: TokenRequest, fault: Fault, tier: nat)
      requires Redeemed(t, from, me, req, fault, tier) && earlier <= from
      ensures Redeemed(t, earlier, me, req, fault, tier)
    {
      hide Presented, AttestKey;
      var alive :| Presented(t, from, ConsumeChallenge(me, req.platform, req.challenge, fault), AttestKey(req.clientId, req.platform), req.challenge, alive)
                   && (tier == 0 <==> attestor(req.platform, req.attestation, req.challenge).Some? && fault.NoFault? && alive);
      StaysPresented(t, t, from, earlier, ConsumeChallenge(me, req.platform, req.challenge, fault), AttestKey(req.clientId, req.platform), req.challenge, alive);
    }

    /** Tier 0 is exactly a nonce that was alive when it was presented, and a positive verdict. */
    ghost predicate Redeemed(t: seq<Step>, from: nat, me: nat, req: TokenRequest, fault: Fault, tier: nat) {
      exists alive :: Presented(t, from, ConsumeChallenge(me, req.platform, req.challenge, fault), AttestKey(req.clientId, req.platform), req.challenge, alive)
                      && (tier == 0 <==> attestor(req.platform, req.attestation, req.challenge).Some? && fault.NoFault? && alive)
    }

    /** The challenge, the attestation and the install of an exchange that is within its ceiling. */
    method Redeem(me: nat, tenant: string, req: TokenRequest, entropy: seq<Byte>, nonceFault: Fault, installFault: Fault)
      returns (id: Option<string>, tier: nat)
      requires Valid() && me in s.exchanges && s.exchanges[me] == Admitted(req.clientId)
      modifies `s, `trace
      ensures Valid() && old(trace) <= trace && trace != [] && tier <= 1
      ensures Redeemed(trace, |old(trace)|, me, req, nonceFault, tier)
      ensures me in s.exchanges
      ensures id.None? ==>
                var verdict := attestor(req.platform, req.attestation, req.challenge);
                && s.exchanges[me] == Refused
                && (|| !installFault.NoFault? || NUL in req.platform || (verdict.Some? && NUL in verdict.value)
                    || IdTaken(Exec(trace[..|trace| - 1]).installs, CandidateId(entropy)))
      ensures id.Some? ==>
                var verdict, x := attestor(req.platform, req.attestation, req.challenge), s.exchanges[me];
                && x.Granted? && x.tier == tier && x.id == id.value
                && (tier == 0 ==> Challenge(AttestKey(req.clientId, req.platform), req.challenge) in s.grants)
                && IsFor(x.who, tenant, if tier == 0 then verdict else None, DeviceKey(req))
                && IdOf(s.installs, x.who) == id
    {
      hide Exec, IdOf, DeviceKey, AttestKey, NonceAlive, IsFor, IdTaken, CandidateId, Presented;
      Interfere(me);
      ghost var t1 := |trace|;
      tier := 1;
      ghost var alive := NonceAlive(s, AttestKey(req.clientId, req.platform), req.challenge);
      var won := Consume(me, req, nonceFault);
      ghost var presented := trace;
      var verdict: Option<string> := None;
      if won {
        verdict := attestor(req.platform, req.attestation, req.challenge);
        if verdict.Some? {
          tier := 0;
        }
      }

      Interfere(me);
      ghost var last := trace;
      id := IssueInstall(me, tenant, req, verdict, entropy, installFault);
      assert trace[..|trace| - 1] == last;
      StaysPresented(presented, trace, t1, |old(trace)|, ConsumeChallenge(me, req.platform, req.challenge, nonceFault),
                     AttestKey(req.clientId, req.platform), req.challenge, alive);
    }

    /** The challenge endpoint. Only a request of its own that the limiter let through is answered; 429
        means that the limiter's call met a full window. A draw that repeats an earlier nonce, which its
        256 bits rule out, is taken for a failure. */
    method NewChallenge(me: nat, req: TokenRequest, nonce: string, lookupWorks: bool, limiterFault: Fault, storeFault: Fault)
      returns (reply: Reply)
      requires Valid() && me !in s.asks
      modifies `s, `trace
      ensures Valid() && old(trace) <= trace
      ensures reply.UnknownClient401? <==> !(lookupWorks && req.clientId in clients && !clients[req.clientId].revoked)
      ensures !reply.UnknownClient401? && !limiterFault.NoFault? ==> reply == Unavailable503
      ensures !reply.UnknownClient401? && limiterFault.NoFault? ==>
                Limited(trace, |old(trace)|, AdmitChallenge(me, req.clientId), ChallengeKey(req.clientId), reply == RateLimited429(60))
      ensures reply.UnknownClient401? || reply.RateLimited429? ==> me !in s.asks
      ensures reply.RateLimited429? ==> reply.retryAfterSec == 60
      ensures reply.Unavailable503? && limiterFault.NoFault? && storeFault.NoFault? ==> !FreshNonce(s, nonce)
      ensures !reply.Issued?
      ensures reply.Challenged? ==>
                var key := AttestKey(req.clientId, req.platform);
                && me in s.asks && s.asks[me] == Answered(req.clientId)
                && reply.nonce == nonce && Challenge(key, nonce) in s.issued
                && key in s.nonces && key in s.latest && s.nonces[key] == s.latest[key] == Outstanding(nonce, s.now + CHALLENGE_TTL)
    {
      hide Exec, AttestKey, ChallengeKey, FreshNonce, CallLimiter, OverCeiling, Limited;
      var tenant := Resolve(req.clientId, lookupWorks);
      if tenant.None? {
        return UnknownClient401;
      }
      Interfere(me);
      ghost var t0 := |trace|;
      var refusal := LimitChallenge(me, req.clientId, limiterFault);
      ghost var limited := trace;
      if refusal.Some? {
        if limiterFault.NoFault? {
          StaysLimited(limited, trace, t0, |old(trace)|, AdmitChallenge(me, req.clientId), ChallengeKey(req.clientId), true);
        }
        return refusal.value;
      }

      Interfere(me);
      StaysLimited(limited, trace, t0, |old(trace)|, AdmitChallenge(me, req.clientId), ChallengeKey(req.clientId), false);
      if storeFault.NoEffect? || !FreshNonce(s, nonce) {
        return Unavailable503;
      }
      ghost var stored := trace;
      Do(IssueChallenge(me, req.platform, nonce));
      StaysLimited(stored, trace, |old(trace)|, |old(trace)|, AdmitChallenge(me, req.clientId), ChallengeKey(req.clientId), false);
      if storeFault.ReplyLost? {
        return Unavailable503;
      }
      return Challenged(nonce);
    }

    /** The challenge endpoint's limiter: None lets the request pass. */
    method LimitChallenge(me: nat, client: string, fault: Fault) returns (refusal: Option<Reply>)
      requires Valid() && me !in s.asks
      modifies `s, `trace
      ensures Valid()
      ensures fault.NoFault? ==> trace == old(trace) + [AdmitChallenge(me, client)]
      ensures fault.NoEffect? ==> trace == old(trace)
      ensures fault.ReplyLost? ==> trace == old(trace) + [LimiterCall(ChallengeKey(client))]
      ensures refusal == if !fault.NoFault? then Some(Unavailable503)
                         else if OverCeiling(old(s), ChallengeKey(client)) then Some(RateLimited429(60)) else None
      ensures fault.NoFault? ==> Limited(trace, |old(trace)|, AdmitChallenge(me, client), ChallengeKey(client), refusal.Some?)
      ensures refusal.None? ==> me in s.asks && s.asks[me] == Asked(client)
      ensures refusal.Some? ==> me !in s.asks
    {
      hide Exec, ChallengeKey, CallLimiter, Limited;
      CallFrame(s, ChallengeKey(client));
      if !fault.NoFault? {
        if fault.ReplyLost? {
          Do(LimiterCall(ChallengeKey(client)));
        }
        return Some(Unavailable503);
      }
      AdmitChallengeOutcome(s, me, client);
      JustLimited(trace, s, AdmitChallenge(me, client), ChallengeKey(client));
      var ok := WithinCeiling(s, ChallengeKey(client));
      Do(AdmitChallenge(me, client));
      return if ok then None else Some(RateLimited429(60));
    }
  }
}
