/** The verifier against a key table that operators change and an endpoint that may fail: how long a
    retired key lives, and that an unretired one works. */
module Rotation {
  import opened Wrappers
  import opened Clock
  import opened KeyCache
  import opened Tokens
  import SigningKeys

  /** Table, verifier and true time. */
  datatype System = System(table: SigningKeys.Table, verifier: History, clock: int)

  datatype Step =
    | Tick(d: nat)
    | Insert(kid: string, pair: int, active: bool)
    | SetActive(kid: string, active: bool)
    | Retire(kid: string)
    | Resolve(kid: string, now: int, up: bool)

  /** What the endpoint answers at this moment. */
  function Reply(s: System, up: bool): Option<KeySet> {
    if up then Some(SigningKeys.Published(s.table)) else None
  }

  function CallAt(s: System, kid: string, now: int, up: bool): Call {
    Call(kid, now, s.clock, Reply(s, up))
  }

  /** A caller's reading is taken before it holds the lock, so never lies ahead of true time. */
  function Apply(s: System, step: Step): System {
    match step
    case Tick(d) => s.(clock := s.clock + d)
    case Insert(kid, pair, active) => s.(table := SigningKeys.Operate(s.table, SigningKeys.OperatorInsert(kid, pair, active)))
    case SetActive(kid, active) => s.(table := SigningKeys.Operate(s.table, SigningKeys.OperatorSetActive(kid, active)))
    case Retire(kid) => s.(table := SigningKeys.Operate(s.table, SigningKeys.OperatorRetire(kid, s.clock)))
    case Resolve(kid, now, up) =>
      if now > s.clock then s else s.(verifier := KeyCache.Step(s.verifier, CallAt(s, kid, now, up)))
  }

  const START := System(map[], FRESH, 0)

  function Exec(steps: seq<Step>): System {
    if steps == [] then START else Apply(Exec(steps[..|steps| - 1]), steps[|steps| - 1])
  }

  /** A served set told the truth when it was served. */
  ghost predicate Truthful(x: Attempt, table: SigningKeys.Table, clock: int) {
    && x.now <= x.at <= clock
    && (x.served.Some? ==>
          forall kid :: kid in x.served.value ==>
            kid in table && x.served.value[kid] == SigningKeys.JwkOf(table[kid].pair)
            && (table[kid].retiredAt.Some? ==> x.at <= table[kid].retiredAt.value))
  }

  ghost predicate Inv(s: System) {
    && KeyCache.Inv(s.verifier)
    && (forall x :: x in s.verifier.attempts ==> Truthful(x, s.table, s.clock))
    && (forall kid :: kid in s.table && s.table[kid].retiredAt.Some? ==> s.table[kid].retiredAt.value <= s.clock)
  }

  lemma OperateKeepsTruth(s: System, op: SigningKeys.Step)
    requires Inv(s) && (op.OperatorRetire? ==> op.at == s.clock)
    ensures Inv(s.(table := SigningKeys.Operate(s.table, op)))
  {
    var t' := SigningKeys.Operate(s.table, op);
    assert SigningKeys.Later(s.table, t');
    forall x | x in s.verifier.attempts
      ensures Truthful(x, t', s.clock)
    {
      assert Truthful(x, s.table, s.clock);
    }
  }

  lemma ResolveKeepsInv(s: System, c: Call)
    requires Inv(s) && c.now <= c.at == s.clock
    requires c.reply.Some? ==> c.reply.value == SigningKeys.Published(s.table)
    ensures Inv(s.(verifier := KeyCache.Step(s.verifier, c)))
  {
    KeyCache.StepKeepsInv(s.verifier, c);
    assert Truthful(Attempt(c.now, c.at, c.reply), s.table, s.clock);
  }

  lemma StepKeepsInv(s: System, step: Step)
    requires Inv(s)
    ensures Inv(Apply(s, step))
  {
    match step
    case Tick(d) =>
      forall x | x in s.verifier.attempts
        ensures Truthful(x, s.table, s.clock + d)
      {
        assert Truthful(x, s.table, s.clock);
      }
    case Insert(kid, pair, active) => OperateKeepsTruth(s, SigningKeys.OperatorInsert(kid, pair, active));
    case SetActive(kid, active) => OperateKeepsTruth(s, SigningKeys.OperatorSetActive(kid, active));
    case Retire(kid) => OperateKeepsTruth(s, SigningKeys.OperatorRetire(kid, s.clock));
    case Resolve(kid, now, up) =>
      if now <= s.clock {
        ResolveKeepsInv(s, CallAt(s, kid, now, up));
      }
  }

  lemma {:induction false} RunKeepsInv(steps: seq<Step>)
    ensures Inv(Exec(steps))
  {
    if steps != [] {
      RunKeepsInv(steps[..|steps| - 1]);
      StepKeepsInv(Exec(steps[..|steps| - 1]), steps[|steps| - 1]);
    }
  }

  /** The key a caller at `now` gets for a kid. */
  function Resolved(s: System, kid: string, now: int, up: bool): Option<Jwk> {
    KeyStep(s.verifier.cache, kid, now, Reply(s, up)).key
  }

  /** Whatever key is returned is the kid's own, and was still unretired 15 minutes ago. */
  lemma ResolvedKeyWasLive(steps: seq<Step>, kid: string, now: int, up: bool)
    requires now <= Exec(steps).clock && Resolved(Exec(steps), kid, now, up).Some?
    ensures var s := Exec(steps);
            && kid in s.table
            && Resolved(s, kid, now, up) == Some(SigningKeys.JwkOf(s.table[kid].pair))
            && (s.table[kid].retiredAt.Some? ==> now <= s.table[kid].retiredAt.value + TTL + GRACE)
  {
    var s := Exec(steps);
    RunKeepsInv(steps);
    var c := CallAt(s, kid, now, up);
    var x := ServedRecently(s.verifier, c);
    ResolveKeepsInv(s, c);
    assert Truthful(x, s.table, s.clock);
  }

  /** Retirement takes effect within TTL plus grace even if the endpoint never answers again: a
      kid retired at time r is refused at every reading after r + 15 min. */
  lemma RetiredKeyIsRefused(steps: seq<Step>, kid: string, now: int, up: bool)
    requires now <= Exec(steps).clock && kid in Exec(steps).table
    requires var retired := Exec(steps).table[kid].retiredAt;
             retired.Some? && now > retired.value + TTL + GRACE
    ensures Resolved(Exec(steps), kid, now, up).None?
  {
    if Resolved(Exec(steps), kid, now, up).Some? {
      ResolvedKeyWasLive(steps, kid, now, up);
    }
  }

  /** Mint and verify through rotation: for a token minted under an unretired kid while the endpoint
      answers, verification gives exactly the minted claims when they are mintable and the time is
      in the window, and is refused otherwise; only a call within 30 s of the previous fetch
      attempt may instead not know the kid. */
  lemma MintedTokenVerifies(steps: seq<Step>, m: Minter, c: TokenClaims, minted: int, now: int)
    requires var s := Exec(steps);
             && m.kid != "" && m.kid in s.table && s.table[m.kid].pair == m.pair && s.table[m.kid].retiredAt.None?
             && now <= s.clock
    ensures var s := Exec(steps);
            var r := VerifyStep(s.verifier.cache, Mint(m, c, minted), m.issuer, m.audience, now, Reply(s, true)).1;
            if r == Err(UnknownKid) then now - s.verifier.cache.lastRefetch < MIN_REFETCH
            else (r == Ok(c) <==> Mintable(c) && InWindow(m, minted, now))
                 && (r.Err? <==> !(Mintable(c) && InWindow(m, minted, now)))
  {
    var s := Exec(steps);
    RunKeepsInv(steps);
    var call := CallAt(s, m.kid, now, true);
    var key := Resolved(s, m.kid, now, true);
    if key.Some? {
      ResolvedKeyWasLive(steps, m.kid, now, true);
      MintVerifyRoundTrip(m, c, minted, key.value, now);
    } else {
      assert Lookup(call.reply, m.kid).Some?;
      PublishedKidIsFound(s.verifier, call);
    }
  }

  /** In every run an accepted token was signed by the key table's own pair for its kid, a kid that
      was unretired 15 minutes before the reading; its claims are the token's, its window holds the
      reading, and it was made for this issuer and this audience alone. */
  lemma AcceptedTokenIsCurrent(steps: seq<Step>, w: Wire, issuer: string, audience: string, now: int, up: bool)
    requires now <= Exec(steps).clock
    requires VerifyStep(Exec(steps).verifier.cache, w, issuer, audience, now, Reply(Exec(steps), up)).1.Ok?
    ensures var s := Exec(steps);
            var claims := VerifyStep(s.verifier.cache, w, issuer, audience, now, Reply(s, up)).1.value;
            && w.Jws? && w.signatures == 1 && w.token.kid in s.table
            && w.token.signer == Some(s.table[w.token.kid].pair)
            && (var retired := s.table[w.token.kid].retiredAt; retired.Some? ==> now <= retired.value + TTL + GRACE)
            && w.token.iss == Some(issuer) && w.token.aud == [audience]
            && w.token.exp.Some? && now <= w.token.exp.value * NS_PER_SEC + CLOCK_SKEW
            && (w.token.nbf.Some? ==> w.token.nbf.value * NS_PER_SEC <= now + CLOCK_SKEW)
            && Mintable(claims)
            && w.token.tenantId == Str(claims.tenantId) && w.token.installId == Str(claims.installId)
            && w.token.trustTier == Num(claims.trustTier as real)
  {
    var s := Exec(steps);
    AcceptedTokenIsGenuine(s.verifier.cache, w, issuer, audience, now, Reply(s, up));
    ResolvedKeyWasLive(steps, w.token.kid, now, up);
  }
}
