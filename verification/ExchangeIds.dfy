/** Install identities over every run of the exchange: who shares an id with whom. */
module ExchangeIds {
  import opened Wrappers
  import opened Keys
  import opened Exchange
  import opened InstallTable

  lemma GrantKeepsIds(s: State, r: nat, tenant: string, platform: string, verdict: Option<string>, deviceKey: string, candidate: InstallId, fault: Fault, who: Identity)
    requires InstallInv(s.installs)
    ensures var s' := ApplyGrant(s, r, tenant, platform, verdict, deviceKey, candidate, fault);
            InstallInv(s'.installs) && (IdOf(s.installs, who).Some? ==> IdOf(s'.installs, who) == IdOf(s.installs, who))
  {
    hide UpsertInstall, InstallInv, IdOf;
    if r in s.exchanges && s.exchanges[r].Attesting? {
      var attested := s.exchanges[r].won.Some? && verdict.Some?;
      var target := IdentityFor(tenant, if attested then verdict.value else "", deviceKey);
      IssueKeepsIds(s.installs, target, platform, deviceKey, if attested then 0 else 1, candidate, who);
    }
  }

  lemma StepKeepsIds(s: State, step: Step, who: Identity)
    requires InstallInv(s.installs)
    ensures InstallInv(Apply(s, step).installs)
    ensures IdOf(s.installs, who).Some? ==> IdOf(Apply(s, step).installs, who) == IdOf(s.installs, who)
  {
    hide InstallInv, IdOf, ApplyGrant, ApplyConsume, ApplyIssue, ApplyAdmit, ApplyAdmitChallenge, CallLimiter, AttestKey, CandidateId;
    match step
    case Tick(_) =>
    case LimiterCall(key) => CallFrame(s, key);
    case Admit(r, client) => AdmitFrame(s, r, client);
    case AdmitChallenge(q, client) => AdmitChallengeFrame(s, q, client);
    case IssueChallenge(q, platform, nonce) => IssueFrame(s, q, platform, nonce);
    case ConsumeChallenge(r, platform, challenge, fault) => ConsumeFrame(s, r, platform, challenge, fault);
    case Grant(r, tenant, platform, verdict, deviceKey, entropy, fault) =>
      GrantKeepsIds(s, r, tenant, platform, verdict, deviceKey, CandidateId(entropy), fault, who);
  }

  lemma {:induction false} RunKeepsIds(s: State, steps: seq<Step>, who: Identity)
    requires InstallInv(s.installs)
    ensures InstallInv(ExecFrom(s, steps).installs)
    ensures IdOf(s.installs, who).Some? ==> IdOf(ExecFrom(s, steps).installs, who) == IdOf(s.installs, who)
  {
    if steps != [] {
      RunKeepsIds(s, steps[..|steps| - 1], who);
      StepKeepsIds(ExecFrom(s, steps[..|steps| - 1]), steps[|steps| - 1], who);
    }
  }

  /** An install id, once given to a (tenant, subject) or (tenant, device key), is that identity's
      for ever, whatever candidates later exchanges draw; and no two identities ever share one. */
  lemma InstallIdIsWriteOnce(before: seq<Step>, after: seq<Step>, a: Identity, b: Identity)
    ensures var early, late := Exec(before).installs, ExecFrom(Exec(before), after).installs;
            && (IdOf(early, a).Some? ==> IdOf(late, a) == IdOf(early, a))
            && (a != b && IdOf(late, a).Some? ==> IdOf(late, a) != IdOf(late, b))
  {
    hide Apply, UpsertInstall;
    RunKeepsIds(START, before, a);
    RunKeepsIds(Exec(before), after, a);
    var late := ExecFrom(Exec(before), after).installs;
    FindFacts(late, a);
    FindFacts(late, b);
  }

  /** An exchange that is granted tier 0 won its challenge; its id is the one its identity keeps. */
  lemma GrantIsEarned(steps: seq<Step>, r: nat, tenant: string, platform: string, verdict: Option<string>, deviceKey: string, entropy: seq<Byte>, fault: Fault)
    requires var s := Exec(steps);
             r in s.exchanges && s.exchanges[r].Attesting?
    requires Apply(Exec(steps), Grant(r, tenant, platform, verdict, deviceKey, entropy, fault)).exchanges[r].Granted?
    ensures var s, s' := Exec(steps), Apply(Exec(steps), Grant(r, tenant, platform, verdict, deviceKey, entropy, fault));
            var g := s'.exchanges[r];
            && (g.tier == 0 <==> s.exchanges[r].won.Some? && verdict.Some?)
            && (g.tier == 0 ==> s.exchanges[r].won.value in s.spent && s.exchanges[r].won.value !in s.grants)
            && IdOf(s'.installs, g.who) == Some(g.id)
            && (IdOf(s.installs, g.who).Some? ==> Some(g.id) == IdOf(s.installs, g.who))
  {
    hide UpsertInstall, InstallInv, NoncesOk;
    var s := Exec(steps);
    RunKeepsNonceInv(steps);
    StartInv();
    RunKeepsIds(START, steps, Attested(tenant, ""));
    var attested := s.exchanges[r].won.Some? && verdict.Some?;
    var who := IdentityFor(tenant, if attested then verdict.value else "", deviceKey);
    IssueKeepsIds(s.installs, who, platform, deviceKey, if attested then 0 else 1, CandidateId(entropy), who);
  }

  /** Step i of the run granted its exchange an install. */
  ghost predicate Grants(steps: seq<Step>, i: nat) {
    && i < |steps| && steps[i].Grant?
    && var r := steps[i].r;
       && r in Exec(steps[..i]).exchanges && Exec(steps[..i]).exchanges[r].Attesting?
       && r in Exec(steps[..i + 1]).exchanges && Exec(steps[..i + 1]).exchanges[r].Granted?
  }

  function IdGiven(steps: seq<Step>, i: nat): string
    requires Grants(steps, i)
  {
    Exec(steps[..i + 1]).exchanges[steps[i].r].id
  }

  /** The subject its attestation established, or none. */
  function SubjectOf(steps: seq<Step>, i: nat): string
    requires Grants(steps, i)
  {
    if Exec(steps[..i]).exchanges[steps[i].r].won.Some? && steps[i].verdict.Some? then steps[i].verdict.value else ""
  }

  lemma IdKept(steps: seq<Step>, i: nat, j: nat) returns (who: Identity)
    requires Grants(steps, i) && i <= j < |steps|
    ensures who == (if SubjectOf(steps, i) != "" then Attested(steps[i].tenant, SubjectOf(steps, i))
                    else Unattested(steps[i].tenant, steps[i].deviceKey))
    ensures IdOf(Exec(steps[..j + 1]).installs, who) == Some(IdGiven(steps, i))
  {
    hide Exec, ExecFrom, Apply, IdOf, InstallInv;
    var g := steps[i];
    assert steps[..i + 1] == steps[..i] + [g];
    LastStep(steps[..i], g);
    GrantIsEarned(steps[..i], g.r, g.tenant, g.platform, g.verdict, g.deviceKey, g.entropy, g.fault);
    who := Exec(steps[..i + 1]).exchanges[g.r].who;
    GrantNamesIdentity(Exec(steps[..i]), g);
    RunInv(steps[..i + 1], who);
    assert steps[..j + 1] == steps[..i + 1] + steps[i + 1..j + 1];
    ExecSplits(steps[..i + 1], steps[i + 1..j + 1]);
    RunKeepsIds(Exec(steps[..i + 1]), steps[i + 1..j + 1], who);
  }

  lemma RunInv(steps: seq<Step>, who: Identity)
    ensures InstallInv(Exec(steps).installs)
  {
    StartInv();
    RunKeepsIds(START, steps, who);
  }

  lemma GrantGives(s: State, r: nat, tenant: string, platform: string, verdict: Option<string>, deviceKey: string, candidate: InstallId, fault: Fault)
    requires r in s.exchanges && s.exchanges[r].Attesting?
    ensures var s' := ApplyGrant(s, r, tenant, platform, verdict, deviceKey, candidate, fault);
            var attested := s.exchanges[r].won.Some? && verdict.Some?;
            && r in s'.exchanges
            && (s'.exchanges[r].Granted? ==>
                  && s'.exchanges[r].tier == (if attested then 0 else 1)
                  && s'.exchanges[r].who == IdentityFor(tenant, if attested then verdict.value else "", deviceKey))
  {
    hide UpsertInstall, IdOf, IdentityFor;
  }

  lemma GrantNamesIdentity(s: State, g: Step)
    requires g.Grant? && g.r in s.exchanges && s.exchanges[g.r].Attesting?
    requires g.r in Apply(s, g).exchanges && Apply(s, g).exchanges[g.r].Granted?
    ensures var subject := if s.exchanges[g.r].won.Some? && g.verdict.Some? then g.verdict.value else "";
            Apply(s, g).exchanges[g.r].who ==
            if subject != "" then Attested(g.tenant, subject) else Unattested(g.tenant, g.deviceKey)
  {
    hide ApplyGrant, CandidateId;
    GrantGives(s, g.r, g.tenant, g.platform, g.verdict, g.deviceKey, CandidateId(g.entropy), g.fault);
  }

  /** Two grants of a run give the same install id exactly when they are for the same tenant and either
      the same attested subject, whatever the device keys, or no subject and the same device key. */
  lemma SameInstallIff(steps: seq<Step>, i: nat, j: nat)
    requires i <= j && Grants(steps, i) && Grants(steps, j)
    ensures IdGiven(steps, i) == IdGiven(steps, j) <==>
            && steps[i].tenant == steps[j].tenant
            && SubjectOf(steps, i) == SubjectOf(steps, j)
            && (SubjectOf(steps, i) == "" ==> steps[i].deviceKey == steps[j].deviceKey)
  {
    hide Exec, IdGiven, SubjectOf;
    var a := IdKept(steps, i, j);
    var b := IdKept(steps, j, j);
    RunInv(steps[..j + 1], a);
    NoSharedIds(Exec(steps[..j + 1]).installs, a, b);
  }

  lemma StartInv()
    ensures InstallInv(START.installs)
  {
  }
}
