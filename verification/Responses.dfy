/** What a response says about what happened: every status has its cause, a denial its reason, and the
    wait it asks for is honest (services/ingest/internal/handler/batch.go). */
module Responses {
  import opened Wrappers
  import opened Clock
  import opened Keys
  import opened Events
  import opened Enrich
  import opened Redis
  import opened Pipeline
  import Quota

  /** The install's second cannot take the request under the rate its credential is allowed. */
  predicate RateExceeded(s: State, req: Request, lim: Limits) {
    var limit := if req.legacy then lim.legacyRps else lim.rps;
    var key := RateKey(req.claims.tenantId, req.claims.installId, UnixSecond(req.receivedAt));
    limit > 0 && Get(s.quota.db, key, s.redisNow) + ChargeUnits(req) > limit
  }

  /** The tenant's UTC day cannot. */
  predicate DayExceeded(s: State, req: Request, lim: Limits) {
    var key := DayKey(req.claims.tenantId, UtcDay(req.receivedAt));
    lim.dailyEvents > 0 && Get(s.quota.db, key, s.redisNow) + ChargeUnits(req) > lim.dailyEvents
  }

  /** Coming back after that many seconds meets another bucket of the reason: a later second, or the
      next UTC day, at most one second in. */
  predicate HonestWait(req: Request, sec: int, reason: Quota.Reason) {
    var later := req.receivedAt + sec * NS_PER_SEC;
    match reason
    case RateLimit =>
      UnixSecond(later) == UnixSecond(req.receivedAt) + 2
      && RateKey(req.claims.tenantId, req.claims.installId, UnixSecond(req.receivedAt) + 2)
         != RateKey(req.claims.tenantId, req.claims.installId, UnixSecond(req.receivedAt))
    case DailyQuota =>
      UtcDay(later) == UtcDay(req.receivedAt) + 1 && 0 < later - UtcDay(later) * NS_PER_DAY <= NS_PER_SEC
      && DayKey(req.claims.tenantId, UtcDay(req.receivedAt) + 1) != DayKey(req.claims.tenantId, UtcDay(req.receivedAt))
  }

  /** The answer to a quota call. Without limits or without a reply it is a 503; with one it is a 429
      with an honest wait exactly when a bucket cannot take the request, the install's second named
      first, and otherwise the row loop begins. */
  lemma ChargeAnswers(s: State, id: ReqId, limits: Option<Limits>, fault: Fault)
    requires id in s.reqs && s.reqs[id].phase == Charging
    ensures var s' := Apply(s, Charge(id, limits, fault));
            var req, p := s.reqs[id].req, s'.reqs[id].phase;
            if limits.None? then p == Done(Unavailable503(LimitsSource)) && s'.quota == s.quota
            else if !fault.NoFault? then p == Done(Unavailable503(QuotaCounters)) && (fault.NoEffect? ==> s'.quota == s.quota)
            else if RateExceeded(s, req, limits.value) then
              p.Done? && p.resp.TooMany429? && p.resp.reason == Quota.RateLimit && HonestWait(req, p.resp.retryAfterSec, p.resp.reason)
            else if DayExceeded(s, req, limits.value) then
              p.Done? && p.resp.TooMany429? && p.resp.reason == Quota.DailyQuota && HonestWait(req, p.resp.retryAfterSec, p.resp.reason)
            else p == Building(0)
  {
    hide RateKey, DayKey, Quota.Admit, ChargeUnits;
    var req := s.reqs[id].req;
    RateWait(req);
    DayWait(req);
  }

  lemma RateWait(req: Request)
    ensures HonestWait(req, NS_PER_SEC / NS_PER_SEC + 1, Quota.RateLimit)
  {
    hide RateKey, DayKey;
    var c, second := req.claims, UnixSecond(req.receivedAt);
    if RateKey(c.tenantId, c.installId, second + 2) == RateKey(c.tenantId, c.installId, second) {
      RateKeyInjective(c.tenantId, c.installId, second + 2, c.tenantId, c.installId, second);
    }
  }

  lemma DayWait(req: Request)
    ensures HonestWait(req, Quota.UntilNextUtcDay(req.receivedAt) / NS_PER_SEC + 1, Quota.DailyQuota)
  {
    hide RateKey, DayKey;
    var c, day := req.claims, UtcDay(req.receivedAt);
    if DayKey(c.tenantId, day + 1) == DayKey(c.tenantId, day) {
      DayKeyInjective(c.tenantId, day + 1, c.tenantId, day);
    }
  }

  /** The step, taken in s, is why the request was answered like this. */
  ghost predicate Causes(s: State, step: Step, id: ReqId, req: Request, resp: Response) {
    match resp
    case TooLarge413 => step == Arrive(id, req) && |req.events| > MAX_EVENTS_PER_BATCH
    case TooMany429(sec, reason) =>
      && step.Charge? && step.id == id && step.limits.Some? && step.fault.NoFault?
      && (reason.RateLimit? <==> RateExceeded(s, req, step.limits.value))
      && (reason.DailyQuota? ==> DayExceeded(s, req, step.limits.value))
      && HonestWait(req, sec, reason)
    case Unavailable503(LimitsSource) => step.Charge? && step.id == id && step.limits.None?
    case Unavailable503(QuotaCounters) => step.Charge? && step.id == id && step.limits.Some? && !step.fault.NoFault?
    case Unavailable503(OffsetStore) => step.Build? && step.id == id && !step.fault.NoFault?
    case Unavailable503(Storage) => step.Insert? && step.id == id && !step.ok && id in s.reqs && s.reqs[id].rows != []
    case Ok200(_, _, _) => step == Ack(id)
  }

  /** A response is given by one step, which is its cause, and never changes. */
  lemma StepCauses(s: State, step: Step, id: ReqId)
    requires id in Apply(s, step).reqs && Apply(s, step).reqs[id].phase.Done?
    ensures var l := Apply(s, step).reqs[id];
            || (id in s.reqs && s.reqs[id].phase == l.phase && s.reqs[id].req == l.req)
            || ((id in s.reqs || step.Arrive?) && Causes(s, step, id, l.req, l.phase.resp))
  {
    hide RateExceeded, DayExceeded, HonestWait, ValidEvents, Rejects, ApplyCharge, WriteOther;
    match step
    case Charge(i, limits, fault) =>
      if i in s.reqs {
        ChargeStepCauses(s, i, limits, fault, id);
      }
    case Build(i, fault) =>
      if i in s.reqs {
        BuildStepCauses(s, i, fault, id);
      }
    case _ =>
  }

  lemma ChargeStepCauses(s: State, i: ReqId, limits: Option<Limits>, fault: Fault, id: ReqId)
    requires i in s.reqs && id in ApplyCharge(s, i, limits, fault).reqs && ApplyCharge(s, i, limits, fault).reqs[id].phase.Done?
    ensures var l := ApplyCharge(s, i, limits, fault).reqs[id];
            || (id in s.reqs && s.reqs[id].phase == l.phase && s.reqs[id].req == l.req)
            || (id in s.reqs && Causes(s, Charge(i, limits, fault), id, l.req, l.phase.resp))
  {
    hide RateExceeded, DayExceeded, HonestWait, Quota.Decide, Quota.Admit;
    if s.reqs[i].phase == Charging {
      ChargeAnswers(s, i, limits, fault);
    }
  }

  lemma BuildStepCauses(s: State, i: ReqId, fault: Fault, id: ReqId)
    requires i in s.reqs && id in ApplyBuild(s, i, fault).reqs && ApplyBuild(s, i, fault).reqs[id].phase.Done?
    ensures var l := ApplyBuild(s, i, fault).reqs[id];
            || (id in s.reqs && s.reqs[id].phase == l.phase && s.reqs[id].req == l.req)
            || (id in s.reqs && Causes(s, Build(i, fault), id, l.req, l.phase.resp))
  {
    hide RateExceeded, DayExceeded, HonestWait, ValidEvents, ToRow, Upsert, CandidateOffset;
  }

  /** In every run, every response has its cause: a 413 a batch over 500 events, a 429 a bucket that
      could not take it, with an honest wait, a 503 the failure of the dependency it names, and a 200 an
      acknowledgement. */
  lemma {:induction false} ResponseHasCause(steps: seq<Step>, id: ReqId) returns (n: nat)
    requires id in Exec(steps).reqs && Exec(steps).reqs[id].phase.Done?
    ensures n < |steps| && (id in Exec(steps[..n]).reqs || steps[n].Arrive?)
    ensures Causes(Exec(steps[..n]), steps[n], id, Exec(steps).reqs[id].req, Exec(steps).reqs[id].phase.resp)
  {
    hide Apply, Causes;
    var front, step := steps[..|steps| - 1], steps[|steps| - 1];
    StepCauses(Exec(front), step, id);
    if id in Exec(front).reqs && Exec(front).reqs[id].phase == Exec(steps).reqs[id].phase && Exec(front).reqs[id].req == Exec(steps).reqs[id].req {
      n := ResponseHasCause(front, id);
      assert front[..n] == steps[..n];
    } else {
      n := |steps| - 1;
    }
  }
}
