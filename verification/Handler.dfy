/** The batch handler as it is written: loops over local slices and a local offset memo, calling
    shared dependencies between which anything may happen
    (services/ingest/internal/handler/batch.go, NewBatch). */
module Handler {
  import opened Wrappers
  import opened Clock
  import opened Events
  import opened Enrich
  import opened Pipeline
  import opened Responses
  import Acks
  import Quota

  /** The step is taken on behalf of this request. */
  predicate IsBy(step: Step, me: ReqId) {
    match step
    case Arrive(id, _) => id == me
    case Charge(id, _, _) => id == me
    case Build(id, _) => id == me
    case Insert(id, _, _) => id == me
    case Ack(id) => id == me
    case _ => false
  }

  lemma OthersLeaveMine(s: State, step: Step, me: ReqId)
    requires !IsBy(step, me)
    ensures me in Apply(s, step).reqs <==> me in s.reqs
    ensures me in s.reqs ==> Apply(s, step).reqs[me] == s.reqs[me]
  {
    hide Quota.Decide, Quota.Admit, ValidEvents, Sweep, Pick, Tag;
    match step
    case Charge(id, limits, fault) => ChargeLeavesMine(s, id, limits, fault, me);
    case Build(id, fault) => BuildLeavesMine(s, id, fault, me);
    case _ =>
  }

  lemma ChargeLeavesMine(s: State, id: ReqId, limits: Option<Limits>, fault: Fault, me: ReqId)
    requires id != me
    ensures id in s.reqs ==> var r := ApplyCharge(s, id, limits, fault).reqs;
                             (me in r <==> me in s.reqs) && (me in s.reqs ==> r[me] == s.reqs[me])
  {
  }

  lemma BuildLeavesMine(s: State, id: ReqId, fault: Fault, me: ReqId)
    requires id != me
    ensures id in s.reqs ==> var r := ApplyBuild(s, id, fault).reqs;
                             (me in r <==> me in s.reqs) && (me in s.reqs ==> r[me] == s.reqs[me])
  {
  }

  /** The system a handler runs in. `trace` is the run so far. */
  class Shared {
    var s: State
    ghost var trace: seq<Step>

    ghost predicate Valid()
      reads this
    {
      s == Exec(trace)
    }

    constructor ()
      ensures Valid() && s == INITIAL && trace == []
    {
      s := INITIAL;
      trace := [];
    }

    /** One atomic step. */
    method Do(step: Step)
      requires Valid()
      modifies this
      ensures Valid() && trace == old(trace) + [step] && s == Apply(old(s), step)
    {
      s := Apply(s, step);
      trace := trace + [step];
      assert trace[..|trace| - 1] == old(trace);
    }

    /** Everybody else gets to run: any number of steps, none of them for this request. */
    method Interfere(me: ReqId)
      requires Valid()
      modifies this
      ensures Valid() && old(trace) <= trace
      ensures me in s.reqs <==> me in old(s).reqs
      ensures me in s.reqs ==> s.reqs[me] == old(s).reqs[me]
    {
      var more: bool := *;
      var budget: nat := *;
      while more && budget > 0
        invariant Valid() && old(trace) <= trace
        invariant me in s.reqs <==> me in old(s).reqs
        invariant me in s.reqs ==> s.reqs[me] == old(s).reqs[me]
        decreases budget
      {
        var step: Step := *;
        if !IsBy(step, me) {
          OthersLeaveMine(s, step, me);
          Do(step);
        }
        more := *;
        budget := budget - 1;
      }
    }

    /** Quota.Allow over the shared counters: None when the call fails, whether or not the script ran.
        What the script is given is the request's and the limits' own. */
    method Allow(me: ReqId, limits: Limits, fault: Fault) returns (reply: Option<Quota.Decision>)
      requires Valid() && me in s.reqs && s.reqs[me].phase == Charging
      modifies this
      ensures Valid() && trace == old(trace) + [Charge(me, Some(limits), fault)]
      ensures s == Apply(old(s), Charge(me, Some(limits), fault)) && me in s.reqs
      ensures reply.None? <==> !fault.NoFault?
      ensures reply.Some? ==>
                var req := old(s).reqs[me].req;
                var call := Quota.Call(req.claims.tenantId, req.claims.installId, req.receivedAt, ChargeUnits(req),
                                       if req.legacy then limits.legacyRps else limits.rps, limits.dailyEvents);
                reply.value == Quota.Decide(old(s).quota, Quota.Op(call, old(s).redisNow))
    {
      reply := if fault.NoFault?
               then Some(Quota.Decide(s.quota, Quota.Op(CallOf(s.reqs[me].req, limits), s.redisNow)))
               else None;
      Do(Charge(me, Some(limits), fault));
    }

    /** OffsetStore.GetOrSet for the request's next event. */
    method GetOrSet(me: ReqId, e: Event, k: SessionKey, fault: Fault) returns (reply: Option<Int64>)
      requires Valid() && me in s.reqs && s.reqs[me].phase.Building?
      requires var l := s.reqs[me];
               var valid := ValidEvents(l.req.events);
               l.phase.next < |valid| && e == valid[l.phase.next] && k == KeyOf(e, l.req.claims) && k !in l.memo
      modifies this
      ensures Valid() && old(trace) <= trace
      ensures me in s.reqs && (reply.None? <==> !fault.NoFault?)
      ensures reply.None? ==> s.reqs[me] == old(s).reqs[me].(phase := Done(Unavailable503(OffsetStore)))
      ensures reply.Some? ==>
                var l := old(s).reqs[me];
                s.reqs[me] == Append(l.(memo := l.memo[k := reply.value], asked := l.asked + [k]), e, reply.value)
      ensures reply.Some? && k in old(s).offsets ==> reply.value == old(s).offsets[k].offsetMs
    {
      hide ToRow, CandidateOffset;
      var l := s.reqs[me];
      var stored := Upsert(s.offsets, k, CandidateOffset(l.req.sentAt, l.req.receivedAt), s.dbNow)[k].offsetMs;
      reply := if fault.NoFault? then Some(stored) else None;
      Do(Build(me, fault));
    }

    /** The request's next event finds its session in the batch's own memo. */
    method Recall(me: ReqId, e: Event, k: SessionKey)
      requires Valid() && me in s.reqs && s.reqs[me].phase.Building?
      requires var l := s.reqs[me];
               var valid := ValidEvents(l.req.events);
               l.phase.next < |valid| && e == valid[l.phase.next] && k == KeyOf(e, l.req.claims) && k in l.memo
      modifies this
      ensures Valid() && old(trace) <= trace
      ensures me in s.reqs && s.reqs[me] == Append(old(s).reqs[me], e, old(s).reqs[me].memo[k])
      ensures s.offsets == old(s).offsets
    {
      Do(Build(me, NoFault));
    }

    /** Storage: true once every row is in the table; on failure any of them may be. */
    method InsertRows(me: ReqId, rows: seq<Row>, works: bool, partly: set<nat>) returns (ok: bool)
      requires Valid() && me in s.reqs && s.reqs[me].rows == rows
      requires s.reqs[me].phase == Building(|ValidEvents(s.reqs[me].req.events)|)
      modifies this
      ensures Valid() && old(trace) <= trace
      ensures me in s.reqs
      ensures s.reqs[me] == old(s).reqs[me].(phase := if ok then Acking else Done(Unavailable503(Storage)))
      ensures ok ==> s.table == old(s).table + rows
      ensures ok <==> works || rows == []
    {
      ok := works || rows == [];
      Do(Insert(me, ok, partly));
    }
  }

  /** One pass over the batch: storable events on one side, a complaint about each other on the other. */
  method ValidateAll(events: seq<Event>) returns (valid: seq<Event>, rejected: seq<Reject>)
    ensures valid == ValidEvents(events)
    ensures rejected == Rejects(events)
  {
    valid, rejected := [], [];
    for i := 0 to |events|
      invariant valid == ValidEvents(events[..i])
      invariant rejected == Rejects(events[..i])
    {
      assert events[..i + 1][..i] == events[..i];
      match Validate(events[i]) {
        case Some(code) => rejected := rejected + [Reject(events[i].eventId, code)];
        case None => valid := valid + [events[i]];
      }
    }
    assert events[..|events|] == events;
  }

  /** The row loop: the offset of each session is asked for once and remembered for the batch;
      `faults` says how the store call for each event would go. */
  method BuildRows(sh: Shared, id: ReqId, req: Request, valid: seq<Event>, faults: nat -> Fault)
    returns (ok: bool, rows: seq<Row>, accepted: seq<string>, offsets: map<SessionKey, Int64>, ghost asked: seq<SessionKey>)
    requires sh.Valid() && valid == ValidEvents(req.events)
    requires id in sh.s.reqs && sh.s.reqs[id] == Local(req, Building(0), map[], [], [], [])
    modifies sh
    ensures sh.Valid() && old(sh.trace) <= sh.trace
    ensures id in sh.s.reqs && sh.s.reqs[id].req == req
    ensures ok ==> sh.s.reqs[id] == Local(req, Building(|valid|), offsets, asked, rows, accepted)
    ensures !ok ==> sh.s.reqs[id].phase == Done(Unavailable503(OffsetStore)) && exists i: nat :: !faults(i).NoFault?
  {
    hide Exec, ToRow;
    ok, rows, accepted, offsets, asked := true, [], [], map[], [];
    for i := 0 to |valid|
      invariant ok && sh.Valid() && old(sh.trace) <= sh.trace
      invariant id in sh.s.reqs && sh.s.reqs[id] == Local(req, Building(i), offsets, asked, rows, accepted)
    {
      sh.Interfere(id);
      var e := valid[i];
      var key := SessionKey(req.claims.tenantId, e.deviceId, e.sessionId);
      var offset: Int64;
      if key in offsets {
        offset := offsets[key];
        sh.Recall(id, e, key);
      } else {
        var reply := sh.GetOrSet(id, e, key, faults(i));
        if reply.None? {
          ok := false;
          return;
        }
        offset := reply.value;
        offsets := offsets[key := offset];
        asked := asked + [key];
      }
      rows := rows + [ToRow(e, req.claims, offset, req.receivedAt)];
      accepted := accepted + [e.eventId];
    }
  }

  /** Limits and quota: Some response when the request ends here. Step n of the run is the quota call;
      the state it met decides between the row loop and a 429 with an honest wait, and only a failure
      gives a 503. */
  method Admission(sh: Shared, id: ReqId, req: Request, limits: Option<Limits>, fault: Fault)
    returns (refusal: Option<Response>, ghost n: nat)
    requires sh.Valid() && id in sh.s.reqs && sh.s.reqs[id] == Local(req, Charging, map[], [], [], [])
    modifies sh
    ensures sh.Valid() && old(sh.trace) <= sh.trace
    ensures id in sh.s.reqs && sh.s.reqs[id].req == req
    ensures refusal.None? ==> sh.s.reqs[id] == Local(req, Building(0), map[], [], [], [])
    ensures refusal.Some? ==> sh.s.reqs[id].phase == Done(refusal.value)
    ensures |old(sh.trace)| <= n < |sh.trace| && sh.trace[n] == Charge(id, limits, fault)
    ensures AnswersQuota(Exec(sh.trace[..n]), req, limits, fault, refusal)
  {
    hide Exec, Apply, RateExceeded, DayExceeded, HonestWait;
    sh.Interfere(id);
    n := |sh.trace|;
    ChargeAnswers(sh.s, id, limits, fault);
    ChargeKeepsLocal(sh.s, id, limits, fault);
    ghost var before := sh.trace;
    assert before[..n] == before;
    if !limits.Some? {
      sh.Do(Charge(id, None, fault));
      assert sh.trace[..n] == before;
      return Some(Unavailable503(LimitsSource)), n;
    }
    DecisionMeans(sh.s, id, limits.value);
    var dec := sh.Allow(id, limits.value, fault);
    if dec.None? {
      return Some(Unavailable503(QuotaCounters)), n;
    }
    if dec.value.Denied? {
      return Some(TooMany429(dec.value.retryAfter / NS_PER_SEC + 1, dec.value.reason)), n;
    }
    return None, n;
  }

  /** The quota's answer to a request, by the state its call met. */
  ghost predicate AnswersQuota(seen: State, req: Request, limits: Option<Limits>, fault: Fault, refusal: Option<Response>) {
    if limits.None? then refusal == Some(Unavailable503(LimitsSource))
    else if !fault.NoFault? then refusal == Some(Unavailable503(QuotaCounters))
    else
      && (refusal.None? <==> !RateExceeded(seen, req, limits.value) && !DayExceeded(seen, req, limits.value))
      && (refusal.Some? ==>
            && refusal.value.TooMany429?
            && (refusal.value.reason.RateLimit? <==> RateExceeded(seen, req, limits.value))
            && HonestWait(req, refusal.value.retryAfterSec, refusal.value.reason))
  }

  lemma ChargeKeepsLocal(s: State, id: ReqId, limits: Option<Limits>, fault: Fault)
    requires id in s.reqs && s.reqs[id].phase == Charging
    ensures var s' := Apply(s, Charge(id, limits, fault));
            id in s'.reqs && s'.reqs[id] == s.reqs[id].(phase := s'.reqs[id].phase)
  {
    hide Quota.Decide, Quota.Admit;
  }

  /** The response the handler makes of a decision is the one the step records. */
  lemma DecisionMeans(s: State, id: ReqId, limits: Limits)
    requires id in s.reqs && s.reqs[id].phase == Charging
    ensures var d := Quota.Decide(s.quota, Quota.Op(CallOf(s.reqs[id].req, limits), s.redisNow));
            Apply(s, Charge(id, Some(limits), NoFault)).reqs[id].phase ==
            if d.Denied? then Done(TooMany429(d.retryAfter / NS_PER_SEC + 1, d.reason)) else Building(0)
  {
    hide Quota.Decide, Quota.Admit;
  }

  /** Insert, then acknowledge: the order that makes an acknowledgement safe. */
  method StoreAndAck(sh: Shared, id: ReqId, req: Request, rows: seq<Row>, accepted: seq<string>, rejected: seq<Reject>,
                     works: bool, partly: set<nat>)
    returns (resp: Response)
    requires sh.Valid() && id in sh.s.reqs && rejected == Rejects(req.events)
    requires var l := sh.s.reqs[id];
             l.req == req && l.rows == rows && l.accepted == accepted && l.phase == Building(|ValidEvents(req.events)|)
    modifies sh
    ensures sh.Valid() && old(sh.trace) <= sh.trace
    ensures id in sh.s.reqs && sh.s.reqs[id].req == req && sh.s.reqs[id].phase == Done(resp)
    ensures resp.Ok200? || resp == Unavailable503(Storage)
    ensures resp.Ok200? <==> works || rows == []
  {
    hide Exec, ValidEvents, Rejects;
    sh.Interfere(id);
    var ok := sh.InsertRows(id, rows, works, partly);
    if !ok {
      return Unavailable503(Storage);
    }
    sh.Interfere(id);
    resp := Ok200(Millis(req.receivedAt), accepted, rejected);
    sh.Do(Ack(id));
  }

  /** The 200 accepts exactly the valid events, in request order and each with a row in the table, and
      rejects exactly the others. */
  ghost predicate AckIsSound(s: State, req: Request, resp: Response)
    requires resp.Ok200?
  {
    var valid := ValidEvents(req.events);
    && resp.rejected == Rejects(req.events)
    && |resp.accepted| == |valid|
    && (forall i :: 0 <= i < |valid| ==>
          resp.accepted[i] == valid[i].eventId && Acks.Kept(s.table, valid[i], req))
  }

  lemma AckMeans(trace: seq<Step>, id: ReqId)
    requires var s := Exec(trace);
             id in s.reqs && s.reqs[id].phase.Done? && s.reqs[id].phase.resp.Ok200?
    ensures var s := Exec(trace);
            AckIsSound(s, s.reqs[id].req, s.reqs[id].phase.resp)
  {
    Acks.AckIsDurable(trace, id);
  }

  /** One request, from its decoded body to its response, with everybody else running in between. The
      parameters say how its own calls go. The run of the system it leaves behind is a run of Pipeline's
      steps in which this request's outcome is exactly the response returned. Step n of that run is its
      quota call: a 429 says, and only a 429 says, that the state it met could not take the batch; a 503
      names a call that failed; so a request whose calls go well and which fits its limits gets its 200,
      and then every accepted event is durably stored. */
  method Handle(sh: Shared, id: ReqId, req: Request, limits: Option<Limits>, quotaFault: Fault,
                offsetFaults: nat -> Fault, insertWorks: bool, partly: set<nat>)
    returns (resp: Response, ghost n: nat)
    requires sh.Valid() && id !in sh.s.reqs && req.claims.tenantId == id.tenant
    modifies sh
    ensures sh.Valid() && old(sh.trace) <= sh.trace
    ensures id in sh.s.reqs && sh.s.reqs[id].req == req && sh.s.reqs[id].phase == Done(resp)
    ensures resp.TooLarge413? <==> |req.events| > MAX_EVENTS_PER_BATCH
    ensures !resp.TooLarge413? ==>
              && |old(sh.trace)| <= n < |sh.trace| && sh.trace[n] == Charge(id, limits, quotaFault)
              && (var refused := resp == Unavailable503(LimitsSource) || resp == Unavailable503(QuotaCounters) || resp.TooMany429?;
                  AnswersQuota(Exec(sh.trace[..n]), req, limits, quotaFault, if refused then Some(resp) else None))
    ensures resp == Unavailable503(OffsetStore) ==> exists i: nat :: !offsetFaults(i).NoFault?
    ensures resp == Unavailable503(Storage) ==> !insertWorks
    ensures resp.Ok200? ==> AckIsSound(sh.s, req, resp)
  {
    hide Exec, AckIsSound, AnswersQuota, Apply, ValidEvents;
    ArriveMeans(sh.s, id, req);
    sh.Do(Arrive(id, req));
    n := 0;
    if |req.events| > MAX_EVENTS_PER_BATCH {
      return TooLarge413, n;
    }
    var valid, rejected := ValidateAll(req.events);

    var refusal, at := Admission(sh, id, req, limits, quotaFault);
    n := at;
    ghost var before, upToCall := sh.trace, sh.trace[..n];
    if refusal.Some? {
      RefusalKind(Exec(sh.trace[..n]), req, limits, quotaFault, refusal);
      return refusal.value, n;
    }
    var built, rows, accepted, _, _ := BuildRows(sh, id, req, valid, offsetFaults);
    assert sh.trace[..n] == before[..n] == upToCall;
    if !built {
      return Unavailable503(OffsetStore), n;
    }

    resp := StoreAndAck(sh, id, req, rows, accepted, rejected, insertWorks, partly);
    assert sh.trace[..n] == before[..n] == upToCall;
    if resp.Ok200? {
      AckMeans(sh.trace, id);
    }
  }

  lemma ArriveMeans(s: State, id: ReqId, req: Request)
    requires id !in s.reqs && req.claims.tenantId == id.tenant
    ensures var s' := Apply(s, Arrive(id, req));
            id in s'.reqs && s'.reqs[id] ==
            Local(req, if |req.events| > MAX_EVENTS_PER_BATCH then Done(TooLarge413) else Charging, map[], [], [], [])
  {
  }

  lemma RefusalKind(seen: State, req: Request, limits: Option<Limits>, fault: Fault, refusal: Option<Response>)
    requires AnswersQuota(seen, req, limits, fault, refusal) && refusal.Some?
    ensures refusal.value == Unavailable503(LimitsSource) || refusal.value == Unavailable503(QuotaCounters) || refusal.value.TooMany429?
  {
  }
}
