/** Batch ingestion as a system of atomic steps (services/ingest/internal/handler/batch.go over the
    Redis counters, the session_offsets table and the events table). Any number of requests
    interleave, every call to a dependency may fail before or after taking effect, clocks move,
    the retention sweep and background merges run when they like. */
module Pipeline {
  import opened Wrappers
  import opened Clock
  import opened Keys
  import opened Redis
  import opened Events
  import opened Enrich
  import opened EventTable
  import Quota

  /** Request identities carry the tenant of the verified claims. */
  datatype ReqId = ReqId(tenant: string, n: nat)

  /** An authenticated, decoded batch and the clock reading taken when it came in. */
  datatype Request = Request(claims: Claims, legacy: bool, sentAt: Int64, events: seq<Event>, receivedAt: Receipt)

  datatype Limits = Limits(dailyEvents: int, rps: int, legacyRps: int)

  datatype Reject = Reject(eventId: string, code: Code)

  datatype Dependency = LimitsSource | QuotaCounters | OffsetStore | Storage

  datatype Response =
    | Ok200(receivedAtMs: int, accepted: seq<string>, rejected: seq<Reject>)
    | TooLarge413
    | TooMany429(retryAfterSec: int, reason: Quota.Reason)
    | Unavailable503(what: Dependency)

  datatype Phase = Charging | Building(next: nat) | Acking | Done(resp: Response)

  /** What one handler invocation holds: its progress, its offset memo, the store calls it made,
      the rows built and the ids to acknowledge. */
  datatype Local = Local(req: Request, phase: Phase, memo: map<SessionKey, Int64>, asked: seq<SessionKey>,
                         rows: seq<Row>, accepted: seq<string>)

  /** The first offset a session ever got and when it was last touched. */
  datatype Touch = Touch(first: Int64, last: int)

  /** A stored row, the request it came from, and whether that insert reported success. */
  datatype Tagged = Tagged(id: ReqId, row: Row, success: bool)

  /** The shared state; `charged`, `inserted` and `touched` only record what happened. */
  datatype State = State(
    reqs: map<ReqId, Local>,
    quota: Quota.Counters,
    offsets: map<SessionKey, OffsetRow>,
    table: seq<Row>,
    redisNow: int,
    dbNow: int,
    charged: seq<ReqId>,
    inserted: seq<Tagged>,
    touched: map<SessionKey, Touch>)

  datatype Step =
    | Tick(redis: nat, db: nat)
    | SweepOffsets
    | MergeRows(drop: Row, keep: Row)
    | OtherKey(key: string, entry: Option<Entry>)
    | Arrive(id: ReqId, req: Request)
    | Charge(id: ReqId, limits: Option<Limits>, fault: Fault)
    | Build(id: ReqId, fault: Fault)
    | Insert(id: ReqId, ok: bool, partly: set<nat>)
    | Ack(id: ReqId)

  // ---- The request's own computations --------------------------------------------

  function ValidEvents(events: seq<Event>): seq<Event> {
    if events == [] then []
    else
      var front, e := ValidEvents(events[..|events| - 1]), events[|events| - 1];
      if Valid(e) then front + [e] else front
  }

  function Rejects(events: seq<Event>): seq<Reject> {
    if events == [] then []
    else
      var front, e := Rejects(events[..|events| - 1]), events[|events| - 1];
      match Validate(e)
      case None => front
      case Some(code) => front + [Reject(e.eventId, code)]
  }

  /** An all-garbage batch still costs one unit. */
  function ChargeUnits(req: Request): nat {
    if |ValidEvents(req.events)| == 0 then 1 else |ValidEvents(req.events)|
  }

  /** Legacy credentials get the tighter rate. */
  function CallOf(req: Request, lim: Limits): Quota.Call {
    Quota.Call(req.claims.tenantId, req.claims.installId, req.receivedAt, ChargeUnits(req),
               if req.legacy then lim.legacyRps else lim.rps, lim.dailyEvents)
  }

  // ---- Steps ------------------------------------------------------------------------

  function Put(s: State, id: ReqId, l: Local): State {
    s.(reqs := s.reqs[id := l])
  }

  function Reply(s: State, id: ReqId, resp: Response): State
    requires id in s.reqs
  {
    Put(s, id, s.reqs[id].(phase := Done(resp)))
  }

  function ApplyArrive(s: State, id: ReqId, req: Request): State {
    if id in s.reqs || req.claims.tenantId != id.tenant then s
    else Put(s, id, Local(req, if |req.events| > MAX_EVENTS_PER_BATCH then Done(TooLarge413) else Charging,
                          map[], [], [], []))
  }

  /** Where a request goes after the quota call. */
  function ChargeOutcome(d: Quota.Decision, fault: Fault): (p: Phase)
    ensures p.Building? <==> d.Allowed? && !fault.ReplyLost?
    ensures p == Building(0) || (p.Done? && !p.resp.Ok200?)
  {
    if fault.ReplyLost? then Done(Unavailable503(QuotaCounters))
    else if d.Denied? then Done(TooMany429(Quota.RetryAfterHeader(d), d.reason))
    else Building(0)
  }

  function ApplyCharge(s: State, id: ReqId, limits: Option<Limits>, fault: Fault): State
    requires id in s.reqs
  {
    if s.reqs[id].phase != Charging then s
    else if limits.None? then Reply(s, id, Unavailable503(LimitsSource))
    else if fault.NoEffect? then Reply(s, id, Unavailable503(QuotaCounters))
    else
      var o := Quota.Op(CallOf(s.reqs[id].req, limits.value), s.redisNow);
      var d := Quota.Decide(s.quota, o);
      s.(quota := Quota.Admit(s.quota, o),
         charged := if d.Allowed? then s.charged + [id] else s.charged,
         reqs := s.reqs[id := s.reqs[id].(phase := ChargeOutcome(d, fault))])
  }

  /** The store's answer to a first-contact candidate, and the touch it leaves. */
  function Touched(s: State, k: SessionKey, candidate: Int64): State {
    var offsets := Upsert(s.offsets, k, candidate, s.dbNow);
    s.(offsets := offsets,
       touched := s.touched[k := Touch(if k in s.touched then s.touched[k].first else candidate, s.dbNow)])
  }

  function Append(l: Local, e: Event, offset: Int64): Local
    requires l.phase.Building?
  {
    l.(phase := Building(l.phase.next + 1),
       rows := l.rows + [ToRow(e, l.req.claims, offset, l.req.receivedAt)],
       accepted := l.accepted + [e.eventId])
  }

  /** Asking the store for a session not yet in the memo. */
  function Ask(s: State, id: ReqId, e: Event, k: SessionKey, fault: Fault): State
    requires id in s.reqs && s.reqs[id].phase.Building?
  {
    var l := s.reqs[id];
    if fault.NoEffect? then Reply(s, id, Unavailable503(OffsetStore))
    else
      var s1 := Touched(s, k, CandidateOffset(l.req.sentAt, l.req.receivedAt));
      var offset := s1.offsets[k].offsetMs;
      if fault.ReplyLost? then Reply(s1, id, Unavailable503(OffsetStore))
      else Put(s1, id, Append(l.(memo := l.memo[k := offset], asked := l.asked + [k]), e, offset))
  }

  /** The next valid event becomes a row, from the memo or after asking the store. */
  function ApplyBuild(s: State, id: ReqId, fault: Fault): State
    requires id in s.reqs
  {
    var l := s.reqs[id];
    var valid := ValidEvents(l.req.events);
    if !l.phase.Building? || l.phase.next >= |valid| then s
    else
      var e := valid[l.phase.next];
      var k := KeyOf(e, l.req.claims);
      if k in l.memo then Put(s, id, Append(l, e, l.memo[k])) else Ask(s, id, e, k, fault)
  }

  /** The rows at the chosen positions. */
  function Pick(rows: seq<Row>, chosen: set<nat>): seq<Row> {
    if rows == [] then []
    else Pick(rows[..|rows| - 1], chosen) + (if |rows| - 1 in chosen then [rows[|rows| - 1]] else [])
  }

  function Tag(id: ReqId, rows: seq<Row>, success: bool): (t: seq<Tagged>)
    ensures |t| == |rows|
    ensures forall i :: 0 <= i < |rows| ==> t[i] == Tagged(id, rows[i], success)
  {
    seq(|rows|, i requires 0 <= i < |rows| => Tagged(id, rows[i], success))
  }

  /** A failed insert may still have stored some of its rows; inserting nothing cannot fail. */
  function ApplyInsert(s: State, id: ReqId, ok: bool, partly: set<nat>): State
    requires id in s.reqs
  {
    var l := s.reqs[id];
    if l.phase != Building(|ValidEvents(l.req.events)|) then s
    else
      var success := ok || l.rows == [];
      var stored := if success then l.rows else Pick(l.rows, partly);
      var s1 := s.(table := s.table + stored, inserted := s.inserted + Tag(id, stored, success));
      if success then Put(s1, id, l.(phase := Acking)) else Reply(s1, id, Unavailable503(Storage))
  }

  function ApplyAck(s: State, id: ReqId): State
    requires id in s.reqs
  {
    var l := s.reqs[id];
    if l.phase != Acking then s
    else Reply(s, id, Ok200(Millis(l.req.receivedAt), l.accepted, Rejects(l.req.events)))
  }

  /** The other users of the same Redis, the limiters and the attestation nonces, write or delete keys
      of their own families. */
  function WriteOther(db: Db, key: string, entry: Option<Entry>): Db {
    if FamilyOf(key) == Rate || FamilyOf(key) == Daily then db
    else if entry.Some? then db[key := entry.value]
    else db - {key}
  }

  /** No bucket's counter is touched: the key families are disjoint. */
  lemma OthersKeepBuckets(db: Db, key: string, entry: Option<Entry>, b: Quota.Bucket)
    ensures b.Key() in WriteOther(db, key, entry) <==> b.Key() in db
    ensures b.Key() in db ==> WriteOther(db, key, entry)[b.Key()] == db[b.Key()]
  {
    hide RateKey, DayKey;
    assert FamilyOf(b.Key()) == if b.PerSecond? then Rate else Daily;
  }

  /** A step that cannot happen leaves the state as it is. */
  function Apply(s: State, step: Step): State {
    match step
    case Tick(r, d) => s.(redisNow := s.redisNow + r, dbNow := s.dbNow + d)
    case SweepOffsets => s.(offsets := Sweep(s.offsets, s.dbNow))
    case MergeRows(drop, keep) => s.(table := Merge(s.table, drop, keep))
    case OtherKey(key, entry) => s.(quota := s.quota.(db := WriteOther(s.quota.db, key, entry)))
    case Arrive(id, req) => ApplyArrive(s, id, req)
    case Charge(id, limits, fault) => if id in s.reqs then ApplyCharge(s, id, limits, fault) else s
    case Build(id, fault) => if id in s.reqs then ApplyBuild(s, id, fault) else s
    case Insert(id, ok, partly) => if id in s.reqs then ApplyInsert(s, id, ok, partly) else s
    case Ack(id) => if id in s.reqs then ApplyAck(s, id) else s
  }

  const INITIAL := State(map[], Quota.EMPTY, map[], [], 0, 0, [], [], map[])

  function ExecFrom(s: State, steps: seq<Step>): State {
    if steps == [] then s else Apply(ExecFrom(s, steps[..|steps| - 1]), steps[|steps| - 1])
  }

  function Exec(steps: seq<Step>): State {
    ExecFrom(INITIAL, steps)
  }

  // ---- What every handler invocation keeps --------------------------------------------

  lemma {:induction false} ValidEventsAreValid(events: seq<Event>)
    ensures forall e :: e in ValidEvents(events) <==> e in events && Valid(e)
    ensures |ValidEvents(events)| + |Rejects(events)| == |events|
  {
    if events != [] {
      ValidEventsAreValid(events[..|events| - 1]);
      assert events == events[..|events| - 1] + [events[|events| - 1]];
    }
  }

  /** The distinct sessions of some events. */
  function SessionsOf(events: seq<Event>, c: Claims): set<SessionKey> {
    if events == [] then {}
    else SessionsOf(events[..|events| - 1], c) + {KeyOf(events[|events| - 1], c)}
  }

  /** The row is the event's, under its session's remembered offset. */
  predicate RowFor(r: Row, e: Event, req: Request, memo: map<SessionKey, Int64>) {
    var k := KeyOf(e, req.claims);
    k in memo && r == ToRow(e, req.claims, memo[k], req.receivedAt)
  }

  ghost predicate RowsFor(rows: seq<Row>, events: seq<Event>, req: Request, memo: map<SessionKey, Int64>) {
    |rows| <= |events| && forall i :: 0 <= i < |rows| ==> RowFor(rows[i], events[i], req, memo)
  }

  ghost predicate AcceptedFor(accepted: seq<string>, events: seq<Event>, n: nat) {
    |accepted| == n <= |events| && forall i :: 0 <= i < n ==> accepted[i] == events[i].eventId
  }

  /** The memo remembers the sessions asked for, each asked for once. */
  ghost predicate MemoFor(memo: map<SessionKey, Int64>, asked: seq<SessionKey>, sessions: set<SessionKey>) {
    && memo.Keys == sessions
    && Distinct(asked) && (forall k :: k in asked <==> k in memo)
    && (forall k :: k in memo ==> OffsetInRange(memo[k]))
  }

  /** The work done after the first n valid events. */
  ghost predicate BuiltUpTo(l: Local, n: nat) {
    var valid := ValidEvents(l.req.events);
    && n == |l.rows|
    && RowsFor(l.rows, valid, l.req, l.memo)
    && AcceptedFor(l.accepted, valid, n)
    && MemoFor(l.memo, l.asked, SessionsOf(valid[..n], l.req.claims))
  }

  predicate Finished(p: Phase) {
    p.Acking? || (p.Done? && p.resp.Ok200?)
  }

  ghost predicate LocalOk(id: ReqId, l: Local) {
    && l.req.claims.tenantId == id.tenant
    && BuiltUpTo(l, |l.rows|)
    && (l.phase.Charging? ==> l.rows == [])
    && (l.phase.Building? ==> l.phase.next == |l.rows|)
    && (Finished(l.phase) ==> |l.rows| == |ValidEvents(l.req.events)|)
    && (l.phase.Done? && l.phase.resp.Ok200? ==>
          l.phase.resp.accepted == l.accepted && l.phase.resp.rejected == Rejects(l.req.events))
  }

  /** Every row the request built is in an insert that has returned success. */
  ghost predicate Durable(l: Local, id: ReqId, inserted: seq<Tagged>) {
    forall r :: r in l.rows ==> Tagged(id, r, true) in inserted
  }

  ghost predicate Inv(s: State) {
    && (forall id :: id in s.reqs ==> LocalOk(id, s.reqs[id]))
    && (forall id :: id in s.reqs && Finished(s.reqs[id].phase) ==> Durable(s.reqs[id], id, s.inserted))
    && (forall k :: k in s.offsets ==> OffsetInRange(s.offsets[k].offsetMs))
    && (forall t :: t in s.inserted ==> t.id in s.reqs && t.row in s.reqs[t.id].rows)
  }

  lemma RowsForMore(rows: seq<Row>, events: seq<Event>, req: Request, memo: map<SessionKey, Int64>, memo': map<SessionKey, Int64>, r: Row)
    requires RowsFor(rows, events, req, memo) && |rows| < |events|
    requires forall k :: k in memo ==> k in memo' && memo'[k] == memo[k]
    requires RowFor(r, events[|rows|], req, memo')
    ensures RowsFor(rows + [r], events, req, memo')
  {
    forall i | 0 <= i < |rows| + 1
      ensures RowFor((rows + [r])[i], events[i], req, memo')
    {
      if i < |rows| {
        assert RowFor(rows[i], events[i], req, memo);
      }
    }
  }

  lemma AppendBuilds(l: Local, e: Event, k: SessionKey, n: nat)
    requires BuiltUpTo(l, n) && l.phase == Building(n) && n < |ValidEvents(l.req.events)|
    requires e == ValidEvents(l.req.events)[n] && k == KeyOf(e, l.req.claims) && k in l.memo
    ensures BuiltUpTo(Append(l, e, l.memo[k]), n + 1)
  {
    hide ToRow, RateKey, DayKey, OffsetInRange, ValidEvents, RowsFor;
    var valid := ValidEvents(l.req.events);
    assert valid[..n + 1][..n] == valid[..n] && valid[..n + 1][n] == e;
    var l' := Append(l, e, l.memo[k]);
    RowsForMore(l.rows, valid, l.req, l.memo, l.memo, l'.rows[n]);
    assert SessionsOf(valid[..n + 1], l.req.claims) == SessionsOf(valid[..n], l.req.claims) + {k};
  }

  lemma AskAndAppendBuilds(l: Local, e: Event, k: SessionKey, offset: Int64, n: nat)
    requires BuiltUpTo(l, n) && l.phase == Building(n) && n < |ValidEvents(l.req.events)| && OffsetInRange(offset)
    requires e == ValidEvents(l.req.events)[n] && k == KeyOf(e, l.req.claims) && k !in l.memo
    ensures BuiltUpTo(Append(l.(memo := l.memo[k := offset], asked := l.asked + [k]), e, offset), n + 1)
  {
    hide ToRow, RateKey, DayKey, OffsetInRange, ValidEvents, RowsFor;
    var valid := ValidEvents(l.req.events);
    assert valid[..n + 1][..n] == valid[..n] && valid[..n + 1][n] == e;
    var memo' := l.memo[k := offset];
    var l' := Append(l.(memo := memo', asked := l.asked + [k]), e, offset);
    RowsForMore(l.rows, valid, l.req, l.memo, memo', l'.rows[n]);
    assert SessionsOf(valid[..n + 1], l.req.claims) == SessionsOf(valid[..n], l.req.claims) + {k};
    assert memo'.Keys == l.memo.Keys + {k};
    assert MemoFor(memo', l.asked + [k], l.memo.Keys + {k});
  }

  /** One request moves on: the rest of the invariant is framed. */
  lemma PutKeepsInv(s: State, s': State, id: ReqId, l: Local)
    requires Inv(s) && s'.reqs == s.reqs[id := l] && s'.inserted == s.inserted
    requires LocalOk(id, l) && (Finished(l.phase) ==> Durable(l, id, s.inserted))
    requires id in s.reqs ==> forall r :: r in s.reqs[id].rows ==> r in l.rows
    requires forall k :: k in s'.offsets ==> OffsetInRange(s'.offsets[k].offsetMs)
    ensures Inv(s')
  {
    hide LocalOk, Durable, OffsetInRange;
  }

  lemma PhaseOk(id: ReqId, l: Local, p: Phase)
    requires LocalOk(id, l)
    requires !p.Charging? && (p.Building? ==> p.next == |l.rows|)
    requires Finished(p) ==> |l.rows| == |ValidEvents(l.req.events)|
    requires p.Done? && p.resp.Ok200? ==> p.resp.accepted == l.accepted && p.resp.rejected == Rejects(l.req.events)
    ensures LocalOk(id, l.(phase := p))
  {
    hide RowsFor, AcceptedFor, MemoFor, SessionsOf, ValidEvents, Rejects;
  }

  /** Leaving the handler, or entering its row loop, after any change to the shared counters. */
  lemma LeaveKeepsInv(s: State, s': State, id: ReqId, p: Phase)
    requires Inv(s) && id in s.reqs && s'.inserted == s.inserted
    requires s'.reqs == s.reqs[id := s.reqs[id].(phase := p)]
    requires (p == Building(0) && s.reqs[id].rows == []) || (p.Done? && !p.resp.Ok200?)
    requires forall k :: k in s'.offsets ==> OffsetInRange(s'.offsets[k].offsetMs)
    ensures Inv(s')
  {
    hide ToRow, RateKey, DayKey;
    PhaseOk(id, s.reqs[id], p);
    PutKeepsInv(s, s', id, s.reqs[id].(phase := p));
  }

  lemma UpsertInRange(m: map<SessionKey, OffsetRow>, k: SessionKey, candidate: Int64, at: int)
    requires OffsetInRange(candidate) && (forall x :: x in m ==> OffsetInRange(m[x].offsetMs))
    ensures forall x :: x in Upsert(m, k, candidate, at) ==> OffsetInRange(Upsert(m, k, candidate, at)[x].offsetMs)
  {
  }

  lemma AskKeepsInv(s: State, id: ReqId, e: Event, k: SessionKey, fault: Fault)
    requires Inv(s) && id in s.reqs && s.reqs[id].phase.Building?
    requires var l := s.reqs[id];
             var valid := ValidEvents(l.req.events);
             l.phase.next < |valid| && e == valid[l.phase.next] && k == KeyOf(e, l.req.claims) && k !in l.memo
    ensures Inv(Ask(s, id, e, k, fault))
  {
    hide BuiltUpTo, Durable, OffsetInRange, ToRow, CandidateOffset;
    var l := s.reqs[id];
    assert LocalOk(id, l);
    var s' := Ask(s, id, e, k, fault);
    if fault.NoEffect? {
      LeaveKeepsInv(s, s', id, Done(Unavailable503(OffsetStore)));
    } else {
      var candidate := CandidateOffset(l.req.sentAt, l.req.receivedAt);
      CandidateNeverWraps(l.req.sentAt, l.req.receivedAt);
      UpsertInRange(s.offsets, k, candidate, s.dbNow);
      var s1 := Touched(s, k, candidate);
      TouchKeepsInv(s, k, candidate);
      var offset := s1.offsets[k].offsetMs;
      if fault.ReplyLost? {
        LeaveKeepsInv(s1, s', id, Done(Unavailable503(OffsetStore)));
      } else {
        AskAndAppendBuilds(l, e, k, offset, l.phase.next);
        var l' := Append(l.(memo := l.memo[k := offset], asked := l.asked + [k]), e, offset);
        GrowKeepsInv(s1, id, l');
      }
    }
  }

  lemma TouchKeepsInv(s: State, k: SessionKey, candidate: Int64)
    requires Inv(s) && OffsetInRange(candidate)
    ensures Inv(Touched(s, k, candidate))
  {
    hide LocalOk, Durable, OffsetInRange;
    UpsertInRange(s.offsets, k, candidate, s.dbNow);
  }

  lemma GrowKeepsInv(s: State, id: ReqId, l: Local)
    requires Inv(s) && id in s.reqs
    requires LocalOk(id, l) && !Finished(l.phase)
    requires forall r :: r in s.reqs[id].rows ==> r in l.rows
    ensures Inv(Put(s, id, l))
  {
    hide LocalOk, Durable, OffsetInRange;
    PutKeepsInv(s, Put(s, id, l), id, l);
  }

  lemma BuildKeepsInv(s: State, id: ReqId, fault: Fault)
    requires Inv(s) && id in s.reqs
    ensures Inv(ApplyBuild(s, id, fault))
  {
    hide BuiltUpTo, Durable, OffsetInRange, ToRow;
    var l := s.reqs[id];
    assert LocalOk(id, l);
    var valid := ValidEvents(l.req.events);
    if l.phase.Building? && l.phase.next < |valid| {
      var e := valid[l.phase.next];
      var k := KeyOf(e, l.req.claims);
      if k in l.memo {
        AppendBuilds(l, e, k, l.phase.next);
        GrowKeepsInv(s, id, Append(l, e, l.memo[k]));
      } else {
        AskKeepsInv(s, id, e, k, fault);
      }
    }
  }

  lemma {:induction false} PickedFrom(rows: seq<Row>, chosen: set<nat>)
    ensures forall r :: r in Pick(rows, chosen) ==> r in rows
    ensures |Pick(rows, chosen)| <= |rows|
  {
    if rows != [] {
      PickedFrom(rows[..|rows| - 1], chosen);
    }
  }

  lemma TagFacts(id: ReqId, rows: seq<Row>, success: bool)
    ensures forall t :: t in Tag(id, rows, success) <==> t.id == id && t.row in rows && t.success == success
  {
    forall r | r in rows
      ensures Tagged(id, r, success) in Tag(id, rows, success)
    {
      var i :| 0 <= i < |rows| && rows[i] == r;
      assert Tag(id, rows, success)[i] == Tagged(id, r, success);
    }
  }

  /** Rows of the request's own reach the table. */
  lemma StoreKeepsInv(s: State, id: ReqId, stored: seq<Row>, success: bool)
    requires Inv(s) && id in s.reqs && forall r :: r in stored ==> r in s.reqs[id].rows
    ensures Inv(s.(table := s.table + stored, inserted := s.inserted + Tag(id, stored, success)))
    ensures success ==> Durable(s.reqs[id].(rows := stored), id, s.inserted + Tag(id, stored, success))
  {
    hide LocalOk, OffsetInRange;
    TagFacts(id, stored, success);
  }

  lemma InsertKeepsInv(s: State, id: ReqId, ok: bool, partly: set<nat>)
    requires Inv(s) && id in s.reqs
    ensures Inv(ApplyInsert(s, id, ok, partly))
  {
    hide BuiltUpTo, OffsetInRange;
    var l := s.reqs[id];
    if l.phase == Building(|ValidEvents(l.req.events)|) {
      var success := ok || l.rows == [];
      var stored := if success then l.rows else Pick(l.rows, partly);
      PickedFrom(l.rows, partly);
      StoreKeepsInv(s, id, stored, success);
      var s1 := s.(table := s.table + stored, inserted := s.inserted + Tag(id, stored, success));
      var l' := l.(phase := if success then Acking else Done(Unavailable503(Storage)));
      PhaseOk(id, l, l'.phase);
      PutKeepsInv(s1, ApplyInsert(s, id, ok, partly), id, l');
    }
  }

  lemma FreshLocalOk(id: ReqId, l: Local)
    requires l.req.claims.tenantId == id.tenant && l.memo == map[] && l.asked == [] && l.rows == [] && l.accepted == []
    requires l.phase == Charging || l.phase == Done(TooLarge413)
    ensures LocalOk(id, l)
  {
    hide OffsetInRange, Rejects, ValidEvents;
    assert ValidEvents(l.req.events)[..0] == [];
  }

  lemma ArriveKeepsInv(s: State, id: ReqId, req: Request)
    requires Inv(s)
    ensures Inv(ApplyArrive(s, id, req))
  {
    hide LocalOk, Durable, OffsetInRange;
    var s' := ApplyArrive(s, id, req);
    if s' != s {
      FreshLocalOk(id, s'.reqs[id]);
      PutKeepsInv(s, s', id, s'.reqs[id]);
    }
  }

  lemma ChargeKeepsInv(s: State, id: ReqId, limits: Option<Limits>, fault: Fault)
    requires Inv(s) && id in s.reqs
    ensures Inv(ApplyCharge(s, id, limits, fault))
  {
    hide ToRow, RateKey, DayKey;
    var s' := ApplyCharge(s, id, limits, fault);
    var l := s.reqs[id];
    assert LocalOk(id, l);
    if l.phase == Charging {
      LeaveKeepsInv(s, s', id, s'.reqs[id].phase);
    }
  }

  lemma StepKeepsInv(s: State, step: Step)
    requires Inv(s)
    ensures Inv(Apply(s, step))
  {
    hide LocalOk, Durable, OffsetInRange;
    match step
    case Tick(_, _) =>
    case SweepOffsets =>
    case MergeRows(_, _) =>
    case OtherKey(_, _) =>
    case Arrive(id, req) => ArriveKeepsInv(s, id, req);
    case Charge(id, limits, fault) =>
      if id in s.reqs {
        ChargeKeepsInv(s, id, limits, fault);
      }
    case Build(id, fault) =>
      if id in s.reqs {
        BuildKeepsInv(s, id, fault);
      }
    case Insert(id, ok, partly) =>
      if id in s.reqs {
        InsertKeepsInv(s, id, ok, partly);
      }
    case Ack(id) =>
      if id in s.reqs {
        AckKeepsInv(s, id);
      }
  }

  lemma AckKeepsInv(s: State, id: ReqId)
    requires Inv(s) && id in s.reqs
    ensures Inv(ApplyAck(s, id))
  {
    hide BuiltUpTo, OffsetInRange;
    if s.reqs[id].phase == Acking {
      PhaseOk(id, s.reqs[id], ApplyAck(s, id).reqs[id].phase);
      assert Durable(s.reqs[id], id, s.inserted) by {
        assert Finished(s.reqs[id].phase);
      }
      PutKeepsInv(s, ApplyAck(s, id), id, ApplyAck(s, id).reqs[id]);
    }
  }

  lemma OnlyInsertsStore(s: State, step: Step)
    requires !step.Insert? && !step.MergeRows?
    ensures Apply(s, step).table == s.table && Apply(s, step).inserted == s.inserted
  {
    hide Quota.Decide, Quota.Admit, ValidEvents, Rejects;
  }

  lemma {:induction false} RunKeepsInv(steps: seq<Step>)
    ensures Inv(Exec(steps))
  {
    if steps != [] {
      RunKeepsInv(steps[..|steps| - 1]);
      StepKeepsInv(Exec(steps[..|steps| - 1]), steps[|steps| - 1]);
    }
  }
}
