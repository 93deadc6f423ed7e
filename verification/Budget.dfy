/** Conservation between the counters and the table: no run stores more rows in a bucket than were
    admitted on it. */
module Budget {
  import opened Wrappers
  import opened Clock
  import opened Keys
  import opened Enrich
  import opened EventTable
  import opened Pipeline
  import opened Redis
  import opened Quota

  /** The row falls in the bucket: its tenant's UTC day, or its tenant, install and second. */
  predicate RowIn(r: Row, b: Bucket) {
    match b
    case PerSecond(t, i, s) => r.tenantId == t && r.installId == i && UnixSecond(r.tsReceived) == s
    case PerDay(t, d) => r.tenantId == t && UtcDay(r.tsReceived) == d
  }

  function RowsIn(t: seq<Row>, b: Bucket): nat {
    if t == [] then 0 else RowsIn(t[1..], b) + (if RowIn(t[0], b) then 1 else 0)
  }

  function InsertedIn(t: seq<Tagged>, b: Bucket): nat {
    if t == [] then 0 else InsertedIn(t[1..], b) + (if RowIn(t[0].row, b) then 1 else 0)
  }

  function InsertedBy(t: seq<Tagged>, id: ReqId): nat {
    if t == [] then 0 else InsertedBy(t[1..], id) + (if t[0].id == id then 1 else 0)
  }

  function Without(t: seq<Tagged>, id: ReqId): seq<Tagged> {
    if t == [] then [] else if t[0].id == id then Without(t[1..], id) else [t[0]] + Without(t[1..], id)
  }

  lemma {:induction false} RowsInAppend(t: seq<Row>, u: seq<Row>, b: Bucket)
    ensures RowsIn(t + u, b) == RowsIn(t, b) + RowsIn(u, b)
  {
    if t == [] {
      assert t + u == u;
    } else {
      RowsInAppend(t[1..], u, b);
      assert (t + u)[1..] == t[1..] + u;
    }
  }

  lemma {:induction false} InsertedAppend(t: seq<Tagged>, u: seq<Tagged>, b: Bucket, id: ReqId)
    ensures InsertedIn(t + u, b) == InsertedIn(t, b) + InsertedIn(u, b)
    ensures InsertedBy(t + u, id) == InsertedBy(t, id) + InsertedBy(u, id)
  {
    if t == [] {
      assert t + u == u;
    } else {
      InsertedAppend(t[1..], u, b, id);
      assert (t + u)[1..] == t[1..] + u;
    }
  }

  lemma {:induction false} TagCounts(owner: ReqId, rows: seq<Row>, success: bool, b: Bucket, id: ReqId)
    ensures InsertedIn(Tag(owner, rows, success), b) == RowsIn(rows, b)
    ensures InsertedBy(Tag(owner, rows, success), id) == if id == owner then |rows| else 0
  {
    if rows != [] {
      TagCounts(owner, rows[1..], success, b, id);
      assert Tag(owner, rows, success)[1..] == Tag(owner, rows[1..], success);
    }
  }

  lemma {:induction false} MergeOnlyLoses(t: seq<Row>, x: Row, b: Bucket)
    ensures RowsIn(RemoveFirst(t, x), b) <= RowsIn(t, b)
  {
    if t != [] && t[0] != x {
      MergeOnlyLoses(t[1..], x, b);
      assert RemoveFirst(t, x)[1..] == RemoveFirst(t[1..], x);
    }
  }

  lemma {:induction false} WithoutFacts(t: seq<Tagged>, id: ReqId, b: Bucket, other: ReqId)
    ensures forall x :: x in Without(t, id) <==> x in t && x.id != id
    ensures InsertedIn(t, b) <= InsertedIn(Without(t, id), b) + InsertedBy(t, id)
    ensures (forall x :: x in t && x.id == id ==> !RowIn(x.row, b)) ==> InsertedIn(t, b) == InsertedIn(Without(t, id), b)
    ensures other != id ==> InsertedBy(Without(t, id), other) == InsertedBy(t, other)
  {
    if t != [] {
      WithoutFacts(t[1..], id, b, other);
      if t[0].id != id {
        assert Without(t, id)[1..] == Without(t[1..], id);
      }
    }
  }

  /** Each insertion is paid for by its request's one admission. */
  ghost predicate PaidFor(t: seq<Tagged>, charged: seq<ReqId>, log: seq<Op>, b: Bucket) {
    && |charged| == |log| && Distinct(charged)
    && (forall x :: x in t ==> x.id in charged)
    && (forall i :: 0 <= i < |charged| ==> InsertedBy(t, charged[i]) <= log[i].call.n)
    && (forall x, i :: x in t && 0 <= i < |charged| && x.id == charged[i] && RowIn(x.row, b) ==> Hits(log[i].call, b))
  }

  /** Leaving out one request's insertions and its admission leaves the others paid for. */
  lemma PaidRest(t: seq<Tagged>, charged: seq<ReqId>, log: seq<Op>, b: Bucket)
    requires PaidFor(t, charged, log, b) && charged != []
    ensures var n := |charged| - 1; PaidFor(Without(t, charged[n]), charged[..n], log[..n], b)
  {
    hide InsertedBy, Hits, RowIn;
    var n := |charged| - 1;
    var id := charged[n];
    WithoutFacts(t, id, b, id);
    forall i | 0 <= i < n
      ensures InsertedBy(Without(t, id), charged[i]) <= log[i].call.n
    {
      WithoutFacts(t, id, b, charged[i]);
    }
    assert charged == charged[..n] + [id];
  }

  /** The last request's insertions in a bucket are no more than its admission counted there. */
  lemma LastIsPaid(t: seq<Tagged>, charged: seq<ReqId>, log: seq<Op>, b: Bucket)
    requires PaidFor(t, charged, log, b) && charged != []
    ensures var n := |charged| - 1;
            InsertedIn(t, b) <= InsertedIn(Without(t, charged[n]), b) + (if Hits(log[n].call, b) then log[n].call.n else 0)
  {
    hide RowIn, Hits;
    var n := |charged| - 1;
    WithoutFacts(t, charged[n], b, charged[n]);
  }

  lemma {:induction false} PaidRowsAreAdmitted(t: seq<Tagged>, charged: seq<ReqId>, log: seq<Op>, b: Bucket)
    requires PaidFor(t, charged, log, b)
    ensures InsertedIn(t, b) <= Units(log, b)
    decreases |charged|
  {
    hide RowIn, Hits, Without, InsertedBy;
    if t != [] {
      assert t[0] in t;
      var n := |charged| - 1;
      PaidRest(t, charged, log, b);
      LastIsPaid(t, charged, log, b);
      PaidRowsAreAdmitted(Without(t, charged[n]), charged[..n], log[..n], b);
    }
  }

  // ---- Over runs --------------------------------------------------------------------

  /** A request has passed the quota at most once and stored nothing it did not pay for. */
  ghost predicate Ledger(s: State) {
    && Quota.Inv(s.quota)
    && |s.charged| == |s.quota.log| && Distinct(s.charged)
    && (forall i :: 0 <= i < |s.charged| ==> s.charged[i] in s.reqs && Matches(s.quota.log[i].call, s.reqs[s.charged[i]].req))
    && (forall id :: id in s.reqs && s.reqs[id].phase.Charging? ==> id !in s.charged)
    && (forall id :: id in s.reqs && (s.reqs[id].phase.Building? || Finished(s.reqs[id].phase)) ==> id in s.charged)
    && (forall t :: t in s.inserted ==> t.id in s.charged)
    && (forall id :: id in s.reqs ==> InsertedBy(s.inserted, id) <= ChargeUnits(s.reqs[id].req))
    && (forall id :: id in s.reqs && (s.reqs[id].phase.Charging? || s.reqs[id].phase.Building?) ==> InsertedBy(s.inserted, id) == 0)
    && (forall id :: id !in s.reqs ==> InsertedBy(s.inserted, id) == 0)
  }

  predicate Matches(c: Call, req: Request) {
    c.tenant == req.claims.tenantId && c.install == req.claims.installId && c.now == req.receivedAt
    && c.n == ChargeUnits(req)
  }

  /** A request moves on without touching counters or table. */
  lemma MoveKeepsLedger(s: State, s': State, id: ReqId, l: Local)
    requires Ledger(s) && id in s.reqs && s'.reqs == s.reqs[id := l] && l.req == s.reqs[id].req
    requires s'.quota == s.quota && s'.charged == s.charged && s'.inserted == s.inserted
    requires !l.phase.Charging?
    requires l.phase.Building? || Finished(l.phase) ==> id in s.charged
    requires l.phase.Building? ==> s.reqs[id].phase.Building?
    ensures Ledger(s')
  {
    hide Quota.Inv, Matches, ChargeUnits, InsertedBy;
  }

  lemma ChargeKeepsLedger(s: State, id: ReqId, limits: Option<Limits>, fault: Fault)
    requires Ledger(s) && id in s.reqs
    ensures Ledger(ApplyCharge(s, id, limits, fault))
  {
    var l := s.reqs[id];
    if l.phase == Charging {
      if limits.None? {
        MoveKeepsLedger(s, Reply(s, id, Unavailable503(LimitsSource)), id, l.(phase := Done(Unavailable503(LimitsSource))));
      } else if fault.NoEffect? {
        MoveKeepsLedger(s, Reply(s, id, Unavailable503(QuotaCounters)), id, l.(phase := Done(Unavailable503(QuotaCounters))));
      } else {
        ChargeRecorded(s, id, Op(CallOf(l.req, limits.value), s.redisNow), fault);
      }
    }
  }

  lemma ChargeRecorded(s: State, id: ReqId, o: Op, fault: Fault)
    requires Ledger(s) && id in s.reqs && s.reqs[id].phase == Charging && !fault.NoEffect?
    requires Matches(o.call, s.reqs[id].req)
    ensures Ledger(s.(quota := Admit(s.quota, o),
                      charged := if Decide(s.quota, o).Allowed? then s.charged + [id] else s.charged,
                      reqs := s.reqs[id := s.reqs[id].(phase := ChargeOutcome(Decide(s.quota, o), fault))]))
  {
    var d := Decide(s.quota, o);
    var q := Admit(s.quota, o);
    AdmitKeepsInv(s.quota, o);
    assert q.log == if d.Allowed? then s.quota.log + [o] else s.quota.log;
    RecordCharge(s, id, q, d, o, fault);
  }

  lemma RecordCharge(s: State, id: ReqId, q: Quota.Counters, d: Decision, o: Op, fault: Fault)
    requires Ledger(s) && id in s.reqs && s.reqs[id].phase == Charging
    requires Matches(o.call, s.reqs[id].req) && Quota.Inv(q)
    requires q.log == if d.Allowed? then s.quota.log + [o] else s.quota.log
    ensures Ledger(s.(quota := q, charged := if d.Allowed? then s.charged + [id] else s.charged,
                      reqs := s.reqs[id := s.reqs[id].(phase := ChargeOutcome(d, fault))]))
  {
    hide Quota.Inv, Matches, ChargeUnits, InsertedBy;
  }

  lemma StoreKeepsLedger(s: State, id: ReqId, stored: seq<Row>, success: bool, phase: Phase)
    requires Ledger(s) && id in s.reqs && s.reqs[id].phase.Building?
    requires |stored| <= ChargeUnits(s.reqs[id].req)
    requires !phase.Charging? && !phase.Building?
    ensures Ledger(s.(table := s.table + stored, inserted := s.inserted + Tag(id, stored, success),
                      reqs := s.reqs[id := s.reqs[id].(phase := phase)]))
  {
    hide Quota.Inv, Matches, ChargeUnits, InsertedBy, Tag;
    TagFacts(id, stored, success);
    forall x
      ensures InsertedBy(s.inserted + Tag(id, stored, success), x)
              == InsertedBy(s.inserted, x) + (if x == id then |stored| else 0)
    {
      InsertedAppend(s.inserted, Tag(id, stored, success), PerDay("", 0), x);
      TagCounts(id, stored, success, PerDay("", 0), x);
    }
  }

  lemma InsertKeepsLedger(s: State, id: ReqId, ok: bool, partly: set<nat>)
    requires Ledger(s) && Pipeline.Inv(s) && id in s.reqs
    ensures Ledger(ApplyInsert(s, id, ok, partly))
  {
    var l := s.reqs[id];
    if l.phase == Building(|ValidEvents(l.req.events)|) {
      assert LocalOk(id, l);
      var success := ok || l.rows == [];
      var stored := if success then l.rows else Pick(l.rows, partly);
      PickedFrom(l.rows, partly);
      StoreKeepsLedger(s, id, stored, success, if success then Acking else Done(Unavailable503(Storage)));
    }
  }

  lemma BuildKeepsLedger(s: State, id: ReqId, fault: Fault)
    requires Ledger(s) && id in s.reqs
    ensures Ledger(ApplyBuild(s, id, fault))
  {
    hide Quota.Inv, ChargeUnits, InsertedBy;
    var s' := ApplyBuild(s, id, fault);
    if s' != s {
      MoveKeepsLedger(s, s', id, s'.reqs[id]);
    }
  }

  lemma ArriveKeepsLedger(s: State, id: ReqId, req: Request)
    requires Ledger(s)
    ensures Ledger(ApplyArrive(s, id, req))
  {
    hide Quota.Inv, ChargeUnits, InsertedBy;
  }

  lemma AckKeepsLedger(s: State, id: ReqId)
    requires Ledger(s) && id in s.reqs
    ensures Ledger(ApplyAck(s, id))
  {
    hide Quota.Inv, ChargeUnits, InsertedBy;
    if s.reqs[id].phase == Acking {
      MoveKeepsLedger(s, ApplyAck(s, id), id, ApplyAck(s, id).reqs[id]);
    }
  }

  lemma QuietKeepsLedger(s: State, s': State)
    requires Ledger(s)
    requires s'.reqs == s.reqs && s'.charged == s.charged && s'.inserted == s.inserted
    requires s'.quota.log == s.quota.log && Quota.Inv(s'.quota)
    ensures Ledger(s')
  {
    hide Quota.Inv, Matches, ChargeUnits, InsertedBy, Distinct, Finished;
  }

  lemma OtherKeyKeepsCounters(q: Quota.Counters, key: string, entry: Option<Entry>)
    requires Quota.Inv(q)
    ensures Quota.Inv(q.(db := WriteOther(q.db, key, entry)))
  {
    hide WriteOther, RateKey, DayKey;
    var q' := q.(db := WriteOther(q.db, key, entry));
    forall b: Bucket
      ensures Sound(q', b)
    {
      assert Sound(q, b);
      OthersKeepBuckets(q.db, key, entry, b);
    }
  }

  lemma StepKeepsLedger(s: State, step: Step)
    requires Ledger(s) && Pipeline.Inv(s)
    ensures Ledger(Apply(s, step))
  {
    hide Quota.Inv, Matches, ChargeUnits, InsertedBy, Pipeline.Inv, Distinct, Finished;
    match step
    case Tick(_, _) => QuietKeepsLedger(s, Apply(s, step));
    case SweepOffsets => QuietKeepsLedger(s, Apply(s, step));
    case MergeRows(_, _) => QuietKeepsLedger(s, Apply(s, step));
    case OtherKey(key, entry) =>
      OtherKeyKeepsCounters(s.quota, key, entry);
      QuietKeepsLedger(s, Apply(s, step));
    case Arrive(id, req) => ArriveKeepsLedger(s, id, req);
    case Charge(id, limits, fault) =>
      if id in s.reqs {
        ChargeKeepsLedger(s, id, limits, fault);
      }
    case Build(id, fault) =>
      if id in s.reqs {
        BuildKeepsLedger(s, id, fault);
      }
    case Insert(id, ok, partly) =>
      if id in s.reqs {
        InsertKeepsLedger(s, id, ok, partly);
      }
    case Ack(id) =>
      if id in s.reqs {
        AckKeepsLedger(s, id);
      }
  }

  lemma StepKeepsTableBelow(s: State, step: Step, b: Bucket)
    requires RowsIn(s.table, b) <= InsertedIn(s.inserted, b)
    ensures RowsIn(Apply(s, step).table, b) <= InsertedIn(Apply(s, step).inserted, b)
  {
    hide RowIn, ValidEvents, Tag, CanMerge, InsertedBy;
    match step
    case MergeRows(drop, keep) => MergeOnlyLoses(s.table, drop, b);
    case Insert(id, ok, partly) =>
      if id in s.reqs {
        var l := s.reqs[id];
        var success := ok || l.rows == [];
        var stored := if success then l.rows else Pick(l.rows, partly);
        RowsInAppend(s.table, stored, b);
        InsertedAppend(s.inserted, Tag(id, stored, success), b, id);
        TagCounts(id, stored, success, b, id);
      }
    case _ => OnlyInsertsStore(s, step);
  }

  lemma {:induction false} RunKeepsLedger(steps: seq<Step>, b: Bucket)
    ensures Ledger(Exec(steps))
    ensures RowsIn(Exec(steps).table, b) <= InsertedIn(Exec(steps).inserted, b)
  {
    if steps != [] {
      var s := Exec(steps[..|steps| - 1]);
      RunKeepsLedger(steps[..|steps| - 1], b);
      Pipeline.RunKeepsInv(steps[..|steps| - 1]);
      StepKeepsLedger(s, steps[|steps| - 1]);
      StepKeepsTableBelow(s, steps[|steps| - 1], b);
    }
  }

  /** The record of admissions grows only by an admission. */
  lemma StepAdmits(s: State, step: Step) returns (o: Op)
    requires Apply(s, step).quota.log != s.quota.log
    ensures Apply(s, step).quota == Admit(s.quota, o) && o.call.n >= 1
  {
    hide Admit, ValidEvents;
    o := Op(CallOf(s.reqs[step.id].req, step.limits.value), s.redisNow);
  }

  lemma {:induction false} RunStaysInBudget(steps: seq<Step>, b: Bucket, d: nat)
    requires Metered(Exec(steps).quota.log, b, d)
    ensures Units(Exec(steps).quota.log, b) <= d
  {
    if steps != [] {
      var front, step := steps[..|steps| - 1], steps[|steps| - 1];
      var s := Exec(front);
      if Exec(steps).quota.log == s.quota.log {
        RunStaysInBudget(front, b, d);
      } else {
        var o := StepAdmits(s, step);
        RunKeepsLedger(front, b);
        AdmissionsStay(s.quota, o);
        RunStaysInBudget(front, b, d);
        BudgetStep(s.quota, o, b, d);
      }
    }
  }

  lemma AdmissionsStay(q: Counters, o: Op)
    ensures forall x :: x in q.log ==> x in Admit(q, o).log
  {
  }

  /** Over every interleaving, even when failed inserts stored part of their rows and replies of
      the admission script were lost, the rows a table holds for a tenant's UTC day (or for one
      install's second) never outnumber the units admitted on that bucket. */
  lemma StoredNeverExceedsAdmitted(steps: seq<Step>, b: Bucket)
    ensures RowsIn(Exec(steps).table, b) <= Units(Exec(steps).quota.log, b)
  {
    hide Exec, Quota.Inv, InsertedIn, Units, RowsIn;
    var s := Exec(steps);
    RunKeepsLedger(steps, b);
    Pipeline.RunKeepsInv(steps);
    forall x, i | x in s.inserted && 0 <= i < |s.charged| && x.id == s.charged[i] && RowIn(x.row, b)
      ensures Hits(s.quota.log[i].call, b)
    {
      RowMatchesRequest(s, x);
    }
    PaidRowsAreAdmitted(s.inserted, s.charged, s.quota.log, b);
  }

  lemma RowMatchesRequest(s: State, x: Tagged)
    requires Pipeline.Inv(s) && x in s.inserted
    ensures var req := s.reqs[x.id].req;
            x.row.tenantId == req.claims.tenantId && x.row.installId == req.claims.installId
            && x.row.tsReceived == req.receivedAt
  {
    var l := s.reqs[x.id];
    assert LocalOk(x.id, l);
    var i :| 0 <= i < |l.rows| && l.rows[i] == x.row;
    assert RowFor(l.rows[i], ValidEvents(l.req.events)[i], l.req, l.memo);
  }

  // ---- Where the admissions come from -------------------------------------------------

  /** The request's events fall in the bucket. */
  predicate RequestIn(req: Request, b: Bucket) {
    match b
    case PerSecond(t, i, s) => req.claims.tenantId == t && req.claims.installId == i && UnixSecond(req.receivedAt) == s
    case PerDay(t, d) => req.claims.tenantId == t && UtcDay(req.receivedAt) == d
  }

  /** The limit that governs the bucket for this request. */
  function LimitFor(req: Request, lim: Limits, b: Bucket): int {
    if b.PerDay? then lim.dailyEvents else if req.legacy then lim.legacyRps else lim.rps
  }

  /** The admission recorded is the request's own: its tenant, install and receipt time, one unit per
      valid event or one for none, the limits the step brought, and the Redis time of its script. */
  predicate Records(o: Op, req: Request, lim: Limits, at: int) {
    var c, n := o.call, |ValidEvents(req.events)|;
    && o.at == at
    && c.tenant == req.claims.tenantId && c.install == req.claims.installId && c.now == req.receivedAt
    && (n > 0 ==> c.n == n) && (n == 0 ==> c.n == 1)
    && c.daily == lim.dailyEvents
    && (req.legacy ==> c.rps == lim.legacyRps) && (!req.legacy ==> c.rps == lim.rps)
  }

  /** Step j admitted a request. */
  ghost predicate AdmitsAt(steps: seq<Step>, j: nat, i: nat) {
    && j < |steps| && steps[j].Charge? && steps[j].limits.Some? && !steps[j].fault.NoEffect?
    && steps[j].id in Exec(steps[..j]).reqs
    && |Exec(steps[..j]).charged| == i
    && Exec(steps[..j + 1]).charged == Exec(steps[..j]).charged + [steps[j].id]
  }

  lemma ChargedByStep(s: State, step: Step)
    requires Ledger(s)
    ensures var s' := Apply(s, step);
            || (s'.charged == s.charged && s'.quota.log == s.quota.log)
            || (&& step.Charge? && step.limits.Some? && !step.fault.NoEffect? && step.id in s.reqs
                && s'.charged == s.charged + [step.id]
                && |s'.quota.log| == |s.quota.log| + 1 && s'.quota.log[..|s.quota.log|] == s.quota.log
                && Records(s'.quota.log[|s.quota.log|], s.reqs[step.id].req, step.limits.value, s.redisNow))
  {
    hide Ledger, Decide, ChargeOutcome, ValidEvents;
    match step
    case Charge(id, limits, fault) =>
    case _ => OnlyChargesAdmit(s, step);
  }

  lemma OnlyChargesAdmit(s: State, step: Step)
    requires !step.Charge?
    ensures Apply(s, step).charged == s.charged && Apply(s, step).quota.log == s.quota.log
  {
    hide ValidEvents, Rejects, Tag, Pick, WriteOther;
  }

  /** Whatever a request's progress, the request itself stays what it was. */
  ghost predicate SameRequests(s: State, s': State) {
    forall x :: x in s.reqs ==> x in s'.reqs && s'.reqs[x].req == s.reqs[x].req
  }

  lemma ChargeKeepsRequests(s: State, id: ReqId, limits: Option<Limits>, fault: Fault)
    requires id in s.reqs
    ensures SameRequests(s, ApplyCharge(s, id, limits, fault))
  {
    hide Decide, Admit, ChargeOutcome, CallOf;
  }

  lemma BuildKeepsRequests(s: State, id: ReqId, fault: Fault)
    requires id in s.reqs
    ensures SameRequests(s, ApplyBuild(s, id, fault))
  {
    hide ValidEvents, Upsert, CandidateOffset, ToRow;
  }

  lemma InsertKeepsRequests(s: State, id: ReqId, ok: bool, partly: set<nat>)
    requires id in s.reqs
    ensures SameRequests(s, ApplyInsert(s, id, ok, partly))
  {
    hide ValidEvents, Tag, Pick;
  }

  lemma StepKeepsRequests(s: State, step: Step)
    ensures SameRequests(s, Apply(s, step))
  {
    hide ApplyCharge, ApplyBuild, ApplyInsert, Rejects, WriteOther;
    match step
    case Charge(id, limits, fault) =>
      if id in s.reqs {
        ChargeKeepsRequests(s, id, limits, fault);
      }
    case Build(id, fault) =>
      if id in s.reqs {
        BuildKeepsRequests(s, id, fault);
      }
    case Insert(id, ok, partly) =>
      if id in s.reqs {
        InsertKeepsRequests(s, id, ok, partly);
      }
    case _ =>
  }

  lemma SameLengths(s: State)
    requires Ledger(s)
    ensures |s.charged| == |s.quota.log|
  {
  }

  /** Every admission on record was made by one Charge step of the run, for the request whose turn it
      was, under the limits that step brought. */
  lemma {:induction false} AdmissionHasCharge(steps: seq<Step>, i: nat) returns (j: nat)
    requires i < |Exec(steps).charged|
    ensures |Exec(steps).quota.log| == |Exec(steps).charged|
    ensures AdmitsAt(steps, j, i) && steps[j].id == Exec(steps).charged[i] && steps[j].id in Exec(steps).reqs
    ensures Exec(steps).reqs[steps[j].id].req == Exec(steps[..j]).reqs[steps[j].id].req
    ensures Records(Exec(steps).quota.log[i], Exec(steps).reqs[steps[j].id].req, steps[j].limits.value, Exec(steps[..j]).redisNow)
  {
    hide Apply, Records, Ledger;
    var front, step := steps[..|steps| - 1], steps[|steps| - 1];
    var s := Exec(front);
    RunKeepsLedger(front, PerDay("", 0));
    RunKeepsLedger(steps, PerDay("", 0));
    SameLengths(s);
    SameLengths(Exec(steps));
    ChargedByStep(s, step);
    StepKeepsRequests(s, step);
    assert Exec(steps) == Apply(s, step);
    if i < |s.charged| {
      j := AdmissionHasCharge(front, i);
      assert front[..j] == steps[..j] && front[..j + 1] == steps[..j + 1];
      assert Exec(steps).quota.log[i] == s.quota.log[i];
    } else {
      j := |steps| - 1;
      assert steps[..j] == front && steps[..j + 1] == steps;
    }
  }

  /** Every step that admitted a request of the bucket was prompt and brought a positive limit of at
      most d for it. */
  ghost predicate MeteredSteps(steps: seq<Step>, b: Bucket, d: int) {
    forall j: nat, i: nat :: AdmitsAt(steps, j, i) && RequestIn(Exec(steps[..j]).reqs[steps[j].id].req, b) ==>
      var s, req := Exec(steps[..j]), Exec(steps[..j]).reqs[steps[j].id].req;
      && req.receivedAt - b.MaxLag() <= s.redisNow <= req.receivedAt + b.MaxLag()
      && 0 < LimitFor(req, steps[j].limits.value, b) <= d
  }

  /** What a step brought is what the record shows. */
  lemma RecordsLimit(o: Op, req: Request, lim: Limits, at: int, b: Bucket)
    requires Records(o, req, lim, at) && Hits(o.call, b)
    ensures RequestIn(req, b) && b.Limit(o.call) == LimitFor(req, lim, b) && o.call.now == req.receivedAt && o.at == at
  {
    hide ValidEvents;
  }

  lemma MeteredLog(steps: seq<Step>, b: Bucket, d: int)
    requires MeteredSteps(steps, b, d)
    ensures Metered(Exec(steps).quota.log, b, d)
  {
    hide Exec, Apply, AdmitsAt, Records, LimitFor, RequestIn, Hits, Ledger;
    var s := Exec(steps);
    RunKeepsLedger(steps, b);
    SameLengths(s);
    forall o | o in s.quota.log && Hits(o.call, b)
      ensures Prompt(o, b.MaxLag()) && 0 < b.Limit(o.call) <= d
    {
      var i: nat :| i < |s.quota.log| && s.quota.log[i] == o;
      var j := AdmissionHasCharge(steps, i);
      AdmitsWhat(steps, j, i);
      RecordsLimit(o, s.reqs[steps[j].id].req, steps[j].limits.value, Exec(steps[..j]).redisNow, b);
      assert AdmitsAt(steps, j, i);
    }
  }

  lemma AdmitsWhat(steps: seq<Step>, j: nat, i: nat)
    requires AdmitsAt(steps, j, i)
    ensures j < |steps| && steps[j].Charge? && steps[j].limits.Some? && steps[j].id in Exec(steps[..j]).reqs
  {
  }

  /** If every step that admitted a request of the bucket was prompt and brought a positive limit of at
      most d, at most d rows are ever stored in it: a tenant's daily budget holds for scripts up to 12
      hours late, an install's per-second rate, the legacy one for legacy requests, for scripts up to
      half a second late. */
  lemma BudgetHolds(steps: seq<Step>, b: Bucket, d: nat)
    requires MeteredSteps(steps, b, d)
    ensures RowsIn(Exec(steps).table, b) <= Units(Exec(steps).quota.log, b) <= d
  {
    StoredNeverExceedsAdmitted(steps, b);
    MeteredLog(steps, b, d);
    RunStaysInBudget(steps, b, d);
  }
}
