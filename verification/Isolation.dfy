/** Tenants do not influence each other: deleting every other tenant's requests from a run leaves
    a tenant's counters, offsets, rows and responses as they were. */
module Isolation {
  import opened Wrappers
  import opened Clock
  import opened Keys
  import opened Events
  import opened Enrich
  import opened EventTable
  import opened Redis
  import opened Pipeline
  import Quota

  /** Whose step it is; clocks, the retention sweep and the other Redis users are nobody's. */
  function Owner(step: Step): Option<string> {
    match step
    case Tick(_, _) => None
    case SweepOffsets => None
    case MergeRows(drop, _) => Some(drop.tenantId)
    case OtherKey(_, _) => None
    case Arrive(id, _) => Some(id.tenant)
    case Charge(id, _, _) => Some(id.tenant)
    case Build(id, _) => Some(id.tenant)
    case Insert(id, _, _) => Some(id.tenant)
    case Ack(id) => Some(id.tenant)
  }

  predicate Concerns(step: Step, tenant: string) {
    !step.OtherKey? && (Owner(step) == None || Owner(step) == Some(tenant))
  }

  /** The run with every other tenant's steps, and all writes to other Redis keys, deleted. */
  function Only(steps: seq<Step>, tenant: string): seq<Step> {
    if steps == [] then []
    else
      var front, step := Only(steps[..|steps| - 1], tenant), steps[|steps| - 1];
      if Concerns(step, tenant) then front + [step] else front
  }

  function TableOf(t: seq<Row>, tenant: string): seq<Row> {
    if t == [] then []
    else if t[0].tenantId == tenant then [t[0]] + TableOf(t[1..], tenant)
    else TableOf(t[1..], tenant)
  }

  predicate SameEntry(a: Db, b: Db, key: string) {
    (key in a <==> key in b) && (key in a ==> a[key] == b[key])
  }

  ghost predicate SameCounters(a: Db, b: Db, tenant: string) {
    forall x: Quota.Bucket :: x.tenant == tenant ==> SameEntry(a, b, x.Key())
  }

  ghost predicate SameRequests(a: map<ReqId, Local>, b: map<ReqId, Local>, tenant: string) {
    forall id: ReqId :: id.tenant == tenant ==> (id in a <==> id in b) && (id in a ==> a[id] == b[id])
  }

  ghost predicate SameOffsets(a: map<SessionKey, OffsetRow>, b: map<SessionKey, OffsetRow>, tenant: string) {
    forall k: SessionKey :: k.tenantId == tenant ==> (k in a <==> k in b) && (k in a ==> a[k] == b[k])
  }

  /** The two states look alike to the tenant. */
  ghost predicate Same(a: State, b: State, tenant: string) {
    && a.redisNow == b.redisNow && a.dbNow == b.dbNow
    && SameRequests(a.reqs, b.reqs, tenant)
    && SameOffsets(a.offsets, b.offsets, tenant)
    && TableOf(a.table, tenant) == TableOf(b.table, tenant)
    && SameCounters(a.quota.db, b.quota.db, tenant)
  }

  // ---- The table ------------------------------------------------------------------------

  lemma {:induction false} TableOfAppend(t: seq<Row>, u: seq<Row>, tenant: string)
    ensures TableOf(t + u, tenant) == TableOf(t, tenant) + TableOf(u, tenant)
  {
    if t == [] {
      assert t + u == u;
    } else {
      TableOfAppend(t[1..], u, tenant);
      var head, rest := if t[0].tenantId == tenant then [t[0]] else [], TableOf(t[1..], tenant);
      assert (t + u)[0] == t[0] && (t + u)[1..] == t[1..] + u;
      assert TableOf(t, tenant) == head + rest;
      assert head + (rest + TableOf(u, tenant)) == (head + rest) + TableOf(u, tenant);
    }
  }

  lemma {:induction false} TableOfOthers(t: seq<Row>, tenant: string)
    requires forall r :: r in t ==> r.tenantId != tenant
    ensures TableOf(t, tenant) == []
  {
    if t != [] {
      TableOfOthers(t[1..], tenant);
    }
  }

  lemma {:induction false} TableOfRemove(t: seq<Row>, x: Row, tenant: string)
    ensures TableOf(RemoveFirst(t, x), tenant) ==
            if x.tenantId == tenant then RemoveFirst(TableOf(t, tenant), x) else TableOf(t, tenant)
    ensures x.tenantId == tenant ==> (x in t <==> x in TableOf(t, tenant))
  {
    if t != [] {
      TableOfRemove(t[1..], x, tenant);
      assert t == [t[0]] + t[1..];
      if t[0] != x {
        assert RemoveFirst(t, x)[1..] == RemoveFirst(t[1..], x);
        if t[0].tenantId == tenant {
          assert TableOf(t, tenant)[1..] == TableOf(t[1..], tenant);
        }
      } else if x.tenantId == tenant {
        assert TableOf(t, tenant)[1..] == TableOf(t[1..], tenant);
      }
    }
  }

  lemma {:induction false} TableOfMembers(t: seq<Row>, x: Row)
    ensures x in t <==> x in TableOf(t, x.tenantId)
  {
    TableOfRemove(t, x, x.tenantId);
  }

  lemma MergeSeenBy(t: seq<Row>, u: seq<Row>, drop: Row, keep: Row, tenant: string)
    requires TableOf(t, tenant) == TableOf(u, tenant)
    ensures drop.tenantId == tenant ==> TableOf(Merge(t, drop, keep), tenant) == TableOf(Merge(u, drop, keep), tenant)
    ensures drop.tenantId != tenant ==> TableOf(Merge(t, drop, keep), tenant) == TableOf(u, tenant)
  {
    TableOfRemove(t, drop, tenant);
    TableOfRemove(u, drop, tenant);
    TableOfMembers(RemoveFirst(t, drop), keep);
    TableOfMembers(RemoveFirst(u, drop), keep);
  }

  // ---- The counters -----------------------------------------------------------------------

  lemma OwnAdmission(p: Quota.Counters, q: Quota.Counters, o: Quota.Op)
    requires SameCounters(p.db, q.db, o.call.tenant)
    ensures Quota.Decide(p, o) == Quota.Decide(q, o)
    ensures SameCounters(Quota.Admit(p, o).db, Quota.Admit(q, o).db, o.call.tenant)
  {
    assert SameEntry(p.db, q.db, Quota.RateBucket(o.call).Key());
    assert SameEntry(p.db, q.db, Quota.DayBucket(o.call).Key());
    assert Quota.Seen(p, Quota.RateBucket(o.call), o.at) == Quota.Seen(q, Quota.RateBucket(o.call), o.at);
    assert Quota.Seen(p, Quota.DayBucket(o.call), o.at) == Quota.Seen(q, Quota.DayBucket(o.call), o.at);
    forall x: Quota.Bucket | x.tenant == o.call.tenant
      ensures SameEntry(Quota.Consume(p.db, o), Quota.Consume(q.db, o), x.Key())
    {
      assert SameEntry(p.db, q.db, x.Key());
      Quota.ConsumeOneKey(p, o, x);
      Quota.ConsumeOneKey(q, o, x);
    }
  }

  lemma OthersAdmission(p: Quota.Counters, q: Quota.Counters, o: Quota.Op, tenant: string)
    requires SameCounters(p.db, q.db, tenant) && o.call.tenant != tenant
    ensures SameCounters(Quota.Admit(p, o).db, q.db, tenant)
  {
    forall x: Quota.Bucket | x.tenant == tenant
      ensures SameEntry(Quota.Admit(p, o).db, q.db, x.Key())
    {
      assert SameEntry(p.db, q.db, x.Key());
      Quota.ConsumeOneKey(p, o, x);
    }
  }

  // ---- Steps of other tenants --------------------------------------------------------------

  lemma RowsAreOwn(l: Local, id: ReqId)
    requires LocalOk(id, l)
    ensures forall r :: r in l.rows ==> r.tenantId == id.tenant
  {
    forall r | r in l.rows
      ensures r.tenantId == id.tenant
    {
      var i :| 0 <= i < |l.rows| && l.rows[i] == r;
      assert RowFor(l.rows[i], ValidEvents(l.req.events)[i], l.req, l.memo);
    }
  }

  /** Another tenant's request moved on, and nothing else the tenant can see changed. */
  lemma OthersMove(a: State, a': State, b: State, id: ReqId, l: Local, tenant: string)
    requires Same(a, b, tenant) && id.tenant != tenant
    requires a'.reqs == a.reqs[id := l] && a'.redisNow == a.redisNow && a'.dbNow == a.dbNow
    requires SameOffsets(a'.offsets, b.offsets, tenant)
    requires TableOf(a'.table, tenant) == TableOf(b.table, tenant)
    requires SameCounters(a'.quota.db, b.quota.db, tenant)
    ensures Same(a', b, tenant)
  {
  }

  lemma OthersCharge(a: State, b: State, id: ReqId, limits: Option<Limits>, fault: Fault, tenant: string)
    requires Pipeline.Inv(a) && Same(a, b, tenant) && id in a.reqs && id.tenant != tenant
    ensures Same(ApplyCharge(a, id, limits, fault), b, tenant)
  {
    var l := a.reqs[id];
    assert l.req.claims.tenantId == id.tenant by {
      assert LocalOk(id, l);
    }
    if l.phase == Charging {
      var a' := ApplyCharge(a, id, limits, fault);
      if limits.Some? && !fault.NoEffect? {
        OthersAdmission(a.quota, b.quota, Quota.Op(CallOf(l.req, limits.value), a.redisNow), tenant);
      }
      OthersMove(a, a', b, id, a'.reqs[id], tenant);
    }
  }

  lemma OthersBuild(a: State, b: State, id: ReqId, fault: Fault, tenant: string)
    requires Pipeline.Inv(a) && Same(a, b, tenant) && id in a.reqs && id.tenant != tenant
    ensures Same(ApplyBuild(a, id, fault), b, tenant)
  {
    var l := a.reqs[id];
    assert l.req.claims.tenantId == id.tenant by {
      assert LocalOk(id, l);
    }
    var valid := ValidEvents(l.req.events);
    if l.phase.Building? && l.phase.next < |valid| {
      var e := valid[l.phase.next];
      var k := KeyOf(e, l.req.claims);
      if k in l.memo {
        OthersMove(a, ApplyBuild(a, id, fault), b, id, Append(l, e, l.memo[k]), tenant);
      } else {
        OthersAsk(a, b, id, e, k, fault, tenant);
      }
    }
  }

  lemma OthersAsk(a: State, b: State, id: ReqId, e: Event, k: SessionKey, fault: Fault, tenant: string)
    requires Same(a, b, tenant) && id in a.reqs && id.tenant != tenant
    requires a.reqs[id].phase.Building? && k.tenantId == id.tenant
    ensures Same(Ask(a, id, e, k, fault), b, tenant)
  {
    var l := a.reqs[id];
    OthersUpsert(a.offsets, b.offsets, k, CandidateOffset(l.req.sentAt, l.req.receivedAt), a.dbNow, tenant);
    var a' := Ask(a, id, e, k, fault);
    OthersMove(a, a', b, id, a'.reqs[id], tenant);
  }

  lemma OthersUpsert(m: map<SessionKey, OffsetRow>, n: map<SessionKey, OffsetRow>, k: SessionKey, candidate: Int64, at: int, tenant: string)
    requires SameOffsets(m, n, tenant) && k.tenantId != tenant
    ensures SameOffsets(Upsert(m, k, candidate, at), n, tenant)
  {
  }

  lemma OthersInsert(a: State, b: State, id: ReqId, ok: bool, partly: set<nat>, tenant: string)
    requires Pipeline.Inv(a) && Same(a, b, tenant) && id in a.reqs && id.tenant != tenant
    ensures Same(ApplyInsert(a, id, ok, partly), b, tenant)
  {
    var l := a.reqs[id];
    var stored := if ok || l.rows == [] then l.rows else Pick(l.rows, partly);
    assert TableOf(a.table + stored, tenant) == TableOf(a.table, tenant) by {
      assert LocalOk(id, l);
      RowsAreOwn(l, id);
      PickedFrom(l.rows, partly);
      TableOfOthers(stored, tenant);
      TableOfAppend(a.table, stored, tenant);
    }
    if l.phase == Building(|ValidEvents(l.req.events)|) {
      var a' := ApplyInsert(a, id, ok, partly);
      OthersMove(a, a', b, id, a'.reqs[id], tenant);
    }
  }

  lemma OthersWrite(a: State, b: State, key: string, entry: Option<Entry>, tenant: string)
    requires Same(a, b, tenant)
    ensures Same(Apply(a, OtherKey(key, entry)), b, tenant)
  {
    hide SameOffsets, SameRequests, TableOf, WriteOther, RateKey, DayKey;
    forall x: Quota.Bucket | x.tenant == tenant
      ensures SameEntry(WriteOther(a.quota.db, key, entry), b.quota.db, x.Key())
    {
      assert SameEntry(a.quota.db, b.quota.db, x.Key());
      OthersKeepBuckets(a.quota.db, key, entry, x);
    }
  }

  lemma OthersMerge(a: State, b: State, drop: Row, keep: Row, tenant: string)
    requires Same(a, b, tenant) && drop.tenantId != tenant
    ensures Same(Apply(a, MergeRows(drop, keep)), b, tenant)
  {
    hide SameCounters, SameOffsets, SameRequests, TableOf, Merge;
    MergeSeenBy(a.table, b.table, drop, keep, tenant);
  }

  lemma OthersStep(a: State, b: State, step: Step, tenant: string)
    requires Pipeline.Inv(a) && Same(a, b, tenant) && !Concerns(step, tenant)
    ensures Same(Apply(a, step), b, tenant)
  {
    hide Pipeline.Inv, SameCounters, SameOffsets, SameRequests, TableOf, Merge, WriteOther;
    match step
    case MergeRows(drop, keep) => OthersMerge(a, b, drop, keep, tenant);
    case OtherKey(key, entry) => OthersWrite(a, b, key, entry, tenant);
    case Arrive(id, req) => OthersArrive(a, b, id, req, tenant);
    case Charge(id, limits, fault) =>
      if id in a.reqs {
        OthersCharge(a, b, id, limits, fault, tenant);
      }
    case Build(id, fault) =>
      if id in a.reqs {
        OthersBuild(a, b, id, fault, tenant);
      }
    case Insert(id, ok, partly) =>
      if id in a.reqs {
        OthersInsert(a, b, id, ok, partly, tenant);
      }
    case Ack(id) =>
      if id in a.reqs {
        OthersAck(a, b, id, tenant);
      }
  }

  lemma OthersArrive(a: State, b: State, id: ReqId, req: Request, tenant: string)
    requires Same(a, b, tenant) && id.tenant != tenant
    ensures Same(ApplyArrive(a, id, req), b, tenant)
  {
  }

  lemma OthersAck(a: State, b: State, id: ReqId, tenant: string)
    requires Same(a, b, tenant) && id in a.reqs && id.tenant != tenant
    ensures Same(ApplyAck(a, id), b, tenant)
  {
  }

  // ---- The tenant's own steps ---------------------------------------------------------------

  /** The same move of the same request in both runs. */
  lemma OwnMove(a: State, b: State, a': State, b': State, id: ReqId, l: Local)
    requires Same(a, b, id.tenant)
    requires a'.reqs == a.reqs[id := l] && a'.redisNow == a.redisNow && a'.dbNow == a.dbNow
    requires b'.reqs == b.reqs[id := l] && b'.redisNow == b.redisNow && b'.dbNow == b.dbNow
    requires SameOffsets(a'.offsets, b'.offsets, id.tenant)
    requires TableOf(a'.table, id.tenant) == TableOf(b'.table, id.tenant)
    requires SameCounters(a'.quota.db, b'.quota.db, id.tenant)
    ensures Same(a', b', id.tenant)
  {
  }

  lemma OwnCharge(a: State, b: State, id: ReqId, limits: Option<Limits>, fault: Fault)
    requires Pipeline.Inv(a) && Same(a, b, id.tenant) && id in a.reqs && id in b.reqs
    ensures Same(ApplyCharge(a, id, limits, fault), ApplyCharge(b, id, limits, fault), id.tenant)
  {
    hide Quota.Decide, Quota.Admit, BuiltUpTo, ValidEvents;
    var l := a.reqs[id];
    assert l == b.reqs[id];
    assert l.req.claims.tenantId == id.tenant by {
      assert LocalOk(id, l);
    }
    if l.phase == Charging {
      var a', b' := ApplyCharge(a, id, limits, fault), ApplyCharge(b, id, limits, fault);
      if limits.Some? && !fault.NoEffect? {
        OwnAdmission(a.quota, b.quota, Quota.Op(CallOf(l.req, limits.value), a.redisNow));
      }
      OwnMove(a, b, a', b', id, a'.reqs[id]);
    }
  }

  lemma OwnBuild(a: State, b: State, id: ReqId, fault: Fault)
    requires Pipeline.Inv(a) && Same(a, b, id.tenant) && id in a.reqs && id in b.reqs
    ensures Same(ApplyBuild(a, id, fault), ApplyBuild(b, id, fault), id.tenant)
  {
    hide RateKey, DayKey, ToRow, BuiltUpTo;
    var l := a.reqs[id];
    assert l == b.reqs[id];
    var valid := ValidEvents(l.req.events);
    if l.phase.Building? && l.phase.next < |valid| {
      var e := valid[l.phase.next];
      var k := KeyOf(e, l.req.claims);
      assert k.tenantId == id.tenant by {
        assert LocalOk(id, l);
      }
      if k in l.memo {
        OwnMove(a, b, ApplyBuild(a, id, fault), ApplyBuild(b, id, fault), id, Append(l, e, l.memo[k]));
      } else {
        OwnAsk(a, b, id, e, k, fault);
      }
    }
  }

  lemma OwnAsk(a: State, b: State, id: ReqId, e: Event, k: SessionKey, fault: Fault)
    requires Same(a, b, id.tenant) && id in a.reqs && id in b.reqs
    requires a.reqs[id].phase.Building? && a.reqs[id] == b.reqs[id] && k.tenantId == id.tenant
    ensures Same(Ask(a, id, e, k, fault), Ask(b, id, e, k, fault), id.tenant)
  {
    var l := a.reqs[id];
    OwnUpsert(a.offsets, b.offsets, k, CandidateOffset(l.req.sentAt, l.req.receivedAt), a.dbNow);
    var a', b' := Ask(a, id, e, k, fault), Ask(b, id, e, k, fault);
    OwnMove(a, b, a', b', id, a'.reqs[id]);
  }

  lemma OwnUpsert(m: map<SessionKey, OffsetRow>, n: map<SessionKey, OffsetRow>, k: SessionKey, candidate: Int64, at: int)
    requires SameOffsets(m, n, k.tenantId)
    ensures SameOffsets(Upsert(m, k, candidate, at), Upsert(n, k, candidate, at), k.tenantId)
    ensures Upsert(m, k, candidate, at)[k] == Upsert(n, k, candidate, at)[k]
  {
  }

  lemma OwnInsert(a: State, b: State, id: ReqId, ok: bool, partly: set<nat>)
    requires Same(a, b, id.tenant) && id in a.reqs && id in b.reqs
    ensures Same(ApplyInsert(a, id, ok, partly), ApplyInsert(b, id, ok, partly), id.tenant)
  {
    var l := a.reqs[id];
    assert l == b.reqs[id];
    if l.phase == Building(|ValidEvents(l.req.events)|) {
      var stored := if ok || l.rows == [] then l.rows else Pick(l.rows, partly);
      TableOfAppend(a.table, stored, id.tenant);
      TableOfAppend(b.table, stored, id.tenant);
      var a', b' := ApplyInsert(a, id, ok, partly), ApplyInsert(b, id, ok, partly);
      OwnMove(a, b, a', b', id, a'.reqs[id]);
    }
  }

  lemma OwnTick(a: State, b: State, r: nat, d: nat, tenant: string)
    requires Same(a, b, tenant)
    ensures Same(Apply(a, Tick(r, d)), Apply(b, Tick(r, d)), tenant)
  {
    hide SameCounters, SameOffsets, SameRequests, TableOf;
  }

  lemma OwnSweep(a: State, b: State, tenant: string)
    requires Same(a, b, tenant)
    ensures Same(Apply(a, SweepOffsets), Apply(b, SweepOffsets), tenant)
  {
    hide SameCounters, SameRequests, TableOf;
  }

  lemma OwnMerge(a: State, b: State, drop: Row, keep: Row, tenant: string)
    requires Same(a, b, tenant) && drop.tenantId == tenant
    ensures Same(Apply(a, MergeRows(drop, keep)), Apply(b, MergeRows(drop, keep)), tenant)
  {
    hide SameCounters, SameOffsets, SameRequests, TableOf, Merge;
    MergeSeenBy(a.table, b.table, drop, keep, tenant);
  }

  lemma OwnStep(a: State, b: State, step: Step, tenant: string)
    requires Pipeline.Inv(a) && Same(a, b, tenant) && Concerns(step, tenant)
    ensures Same(Apply(a, step), Apply(b, step), tenant)
  {
    hide Pipeline.Inv, SameCounters, SameOffsets, TableOf, Merge, Sweep;
    match step
    case Tick(r, d) => OwnTick(a, b, r, d, tenant);
    case SweepOffsets => OwnSweep(a, b, tenant);
    case MergeRows(drop, keep) => OwnMerge(a, b, drop, keep, tenant);
    case Arrive(id, req) => OwnArrive(a, b, id, req);
    case Charge(id, limits, fault) =>
      if id in a.reqs {
        OwnCharge(a, b, id, limits, fault);
      }
    case Build(id, fault) =>
      if id in a.reqs {
        OwnBuild(a, b, id, fault);
      }
    case Insert(id, ok, partly) =>
      if id in a.reqs {
        OwnInsert(a, b, id, ok, partly);
      }
    case Ack(id) =>
      if id in a.reqs {
        OwnAck(a, b, id);
      }
  }

  lemma OwnArrive(a: State, b: State, id: ReqId, req: Request)
    requires Same(a, b, id.tenant)
    ensures Same(ApplyArrive(a, id, req), ApplyArrive(b, id, req), id.tenant)
  {
  }

  lemma OwnAck(a: State, b: State, id: ReqId)
    requires Same(a, b, id.tenant) && id in a.reqs && id in b.reqs
    ensures Same(ApplyAck(a, id), ApplyAck(b, id), id.tenant)
  {
  }

  /** Isolation as a property of two runs: the full one and the one with only this tenant's
      requests end alike for the tenant, whatever the others did and however they interleaved. */
  lemma {:induction false} TenantIsIsolated(steps: seq<Step>, tenant: string)
    ensures Same(Exec(steps), Exec(Only(steps, tenant)), tenant)
  {
    if steps != [] {
      var front, step := steps[..|steps| - 1], steps[|steps| - 1];
      TenantIsIsolated(front, tenant);
      Pipeline.RunKeepsInv(front);
      if Concerns(step, tenant) {
        var only := Only(steps, tenant);
        assert only[..|only| - 1] == Only(front, tenant);
        OwnStep(Exec(front), Exec(Only(front, tenant)), step, tenant);
      } else {
        OthersStep(Exec(front), Exec(Only(front, tenant)), step, tenant);
      }
    }
  }
}
