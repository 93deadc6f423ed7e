/** What a response means: acknowledgement soundness, the per-batch offset memo, and the range of
    stored times, over every run of the ingestion system. */
module Acks {
  import opened Wrappers
  import opened Clock
  import opened Events
  import opened Enrich
  import opened EventTable
  import opened Pipeline

  /** The events left out, in request order. */
  function InvalidEvents(events: seq<Event>): seq<Event> {
    if events == [] then []
    else
      var front, e := InvalidEvents(events[..|events| - 1]), events[|events| - 1];
      if Valid(e) then front else front + [e]
  }

  /** Validation splits a batch into two parts and loses nothing: the rejects are exactly the
      other events, each with its first complaint, in order. */
  lemma {:induction false} ValidationPartitions(events: seq<Event>)
    ensures multiset(ValidEvents(events)) + multiset(InvalidEvents(events)) == multiset(events)
    ensures |Rejects(events)| == |InvalidEvents(events)|
    ensures forall i :: 0 <= i < |Rejects(events)| ==>
              Rejects(events)[i].eventId == InvalidEvents(events)[i].eventId &&
              Validate(InvalidEvents(events)[i]) == Some(Rejects(events)[i].code)
    ensures |ValidEvents(events)| + |Rejects(events)| == |events|
  {
    hide CanonicalUuid, CheckProps;
    if events != [] {
      ValidationPartitions(events[..|events| - 1]);
      assert events == events[..|events| - 1] + [events[|events| - 1]];
    }
  }

  // ---- What the table keeps ---------------------------------------------------------

  function RowsInserted(t: seq<Tagged>): (rows: seq<Row>)
    ensures |rows| == |t| && forall i :: 0 <= i < |t| ==> rows[i] == t[i].row
  {
    seq(|t|, i requires 0 <= i < |t| => t[i].row)
  }

  lemma AppendCovers(t: seq<Row>, u: seq<Row>, more: seq<Row>)
    requires Covers(t, u)
    ensures Covers(t + more, u + more)
  {
    forall r | r in u + more
      ensures Represented(r, t + more)
    {
      if r in u {
        assert Represented(r, t);
      } else {
        assert Supersedes(r, r);
      }
    }
  }

  lemma InsertKeepsCover(s: State, id: ReqId, ok: bool, partly: set<nat>)
    requires Covers(s.table, RowsInserted(s.inserted)) && id in s.reqs
    ensures var s' := ApplyInsert(s, id, ok, partly);
            Covers(s'.table, RowsInserted(s'.inserted))
  {
    hide Covers, ValidEvents;
    var l := s.reqs[id];
    var success := ok || l.rows == [];
    var stored := if success then l.rows else Pick(l.rows, partly);
    AppendCovers(s.table, RowsInserted(s.inserted), stored);
    assert RowsInserted(s.inserted + Tag(id, stored, success)) == RowsInserted(s.inserted) + stored;
  }

  lemma StepKeepsCover(s: State, step: Step)
    requires Covers(s.table, RowsInserted(s.inserted))
    ensures Covers(Apply(s, step).table, RowsInserted(Apply(s, step).inserted))
  {
    match step
    case MergeRows(drop, keep) =>
      MergeCovers(s.table, drop, keep);
      CoversTransitive(Merge(s.table, drop, keep), s.table, RowsInserted(s.inserted));
    case Insert(id, ok, partly) =>
      if id in s.reqs {
        InsertKeepsCover(s, id, ok, partly);
      }
    case _ =>
      OnlyInsertsStore(s, step);
  }

  lemma {:induction false} RunKeepsCover(steps: seq<Step>)
    ensures Covers(Exec(steps).table, RowsInserted(Exec(steps).inserted))
  {
    if steps != [] {
      RunKeepsCover(steps[..|steps| - 1]);
      StepKeepsCover(Exec(steps[..|steps| - 1]), steps[|steps| - 1]);
    }
  }

  /** Merging may replace an inserted row, but only by one under the same sort key received no
      earlier. */
  lemma InsertedIsRepresented(steps: seq<Step>, t: Tagged) returns (r: Row)
    requires t in Exec(steps).inserted
    ensures r in Exec(steps).table && Supersedes(r, t.row)
  {
    RunKeepsCover(steps);
    var s := Exec(steps);
    var i :| 0 <= i < |s.inserted| && s.inserted[i] == t;
    assert RowsInserted(s.inserted)[i] == t.row;
    assert Represented(t.row, s.table);
    r :| r in s.table && Supersedes(r, t.row);
  }

  // ---- Acknowledgements -------------------------------------------------------------

  /** The table holds the event's row, or one that superseded it on merging. */
  ghost predicate Kept(table: seq<Row>, e: Event, req: Request) {
    exists r :: r in table && r.eventId == e.eventId && r.tenantId == req.claims.tenantId && r.name == e.name
                && Version(r) >= Millis(req.receivedAt)
  }

  /** A 200 lists as accepted exactly the valid events' ids in request order, each with a row of
      the claim's tenant and install in an insert that has returned success, and rejects exactly
      the others; whatever merges have run since, the table still holds a row of each accepted
      event received no earlier. Nothing but a 200 carries an acknowledgement. */
  lemma AckIsDurable(steps: seq<Step>, id: ReqId)
    requires var s := Exec(steps);
             id in s.reqs && s.reqs[id].phase.Done? && s.reqs[id].phase.resp.Ok200?
    ensures var s := Exec(steps);
            var req, resp := s.reqs[id].req, s.reqs[id].phase.resp;
            var valid := ValidEvents(req.events);
            && |resp.accepted| == |valid|
            && (forall i :: 0 <= i < |valid| ==> resp.accepted[i] == valid[i].eventId)
            && resp.rejected == Rejects(req.events)
            && |resp.accepted| + |resp.rejected| == |req.events|
            && (forall i :: 0 <= i < |valid| ==>
                  exists r :: Tagged(id, r, true) in s.inserted && r.eventId == resp.accepted[i]
                              && r.tenantId == req.claims.tenantId == id.tenant
                              && r.installId == req.claims.installId)
            && (forall i :: 0 <= i < |valid| ==> Kept(s.table, valid[i], req))
  {
    hide Exec, ValidEvents, Rejects, Flatten, Correct;
    RunKeepsInv(steps);
    var s := Exec(steps);
    var l := s.reqs[id];
    var valid := ValidEvents(l.req.events);
    ValidationPartitions(l.req.events);
    assert LocalOk(id, l) && Durable(l, id, s.inserted);
    forall i | 0 <= i < |valid|
      ensures exists r :: Tagged(id, r, true) in s.inserted && r.eventId == l.phase.resp.accepted[i]
                          && r.tenantId == l.req.claims.tenantId == id.tenant
                          && r.installId == l.req.claims.installId
      ensures Kept(s.table, valid[i], l.req)
    {
      assert RowFor(l.rows[i], valid[i], l.req, l.memo);
      assert Tagged(id, l.rows[i], true) in s.inserted;
      var r := InsertedIsRepresented(steps, Tagged(id, l.rows[i], true));
    }
  }

  // ---- The memo ---------------------------------------------------------------------

  ghost predicate NoSweep(steps: seq<Step>) {
    SweepOffsets !in steps
  }

  ghost predicate MemoIsStore(s: State, id: ReqId) {
    id in s.reqs ==>
      forall k :: k in s.reqs[id].memo ==> k in s.offsets && s.offsets[k].offsetMs == s.reqs[id].memo[k]
  }

  /** Apart from asking the store, nothing a request does changes what it remembers. */
  ghost predicate SameMemos(s: State, s': State) {
    forall x :: x in s'.reqs ==> if x in s.reqs then s'.reqs[x].memo == s.reqs[x].memo else s'.reqs[x].memo == map[]
  }

  lemma ArriveKeepsMemos(s: State, id: ReqId, req: Request)
    ensures SameMemos(s, ApplyArrive(s, id, req)) && ApplyArrive(s, id, req).offsets == s.offsets
    ensures ApplyArrive(s, id, req).touched == s.touched
  {
  }

  lemma ChargeKeepsMemos(s: State, id: ReqId, limits: Option<Limits>, fault: Fault)
    requires id in s.reqs
    ensures SameMemos(s, ApplyCharge(s, id, limits, fault)) && ApplyCharge(s, id, limits, fault).offsets == s.offsets
    ensures ApplyCharge(s, id, limits, fault).touched == s.touched
  {
  }

  lemma InsertKeepsMemos(s: State, id: ReqId, ok: bool, partly: set<nat>)
    requires id in s.reqs
    ensures SameMemos(s, ApplyInsert(s, id, ok, partly)) && ApplyInsert(s, id, ok, partly).offsets == s.offsets
    ensures ApplyInsert(s, id, ok, partly).touched == s.touched
  {
    hide ValidEvents, Pick, Tag;
  }

  lemma AckKeepsMemos(s: State, id: ReqId)
    requires id in s.reqs
    ensures SameMemos(s, ApplyAck(s, id)) && ApplyAck(s, id).offsets == s.offsets
    ensures ApplyAck(s, id).touched == s.touched
  {
  }

  lemma StepKeepsMemos(s: State, step: Step)
    requires !step.Build?
    ensures SameMemos(s, Apply(s, step))
    ensures Apply(s, step).offsets == if step.SweepOffsets? then Sweep(s.offsets, s.dbNow) else s.offsets
    ensures Apply(s, step).touched == s.touched
  {
    match step
    case Arrive(id, req) => ArriveKeepsMemos(s, id, req);
    case Charge(id, limits, fault) =>
      if id in s.reqs {
        ChargeKeepsMemos(s, id, limits, fault);
      }
    case Insert(id, ok, partly) =>
      if id in s.reqs {
        InsertKeepsMemos(s, id, ok, partly);
      }
    case Ack(id) =>
      if id in s.reqs {
        AckKeepsMemos(s, id);
      }
    case _ =>
  }

  lemma StepKeepsMemo(s: State, step: Step, id: ReqId)
    requires MemoIsStore(s, id) && step != SweepOffsets
    ensures MemoIsStore(Apply(s, step), id)
  {
    if step.Build? {
      if step.id in s.reqs {
        BuildWritesOnce(s, step.id, step.fault);
      }
    } else {
      StepKeepsMemos(s, step);
    }
  }

  /** A build step leaves stored offsets alone and remembers only what the store answered. */
  lemma BuildWritesOnce(s: State, id: ReqId, fault: Fault)
    requires id in s.reqs
    ensures var s' := ApplyBuild(s, id, fault);
            && (forall k :: k in s.offsets ==> k in s'.offsets && s'.offsets[k].offsetMs == s.offsets[k].offsetMs)
            && s'.reqs.Keys == s.reqs.Keys
            && (forall x :: x in s.reqs && x != id ==> s'.reqs[x] == s.reqs[x])
            && (forall k :: k in s'.reqs[id].memo ==>
                  (k in s.reqs[id].memo && s'.reqs[id].memo[k] == s.reqs[id].memo[k])
                  || (k in s'.offsets && s'.offsets[k].offsetMs == s'.reqs[id].memo[k]))
  {
    hide ValidEvents, CandidateOffset, ToRow, Valid;
  }

  lemma {:induction false} MemoStaysStore(s0: State, steps: seq<Step>, id: ReqId)
    requires id !in s0.reqs && NoSweep(steps)
    ensures MemoIsStore(ExecFrom(s0, steps), id)
  {
    if steps != [] {
      var front, step := steps[..|steps| - 1], steps[|steps| - 1];
      assert steps == front + [step];
      MemoStaysStore(s0, front, id);
      StepKeepsMemo(ExecFrom(s0, front), step, id);
    }
  }

  /** Memo transparency: from the moment a request arrives, as long as no retention sweep runs and
      whatever other handlers do, every row built so far is the one that asking the store for that
      event now would give, under any candidate and at any time; and the store has answered
      exactly once for each distinct session among the events built. */
  lemma MemoIsTransparent(before: seq<Step>, during: seq<Step>, id: ReqId, candidate: Int64, at: int)
    requires id !in Exec(before).reqs && NoSweep(during)
    requires id in Exec(before + during).reqs
    ensures var s := Exec(before + during);
            var l := s.reqs[id];
            var valid := ValidEvents(l.req.events);
            && |l.rows| <= |valid|
            && (forall i :: 0 <= i < |l.rows| ==>
                  l.rows[i] == ToRow(valid[i], l.req.claims,
                                     Upsert(s.offsets, KeyOf(valid[i], l.req.claims), candidate, at)
                                       [KeyOf(valid[i], l.req.claims)].offsetMs,
                                     l.req.receivedAt))
            && Distinct(l.asked)
            && (forall k :: k in l.asked <==> k in SessionsOf(valid[..|l.rows|], l.req.claims))
  {
    ExecSplits(before, during);
    RunKeepsInv(before + during);
    MemoStaysStore(Exec(before), during, id);
    var s := Exec(before + during);
    var l := s.reqs[id];
    var valid := ValidEvents(l.req.events);
    assert LocalOk(id, l);
    forall i | 0 <= i < |l.rows|
      ensures l.rows[i] == ToRow(valid[i], l.req.claims,
                                 Upsert(s.offsets, KeyOf(valid[i], l.req.claims), candidate, at)
                                   [KeyOf(valid[i], l.req.claims)].offsetMs,
                                 l.req.receivedAt)
    {
      assert RowFor(l.rows[i], valid[i], l.req, l.memo);
    }
  }

  lemma {:induction false} ExecSplits(a: seq<Step>, b: seq<Step>)
    ensures Exec(a + b) == ExecFrom(Exec(a), b)
  {
    if b == [] {
      assert a + b == a;
    } else {
      ExecSplits(a, b[..|b| - 1]);
      assert (a + b)[..|a + b| - 1] == a + b[..|b| - 1];
    }
  }

  // ---- Times ------------------------------------------------------------------------

  /** In every reachable state every stored offset lies in [-24 h, 30 d], and every stored row's
      time lies between 30 days before and 24 hours after its receipt. */
  lemma StoredTimesAreBounded(steps: seq<Step>)
    ensures var s := Exec(steps);
            && (forall k :: k in s.offsets ==> OffsetInRange(s.offsets[k].offsetMs))
            && (forall t :: t in s.inserted ==>
                  t.row.tsReceived - MAX_PAST_SKEW_MS * NS_PER_MS
                  <= t.row.ts
                  <= t.row.tsReceived + MAX_FUTURE_SKEW_MS * NS_PER_MS)
  {
    RunKeepsInv(steps);
    var s := Exec(steps);
    forall t | t in s.inserted
      ensures t.row.tsReceived - MAX_PAST_SKEW_MS * NS_PER_MS
              <= t.row.ts
              <= t.row.tsReceived + MAX_FUTURE_SKEW_MS * NS_PER_MS
    {
      var e, offset := BuiltFrom(s, t);
      CorrectExactly(e.tsClient, offset, s.reqs[t.id].req.receivedAt);
    }
  }

  /** Every stored row was built from a valid event of its request under the remembered offset. */
  lemma BuiltFrom(s: State, t: Tagged) returns (e: Event, offset: Int64)
    requires Inv(s) && t in s.inserted
    ensures var l := s.reqs[t.id];
            && e in l.req.events && Valid(e)
            && KeyOf(e, l.req.claims) in l.memo && offset == l.memo[KeyOf(e, l.req.claims)]
            && t.row == ToRow(e, l.req.claims, offset, l.req.receivedAt)
            && OffsetInRange(offset)
            && MIN_TS_CLIENT_MS <= e.tsClient <= MAX_TS_CLIENT_MS
  {
    hide AcceptedFor, SessionsOf, ToRow, CheckProps, CanonicalUuid;
    var l := s.reqs[t.id];
    assert LocalOk(t.id, l);
    var valid := ValidEvents(l.req.events);
    var i :| 0 <= i < |l.rows| && l.rows[i] == t.row;
    assert RowFor(l.rows[i], valid[i], l.req, l.memo);
    ValidEventsAreValid(l.req.events);
    e := valid[i];
    assert e in valid;
    offset := l.memo[KeyOf(e, l.req.claims)];
  }
}
