/** Replay: how many rows an event leaves behind when a client resends it at will, handlers
    interleave, sessions are swept after thirty quiet days and the table merges as it likes. */
module Dedup {
  import opened Wrappers
  import opened Clock
  import opened Events
  import opened Enrich
  import opened EventTable
  import opened Pipeline
  import opened Acks

  // ---- One offset per session ---------------------------------------------------------

  /** The next event's session, when a build step asks the store about it. */
  function AskedFor(s: State, id: ReqId, fault: Fault): Option<SessionKey>
    requires id in s.reqs
  {
    var l := s.reqs[id];
    var valid := ValidEvents(l.req.events);
    if !l.phase.Building? || l.phase.next >= |valid| || fault.NoEffect? then None
    else
      var k := KeyOf(valid[l.phase.next], l.req.claims);
      if k in l.memo then None else Some(k)
  }

  /** The step makes the store record a touch of the session. */
  predicate Touches(s: State, step: Step, k: SessionKey) {
    step.Build? && step.id in s.reqs && AskedFor(s, step.id, step.fault) == Some(k)
  }

  /** Consecutive touches of the session are at most thirty days apart. */
  predicate TouchesClose(steps: seq<Step>, k: SessionKey) {
    steps == [] ||
    (var front, step := steps[..|steps| - 1], steps[|steps| - 1];
     var s := Exec(front);
     TouchesClose(front, k) &&
     (Touches(s, step, k) && k in s.touched ==> s.dbNow - s.touched[k].last <= RETENTION_NS))
  }

  /** Stored or swept, the session has one offset, and every handler that knows it agrees. */
  ghost predicate OneOffset(s: State, k: SessionKey) {
    if k in s.touched then
      && s.touched[k].last <= s.dbNow
      && (k in s.offsets ==> s.offsets[k] == OffsetRow(s.touched[k].first, s.touched[k].last))
      && (k !in s.offsets ==> s.dbNow - s.touched[k].last > RETENTION_NS)
      && (forall id :: id in s.reqs && k in s.reqs[id].memo ==> s.reqs[id].memo[k] == s.touched[k].first)
    else
      && k !in s.offsets
      && (forall id :: id in s.reqs ==> k !in s.reqs[id].memo)
  }

  lemma QuietBuild(s: State, id: ReqId, fault: Fault)
    requires id in s.reqs && AskedFor(s, id, fault).None?
    ensures var s' := ApplyBuild(s, id, fault);
            SameMemos(s, s') && s'.offsets == s.offsets && s'.touched == s.touched && s'.dbNow == s.dbNow
  {
  }

  lemma AskingBuild(s: State, id: ReqId, fault: Fault, candidate: Int64)
    requires id in s.reqs && AskedFor(s, id, fault).Some?
    requires candidate == CandidateOffset(s.reqs[id].req.sentAt, s.reqs[id].req.receivedAt)
    ensures var s', k := ApplyBuild(s, id, fault), AskedFor(s, id, fault).value;
            && s'.offsets == Touched(s, k, candidate).offsets && s'.touched == Touched(s, k, candidate).touched
            && s'.dbNow == s.dbNow && s'.reqs.Keys == s.reqs.Keys
            && (forall x :: x in s.reqs && x != id ==> s'.reqs[x] == s.reqs[x])
            && (s'.reqs[id].memo == s.reqs[id].memo || s'.reqs[id].memo == s.reqs[id].memo[k := s'.offsets[k].offsetMs])
  {
  }

  lemma BuildKeepsOneOffset(s: State, s': State, id: ReqId, fault: Fault, k: SessionKey)
    requires OneOffset(s, k) && id in s.reqs && s' == ApplyBuild(s, id, fault)
    requires AskedFor(s, id, fault) == Some(k) && k in s.touched ==> s.dbNow - s.touched[k].last <= RETENTION_NS
    ensures OneOffset(s', k)
  {
    hide ValidEvents, CandidateOffset, ApplyBuild, AskedFor;
    if AskedFor(s, id, fault).None? {
      QuietBuild(s, id, fault);
    } else {
      AskingBuild(s, id, fault, CandidateOffset(s.reqs[id].req.sentAt, s.reqs[id].req.receivedAt));
    }
  }

  lemma StepKeepsOneOffset(s: State, step: Step, k: SessionKey)
    requires OneOffset(s, k)
    requires Touches(s, step, k) && k in s.touched ==> s.dbNow - s.touched[k].last <= RETENTION_NS
    ensures OneOffset(Apply(s, step), k)
  {
    if step.Build? {
      if step.id in s.reqs {
        BuildKeepsOneOffset(s, Apply(s, step), step.id, step.fault, k);
      }
    } else {
      StepKeepsMemos(s, step);
      StepMovesClock(s, step);
    }
  }

  lemma StepMovesClock(s: State, step: Step)
    ensures Apply(s, step).dbNow >= s.dbNow
    ensures !step.Tick? ==> Apply(s, step).dbNow == s.dbNow
  {
  }

  lemma {:induction false} RunKeepsOneOffset(steps: seq<Step>, k: SessionKey)
    requires TouchesClose(steps, k)
    ensures OneOffset(Exec(steps), k)
  {
    if steps != [] {
      RunKeepsOneOffset(steps[..|steps| - 1], k);
      StepKeepsOneOffset(Exec(steps[..|steps| - 1]), steps[|steps| - 1], k);
    }
  }

  // ---- Rows of one event --------------------------------------------------------------

  /** Every row stored under this event id came from the one event the client made: one device
      time, one session. */
  ghost predicate OneEvent(s: State, k: SessionKey, name: string, eventId: string, tsClient: int) {
    forall t :: t in s.inserted && IsOf(t.row, k.tenantId, name, eventId) ==>
      t.row.deviceId == k.deviceId && t.row.sessionId == k.sessionId && Millis(t.row.tsClient) == tsClient
  }

  /** The event's corrected time: device time plus first-contact offset. */
  function CorrectedTime(s: State, k: SessionKey, tsClient: int): int {
    if k in s.touched then tsClient + s.touched[k].first else tsClient
  }

  lemma StoredTimeIs(steps: seq<Step>, k: SessionKey, t: Tagged)
    requires TouchesClose(steps, k) && t in Exec(steps).inserted
    requires t.row.tenantId == k.tenantId && t.row.deviceId == k.deviceId && t.row.sessionId == k.sessionId
    ensures var time := CorrectedTime(Exec(steps), k, Millis(t.row.tsClient));
            && t.row.ts == (if Inside(time, t.row.tsReceived) then time * NS_PER_MS else t.row.tsReceived)
            && 0 <= t.row.tsReceived / NS_PER_MS <= MAX64
  {
    hide AcceptedFor, SessionsOf, Flatten, ValidEvents, Validate;
    var s := Exec(steps);
    Pipeline.RunKeepsInv(steps);
    RunKeepsOneOffset(steps, k);
    var e, offset := BuiltFrom(s, t);
    var req := s.reqs[t.id].req;
    assert KeyOf(e, req.claims) == k;
    CorrectExactly(e.tsClient, offset, req.receivedAt);
    assert t.row.tsClient == e.tsClient * NS_PER_MS;
    assert Millis(t.row.tsClient) == e.tsClient;
  }

  /** Two deliveries of an event collapse exactly when both were received from 24 hours before to
      30 days after its corrected time, or both outside that window in the same millisecond. */
  lemma DeliveriesCollapseIff(steps: seq<Step>, k: SessionKey, name: string, eventId: string, tsClient: int, a: Tagged, b: Tagged)
    requires var s := Exec(steps);
             && TouchesClose(steps, k) && OneEvent(s, k, name, eventId, tsClient)
             && a in s.inserted && b in s.inserted
             && IsOf(a.row, k.tenantId, name, eventId) && IsOf(b.row, k.tenantId, name, eventId)
    ensures var time := CorrectedTime(Exec(steps), k, tsClient);
            KeyOfRow(a.row) == KeyOfRow(b.row) <==>
            || (Inside(time, a.row.tsReceived) && Inside(time, b.row.tsReceived))
            || (!Inside(time, a.row.tsReceived) && !Inside(time, b.row.tsReceived)
                && Millis(a.row.tsReceived) == Millis(b.row.tsReceived))
  {
    var time := CorrectedTime(Exec(steps), k, tsClient);
    StoredTimeIs(steps, k, a);
    StoredTimeIs(steps, k, b);
    assert Millis(time * NS_PER_MS) == time;
    if !Inside(time, a.row.tsReceived) {
      OutsideIsElsewhere(time, a.row.tsReceived);
    }
    if !Inside(time, b.row.tsReceived) {
      OutsideIsElsewhere(time, b.row.tsReceived);
    }
  }

  // ---- Counting them --------------------------------------------------------------------

  /** The receipt milliseconds of the deliveries received outside the event's window. */
  function OutsideStamps(t: seq<Tagged>, time: int, tenant: string, name: string, eventId: string): set<int> {
    set x | x in t && IsOf(x.row, tenant, name, eventId) && !Inside(time, x.row.tsReceived) :: Millis(x.row.tsReceived)
  }

  predicate SomeInside(t: seq<Tagged>, time: int, tenant: string, name: string, eventId: string) {
    exists x :: x in t && IsOf(x.row, tenant, name, eventId) && Inside(time, x.row.tsReceived)
  }

  lemma StampsOfDeliveries(steps: seq<Step>, k: SessionKey, name: string, eventId: string, tsClient: int)
    requires TouchesClose(steps, k) && OneEvent(Exec(steps), k, name, eventId, tsClient)
    ensures var s := Exec(steps);
            var time := CorrectedTime(s, k, tsClient);
            var outside := OutsideStamps(s.inserted, time, k.tenantId, name, eventId);
            && time !in outside
            && Stamps(RowsInserted(s.inserted), k.tenantId, name, eventId) ==
               outside + (if SomeInside(s.inserted, time, k.tenantId, name, eventId) then {time} else {})
  {
    var s := Exec(steps);
    var time := CorrectedTime(s, k, tsClient);
    var rows := RowsInserted(s.inserted);
    forall x | x in s.inserted && IsOf(x.row, k.tenantId, name, eventId)
      ensures Millis(x.row.ts) == if Inside(time, x.row.tsReceived) then time else Millis(x.row.tsReceived)
      ensures !Inside(time, x.row.tsReceived) ==> Millis(x.row.tsReceived) != time
      ensures x.row in rows
    {
      StoredTimeIs(steps, k, x);
      if !Inside(time, x.row.tsReceived) {
        OutsideIsElsewhere(time, x.row.tsReceived);
      }
      var i :| 0 <= i < |s.inserted| && s.inserted[i] == x;
      assert rows[i] == x.row;
    }
    forall r | r in rows
      ensures exists x :: x in s.inserted && x.row == r
    {
      var i :| 0 <= i < |rows| && rows[i] == r;
      assert s.inserted[i] in s.inserted;
    }
  }

  /** Once the table is fully merged, however it got there, an event resent any number of times has
      left one row if some delivery was received inside its window, plus one row for each distinct
      millisecond in which a delivery was received outside it. */
  lemma RowsLeftByAnEvent(steps: seq<Step>, k: SessionKey, name: string, eventId: string, tsClient: int)
    requires TouchesClose(steps, k) && OneEvent(Exec(steps), k, name, eventId, tsClient)
    requires FullyMerged(Exec(steps).table)
    ensures var s := Exec(steps);
            var time := CorrectedTime(s, k, tsClient);
            |RowsOf(s.table, k.tenantId, name, eventId)| ==
            |OutsideStamps(s.inserted, time, k.tenantId, name, eventId)|
            + (if SomeInside(s.inserted, time, k.tenantId, name, eventId) then 1 else 0)
  {
    var s := Exec(steps);
    var time := CorrectedTime(s, k, tsClient);
    var outside := OutsideStamps(s.inserted, time, k.tenantId, name, eventId);
    var inside := SomeInside(s.inserted, time, k.tenantId, name, eventId);
    var stamps := Stamps(RowsInserted(s.inserted), k.tenantId, name, eventId);
    assert |RowsOf(s.table, k.tenantId, name, eventId)| == |stamps| by {
      RunKeepsCover(steps);
      SameStampsWhenCovered(s.table, RowsInserted(s.inserted), k.tenantId, name, eventId);
      FullyMergedCount(s.table, k.tenantId, name, eventId);
    }
    assert time !in outside && stamps == outside + (if inside then {time} else {}) by {
      StampsOfDeliveries(steps, k, name, eventId, tsClient);
    }
    OneMoreElement(outside, time, inside);
  }

  lemma OneMoreElement(a: set<int>, x: int, present: bool)
    requires x !in a
    ensures |a + (if present then {x} else {})| == |a| + (if present then 1 else 0)
  {
    if !present {
      assert a + {} == a;
    }
  }

  // ---- Getting there ------------------------------------------------------------------

  lemma Extend(steps: seq<Step>, step: Step, k: SessionKey)
    ensures Exec(steps + [step]) == Apply(Exec(steps), step)
    ensures var s := Exec(steps);
            TouchesClose(steps, k) && (step.Build? && k in s.touched ==> s.dbNow - s.touched[k].last <= RETENTION_NS) ==>
              TouchesClose(steps + [step], k)
  {
    hide AskedFor, Apply;
    assert (steps + [step])[..|steps|] == steps;
  }

  function MergeSteps(schedule: seq<(Row, Row)>): seq<Step> {
    if schedule == [] then [] else [MergeRows(schedule[0].0, schedule[0].1)] + MergeSteps(schedule[1..])
  }

  lemma {:induction false} MergesOnlyMerge(steps: seq<Step>, schedule: seq<(Row, Row)>, k: SessionKey)
    requires TouchesClose(steps, k)
    ensures TouchesClose(steps + MergeSteps(schedule), k)
    ensures Exec(steps + MergeSteps(schedule)) == Exec(steps).(table := MergeAll(Exec(steps).table, schedule))
    decreases |schedule|
  {
    hide Exec, TouchesClose;
    if schedule == [] {
      assert steps + [] == steps;
    } else {
      var step := MergeRows(schedule[0].0, schedule[0].1);
      Extend(steps, step, k);
      MergesOnlyMerge(steps + [step], schedule[1..], k);
      assert steps + MergeSteps(schedule) == steps + [step] + MergeSteps(schedule[1..]);
    }
  }

  /** The table can always get there: from any run, merges alone lead to the count above. */
  lemma RowsLeftOnceMerged(steps: seq<Step>, k: SessionKey, name: string, eventId: string, tsClient: int)
    returns (schedule: seq<(Row, Row)>)
    requires TouchesClose(steps, k) && OneEvent(Exec(steps), k, name, eventId, tsClient)
    ensures var s, s' := Exec(steps), Exec(steps + MergeSteps(schedule));
            var time := CorrectedTime(s, k, tsClient);
            && FullyMerged(s'.table)
            && |RowsOf(s'.table, k.tenantId, name, eventId)| ==
               |OutsideStamps(s.inserted, time, k.tenantId, name, eventId)|
               + (if SomeInside(s.inserted, time, k.tenantId, name, eventId) then 1 else 0)
  {
    hide Exec, TouchesClose, FullyMerged, RowsOf, OutsideStamps, SomeInside;
    schedule := MergingCanFinish(Exec(steps).table);
    MergesOnlyMerge(steps, schedule, k);
    RowsLeftByAnEvent(steps + MergeSteps(schedule), k, name, eventId, tsClient);
  }

  // ---- A late resend ------------------------------------------------------------------

  /** A request all of whose calls go well, under limits that are not enforced. */
  function Deliver(id: ReqId, req: Request): seq<Step> {
    [Arrive(id, req)] + [Charge(id, Some(Limits(0, 0, 0)), NoFault)] + [Build(id, NoFault)] + [Insert(id, true, {})]
  }

  function RowOf(s: State, req: Request, e: Event): Row {
    var k := KeyOf(e, req.claims);
    var offsets := Upsert(s.offsets, k, CandidateOffset(req.sentAt, req.receivedAt), s.dbNow);
    ToRow(e, req.claims, offsets[k].offsetMs, req.receivedAt)
  }

  lemma SoleValid(e: Event)
    requires Valid(e)
    ensures ValidEvents([e]) == [e]
  {
    assert [e][..0] == [];
  }

  lemma ChargeIsFree(s: State, id: ReqId)
    requires id in s.reqs && s.reqs[id].phase == Charging
    ensures var s' := Apply(s, Charge(id, Some(Limits(0, 0, 0)), NoFault));
            && s'.reqs == s.reqs[id := s.reqs[id].(phase := Building(0))]
            && s'.offsets == s.offsets && s'.table == s.table && s'.dbNow == s.dbNow
            && s'.inserted == s.inserted && s'.touched == s.touched
  {
    hide Quota.Admit, Quota.Seen, ChargeUnits;
  }

  lemma BuildOne(s: State, id: ReqId, req: Request, e: Event)
    requires id in s.reqs && s.reqs[id] == Local(req, Building(0), map[], [], [], []) && ValidEvents(req.events) == [e]
    ensures var s' := Apply(s, Build(id, NoFault));
            var k, candidate := KeyOf(e, req.claims), CandidateOffset(req.sentAt, req.receivedAt);
            && s'.reqs.Keys == s.reqs.Keys && s'.reqs[id].phase == Building(1)
            && s'.reqs[id].req == req && s'.reqs[id].rows == [RowOf(s, req, e)]
            && s'.offsets == Upsert(s.offsets, k, candidate, s.dbNow) && s'.touched == Touched(s, k, candidate).touched
            && s'.table == s.table && s'.inserted == s.inserted && s'.dbNow == s.dbNow
  {
    hide CandidateOffset, ToRow, ValidEvents, Upsert;
  }

  lemma InsertOne(s: State, id: ReqId)
    requires id in s.reqs && s.reqs[id].phase == Building(|ValidEvents(s.reqs[id].req.events)|)
    ensures var s' := Apply(s, Insert(id, true, {}));
            && s'.reqs.Keys == s.reqs.Keys && s'.dbNow == s.dbNow
            && s'.offsets == s.offsets && s'.touched == s.touched
            && s'.table == s.table + s.reqs[id].rows && s'.inserted == s.inserted + Tag(id, s.reqs[id].rows, true)
  {
    hide ValidEvents, Tag;
  }

  /** What one undisturbed delivery of one event does. */
  lemma {:induction false} DeliverOne(before: seq<Step>, id: ReqId, req: Request, e: Event, k: SessionKey)
    requires k == KeyOf(e, req.claims) && id !in Exec(before).reqs
    requires req.claims.tenantId == id.tenant && req.events == [e] && Valid(e)
    ensures var s, s' := Exec(before), Exec(before + Deliver(id, req));
            && (TouchesClose(before, k) && (k in s.touched ==> s.dbNow - s.touched[k].last <= RETENTION_NS) ==>
                  TouchesClose(before + Deliver(id, req), k))
            && s'.reqs.Keys == s.reqs.Keys + {id} && s'.dbNow == s.dbNow
            && s'.table == s.table + [RowOf(s, req, e)]
            && s'.inserted == s.inserted + [Tagged(id, RowOf(s, req, e), true)]
            && s'.offsets == Upsert(s.offsets, k, CandidateOffset(req.sentAt, req.receivedAt), s.dbNow)
            && s'.touched == Touched(s, k, CandidateOffset(req.sentAt, req.receivedAt)).touched
  {
    hide Exec, TouchesClose, ApplyCharge, ApplyBuild, ApplyInsert, ValidEvents, CandidateOffset, ToRow, Valid, Upsert;
    var all := Deliver(id, req);
    var s := Exec(before);
    SoleValid(e);
    Extend(before, all[0], k);
    var s1 := Exec(before + [all[0]]);
    assert s1.reqs == s.reqs[id := Local(req, Charging, map[], [], [], [])];
    Extend(before + [all[0]], all[1], k);
    ChargeIsFree(s1, id);
    var s2 := Exec(before + [all[0]] + [all[1]]);
    Extend(before + [all[0]] + [all[1]], all[2], k);
    var s3 := Exec(before + [all[0]] + [all[1]] + [all[2]]);
    BuildOne(s2, id, req, e);
    InsertOne(s3, id);
    assert Tag(id, s3.reqs[id].rows, true) == [Tagged(id, RowOf(s, req, e), true)];
    Extend(before + [all[0]] + [all[1]] + [all[2]], all[3], k);
    assert before + all == before + [all[0]] + [all[1]] + [all[2]] + [all[3]];
  }

  const MONTH_AND_MORE: Receipt := 30 * NS_PER_DAY + NS_PER_MS

  /** An event delivered at once, and again a millisecond more than thirty days after it. */
  function LateResend(e: Event, c: Claims): seq<Step> {
    Deliver(ReqId(c.tenantId, 0), Request(c, false, 0, [e], 0))
    + [Tick(0, RETENTION_NS)]
    + Deliver(ReqId(c.tenantId, 1), Request(c, false, 0, [e], MONTH_AND_MORE))
  }

  /** Resending is not idempotent without the window: after that run, though its session was touched
      in time and kept its offset, the event is stored under two sort keys, in a table that has
      nothing left to merge. */
  lemma LateResendIsStoredTwice(e: Event, c: Claims)
    requires Valid(e) && e.tsClient == 0
    ensures var steps, k := LateResend(e, c), KeyOf(e, c);
            var t := Exec(steps).table;
            && TouchesClose(steps, k) && OneEvent(Exec(steps), k, e.name, e.eventId, 0)
            && |t| == 2 && IsOf(t[0], c.tenantId, e.name, e.eventId) && IsOf(t[1], c.tenantId, e.name, e.eventId)
            && KeyOfRow(t[0]) != KeyOfRow(t[1]) && FullyMerged(t)
  {
    hide Exec, TouchesClose, Upsert, Flatten, Correct, Valid, Deliver;
    var k := KeyOf(e, c);
    var r1, r2 := Request(c, false, 0, [e], 0), Request(c, false, 0, [e], MONTH_AND_MORE);
    var id1, id2 := ReqId(c.tenantId, 0), ReqId(c.tenantId, 1);
    Nothing(k);
    DeliverOne([], id1, r1, e, k);
    var first := [] + Deliver(id1, r1);
    Extend(first, Tick(0, RETENTION_NS), k);
    DeliverOne(first + [Tick(0, RETENTION_NS)], id2, r2, e, k);
    assert first == Deliver(id1, r1);
    OffsetZero(k);
    assert Exec(LateResend(e, c)).table == [ToRow(e, c, 0, 0)] + [ToRow(e, c, 0, MONTH_AND_MORE)];
    RowsApart(e, c);
  }

  lemma RowsApart(e: Event, c: Claims)
    requires e.tsClient == 0
    ensures KeyOfRow(ToRow(e, c, 0, 0)) != KeyOfRow(ToRow(e, c, 0, MONTH_AND_MORE))
  {
    hide Flatten, Correct;
    CorrectExactly(0, 0, 0);
    CorrectExactly(0, 0, MONTH_AND_MORE);
  }

  lemma Nothing(k: SessionKey)
    ensures Exec([]) == INITIAL && TouchesClose([], k)
  {
  }

  /** A first contact without a send time stores a zero offset, and a second finds it. */
  lemma OffsetZero(k: SessionKey)
    ensures var m := Upsert(map[], k, CandidateOffset(0, 0), 0);
            m[k].offsetMs == 0 && Upsert(m, k, CandidateOffset(0, MONTH_AND_MORE), RETENTION_NS)[k].offsetMs == 0
  {
  }

  /** An event stamped a day ahead, delivered at once, and again a nanosecond of database time after its
      session has been quiet for thirty days and swept, by a client whose send time is now one second
      behind. */
  function QuietResend(e: Event, c: Claims): seq<Step> {
    Deliver(ReqId(c.tenantId, 0), Request(c, false, 0, [e], 0))
    + [Tick(0, RETENTION_NS + 1)] + [SweepOffsets]
    + Deliver(ReqId(c.tenantId, 1), Request(c, false, Millis(MONTH_AND_MORE) - 1_000, [e], MONTH_AND_MORE))
  }

  /** Why touches must stay within thirty days of each other: after that run, though both receipts lie
      inside the window of the session's first offset, the event is stored twice. */
  lemma SweptSessionSplits(e: Event, c: Claims)
    requires Valid(e) && e.tsClient == MS_PER_DAY
    ensures var t := Exec(QuietResend(e, c)).table;
            && |t| == 2 && IsOf(t[0], c.tenantId, e.name, e.eventId) && IsOf(t[1], c.tenantId, e.name, e.eventId)
            && Inside(MS_PER_DAY, t[0].tsReceived) && Inside(MS_PER_DAY, t[1].tsReceived)
            && KeyOfRow(t[0]) != KeyOfRow(t[1])
  {
    hide Exec, TouchesClose, Flatten, Correct, Valid, Deliver, Upsert;
    var k := KeyOf(e, c);
    var r1 := Request(c, false, 0, [e], 0);
    var r2 := Request(c, false, Millis(MONTH_AND_MORE) - 1_000, [e], MONTH_AND_MORE);
    var id1, id2 := ReqId(c.tenantId, 0), ReqId(c.tenantId, 1);
    Nothing(k);
    DeliverOne([], id1, r1, e, k);
    var first := [] + Deliver(id1, r1);
    assert first == Deliver(id1, r1);
    Extend(first, Tick(0, RETENTION_NS + 1), k);
    var quiet := first + [Tick(0, RETENTION_NS + 1)];
    Extend(quiet, SweepOffsets, k);
    SweptAway(k);
    DeliverOne(quiet + [SweepOffsets], id2, r2, e, k);
    assert Exec(QuietResend(e, c)).table == [ToRow(e, c, 0, 0)] + [ToRow(e, c, 1_000, MONTH_AND_MORE)];
    SplitRows(e, c);
  }

  lemma SweptAway(k: SessionKey)
    ensures var m := Upsert(map[], k, CandidateOffset(0, 0), 0);
            && m[k].offsetMs == 0 && Sweep(m, RETENTION_NS + 1) == map[]
            && Upsert(map[], k, CandidateOffset(Millis(MONTH_AND_MORE) - 1_000, MONTH_AND_MORE), RETENTION_NS + 1)[k].offsetMs == 1_000
  {
  }

  lemma SplitRows(e: Event, c: Claims)
    requires e.tsClient == MS_PER_DAY
    ensures KeyOfRow(ToRow(e, c, 0, 0)) != KeyOfRow(ToRow(e, c, 1_000, MONTH_AND_MORE))
    ensures Inside(MS_PER_DAY, 0) && Inside(MS_PER_DAY, MONTH_AND_MORE)
  {
    hide Flatten, Correct;
    CorrectExactly(MS_PER_DAY, 0, 0);
    CorrectExactly(MS_PER_DAY, 1_000, MONTH_AND_MORE);
  }
}
