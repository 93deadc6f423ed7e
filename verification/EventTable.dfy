/** The events table: a ReplacingMergeTree ordered by (tenant, name, ts, event) and versioned by
    receipt (migrations/clickhouse/0001_events.sql). Background merging may at any time drop a
    row that shares its sort key with a row received no earlier. */
module EventTable {
  import opened Clock
  import opened Enrich

  datatype SortKey = SortKey(tenantId: string, name: string, tsMs: int, eventId: string)

  function KeyOfRow(r: Row): SortKey {
    SortKey(r.tenantId, r.name, Millis(r.ts), r.eventId)
  }

  /** The version column. */
  function Version(r: Row): int {
    Millis(r.tsReceived)
  }

  /** PARTITION BY toYYYYMM(toDate(ts)); a date before 1970 is stored as 1970-01-01. */
  function Partition(r: Row): int {
    var day := Millis(r.ts) / MS_PER_DAY;
    var d := DateOf(if day < 0 then 0 else day);
    d.year * 100 + d.month
  }

  function RemoveFirst<T(==)>(s: seq<T>, x: T): seq<T> {
    if s == [] then [] else if s[0] == x then s[1..] else [s[0]] + RemoveFirst(s[1..], x)
  }

  lemma {:induction false} RemoveFirstFacts<T>(s: seq<T>, x: T)
    ensures forall y :: y in RemoveFirst(s, x) ==> y in s
    ensures forall y :: y in s && y != x ==> y in RemoveFirst(s, x)
    ensures x in s ==> |RemoveFirst(s, x)| == |s| - 1
  {
    if s != [] && s[0] != x {
      RemoveFirstFacts(s[1..], x);
      assert s == [s[0]] + s[1..];
    }
  }

  predicate CanMerge(t: seq<Row>, drop: Row, keep: Row) {
    && KeyOfRow(drop) == KeyOfRow(keep)
    && Partition(drop) == Partition(keep)
    && Version(drop) <= Version(keep)
    && drop in t
    && keep in RemoveFirst(t, drop)
  }

  /** One row loses to another of the same partition and sort key. */
  function Merge(t: seq<Row>, drop: Row, keep: Row): seq<Row> {
    if CanMerge(t, drop, keep) then RemoveFirst(t, drop) else t
  }

  function MergeAll(t: seq<Row>, schedule: seq<(Row, Row)>): seq<Row>
    decreases |schedule|
  {
    if schedule == [] then t else MergeAll(Merge(t, schedule[0].0, schedule[0].1), schedule[1..])
  }

  /** No two rows of one partition share a sort key. */
  ghost predicate FullyMerged(t: seq<Row>) {
    forall i, j :: 0 <= i < j < |t| && Partition(t[i]) == Partition(t[j]) ==> KeyOfRow(t[i]) != KeyOfRow(t[j])
  }

  /** s is stored under the same sort key as r and was received no earlier. */
  predicate Supersedes(s: Row, r: Row) {
    KeyOfRow(s) == KeyOfRow(r) && Version(s) >= Version(r)
  }

  ghost predicate Represented(r: Row, t: seq<Row>) {
    exists s :: s in t && Supersedes(s, r)
  }

  /** The rows of t are covered by those of u: nothing foreign, every sort key represented, by a
      row received no earlier. */
  ghost predicate Covers(t: seq<Row>, u: seq<Row>) {
    && (forall r :: r in t ==> r in u)
    && (forall r :: r in u ==> Represented(r, t))
  }

  lemma MergeCovers(t: seq<Row>, drop: Row, keep: Row)
    ensures Covers(Merge(t, drop, keep), t)
  {
    RemoveFirstFacts(t, drop);
    var t' := Merge(t, drop, keep);
    forall r | r in t
      ensures Represented(r, t')
    {
      assert Supersedes(r, r);
      assert r in t' || (r == drop && keep in t' && Supersedes(keep, drop));
    }
  }

  lemma CoversTransitive(t: seq<Row>, u: seq<Row>, v: seq<Row>)
    requires Covers(t, u) && Covers(u, v)
    ensures Covers(t, v)
  {
    forall r | r in v
      ensures Represented(r, t)
    {
      assert Represented(r, u);
      var s :| s in u && Supersedes(s, r);
      assert Represented(s, t);
      var s' :| s' in t && Supersedes(s', s);
      assert Supersedes(s', r);
    }
  }

  /** Any merge schedule loses no sort key and never the newest version of one. */
  lemma {:induction false} ScheduleCovers(t: seq<Row>, schedule: seq<(Row, Row)>)
    ensures Covers(MergeAll(t, schedule), t)
    decreases |schedule|
  {
    if schedule == [] {
      assert forall r :: r in t ==> Supersedes(r, r);
    } else {
      var t1 := Merge(t, schedule[0].0, schedule[0].1);
      MergeCovers(t, schedule[0].0, schedule[0].1);
      ScheduleCovers(t1, schedule[1..]);
      CoversTransitive(MergeAll(t, schedule), t1, t);
    }
  }

  lemma OneMergeLess(t: seq<Row>, i: nat, j: nat) returns (m: (Row, Row))
    requires i < j < |t| && Partition(t[i]) == Partition(t[j]) && KeyOfRow(t[i]) == KeyOfRow(t[j])
    ensures CanMerge(t, m.0, m.1) && |Merge(t, m.0, m.1)| == |t| - 1
  {
    hide Partition, KeyOfRow, Version;
    m := if Version(t[i]) <= Version(t[j]) then (t[i], t[j]) else (t[j], t[i]);
    RemoveFirstFacts(t, m.0);
    if m.0 == m.1 {
      SecondStays(t, i, j);
    }
  }

  lemma {:induction false} SecondStays<T>(s: seq<T>, i: nat, j: nat)
    requires i < j < |s| && s[i] == s[j]
    ensures s[i] in RemoveFirst(s, s[i])
  {
    if s[0] == s[i] {
      assert s[1..][j - 1] == s[i];
    } else {
      SecondStays(s[1..], i - 1, j - 1);
    }
  }

  /** From any table some schedule of merges gets it fully merged. */
  lemma {:induction false} MergingCanFinish(t: seq<Row>) returns (schedule: seq<(Row, Row)>)
    ensures FullyMerged(MergeAll(t, schedule))
    decreases |t|
  {
    hide Partition, KeyOfRow;
    schedule := [];
    if !FullyMerged(t) {
      var i, j :| 0 <= i < j < |t| && Partition(t[i]) == Partition(t[j]) && KeyOfRow(t[i]) == KeyOfRow(t[j]);
      var m := OneMergeLess(t, i, j);
      var rest := MergingCanFinish(Merge(t, m.0, m.1));
      schedule := [m] + rest;
      assert schedule[1..] == rest;
    }
  }

  // ---- Counting ---------------------------------------------------------------------

  /** The rows stored for one event id. */
  predicate IsOf(r: Row, tenant: string, name: string, eventId: string) {
    r.tenantId == tenant && r.name == name && r.eventId == eventId
  }

  function RowsOf(t: seq<Row>, tenant: string, name: string, eventId: string): seq<Row> {
    if t == [] then []
    else RowsOf(t[..|t| - 1], tenant, name, eventId) +
         (if IsOf(t[|t| - 1], tenant, name, eventId) then [t[|t| - 1]] else [])
  }

  /** The stored milliseconds under which an event's rows lie. */
  function Stamps(t: seq<Row>, tenant: string, name: string, eventId: string): set<int> {
    set r | r in t && IsOf(r, tenant, name, eventId) :: Millis(r.ts)
  }

  lemma SameStampsWhenCovered(t: seq<Row>, u: seq<Row>, tenant: string, name: string, eventId: string)
    requires Covers(t, u)
    ensures Stamps(t, tenant, name, eventId) == Stamps(u, tenant, name, eventId)
  {
    forall m | m in Stamps(u, tenant, name, eventId)
      ensures m in Stamps(t, tenant, name, eventId)
    {
      var r :| r in u && IsOf(r, tenant, name, eventId) && Millis(r.ts) == m;
      assert Represented(r, t);
      var s :| s in t && Supersedes(s, r);
      assert IsOf(s, tenant, name, eventId) && Millis(s.ts) == m;
    }
  }

  lemma NewStamp(t: seq<Row>, tenant: string, name: string, eventId: string)
    requires t != [] && FullyMerged(t) && IsOf(t[|t| - 1], tenant, name, eventId)
    ensures Millis(t[|t| - 1].ts) !in Stamps(t[..|t| - 1], tenant, name, eventId)
  {
    hide DateOf;
    forall i | 0 <= i < |t| - 1 && IsOf(t[i], tenant, name, eventId)
      ensures Millis(t[i].ts) != Millis(t[|t| - 1].ts)
    {
      assert t[i].ts / NS_PER_MS == t[|t| - 1].ts / NS_PER_MS ==> Partition(t[i]) == Partition(t[|t| - 1]);
    }
  }

  /** A fully merged table holds one row of an event per distinct stored millisecond. */
  lemma {:induction false} FullyMergedCount(t: seq<Row>, tenant: string, name: string, eventId: string)
    requires FullyMerged(t)
    ensures |RowsOf(t, tenant, name, eventId)| == |Stamps(t, tenant, name, eventId)|
  {
    hide KeyOfRow, Partition;
    if t != [] {
      var front, last := t[..|t| - 1], t[|t| - 1];
      assert t == front + [last];
      assert FullyMerged(front);
      FullyMergedCount(front, tenant, name, eventId);
      var a, b := Stamps(front, tenant, name, eventId), Stamps(t, tenant, name, eventId);
      if IsOf(last, tenant, name, eventId) {
        NewStamp(t, tenant, name, eventId);
        assert b == a + {Millis(last.ts)};
      } else {
        assert b == a;
      }
    }
  }
}
