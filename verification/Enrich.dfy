/** From a validated event to a storage row: clock-offset estimation and correction
    (services/ingest/internal/enrich). */
module Enrich {
  import opened Clock
  import opened Events

  const MAX_FUTURE_SKEW_MS := MS_PER_DAY
  const MAX_PAST_SKEW_MS := 30 * MS_PER_DAY

  /** The first-contact estimate of how far the device clock is behind the server. */
  function CandidateOffset(sentAtMs: Int64, receivedAt: Receipt): Int64 {
    if sentAtMs <= 0 then 0
    else
      var offset := Wrap64(Millis(receivedAt) - sentAtMs);
      if offset > MAX_PAST_SKEW_MS || offset < -MAX_FUTURE_SKEW_MS then 0 else offset
  }

  /** The corrected event time, in nanoseconds, and whether it was clamped to the receipt. */
  function Correct(tsClientMs: Int64, offsetMs: Int64, receivedAt: Receipt): (int, bool) {
    var ts := Wrap64(tsClientMs + offsetMs) * NS_PER_MS;
    if SatSub(ts, receivedAt) > MAX_FUTURE_SKEW_MS * NS_PER_MS then (receivedAt, true)
    else if SatSub(receivedAt, ts) > MAX_PAST_SKEW_MS * NS_PER_MS then (receivedAt, true)
    else (ts, false)
  }

  predicate OffsetInRange(offsetMs: int) {
    -MAX_FUTURE_SKEW_MS <= offsetMs <= MAX_PAST_SKEW_MS
  }

  /** The receipts at which an event with corrected time t (milliseconds) is not clamped:
      from 24 hours before t to 30 days after it. */
  predicate Inside(t: int, receivedAt: int) {
    (t - MAX_FUTURE_SKEW_MS) * NS_PER_MS <= receivedAt <= (t + MAX_PAST_SKEW_MS) * NS_PER_MS
  }

  /** Whatever 64-bit send time the client claims, the estimate lies in [-24 h, 30 d], the
      subtraction behind it never wraps, and the estimate is the true difference whenever that is
      in range, zero otherwise. */
  lemma CandidateNeverWraps(sentAtMs: Int64, receivedAt: Receipt)
    ensures OffsetInRange(CandidateOffset(sentAtMs, receivedAt))
    ensures var behind := Millis(receivedAt) - sentAtMs;
            CandidateOffset(sentAtMs, receivedAt) == if sentAtMs > 0 && OffsetInRange(behind) then behind else 0
    ensures sentAtMs > 0 ==> Wrap64(Millis(receivedAt) - sentAtMs) == Millis(receivedAt) - sentAtMs
  {
  }

  /** For a validated device time and any stored offset the addition never wraps, saturation of
      time differences changes nothing, and the result is the corrected time when the receipt is
      inside its window and the receipt itself otherwise; either way it stays within 30 days
      before and 24 hours after the receipt. */
  lemma CorrectExactly(tsClientMs: Int64, offsetMs: Int64, receivedAt: Receipt)
    requires MIN_TS_CLIENT_MS <= tsClientMs <= MAX_TS_CLIENT_MS && OffsetInRange(offsetMs)
    ensures Wrap64(tsClientMs + offsetMs) == tsClientMs + offsetMs
    ensures var t := tsClientMs + offsetMs;
            Correct(tsClientMs, offsetMs, receivedAt) ==
            if Inside(t, receivedAt) then (t * NS_PER_MS, false) else (receivedAt, true)
    ensures receivedAt - MAX_PAST_SKEW_MS * NS_PER_MS
            <= Correct(tsClientMs, offsetMs, receivedAt).0
            <= receivedAt + MAX_FUTURE_SKEW_MS * NS_PER_MS
  {
  }

  /** A clamped receipt is never stored under the event's corrected time. */
  lemma OutsideIsElsewhere(t: int, receivedAt: Receipt)
    requires !Inside(t, receivedAt)
    ensures Millis(receivedAt) != t
  {
  }

  // ---- Offsets per session ------------------------------------------------------

  /** Scopes a clock offset: per session, never per request. */
  datatype SessionKey = SessionKey(tenantId: string, deviceId: string, sessionId: string)

  function KeyOf(e: Event, c: Claims): SessionKey {
    SessionKey(c.tenantId, e.deviceId, e.sessionId)
  }

  /** A session_offsets row. */
  datatype OffsetRow = OffsetRow(offsetMs: Int64, lastSeen: int)

  const RETENTION_NS := 30 * NS_PER_DAY

  /** The upsert: the first writer's offset stays, the touch is recorded. */
  function Upsert(m: map<SessionKey, OffsetRow>, k: SessionKey, candidate: Int64, at: int): map<SessionKey, OffsetRow> {
    m[k := OffsetRow(if k in m then m[k].offsetMs else candidate, at)]
  }

  /** The retention sweep: rows not touched for more than thirty days go. */
  function Sweep(m: map<SessionKey, OffsetRow>, at: int): map<SessionKey, OffsetRow> {
    map k | k in m && m[k].lastSeen >= at - RETENTION_NS :: m[k]
  }

  /** The session_offsets table behind PostgresOffsetStore. */
  class PostgresOffsets {
    var rows: map<SessionKey, OffsetRow>

    constructor ()
      ensures rows == map[]
    {
      rows := map[];
    }

    method GetOrSet(k: SessionKey, candidate: Int64, at: int) returns (offset: Int64)
      modifies this
      ensures rows == Upsert(old(rows), k, candidate, at)
      ensures offset == rows[k].offsetMs
      ensures k in old(rows) ==> offset == old(rows)[k].offsetMs
    {
      if k in rows {
        rows := rows[k := rows[k].(lastSeen := at)];
      } else {
        rows := rows[k := OffsetRow(candidate, at)];
      }
      offset := rows[k].offsetMs;
    }
  }

  /** The in-process store: the same answers, without retention. */
  class MemoryOffsets {
    var m: map<SessionKey, Int64>

    constructor ()
      ensures m == map[]
    {
      m := map[];
    }

    method GetOrSet(k: SessionKey, candidate: Int64) returns (offset: Int64)
      modifies this
      ensures m == if k in old(m) then old(m) else old(m)[k := candidate]
      ensures offset == m[k]
    {
      if k in m {
        return m[k];
      }
      m := m[k := candidate];
      return candidate;
    }
  }

  /** While no sweep runs, the two stores answer alike. */
  lemma StoresAgree(rows: map<SessionKey, OffsetRow>, m: map<SessionKey, Int64>, k: SessionKey, candidate: Int64, at: int)
    requires rows.Keys == m.Keys && forall x :: x in m ==> rows[x].offsetMs == m[x]
    ensures var rows', m' := Upsert(rows, k, candidate, at), if k in m then m else m[k := candidate];
            rows'.Keys == m'.Keys && forall x :: x in m' ==> rows'[x].offsetMs == m'[x]
  {
    var rows', m' := Upsert(rows, k, candidate, at), if k in m then m else m[k := candidate];
    assert rows'.Keys == rows.Keys + {k} && m'.Keys == m.Keys + {k};
  }

  // ---- Rows -------------------------------------------------------------------------

  /** The storage shape of an event; times in nanoseconds, read by the table in milliseconds. */
  datatype Row = Row(
    tenantId: string, eventId: string, name: string, ts: int, tsClient: int, tsReceived: int,
    userId: string, anonymousId: string, deviceId: string, sessionId: string, seqNo: nat,
    context: Context, trustTier: nat, installId: string, props: map<string, Value>)

  /** A property with no value set is left out. */
  function FlattenStep(flat: map<string, Value>, p: Prop): map<string, Value> {
    if p.value.Unset? then flat else flat[p.key := p.value]
  }

  /** Properties as a flat object. */
  function Flatten(props: seq<Prop>): map<string, Value> {
    if props == [] then map[]
    else
      FlattenStep(Flatten(props[..|props| - 1]), props[|props| - 1])
  }

  method PropsJson(props: seq<Prop>) returns (flat: map<string, Value>)
    ensures flat == Flatten(props)
  {
    flat := map[];
    for i := 0 to |props|
      invariant flat == Flatten(props[..i])
    {
      assert props[..i + 1][..i] == props[..i];
      match props[i].value {
        case Text(_) => flat := flat[props[i].key := props[i].value];
        case Number(_) => flat := flat[props[i].key := props[i].value];
        case Bool(_) => flat := flat[props[i].key := props[i].value];
        case Unset =>
      }
    }
    assert props[..|props|] == props;
  }

  lemma KeysBeforeDiffer(props: seq<Prop>)
    requires props != [] && DistinctKeys(props)
    ensures DistinctKeys(props[..|props| - 1])
    ensures forall p :: p in props[..|props| - 1] ==> p.key != props[|props| - 1].key
  {
    var front, last := props[..|props| - 1], props[|props| - 1];
    forall p | p in front
      ensures p.key != last.key
    {
      var i :| 0 <= i < |front| && front[i] == p;
      assert props[i] == p;
    }
  }

  /** The flat object holds exactly the set properties. */
  lemma {:induction false} FlattenMeaning(props: seq<Prop>)
    requires DistinctKeys(props)
    ensures forall k :: k in Flatten(props) <==> exists p :: p in props && p.key == k && !p.value.Unset?
    ensures forall p :: p in props && !p.value.Unset? ==> p.key in Flatten(props) && Flatten(props)[p.key] == p.value
  {
    hide DistinctKeys;
    if props != [] {
      var front, last := props[..|props| - 1], props[|props| - 1];
      KeysBeforeDiffer(props);
      FlattenMeaning(front);
      assert props == front + [last];
      FlattenOneMore(front, last);
      assert Flatten(props) == FlattenStep(Flatten(front), last);
    }
  }

  lemma FlattenOneMore(front: seq<Prop>, last: Prop)
    requires forall p :: p in front ==> p.key != last.key
    requires forall k :: k in Flatten(front) <==> exists p :: p in front && p.key == k && !p.value.Unset?
    requires forall p :: p in front && !p.value.Unset? ==> p.key in Flatten(front) && Flatten(front)[p.key] == p.value
    ensures var flat := FlattenStep(Flatten(front), last);
            && (forall k :: k in flat <==> exists p :: p in front + [last] && p.key == k && !p.value.Unset?)
            && (forall p :: p in front + [last] && !p.value.Unset? ==> p.key in flat && flat[p.key] == p.value)
  {
    hide Flatten;
    var all, flat := front + [last], FlattenStep(Flatten(front), last);
    assert forall p :: p in all <==> p in front || p == last;
    forall k
      ensures k in flat <==> exists p :: p in all && p.key == k && !p.value.Unset?
    {
      if k in Flatten(front) {
        var p :| p in front && p.key == k && !p.value.Unset?;
        assert p in all;
      } else if k in flat {
        assert last in all && last.key == k;
      }
    }
  }

  lemma MorePropertiesHoldMore(a: seq<Prop>, b: seq<Prop>)
    requires DistinctKeys(a) && DistinctKeys(b) && forall p :: p in a ==> p in b
    ensures forall k :: k in Flatten(a) ==> k in Flatten(b) && Flatten(a)[k] == Flatten(b)[k]
  {
    hide Flatten, DistinctKeys;
    FlattenMeaning(a);
    FlattenMeaning(b);
    forall k | k in Flatten(a)
      ensures k in Flatten(b) && Flatten(a)[k] == Flatten(b)[k]
    {
      var p :| p in a && p.key == k && !p.value.Unset?;
      assert p in b;
    }
  }

  /** A resent event is stored with the same properties, however its keys are visited. */
  lemma FlattenIgnoresOrder(a: seq<Prop>, b: seq<Prop>)
    requires DistinctKeys(a) && DistinctKeys(b) && multiset(a) == multiset(b)
    ensures Flatten(a) == Flatten(b)
  {
    hide Flatten, DistinctKeys;
    assert forall p :: p in a <==> p in b by {
      assert forall p :: (p in a <==> p in multiset(a)) && (p in b <==> p in multiset(b));
    }
    MorePropertiesHoldMore(a, b);
    MorePropertiesHoldMore(b, a);
  }

  /** Every trust-bearing field comes from the claims. */
  function ToRow(e: Event, c: Claims, offsetMs: Int64, receivedAt: Receipt): Row {
    Row(c.tenantId, e.eventId, e.name, Correct(e.tsClient, offsetMs, receivedAt).0,
        e.tsClient * NS_PER_MS, receivedAt, e.userId, e.anonymousId, e.deviceId, e.sessionId, e.seqNo,
        e.context, c.trustTier, c.installId, Flatten(e.props))
  }

  /** The event as far as a row remembers it. */
  function ReadBack(r: Row): RawEvent
    requires MIN64 <= Millis(r.tsClient) <= MAX64
  {
    RawEvent(r.eventId, r.name, Millis(r.tsClient), r.userId, r.anonymousId, r.deviceId, r.sessionId, r.seqNo,
             r.context, [])
  }

  /** Storing loses nothing of the event: it is read back whole, the raw device time included, with
      its set properties in the flat object, and its owner is the token's, not the event's. */
  lemma RowKeepsEvent(e: Event, c: Claims, offsetMs: Int64, receivedAt: Receipt)
    ensures var r := ToRow(e, c, offsetMs, receivedAt);
            && Millis(r.tsClient) == e.tsClient && ReadBack(r) == e.(props := [])
            && (forall p :: p in e.props && !p.value.Unset? ==> p.key in r.props && r.props[p.key] == p.value)
            && (forall k :: k in r.props ==> exists p :: p in e.props && p.key == k && !p.value.Unset?)
            && r.tenantId == c.tenantId && r.installId == c.installId && r.trustTier == c.trustTier
            && r.tsReceived == receivedAt
  {
    FlattenMeaning(e.props);
  }
}
