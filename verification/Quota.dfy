/** Admission of batches against a per-install, per-second bucket and a per-tenant,
    per-day bucket (services/ingest/internal/quota/quota.go). */
module Quota {
  import opened Wrappers
  import opened Clock
  import opened Keys
  import opened Redis

  const RATE_TTL := 2 * NS_PER_SEC
  const DAY_TTL := 48 * 3600 * NS_PER_SEC

  /** One call of Allow: who asks, for how many units, under which limits, at which receipt time. */
  datatype Call = Call(tenant: string, install: InstallId, now: Receipt, n: nat, rps: int, daily: int)

  /** A call together with the Redis time at which its script runs. */
  datatype Op = Op(call: Call, at: int)

  datatype Reason = RateLimit | DailyQuota

  datatype Decision = Allowed | Denied(retryAfter: int, reason: Reason)

  datatype Bucket =
    | PerSecond(tenant: string, install: InstallId, second: nat)
    | PerDay(tenant: string, day: nat)
  {
    function Key(): string {
      match this
      case PerSecond(t, i, s) => RateKey(t, i, s)
      case PerDay(t, d) => DayKey(t, d)
    }

    function Ttl(): int {
      if PerSecond? then RATE_TTL else DAY_TTL
    }

    function Width(): int {
      if PerSecond? then NS_PER_SEC else NS_PER_DAY
    }

    function Start(): int {
      if PerSecond? then second * NS_PER_SEC else day * NS_PER_DAY
    }

    function Limit(c: Call): int {
      if PerSecond? then c.rps else c.daily
    }

    /** How far a script may run from the receipt time it was given: 0.5 s for the
        per-second bucket, 12 h for the per-day one. */
    function MaxLag(): int {
      (Ttl() - Width()) / 2
    }
  }

  function RateBucket(c: Call): Bucket {
    PerSecond(c.tenant, c.install, UnixSecond(c.now))
  }

  function DayBucket(c: Call): Bucket {
    PerDay(c.tenant, UtcDay(c.now))
  }

  predicate Hits(c: Call, b: Bucket) {
    b == RateBucket(c) || b == DayBucket(c)
  }

  lemma KeysApart(a: Bucket, b: Bucket)
    requires a.Key() == b.Key()
    ensures a == b
  {
    match (a, b)
    case (PerSecond(t1, i1, s1), PerSecond(t2, i2, s2)) => RateKeyInjective(t1, i1, s1, t2, i2, s2);
    case (PerDay(t1, d1), PerDay(t2, d2)) => DayKeyInjective(t1, d1, t2, d2);
    case _ =>
  }

  /** Redis plus the record of every admitted call, in admission order. */
  datatype Counters = Counters(db: Db, log: seq<Op>)

  const EMPTY := Counters(map[], [])

  /** A non-positive limit is not enforced. */
  predicate Fits(limit: int, used: int, n: int) {
    limit <= 0 || used + n <= limit
  }

  /** Adding units to a counter and re-arming its expiry. */
  function Charge(db: Db, key: string, n: int, ttl: int, at: int): Db {
    Expire(IncrBy(db, key, n, at), key, ttl, at)
  }

  /** The effect of the admission script on Redis. */
  function Consume(db: Db, o: Op): Db {
    Charge(Charge(db, RateBucket(o.call).Key(), o.call.n, RATE_TTL, o.at),
           DayBucket(o.call).Key(), o.call.n, DAY_TTL, o.at)
  }

  function Seen(q: Counters, b: Bucket, at: int): int {
    Get(q.db, b.Key(), at)
  }

  /** The delay until the next UTC midnight. */
  function UntilNextUtcDay(now: Receipt): (d: int)
    ensures 0 < d <= NS_PER_DAY
    ensures (now + d) % NS_PER_DAY == 0
  {
    (UtcDay(now) + 1) * NS_PER_DAY - now
  }

  function Decide(q: Counters, o: Op): Decision {
    if !Fits(o.call.rps, Seen(q, RateBucket(o.call), o.at), o.call.n) then Denied(NS_PER_SEC, RateLimit)
    else if !Fits(o.call.daily, Seen(q, DayBucket(o.call), o.at), o.call.n) then
      Denied(UntilNextUtcDay(o.call.now), DailyQuota)
    else Allowed
  }

  /** One atomic admission. */
  function Admit(q: Counters, o: Op): Counters {
    if Decide(q, o).Allowed? then Counters(Consume(q.db, o), q.log + [o]) else q
  }

  function Run(ops: seq<Op>): Counters {
    if ops == [] then EMPTY else Admit(Run(ops[..|ops| - 1]), ops[|ops| - 1])
  }

  /** Admission as the service performs it: the script's commands one after the other. */
  class Checker {
    var db: Db
    ghost var log: seq<Op>

    ghost function View(): Counters
      reads this
    {
      Counters(db, log)
    }

    constructor ()
      ensures View() == EMPTY
    {
      db := map[];
      log := [];
    }

    method Allow(c: Call, at: int) returns (d: Decision)
      modifies this
      ensures d == Decide(old(View()), Op(c, at))
      ensures View() == Admit(old(View()), Op(c, at))
      ensures d == Denied(NS_PER_SEC, RateLimit) <==> c.rps > 0 && Get(old(db), RateKey(c.tenant, c.install, UnixSecond(c.now)), at) + c.n > c.rps
      ensures d.Denied? && d.reason.DailyQuota? <==>
                (c.rps <= 0 || Get(old(db), RateKey(c.tenant, c.install, UnixSecond(c.now)), at) + c.n <= c.rps)
                && c.daily > 0 && Get(old(db), DayKey(c.tenant, UtcDay(c.now)), at) + c.n > c.daily
    {
      var rateKey := RateKey(c.tenant, c.install, UnixSecond(c.now));
      var dayKey := DayKey(c.tenant, UtcDay(c.now));
      var rate := Get(db, rateKey, at);
      if c.rps > 0 && rate + c.n > c.rps {
        return Denied(NS_PER_SEC, RateLimit);
      }
      var day := Get(db, dayKey, at);
      if c.daily > 0 && day + c.n > c.daily {
        return Denied(UntilNextUtcDay(c.now), DailyQuota);
      }
      db := IncrBy(db, rateKey, c.n, at);
      db := Expire(db, rateKey, RATE_TTL, at);
      db := IncrBy(db, dayKey, c.n, at);
      db := Expire(db, dayKey, DAY_TTL, at);
      log := log + [Op(c, at)];
      return Allowed;
    }
  }

  // ---- What the counters mean -------------------------------------------------

  /** The units ever admitted on a bucket. */
  function Units(log: seq<Op>, b: Bucket): nat {
    if log == [] then 0
    else Units(log[..|log| - 1], b) + (if Hits(log[|log| - 1].call, b) then log[|log| - 1].call.n else 0)
  }

  /** The Redis time of the latest admission on a bucket. */
  function LastAt(log: seq<Op>, b: Bucket): int {
    if log == [] then 0
    else if Hits(log[|log| - 1].call, b) then log[|log| - 1].at
    else LastAt(log[..|log| - 1], b)
  }

  /** Each admission on the bucket came while the counter of the previous one was still alive. */
  predicate Gapless(log: seq<Op>, b: Bucket) {
    log == [] ||
    (var front, o := log[..|log| - 1], log[|log| - 1];
     Gapless(front, b) && (Hits(o.call, b) && Units(front, b) > 0 ==> o.at < LastAt(front, b) + b.Ttl()))
  }

  /** The counter of one bucket is as old and as full as the record says. */
  ghost predicate Sound(q: Counters, b: Bucket) {
    Counts(q.db, b.Key(), q.log, b)
  }

  ghost predicate Counts(db: Db, key: string, log: seq<Op>, b: Bucket) {
    var u := Units(log, b);
    if u == 0 then key !in db
    else
      && key in db
      && db[key].expireAt == Some(LastAt(log, b) + b.Ttl())
      && 1 <= db[key].value <= u
      && (db[key].value == u <==> Gapless(log, b))
  }

  ghost predicate Inv(q: Counters) {
    && (forall o :: o in q.log ==> o.call.n >= 1)
    && (forall b: Bucket :: Sound(q, b))
  }

  lemma {:induction false} NothingBefore(log: seq<Op>, b: Bucket)
    requires forall o :: o in log ==> o.call.n >= 1
    requires Units(log, b) == 0
    ensures Gapless(log, b)
    ensures forall o :: o in log ==> !Hits(o.call, b)
  {
    if log != [] {
      NothingBefore(log[..|log| - 1], b);
      assert log == log[..|log| - 1] + [log[|log| - 1]];
    }
  }

  /** A denied call leaves everything as it was; an admitted one keeps every counter sound. */
  lemma AdmitKeepsInv(q: Counters, o: Op)
    requires Inv(q) && o.call.n >= 1
    ensures Inv(Admit(q, o))
  {
    if Decide(q, o).Allowed? {
      var q' := Admit(q, o);
      assert q'.log[..|q'.log| - 1] == q.log;
      forall b: Bucket
        ensures Sound(q', b)
      {
        assert Sound(q, b);
        AdmitOneBucket(q, o, b);
      }
    }
  }

  lemma ConsumeOneKey(q: Counters, o: Op, b: Bucket)
    ensures Hits(o.call, b) ==>
              b.Key() in Consume(q.db, o)
              && Consume(q.db, o)[b.Key()] == Entry(Seen(q, b, o.at) + o.call.n, Some(o.at + b.Ttl()))
    ensures !Hits(o.call, b) ==>
              (b.Key() in Consume(q.db, o) <==> b.Key() in q.db)
              && (b.Key() in q.db ==> Consume(q.db, o)[b.Key()] == q.db[b.Key()])
  {
    hide RateKey, DayKey;
    var r, d := RateBucket(o.call), DayBucket(o.call);
    if b.Key() == r.Key() {
      KeysApart(b, r);
    }
    if b.Key() == d.Key() {
      KeysApart(b, d);
    }
    assert r.Key() != d.Key();
    ChargeTwoKeys(q.db, r.Key(), d.Key(), o.call.n, o.at, b.Key());
  }

  lemma ChargeTwoKeys(db: Db, rk: string, dk: string, n: int, at: int, k: string)
    requires rk != dk
    ensures var db' := Charge(Charge(db, rk, n, RATE_TTL, at), dk, n, DAY_TTL, at);
            && (k == rk ==> k in db' && db'[k] == Entry(Get(db, k, at) + n, Some(at + RATE_TTL)))
            && (k == dk ==> k in db' && db'[k] == Entry(Get(db, k, at) + n, Some(at + DAY_TTL)))
            && (k != rk && k != dk ==> (k in db' <==> k in db) && (k in db ==> db'[k] == db[k]))
  {
  }

  lemma AdmitOneBucket(q: Counters, o: Op, b: Bucket)
    requires Inv(q) && o.call.n >= 1 && Decide(q, o).Allowed? && Sound(q, b)
    ensures Sound(Admit(q, o), b)
  {
    hide RateKey, DayKey;
    ConsumeOneKey(q, o, b);
    CountOneMore(q.db, Consume(q.db, o), b.Key(), q.log, o, b);
  }

  lemma CountOneMore(db: Db, db': Db, key: string, log: seq<Op>, o: Op, b: Bucket)
    requires o.call.n >= 1 && (forall x :: x in log ==> x.call.n >= 1)
    requires Counts(db, key, log, b)
    requires if Hits(o.call, b) then key in db' && db'[key] == Entry(Get(db, key, o.at) + o.call.n, Some(o.at + b.Ttl()))
             else (key in db' <==> key in db) && (key in db ==> db'[key] == db[key])
    ensures Counts(db', key, log + [o], b)
  {
    assert (log + [o])[..|log|] == log;
    if Units(log, b) == 0 {
      NothingBefore(log, b);
    }
  }

  lemma {:induction false} RunKeepsInv(ops: seq<Op>)
    requires forall o :: o in ops ==> o.call.n >= 1
    ensures Inv(Run(ops))
  {
    if ops != [] {
      RunKeepsInv(ops[..|ops| - 1]);
      AdmitKeepsInv(Run(ops[..|ops| - 1]), ops[|ops| - 1]);
    }
  }

  /** In every reachable state and at any Redis time: the script sees exactly the units admitted
      on a bucket if and only if no admission on it, and not this look either, came a whole
      TTL or more after the one before. */
  lemma SeenIsExactIff(ops: seq<Op>, b: Bucket, at: int)
    requires forall o :: o in ops ==> o.call.n >= 1
    ensures var q := Run(ops);
            Seen(q, b, at) == Units(q.log, b)
            <==> Units(q.log, b) == 0 || (Gapless(q.log, b) && at < LastAt(q.log, b) + b.Ttl())
  {
    RunKeepsInv(ops);
    assert Sound(Run(ops), b);
  }

  // ---- Prompt scripts never see a refund ----------------------------------------

  /** The script ran within `lag` of the receipt time it was given. */
  predicate Prompt(o: Op, lag: int) {
    o.call.now - lag <= o.at <= o.call.now + lag
  }

  lemma HitWindow(c: Call, b: Bucket)
    requires Hits(c, b)
    ensures b.Start() <= c.now < b.Start() + b.Width()
  {
  }

  lemma {:induction false} PromptIsGapless(log: seq<Op>, b: Bucket)
    requires forall o :: o in log && Hits(o.call, b) ==> Prompt(o, b.MaxLag())
    requires forall o :: o in log ==> o.call.n >= 1
    ensures Gapless(log, b)
    ensures Units(log, b) > 0 ==> LastAt(log, b) >= b.Start() - b.MaxLag()
  {
    hide RateBucket, DayBucket;
    if log != [] {
      var front, o := log[..|log| - 1], log[|log| - 1];
      assert log == front + [o];
      PromptIsGapless(front, b);
      if Hits(o.call, b) {
        HitWindow(o.call, b);
      }
    }
  }

  /** What a prompt call sees on a bucket it uses is the exact sum. */
  lemma PromptSeesAll(q: Counters, o: Op, b: Bucket)
    requires Inv(q) && Hits(o.call, b) && Prompt(o, b.MaxLag())
    requires forall x :: x in q.log && Hits(x.call, b) ==> Prompt(x, b.MaxLag())
    ensures Seen(q, b, o.at) == Units(q.log, b)
  {
    hide RateKey, DayKey;
    PromptIsGapless(q.log, b);
    HitWindow(o.call, b);
    assert Sound(q, b);
  }

  /** Expiry never refunds live budget: while every script runs within half a second of its
      receipt time, a call is denied exactly when it would exceed a positive limit on the units
      really admitted, an admitted call adds its units to its two buckets and to no other, and a
      denied one adds nothing. */
  lemma ExpiryNeverRefunds(ops: seq<Op>, o: Op)
    requires forall x :: x in ops + [o] ==> x.call.n >= 1 && Prompt(x, NS_PER_SEC / 2)
    ensures var q, c := Run(ops), o.call;
            && (Decide(q, o).Allowed? <==>
                Fits(c.rps, Units(q.log, RateBucket(c)), c.n) && Fits(c.daily, Units(q.log, DayBucket(c)), c.n))
            && (Decide(q, o).Denied? ==>
                  (Decide(q, o).reason.RateLimit? <==> c.rps > 0 && Units(q.log, RateBucket(c)) + c.n > c.rps))
            && (forall b: Bucket :: Units(Run(ops + [o]).log, b) ==
                  Units(q.log, b) + (if Decide(q, o).Allowed? && Hits(c, b) then c.n else 0))
  {
    hide RateKey, DayKey;
    var q := Run(ops);
    assert (ops + [o])[..|ops|] == ops;
    assert forall x :: x in ops ==> x in ops + [o];
    assert o in ops + [o];
    RunKeepsInv(ops);
    LogFromOps(ops);
    PromptSeesAll(q, o, RateBucket(o.call));
    PromptSeesAll(q, o, DayBucket(o.call));
    assert (q.log + [o])[..|q.log|] == q.log;
  }

  lemma {:induction false} LogFromOps(ops: seq<Op>)
    ensures forall o :: o in Run(ops).log ==> o in ops
  {
    if ops != [] {
      LogFromOps(ops[..|ops| - 1]);
      assert ops == ops[..|ops| - 1] + [ops[|ops| - 1]];
    }
  }

  /** Why promptness matters: a batch whose upload keeps the script three seconds behind its
      receipt time is admitted again on a bucket that is already full. */
  lemma SlowScriptIsRefunded(tenant: string, install: InstallId)
    ensures var c := Call(tenant, install, 0, 1, 1, 0);
            var q := Run([Op(c, 0), Op(c, 3 * NS_PER_SEC)]);
            Units(q.log, RateBucket(c)) == 2 > c.rps
  {
    hide RateKey, DayKey, Admit, Decide, Units;
    var c := Call(tenant, install, 0, 1, 1, 0);
    var o1, o2 := Op(c, 0), Op(c, 3 * NS_PER_SEC);
    var b := RateBucket(c);
    FirstAdmission(o1);
    EmptyIsAdmitting(Run([o1]), o2);
    assert [o1, o2][..1] == [o1] && [o1, o2][1] == o2;
    assert Run([o1, o2]).log == [o1] + [o2];
    OneMoreUnit([o1], o2, b);
    assert [] + [o1] == [o1];
    OneMoreUnit([], o1, b);
  }

  lemma FirstAdmission(o: Op)
    requires o.call.n == 1 == o.call.rps && o.call.daily == 0
    ensures Run([o]).log == [o] && Seen(Run([o]), RateBucket(o.call), o.at + 3 * NS_PER_SEC) == 0
  {
    hide RateKey, DayKey, Consume;
    assert [o][..0] == [];
    assert Run([]) == EMPTY;
    assert Decide(EMPTY, o).Allowed?;
    ConsumeOneKey(EMPTY, o, RateBucket(o.call));
  }

  /** A call of one unit under a rate of one and no daily limit is admitted when nothing is seen. */
  lemma EmptyIsAdmitting(q: Counters, o: Op)
    requires o.call.n == 1 == o.call.rps && o.call.daily == 0 && Seen(q, RateBucket(o.call), o.at) == 0
    ensures Admit(q, o).log == q.log + [o]
  {
    hide Seen, Consume;
  }

  lemma OneMoreUnit(log: seq<Op>, o: Op, b: Bucket)
    ensures Units(log + [o], b) == Units(log, b) + (if Hits(o.call, b) then o.call.n else 0)
    ensures Units([], b) == 0
  {
    assert (log + [o])[..|log|] == log;
  }

  // ---- Budgets ----------------------------------------------------------------------

  /** Every admission on the bucket was prompt and asked under a positive limit of at most d. */
  ghost predicate Metered(log: seq<Op>, b: Bucket, d: int) {
    forall o :: o in log && Hits(o.call, b) ==> Prompt(o, b.MaxLag()) && 0 < b.Limit(o.call) <= d
  }

  lemma BudgetStep(q: Counters, o: Op, b: Bucket, d: nat)
    requires Inv(q) && o.call.n >= 1 && Units(q.log, b) <= d
    requires Metered(Admit(q, o).log, b, d)
    ensures Units(Admit(q, o).log, b) <= d
  {
    hide RateKey, DayKey;
    if Decide(q, o).Allowed? {
      var log' := Admit(q, o).log;
      assert log'[..|q.log|] == q.log;
      assert forall x :: x in q.log ==> x in log';
      if Hits(o.call, b) {
        assert o in log';
        PromptSeesAll(q, o, b);
      }
    }
  }

  /** Over any run the units admitted on a bucket stay within d. */
  lemma {:induction false} BudgetKept(ops: seq<Op>, b: Bucket, d: nat)
    requires forall o :: o in ops ==> o.call.n >= 1
    requires Metered(Run(ops).log, b, d)
    ensures Units(Run(ops).log, b) <= d
  {
    if ops != [] {
      var q, o := Run(ops[..|ops| - 1]), ops[|ops| - 1];
      assert forall x :: x in q.log ==> x in Run(ops).log;
      BudgetKept(ops[..|ops| - 1], b, d);
      RunKeepsInv(ops[..|ops| - 1]);
      BudgetStep(q, o, b, d);
    }
  }

  // ---- Retry-After (RFC 9110 section 10.2.3, with the 429 of RFC 6585 section 4) --------

  /** The header's whole seconds. */
  function RetryAfterHeader(d: Decision): int
    requires d.Denied?
  {
    d.retryAfter / NS_PER_SEC + 1
  }

  function DenyingBucket(c: Call, r: Reason): Bucket {
    if r.RateLimit? then RateBucket(c) else DayBucket(c)
  }

  /** Waiting the header's seconds always reaches another bucket; after a daily denial it is the
      next UTC day, at most one second in. */
  lemma RetryAfterReachesNextBucket(q: Counters, o: Op, later: Receipt)
    requires Decide(q, o).Denied?
    requires later == o.call.now + RetryAfterHeader(Decide(q, o)) * NS_PER_SEC
    ensures var d, c := Decide(q, o), o.call;
            && DenyingBucket(c.(now := later), d.reason).Key() != DenyingBucket(c, d.reason).Key()
            && (d.reason.DailyQuota? ==>
                  UtcDay(later) == UtcDay(c.now) + 1 && 0 < later - UtcDay(later) * NS_PER_DAY <= NS_PER_SEC)
            && (d.reason.RateLimit? ==> UnixSecond(later) == UnixSecond(c.now) + 2)
  {
    var d, c := Decide(q, o), o.call;
    var b1, b2 := DenyingBucket(c.(now := later), d.reason), DenyingBucket(c, d.reason);
    if b1.Key() == b2.Key() {
      KeysApart(b1, b2);
    }
  }

  lemma {:induction false} UnitsGrow(q: Counters, more: seq<Op>, b: Bucket)
    requires Inv(q) && (forall o :: o in more ==> o.call.n >= 1)
    ensures Units(RunFrom(q, more).log, b) >= Units(q.log, b)
    ensures forall o :: o in RunFrom(q, more).log ==> o in q.log || o in more
    ensures Inv(RunFrom(q, more))
  {
    hide RateKey, DayKey, Hits, Decide, Inv, Consume;
    if more != [] {
      var front, o := more[..|more| - 1], more[|more| - 1];
      assert more == front + [o];
      UnitsGrow(q, front, b);
      var q1 := RunFrom(q, front);
      AdmitKeepsInv(q1, o);
      assert (q1.log + [o])[..|q1.log|] == q1.log;
    }
  }

  function RunFrom(q: Counters, ops: seq<Op>): Counters {
    if ops == [] then q else Admit(RunFrom(q, ops[..|ops| - 1]), ops[|ops| - 1])
  }

  /** Retrying sooner does not help: on the same bucket, with no fewer units and no larger limit,
      the call is denied again whatever happened in between. */
  lemma EarlyRetryIsDenied(ops: seq<Op>, o: Op, more: seq<Op>, retry: Op)
    requires forall x :: x in ops + [o] + more + [retry] ==> x.call.n >= 1 && Prompt(x, NS_PER_SEC / 2)
    requires Decide(Run(ops), o).Denied?
    requires var b := DenyingBucket(o.call, Decide(Run(ops), o).reason);
             && b == DenyingBucket(retry.call, Decide(Run(ops), o).reason)
             && retry.call.n >= o.call.n
             && 0 < b.Limit(retry.call) <= b.Limit(o.call)
    ensures Decide(RunFrom(Run(ops), more), retry).Denied?
  {
    hide RateKey, DayKey;
    var q := Run(ops);
    var q2 := RunFrom(q, more);
    var b := DenyingBucket(o.call, Decide(q, o).reason);
    var all := ops + [o] + more + [retry];
    assert forall x :: x in ops || x == o || x in more || x == retry ==> x in all;
    RunKeepsInv(ops);
    LogFromOps(ops);
    UnitsGrow(q, more, b);
    PromptSeesAll(q, o, b);
    PromptSeesAll(q2, retry, b);
  }

  /** A batch larger than a positive limit is denied in every reachable state. */
  lemma OversizeIsAlwaysDenied(ops: seq<Op>, o: Op)
    requires forall x :: x in ops ==> x.call.n >= 1
    requires 0 < o.call.rps < o.call.n || 0 < o.call.daily < o.call.n
    ensures Decide(Run(ops), o).Denied?
  {
    hide RateKey, DayKey;
    RunKeepsInv(ops);
    assert Sound(Run(ops), RateBucket(o.call)) && Sound(Run(ops), DayBucket(o.call));
  }
}
