/** The verifier's cached key set: TTL, bounded grace, rate-limited refetch and fail-closed discard
    (pkg/tenant/verify.go, key and refetchLocked). Callers read `now` before they take the lock, so
    successive calls may carry times in any order. */
module KeyCache {
  import opened Wrappers
  import opened Clock
  import opened Spacing

  const MIN_REFETCH := 30 * NS_PER_SEC
  const TTL := 10 * 60 * NS_PER_SEC
  const GRACE := 5 * 60 * NS_PER_SEC

  /** Go's zero time, 0001-01-01, in nanoseconds since the epoch. */
  const ZERO_TIME := -62_135_596_800 * NS_PER_SEC

  /** A published key (RFC 7517): `use` is its section 4.2, the kid of section 4.5 indexes the set,
      kty OKP is RFC 8037 section 2. The material stands for the public half of a key pair. */
  datatype Jwk = Jwk(kty: string, crv: string, use: Option<string>, material: int)

  type KeySet = map<string, Jwk>

  predicate Usable(k: Jwk) {
    k.use == Some("sig") && k.kty == "OKP" && k.crv == "Ed25519"
  }

  /** The key published under the kid, if it is of the required shape. */
  function Lookup(keys: Option<KeySet>, kid: string): Option<Jwk> {
    if keys.Some? && kid in keys.value && Usable(keys.value[kid]) then Some(keys.value[kid]) else None
  }

  /** A resolved key is the one published under the kid, for signing, on Ed25519; any such key resolves,
      and one for another purpose or without a stated one never does. */
  lemma LookupMeaning(keys: Option<KeySet>, kid: string, k: Jwk)
    ensures Lookup(keys, kid) == Some(k) <==>
            keys.Some? && kid in keys.value && keys.value[kid] == k
            && k.use.Some? && k.use.value == "sig" && k.kty == "OKP" && k.crv == "Ed25519"
  {
  }

  datatype Cache = Cache(keys: Option<KeySet>, fetchedAt: int, lastRefetch: int)

  const EMPTY_CACHE := Cache(None, ZERO_TIME, ZERO_TIME)

  predicate MayRefetch(c: Cache, now: int) {
    SatSub(now, c.lastRefetch) >= MIN_REFETCH
  }

  predicate Stale(c: Cache, now: int) {
    c.keys.None? || SatSub(now, c.fetchedAt) > TTL
  }

  predicate Expired(c: Cache, now: int) {
    c.keys.None? || SatSub(now, c.fetchedAt) > TTL + GRACE
  }

  /** An attempt counts against the rate limit whether or not it succeeds. */
  function Refetch(c: Cache, now: int, reply: Option<KeySet>): Cache {
    if reply.Some? then Cache(reply, now, now) else c.(lastRefetch := now)
  }

  /** The new cache, the key returned, and how often the endpoint was tried. */
  datatype Outcome = Outcome(cache: Cache, key: Option<Jwk>, attempts: nat)

  function Miss(c: Cache, kid: string, now: int, reply: Option<KeySet>, attempts: nat): Outcome {
    if MayRefetch(c, now) then
      Outcome(Refetch(c, now, reply), if reply.Some? then Lookup(reply, kid) else None, attempts + 1)
    else Outcome(c, None, attempts)
  }

  /** One call of key; `reply` is what the endpoint answers if it is tried, None for a failure. */
  function KeyStep(c: Cache, kid: string, now: int, reply: Option<KeySet>): Outcome {
    if kid == "" then Outcome(c, None, 0)
    else
      var tried := Stale(c, now) && MayRefetch(c, now);
      var c1 := if tried then Refetch(c, now, reply) else c;
      var attempts := if tried then 1 else 0;
      if Stale(c, now) && (!tried || reply.None?) && Expired(c1, now) then Outcome(c1.(keys := None), None, attempts)
      else if Lookup(c1.keys, kid).Some? then Outcome(c1, Lookup(c1.keys, kid), attempts)
      else Miss(c1, kid, now, reply, attempts)
  }

  /** What a call must answer, case by case. Within the TTL a cached key is returned and nobody is
      asked. Within the grace it is returned and kept whenever the endpoint fails or may not be asked;
      past it the set is thrown away. An answer is used and kept; a kid the cached set lacks is looked
      for in a new one. */
  lemma CacheAnswers(c: Cache, kid: string, now: int, reply: Option<KeySet>)
    ensures var o := KeyStep(c, kid, now, reply);
            var cached, served := Lookup(c.keys, kid), Lookup(reply, kid);
            var aged, mayAsk := now - c.fetchedAt, now - c.lastRefetch >= MIN_REFETCH;
            var answered := mayAsk && reply.Some?;
            if kid == "" then o == Outcome(c, None, 0)
            else if c.keys.None? || aged > TTL then
              && (answered ==> o == Outcome(Cache(reply, now, now), served, 1))
              && (!answered && c.keys.Some? && aged <= TTL + GRACE ==>
                    o.key == cached && o.cache.keys == c.keys && o.cache.fetchedAt == c.fetchedAt)
              && (!answered && (c.keys.None? || aged > TTL + GRACE) ==> o.key.None? && o.cache.keys.None?)
              && (o.attempts == if mayAsk then 1 else 0)
            else if cached.Some? then o == Outcome(c, cached, 0)
            else
              && (answered ==> o == Outcome(Cache(reply, now, now), served, 1))
              && (!answered ==> o.key.None? && o.cache.keys == c.keys && o.cache.fetchedAt == c.fetchedAt)
              && (o.attempts == if mayAsk then 1 else 0)
  {
  }

  /** The verifier's mutable key state. */
  class KeyStore {
    var keys: Option<KeySet>
    var fetchedAt: int
    var lastRefetch: int

    ghost function View(): Cache
      reads this
    {
      Cache(keys, fetchedAt, lastRefetch)
    }

    constructor ()
      ensures View() == EMPTY_CACHE
    {
      keys, fetchedAt, lastRefetch := None, ZERO_TIME, ZERO_TIME;
    }

    method RefetchLocked(now: int, reply: Option<KeySet>) returns (ok: bool)
      modifies this
      ensures View() == Refetch(old(View()), now, reply)
      ensures ok <==> reply.Some?
    {
      lastRefetch := now;
      if reply.None? {
        return false;
      }
      keys := reply;
      fetchedAt := now;
      return true;
    }

    method Key(kid: string, now: int, reply: Option<KeySet>) returns (key: Option<Jwk>, attempts: nat)
      modifies this
      ensures Outcome(View(), key, attempts) == KeyStep(old(View()), kid, now, reply)
      ensures attempts <= 1
      ensures kid != "" && Lookup(old(keys), kid).Some? && now - old(fetchedAt) <= TTL ==>
                key == Lookup(old(keys), kid) && attempts == 0 && View() == old(View())
      ensures kid != "" && Lookup(old(keys), kid).Some? && now - old(fetchedAt) <= TTL + GRACE
              && (reply.None? || now - old(lastRefetch) < MIN_REFETCH) ==>
                key == Lookup(old(keys), kid) && keys == old(keys) && fetchedAt == old(fetchedAt)
      ensures now - old(fetchedAt) > TTL + GRACE && (reply.None? || now - old(lastRefetch) < MIN_REFETCH) ==> key.None?
    {
      CacheAnswers(View(), kid, now, reply);
      attempts := 0;
      if kid == "" {
        return None, 0;
      }
      var stale := keys.None? || SatSub(now, fetchedAt) > TTL;
      if stale {
        var ok := false;
        if SatSub(now, lastRefetch) >= MIN_REFETCH {
          ok := RefetchLocked(now, reply);
          attempts := attempts + 1;
        }
        if !ok && (keys.None? || SatSub(now, fetchedAt) > TTL + GRACE) {
          keys := None;
          return None, attempts;
        }
      }
      key := Lookup(keys, kid);
      if key.Some? {
        return;
      }
      if SatSub(now, lastRefetch) >= MIN_REFETCH {
        var ok := RefetchLocked(now, reply);
        attempts := attempts + 1;
        if ok {
          key := Lookup(keys, kid);
        }
      }
    }
  }

  // ---- Runs ----------------------------------------------------------------------------

  /** A call: the caller's clock reading, the true time at which it holds the lock, and what the
      endpoint would answer then. */
  datatype Call = Call(kid: string, now: int, at: int, reply: Option<KeySet>)

  /** A fetch attempt: stamped with the caller's reading, made at the true time. */
  datatype Attempt = Attempt(now: int, at: int, served: Option<KeySet>)

  datatype History = History(cache: Cache, attempts: seq<Attempt>)

  function Step(h: History, c: Call): History {
    var o := KeyStep(h.cache, c.kid, c.now, c.reply);
    History(o.cache, if o.attempts > 0 then h.attempts + [Attempt(c.now, c.at, c.reply)] else h.attempts)
  }

  const FRESH := History(EMPTY_CACHE, [])

  function Run(calls: seq<Call>): History {
    if calls == [] then FRESH else Step(Run(calls[..|calls| - 1]), calls[|calls| - 1])
  }

  function Times(a: seq<Attempt>): (t: seq<int>)
    ensures |t| == |a| && forall i :: 0 <= i < |a| ==> t[i] == a[i].now
  {
    seq(|a|, i requires 0 <= i < |a| => a[i].now)
  }

  ghost predicate AllSucceeded(a: seq<Attempt>) {
    forall x :: x in a ==> x.served.Some?
  }

  /** The cached set is one the endpoint served on a recorded attempt. */
  ghost predicate Recorded(cache: Cache, a: seq<Attempt>) {
    cache.keys.Some? ==> exists x :: x in a && x.now == cache.fetchedAt && x.served == cache.keys
  }

  ghost predicate Fits(cache: Cache, a: seq<Attempt>) {
    if a == [] then cache == EMPTY_CACHE
    else
      && cache.lastRefetch == a[|a| - 1].now
      && (AllSucceeded(a) ==> cache.keys.Some? && cache.fetchedAt == cache.lastRefetch)
  }

  ghost predicate Inv(h: History) {
    Fits(h.cache, h.attempts) && Recorded(h.cache, h.attempts) && Spaced(Times(h.attempts), MIN_REFETCH)
  }

  /** Without an attempt a call at most discards the set. */
  lemma QuietCall(c: Cache, kid: string, now: int, reply: Option<KeySet>)
    requires KeyStep(c, kid, now, reply).attempts == 0
    ensures var o := KeyStep(c, kid, now, reply);
            && (o.cache == c || (o.cache == c.(keys := None) && Stale(c, now) && !MayRefetch(c, now)))
            && (o.key.Some? ==>
                  o.key == Lookup(c.keys, kid) && o.cache == c && !Expired(c, now)
                  && (Stale(c, now) ==> !MayRefetch(c, now)))
  {
  }

  /** A call makes at most one attempt, and only 30 s or more after the one before. */
  lemma AskingCall(c: Cache, kid: string, now: int, reply: Option<KeySet>)
    requires KeyStep(c, kid, now, reply).attempts > 0
    ensures var o := KeyStep(c, kid, now, reply);
            && o.attempts == 1
            && now - c.lastRefetch >= MIN_REFETCH
            && (reply.Some? ==> o.cache == Cache(reply, now, now) && (o.key.Some? ==> o.key == Lookup(reply, kid)))
            && (reply.None? ==> (o.cache == c.(lastRefetch := now) || o.cache == c.(lastRefetch := now, keys := None)))
            && (reply.None? && o.key.Some? ==> o.key == Lookup(c.keys, kid) && !Expired(c, now))
  {
  }

  lemma StepKeepsInv(h: History, c: Call)
    requires Inv(h)
    ensures Inv(Step(h, c))
  {
    var o := KeyStep(h.cache, c.kid, c.now, c.reply);
    if o.attempts == 0 {
      QuietCall(h.cache, c.kid, c.now, c.reply);
    } else {
      AskingCall(h.cache, c.kid, c.now, c.reply);
      RecordAttempt(h, o.cache, Attempt(c.now, c.at, c.reply));
    }
  }

  lemma RecordAttempt(h: History, cache: Cache, a: Attempt)
    requires Inv(h) && a.now - h.cache.lastRefetch >= MIN_REFETCH
    requires a.served.Some? ==> cache == Cache(a.served, a.now, a.now)
    requires a.served.None? ==>
               cache == h.cache.(lastRefetch := a.now) || cache == h.cache.(lastRefetch := a.now, keys := None)
    ensures Inv(History(cache, h.attempts + [a]))
  {
    var all := h.attempts + [a];
    assert a in all && all[|all| - 1] == a;
    assert forall x :: x in h.attempts ==> x in all;
    var t := Times(all);
    forall i | 0 < i < |t|
      ensures t[i] - t[i - 1] >= MIN_REFETCH
    {
      if i < |h.attempts| {
        assert t[i] == Times(h.attempts)[i] && t[i - 1] == Times(h.attempts)[i - 1];
      }
    }
  }

  lemma {:induction false} RunKeepsInv(calls: seq<Call>)
    ensures Inv(Run(calls))
  {
    if calls != [] {
      RunKeepsInv(calls[..|calls| - 1]);
      StepKeepsInv(Run(calls[..|calls| - 1]), calls[|calls| - 1]);
    }
  }

  /** Bounded staleness: a key returned at `now` was usable in a set the endpoint served on an
      attempt stamped at most TTL plus grace (15 minutes) earlier, and at most the TTL
      (10 minutes) earlier when no fetch has failed. */
  lemma KeyWasServedRecently(calls: seq<Call>, c: Call)
    requires KeyStep(Run(calls).cache, c.kid, c.now, c.reply).key.Some?
    ensures var key := KeyStep(Run(calls).cache, c.kid, c.now, c.reply).key;
            var h := Run(calls + [c]);
            exists x :: x in h.attempts && Lookup(x.served, c.kid) == key
                        && c.now - x.now <= TTL + GRACE
                        && (AllSucceeded(h.attempts) ==> c.now - x.now <= TTL)
  {
    assert (calls + [c])[..|calls|] == calls;
    RunKeepsInv(calls);
    var x := ServedRecently(Run(calls), c);
  }

  lemma ServedRecently(h: History, c: Call) returns (x: Attempt)
    requires Inv(h) && KeyStep(h.cache, c.kid, c.now, c.reply).key.Some?
    ensures var h' := Step(h, c);
            && x in h'.attempts && Lookup(x.served, c.kid) == KeyStep(h.cache, c.kid, c.now, c.reply).key
            && c.now - x.now <= TTL + GRACE
            && (AllSucceeded(h'.attempts) ==> c.now - x.now <= TTL)
  {
    var h' := Step(h, c);
    var o := KeyStep(h.cache, c.kid, c.now, c.reply);
    if o.attempts > 0 && c.reply.Some? {
      AskingCall(h.cache, c.kid, c.now, c.reply);
      x := Attempt(c.now, c.at, c.reply);
    } else {
      CachedKeyIsRecent(h, c);
      x :| x in h.attempts && x.now == h.cache.fetchedAt && x.served == h.cache.keys;
    }
  }

  /** A key that did not come from a fresh reply came from the cached set, within its bounds. */
  lemma CachedKeyIsRecent(h: History, c: Call)
    requires Inv(h)
    requires var o := KeyStep(h.cache, c.kid, c.now, c.reply);
             o.key.Some? && (o.attempts == 0 || c.reply.None?)
    ensures KeyStep(h.cache, c.kid, c.now, c.reply).key == Lookup(h.cache.keys, c.kid)
    ensures h.cache.keys.Some? && c.now - h.cache.fetchedAt <= TTL + GRACE
    ensures AllSucceeded(Step(h, c).attempts) ==> c.now - h.cache.fetchedAt <= TTL
  {
    if KeyStep(h.cache, c.kid, c.now, c.reply).attempts == 0 {
      QuietCall(h.cache, c.kid, c.now, c.reply);
    } else {
      AskingCall(h.cache, c.kid, c.now, c.reply);
      assert Attempt(c.now, c.at, c.reply) in Step(h, c).attempts;
    }
  }

  /** Fetch rate: whatever the calls, kids, clock readings and replies, the attempts stamped within
      any interval of length w number at most floor(w / 30 s) + 1. */
  lemma FetchesAreRateLimited(calls: seq<Call>, lo: int, w: nat)
    ensures CountIn(Times(Run(calls).attempts), lo, lo + w) <= w / MIN_REFETCH + 1
  {
    RunKeepsInv(calls);
    FewInInterval(Times(Run(calls).attempts), MIN_REFETCH, lo, w);
  }

  /** A kid the endpoint publishes is refused only by a call made within 30 s of the previous
      attempt, and then without asking the endpoint. */
  lemma PublishedKidIsFound(h: History, c: Call)
    requires Inv(h) && c.kid != "" && Lookup(c.reply, c.kid).Some?
    requires KeyStep(h.cache, c.kid, c.now, c.reply).key.None?
    ensures KeyStep(h.cache, c.kid, c.now, c.reply).attempts == 0
    ensures c.now - h.cache.lastRefetch < MIN_REFETCH
    ensures h.attempts != [] ==> c.now - h.attempts[|h.attempts| - 1].now < MIN_REFETCH
  {
  }

  lemma {:induction false} OutageKeepsSet(before: seq<Call>, outage: seq<Call>, keys: KeySet, f: int)
    requires Run(before).cache.keys == Some(keys) && Run(before).cache.fetchedAt == f
    requires forall x :: x in outage ==> x.reply.None? && x.now <= f + TTL + GRACE
    ensures var c := Run(before + outage).cache; c.keys == Some(keys) && c.fetchedAt == f
  {
    hide KeyStep;
    if outage == [] {
      assert before + outage == before;
    } else {
      var front, last := outage[..|outage| - 1], outage[|outage| - 1];
      assert outage == front + [last];
      OutageKeepsSet(before, front, keys, f);
      assert (before + outage)[..|before + outage| - 1] == before + front;
      CacheAnswers(Run(before + front).cache, last.kid, last.now, last.reply);
    }
  }

  /** The grace period is owed, not only allowed: once the endpoint has served a usable key at reading
      f, then for as long as it fails the key is returned at every reading up to f + 15 min, and at
      none after. */
  lemma OutageIsBridged(before: seq<Call>, first: Call, outage: seq<Call>, kid: string, now: int)
    requires |Run(before + [first]).attempts| > |Run(before).attempts|
    requires kid != "" && Lookup(first.reply, kid).Some?
    requires forall x :: x in outage ==> x.reply.None? && x.now <= first.now + TTL + GRACE
    ensures KeyStep(Run(before + [first] + outage).cache, kid, now, None).key ==
            if now <= first.now + TTL + GRACE then Lookup(first.reply, kid) else None
  {
    hide KeyStep;
    assert (before + [first])[..|before|] == before;
    AskingCall(Run(before).cache, first.kid, first.now, first.reply);
    OutageKeepsSet(before + [first], outage, first.reply.value, first.now);
    CacheAnswers(Run(before + [first] + outage).cache, kid, now, None);
  }
}
