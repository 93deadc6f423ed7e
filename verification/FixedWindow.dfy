/** The fixed-window limiter of the exchange endpoints
    (services/ingest/internal/quota/quota.go, AllowClient). */
module FixedWindow {
  import opened Wrappers
  import opened Clock
  import opened Redis
  import opened Spacing

  /** One run of the script: count the call, and arm the expiry on the first call of a window
      or on a counter that has none. */
  function Hit(db: Db, key: string, windowSec: nat, at: int): Db {
    var db1 := IncrBy(db, key, 1, at);
    if db1[key].value == 1 || db1[key].expireAt.None? then Expire(db1, key, windowSec * NS_PER_SEC, at) else db1
  }

  /** A call reads and changes one key only. */
  lemma HitIsLocal(a: Db, b: Db, called: string, key: string, windowSec: nat, at: int)
    requires (key in a <==> key in b) && (key in a ==> a[key] == b[key])
    ensures var a', b' := Hit(a, called, windowSec, at), if called == key then Hit(b, called, windowSec, at) else b;
            (key in a' <==> key in b') && (key in a' ==> a'[key] == b'[key])
  {
  }

  class Limiter {
    var db: Db

    constructor ()
      ensures db == map[]
    {
      db := map[];
    }

    method AllowClient(key: string, limit: int, windowSec: nat, at: int) returns (ok: bool)
      modifies this
      ensures db == Hit(old(db), key, windowSec, at)
      ensures ok <==> Get(old(db), key, at) + 1 <= limit
      ensures key in db && db[key].expireAt.Some?
    {
      db := IncrBy(db, key, 1, at);
      var n := db[key].value;
      if n == 1 || db[key].expireAt.None? {
        db := Expire(db, key, windowSec * NS_PER_SEC, at);
      }
      return n <= limit;
    }
  }

  /** The counter after calls at the given Redis times, from an absent key. */
  function Run(times: seq<int>, key: string, windowSec: nat): Db {
    if times == [] then map[] else Hit(Run(times[..|times| - 1], key, windowSec), key, windowSec, times[|times| - 1])
  }

  lemma RunGrows(times: seq<int>, key: string, windowSec: nat, t: int)
    ensures Run(times + [t], key, windowSec) == Hit(Run(times, key, windowSec), key, windowSec, t)
  {
    hide Hit;
    assert (times + [t])[..|times|] == times;
  }

  /** The verdict on one more call. */
  predicate Admits(times: seq<int>, key: string, windowSec: nat, limit: int, at: int) {
    Get(Run(times, key, windowSec), key, at) + 1 <= limit
  }

  /** The calls that found no live counter, and so opened a window. */
  function Starts(times: seq<int>, key: string, windowSec: nat): seq<int> {
    if times == [] then []
    else
      var front, t := times[..|times| - 1], times[|times| - 1];
      Starts(front, key, windowSec) + (if Live(Run(front, key, windowSec), key, t) then [] else [t])
  }

  /** How many calls in [lo, hi] were allowed. */
  function AllowedIn(times: seq<int>, key: string, windowSec: nat, limit: int, lo: int, hi: int): nat {
    if times == [] then 0
    else
      var front, t := times[..|times| - 1], times[|times| - 1];
      AllowedIn(front, key, windowSec, limit, lo, hi) +
      (if lo <= t <= hi && Admits(front, key, windowSec, limit, t) then 1 else 0)
  }

  lemma AllowedGrows(times: seq<int>, key: string, windowSec: nat, limit: int, lo: int, hi: int, t: int)
    ensures AllowedIn(times + [t], key, windowSec, limit, lo, hi) ==
            AllowedIn(times, key, windowSec, limit, lo, hi)
            + (if lo <= t <= hi && Admits(times, key, windowSec, limit, t) then 1 else 0)
  {
    hide Admits, Run;
    assert (times + [t])[..|times|] == times;
  }

  ghost predicate Ordered(times: seq<int>) {
    forall i :: 0 < i < |times| ==> times[i - 1] <= times[i]
  }

  /** The counter's expiry is exactly one window after the latest opening, which is the window of
      the latest call; openings are at least one window length apart. */
  ghost predicate Counting(db: Db, starts: seq<int>, key: string, windowSec: nat, latest: int) {
    && key in db && db[key].value >= 1
    && starts != [] && Spaced(starts, windowSec * NS_PER_SEC)
    && starts[|starts| - 1] <= latest < starts[|starts| - 1] + windowSec * NS_PER_SEC
    && db[key].expireAt == Some(starts[|starts| - 1] + windowSec * NS_PER_SEC)
  }

  lemma NextCall(db: Db, starts: seq<int>, key: string, windowSec: nat, latest: int, t: int)
    requires windowSec > 0
    requires if starts == [] then key !in db else Counting(db, starts, key, windowSec, latest) && latest <= t
    ensures Counting(Hit(db, key, windowSec, t), if Live(db, key, t) then starts else starts + [t], key, windowSec, t)
  {
  }

  /** The counter expires exactly one window after the call that opened it, whatever came later,
      denied or not; windows are at least one window length apart. */
  lemma {:induction false} ExpiryIsFirstCallPlusWindow(times: seq<int>, key: string, windowSec: nat)
    requires times != [] && Ordered(times) && windowSec > 0
    ensures Counting(Run(times, key, windowSec), Starts(times, key, windowSec), key, windowSec, times[|times| - 1])
  {
    hide Hit, Live;
    var front, t := times[..|times| - 1], times[|times| - 1];
    var latest := if front == [] then t else front[|front| - 1];
    if front != [] {
      ExpiryIsFirstCallPlusWindow(front, key, windowSec);
    }
    NextCall(Run(front, key, windowSec), Starts(front, key, windowSec), key, windowSec, latest, t);
    StartsGrow(times, key, windowSec);
  }

  lemma StartsGrow(times: seq<int>, key: string, windowSec: nat)
    requires times != []
    ensures var front, t := times[..|times| - 1], times[|times| - 1];
            Starts(times, key, windowSec) ==
            if Live(Run(front, key, windowSec), key, t) then Starts(front, key, windowSec)
            else Starts(front, key, windowSec) + [t]
  {
  }

  /** The calls since the latest window opened, that one included. */
  function SinceOpening(times: seq<int>, key: string, windowSec: nat): nat {
    if times == [] then 0
    else
      var front, t := times[..|times| - 1], times[|times| - 1];
      if Live(Run(front, key, windowSec), key, t) then SinceOpening(front, key, windowSec) + 1 else 1
  }

  /** The counter is the number of calls since its window opened; so a call is allowed exactly when it is
      one of the first `limit` of its window. */
  lemma {:induction false} CounterIsExact(times: seq<int>, key: string, windowSec: nat, limit: int, t: int)
    requires Ordered(times + [t]) && windowSec > 0
    ensures times != [] ==> key in Run(times, key, windowSec) && Run(times, key, windowSec)[key].value == SinceOpening(times, key, windowSec)
    ensures Admits(times, key, windowSec, limit, t) <==> SinceOpening(times + [t], key, windowSec) <= limit
  {
    hide Hit;
    assert (times + [t])[..|times|] == times && (times + [t])[|times|] == t;
    if times != [] {
      var front, last := times[..|times| - 1], times[|times| - 1];
      assert front + [last] == times;
      assert forall i :: 0 < i < |times| ==> (times + [t])[i - 1] <= (times + [t])[i];
      CounterIsExact(front, key, windowSec, limit, last);
      HitCounts(Run(front, key, windowSec), key, windowSec, last);
    }
    GetIsLive(Run(times, key, windowSec), key, t);
  }

  lemma HitCounts(db: Db, key: string, windowSec: nat, at: int)
    ensures var db' := Hit(db, key, windowSec, at);
            key in db' && db'[key].value == (if Live(db, key, at) then db[key].value + 1 else 1)
  {
  }

  lemma GetIsLive(db: Db, key: string, at: int)
    ensures Live(db, key, at) ==> key in db && Get(db, key, at) == db[key].value
    ensures !Live(db, key, at) ==> Get(db, key, at) == 0
  {
  }

  lemma {:induction false} NoneBefore(times: seq<int>, key: string, windowSec: nat, limit: int, lo: int, hi: int)
    requires Ordered(times) && (times != [] ==> times[|times| - 1] < lo)
    ensures AllowedIn(times, key, windowSec, limit, lo, hi) == 0
  {
    if times != [] {
      NoneBefore(times[..|times| - 1], key, windowSec, limit, lo, hi);
    }
  }

  lemma OneMoreTime(limit: nat, m: nat)
    ensures limit * (m + 1) == limit * m + limit
  {
  }

  function Min(a: int, b: int): int {
    if a < b then a else b
  }

  /** The counter's value after the latest call. */
  function Calls(times: seq<int>, key: string, windowSec: nat): (v: int)
    requires times != []
  {
    var t := times[|times| - 1];
    Get(Run(times[..|times| - 1], key, windowSec), key, t) + 1
  }

  lemma CallsIsValue(times: seq<int>, key: string, windowSec: nat)
    requires times != []
    ensures key in Run(times, key, windowSec) && Run(times, key, windowSec)[key].value == Calls(times, key, windowSec)
  {
  }

  /** The call found no live counter. */
  predicate Opens(times: seq<int>, key: string, windowSec: nat)
    requires times != []
  {
    !Live(Run(times[..|times| - 1], key, windowSec), key, times[|times| - 1])
  }

  /** What one more call changes: the allowed calls, the windows opened and the counter. */
  lemma OneMoreCall(times: seq<int>, key: string, windowSec: nat, limit: nat, lo: int, hi: int)
    requires times != []
    ensures var front, t := times[..|times| - 1], times[|times| - 1];
            var within := lo <= t <= hi;
            var calls := Calls(times, key, windowSec);
            && AllowedIn(times, key, windowSec, limit, lo, hi) ==
               AllowedIn(front, key, windowSec, limit, lo, hi) + (if within && calls <= limit then 1 else 0)
            && CountIn(Starts(times, key, windowSec), lo, hi) ==
               CountIn(Starts(front, key, windowSec), lo, hi) + (if within && Opens(times, key, windowSec) then 1 else 0)
            && (Opens(times, key, windowSec) ==> calls == 1)
            && (!Opens(times, key, windowSec) ==> front != [] && calls == Calls(front, key, windowSec) + 1)
  {
    var front, t := times[..|times| - 1], times[|times| - 1];
    var starts := Starts(front, key, windowSec);
    assert (starts + [t])[..|starts|] == starts;
    if front != [] {
      CallsIsValue(front, key, windowSec);
    } else {
      assert Run(front, key, windowSec) == map[];
    }
    assert Starts(times, key, windowSec) == if Opens(times, key, windowSec) then starts + [t] else starts;
  }

  /** The counter is at least one after a call. */
  lemma CallsPositive(times: seq<int>, key: string, windowSec: nat)
    requires times != [] && Ordered(times) && windowSec > 0
    ensures Calls(times, key, windowSec) >= 1
  {
    ExpiryIsFirstCallPlusWindow(times, key, windowSec);
    CallsIsValue(times, key, windowSec);
  }

  /** Allowed calls are paid for by the windows opened in the interval, plus one that may have
      been open before it. */
  lemma {:induction false} PaidByWindows(times: seq<int>, key: string, windowSec: nat, limit: nat, lo: int, hi: int)
    requires times != [] && Ordered(times) && windowSec > 0
    ensures AllowedIn(times, key, windowSec, limit, lo, hi)
            <= limit * CountIn(Starts(times, key, windowSec), lo, hi)
               + (if times[|times| - 1] <= hi then Min(Calls(times, key, windowSec), limit) else limit)
  {
    hide AllowedIn, CountIn, Starts, Calls, Opens, Run;
    var front, t := times[..|times| - 1], times[|times| - 1];
    var m := CountIn(Starts(front, key, windowSec), lo, hi);
    OneMoreCall(times, key, windowSec, limit, lo, hi);
    OneMoreTime(limit, m);
    if front != [] {
      PaidByWindows(front, key, windowSec, limit, lo, hi);
      CallsPositive(front, key, windowSec);
      assert front[|front| - 1] <= t;
    } else {
      NothingYet(key, windowSec, limit, lo, hi);
    }
    if t < lo {
      NoneBefore(times, key, windowSec, limit, lo, hi);
    }
  }

  lemma NothingYet(key: string, windowSec: nat, limit: nat, lo: int, hi: int)
    ensures AllowedIn([], key, windowSec, limit, lo, hi) == 0 == CountIn(Starts([], key, windowSec), lo, hi)
  {
  }

  /** At most ceil(w / window) windows open in an interval of w nanoseconds. */
  lemma WindowsIn(times: seq<int>, key: string, windowSec: nat, lo: int, w: nat)
    requires times != [] && Ordered(times) && windowSec > 0 && w > 0
    ensures var window := windowSec * NS_PER_SEC;
            CountIn(Starts(times, key, windowSec), lo, lo + w - 1) <= (w + window - 1) / window
  {
    hide CountIn, Starts, Run;
    var window: nat := windowSec * NS_PER_SEC;
    ExpiryIsFirstCallPlusWindow(times, key, windowSec);
    FewInInterval(Starts(times, key, windowSec), window, lo, w - 1);
    RoundUp(w, window);
  }

  lemma Paid(limit: nat, m: nat, ceil: int)
    requires m <= ceil
    ensures limit * m + limit <= limit * (ceil + 1)
  {
    OneMoreTime(limit, m);
    Scale(limit, m + 1, ceil + 1);
  }

  /** In any interval of w nanoseconds at most limit * (ceil(w / window) + 1) calls are allowed. */
  lemma AllowedCallsBounded(times: seq<int>, key: string, windowSec: nat, limit: nat, lo: int, w: nat)
    requires Ordered(times) && windowSec > 0 && w > 0
    ensures var window := windowSec * NS_PER_SEC;
            AllowedIn(times, key, windowSec, limit, lo, lo + w - 1) <= limit * ((w + window - 1) / window + 1)
  {
    hide AllowedIn, CountIn, Starts, Calls, Run;
    var window: nat := windowSec * NS_PER_SEC;
    var ceil := (w + window - 1) / window;
    if times != [] {
      var m := CountIn(Starts(times, key, windowSec), lo, lo + w - 1);
      WindowsIn(times, key, windowSec, lo, w);
      PaidByWindows(times, key, windowSec, limit, lo, lo + w - 1);
      Paid(limit, m, ceil);
    } else {
      NothingYet(key, windowSec, limit, lo, lo + w - 1);
      Paid(limit, 0, ceil);
    }
  }

  lemma Scale(limit: nat, a: nat, b: int)
    requires a <= b
    ensures limit * a <= limit * b
  {
  }

  lemma RoundUp(w: nat, window: nat)
    requires w > 0 && window > 0
    ensures (w - 1) / window + 1 == (w + window - 1) / window
  {
    var q := (w - 1) / window;
    assert w + window - 1 == (q + 1) * window + (w - 1) % window;
    QuotientIs(w + window - 1, window, q + 1, (w - 1) % window);
  }

  lemma QuotientIs(x: nat, d: nat, q: nat, r: nat)
    requires d > 0 && r < d && x == q * d + r
    ensures x / d == q
  {
    var k := x / d;
    MulMonotone(k, q + 1, d);
    MulMonotone(q, k + 1, d);
  }
}
