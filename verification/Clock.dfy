/** Time as the services see it: integer nanoseconds since the Unix epoch, 64-bit
    millisecond arithmetic, saturating differences, and the UTC calendar. */
module Clock {
  const NS_PER_MS := 1_000_000
  const NS_PER_SEC := 1_000_000_000
  const MS_PER_DAY := 86_400_000
  const NS_PER_DAY := 86_400_000_000_000

  const MIN64 := -0x8000_0000_0000_0000
  const MAX64 := 0x7FFF_FFFF_FFFF_FFFF

  type Int64 = x: int | MIN64 <= x <= MAX64

  /** A receipt time: at or after 1970, and with a millisecond count that fits in 64 bits. */
  type Receipt = t: int | 0 <= t && t / NS_PER_MS <= MAX64

  /** Two's-complement wrap-around of a 64-bit integer operation. */
  function Wrap64(x: int): (r: Int64)
    ensures MIN64 <= x <= MAX64 ==> r == x
    ensures (r - x) % 0x1_0000_0000_0000_0000 == 0
  {
    (x - MIN64) % 0x1_0000_0000_0000_0000 + MIN64
  }

  /** Go's Time.Sub: the difference in nanoseconds, saturated at the 64-bit range. */
  function SatSub(a: int, b: int): (d: Int64)
    ensures MIN64 <= a - b <= MAX64 ==> d == a - b
    ensures a - b > MAX64 ==> d == MAX64
    ensures a - b < MIN64 ==> d == MIN64
  {
    if a - b > MAX64 then MAX64 else if a - b < MIN64 then MIN64 else a - b
  }

  /** Time.UnixMilli: floors, also for instants before 1970. */
  function Millis(t: int): int {
    t / NS_PER_MS
  }

  function UnixSecond(t: int): int {
    t / NS_PER_SEC
  }

  function UtcDay(t: int): int {
    t / NS_PER_DAY
  }

  /** A proleptic Gregorian calendar date. */
  datatype Date = Date(year: nat, month: nat, day: nat)

  predicate IsLeap(y: nat) {
    y % 4 == 0 && (y % 100 != 0 || y % 400 == 0)
  }

  function DaysInMonth(y: nat, m: nat): (n: nat)
    ensures 28 <= n <= 31
  {
    if m == 2 then (if IsLeap(y) then 29 else 28)
    else if m == 4 || m == 6 || m == 9 || m == 11 then 30
    else 31
  }

  predicate ValidDate(d: Date) {
    1970 <= d.year && 1 <= d.month <= 12 && 1 <= d.day <= DaysInMonth(d.year, d.month)
  }

  function NextDate(d: Date): (r: Date)
    requires ValidDate(d)
    ensures ValidDate(r) && Earlier(d, r)
  {
    if d.day < DaysInMonth(d.year, d.month) then Date(d.year, d.month, d.day + 1)
    else if d.month < 12 then Date(d.year, d.month + 1, 1)
    else Date(d.year + 1, 1, 1)
  }

  /** Chronological order of dates. */
  predicate Earlier(a: Date, b: Date) {
    a.year < b.year || (a.year == b.year && (a.month < b.month || (a.month == b.month && a.day < b.day)))
  }

  /** The calendar date of the n-th UTC day after 1970-01-01. */
  function DateOf(day: nat): (d: Date)
    ensures ValidDate(d)
  {
    if day == 0 then Date(1970, 1, 1) else NextDate(DateOf(day - 1))
  }

  /** Later days have later dates, so no two days share one. */
  lemma {:induction false} DatesIncrease(a: nat, b: nat)
    requires a < b
    ensures Earlier(DateOf(a), DateOf(b))
  {
    if a + 1 < b {
      DatesIncrease(a, b - 1);
    }
  }

  /** Days before the month in a common year. */
  function DaysBefore(month: nat): int
    requires 1 <= month <= 12
  {
    [0, 31, 59, 90, 120, 151, 181, 212, 243, 273, 304, 334][month - 1]
  }

  /** Leap days from year 1 to the end of the year before y. */
  function LeapDays(y: nat): int
    requires y >= 1
  {
    (y - 1) / 4 - (y - 1) / 100 + (y - 1) / 400
  }

  /** The closed form of the day count from 1970-01-01 to a date. */
  function DayNumber(d: Date): int
    requires ValidDate(d)
  {
    365 * (d.year - 1970) + LeapDays(d.year) - 477
    + DaysBefore(d.month) + (if d.month > 2 && IsLeap(d.year) then 1 else 0) + d.day - 1
  }

  lemma Fourth(y: nat)
    requires y >= 1
    ensures y / 4 == (y - 1) / 4 + (if y % 4 == 0 then 1 else 0)
  {
  }

  lemma Hundredth(y: nat)
    requires y >= 1
    ensures y / 100 == (y - 1) / 100 + (if y % 100 == 0 then 1 else 0)
  {
  }

  lemma FourHundredth(y: nat)
    requires y >= 1
    ensures y / 400 == (y - 1) / 400 + (if y % 400 == 0 then 1 else 0)
  {
  }

  lemma MultipleOfFour(m: nat)
    ensures (4 * m) % 4 == 0
  {
  }

  lemma MultipleOfHundred(m: nat)
    ensures (100 * m) % 100 == 0
  {
  }

  lemma CenturiesAreFourths(y: nat)
    requires y % 100 == 0
    ensures y % 4 == 0
  {
    var q := y / 100;
    assert y == 4 * (25 * q);
    MultipleOfFour(25 * q);
  }

  lemma FourCenturiesAreCenturies(y: nat)
    requires y % 400 == 0
    ensures y % 100 == 0
  {
    var q := y / 400;
    assert y == 100 * (4 * q);
    MultipleOfHundred(4 * q);
  }

  lemma LeapDayOfYear(y: nat)
    requires y >= 1
    ensures LeapDays(y + 1) == LeapDays(y) + (if IsLeap(y) then 1 else 0)
  {
    Fourth(y);
    Hundredth(y);
    FourHundredth(y);
    if y % 100 == 0 {
      CenturiesAreFourths(y);
    }
    if y % 400 == 0 {
      FourCenturiesAreCenturies(y);
    }
  }

  lemma NextDayNumber(d: Date)
    requires ValidDate(d)
    ensures DayNumber(NextDate(d)) == DayNumber(d) + 1
  {
    LeapDayOfYear(d.year);
  }

  /** Counting days one by one gives the Gregorian calendar. */
  lemma {:induction false} DateOfIsCalendar(day: nat)
    ensures DayNumber(DateOf(day)) == day
  {
    if day > 0 {
      DateOfIsCalendar(day - 1);
      NextDayNumber(DateOf(day - 1));
    }
  }
}

/** Counting instants that are kept a minimum distance apart. */
module Spacing {
  /** Each instant is at least `gap` after the one before it. */
  ghost predicate Spaced(s: seq<int>, gap: nat) {
    forall i :: 0 < i < |s| ==> s[i] - s[i - 1] >= gap
  }

  /** How many instants fall in the closed interval [lo, hi]. */
  function CountIn(s: seq<int>, lo: int, hi: int): nat {
    if s == [] then 0
    else CountIn(s[..|s| - 1], lo, hi) + (if lo <= s[|s| - 1] <= hi then 1 else 0)
  }

  lemma {:induction false} LastIsFar(s: seq<int>, gap: nat, lo: int, hi: int)
    requires Spaced(s, gap)
    ensures CountIn(s, lo, hi) > 0 ==> lo + (CountIn(s, lo, hi) - 1) * gap <= s[|s| - 1]
    ensures CountIn(s, lo, hi) > 0 ==> lo + (CountIn(s, lo, hi) - 1) * gap <= hi
  {
    if s != [] {
      var front := s[..|s| - 1];
      assert Spaced(front, gap);
      LastIsFar(front, gap, lo, hi);
      var c := CountIn(front, lo, hi);
      if c > 0 {
        assert front[|front| - 1] == s[|s| - 2];
        assert s[|s| - 1] - s[|s| - 2] >= gap;
        assert c * gap == (c - 1) * gap + gap;
      }
    }
  }

  /** At most floor(w / gap) + 1 of them fall in an interval of length w. */
  lemma FewInInterval(s: seq<int>, gap: nat, lo: int, w: nat)
    requires gap > 0 && Spaced(s, gap)
    ensures CountIn(s, lo, lo + w) <= w / gap + 1
  {
    LastIsFar(s, gap, lo, lo + w);
    MulMonotone(CountIn(s, lo, lo + w) - 1, w / gap + 1, gap);
  }

  lemma MulMonotone(a: int, b: int, g: nat)
    ensures a >= b ==> a * g >= b * g
  {
  }
}
