/**
 The proleptic Gregorian calendar over day numbers and months, and the wall
 clock over it. Day 0 is 1 January of year 0. Month `mi` is month
 `mi % 12 + 1` of year `mi / 12`, so adding months is adding to `mi`.

 An instant is a count of nanoseconds on the local wall clock; the offset to
 UTC is a fixed whole number of minutes, so truncating to a minute means the
 same on both clocks.
 */
module Calendar {

  const SECOND := 1_000_000_000
  const MINUTE := 60_000_000_000

  predicate IsLeap(y: int) {
    y % 4 == 0 && (y % 100 != 0 || y % 400 == 0)
  }

  function MonthLength(mi: int): (days: int)
    ensures 28 <= days <= 31
  {
    if mi % 12 == 1 then (if IsLeap(mi / 12) then 29 else 28)
    else if mi % 12 in {3, 5, 8, 10} then 30
    else 31
  }

  /** Days from day 0 to the first day of month `mi`: the lengths of the months between. */
  function MonthStart(mi: int): int
    decreases if mi < 0 then -mi else mi
  {
    if mi == 0 then 0
    else if mi > 0 then MonthStart(mi - 1) + MonthLength(mi - 1)
    else MonthStart(mi + 1) - MonthLength(mi)
  }

  lemma MonthStep(mi: int)
    ensures MonthStart(mi + 1) == MonthStart(mi) + MonthLength(mi)
  {
  }

  lemma {:induction false} MonthsIncrease(a: int, b: int)
    requires a <= b
    ensures MonthStart(a) + 28 * (b - a) <= MonthStart(b)
    decreases b - a
  {
    if a < b {
      MonthsIncrease(a, b - 1);
      MonthStep(b - 1);
    }
  }

  /** The month holding a day, searched upwards from a month that starts before it. */
  function MonthOf(day: int): (mi: int)
    ensures MonthStart(mi) <= day < MonthStart(mi + 1)
  {
    var far := if day < 0 then -day else day;
    MonthsIncrease(-far - 1, 0);
    MonthsIncrease(0, far + 1);
    MonthBetween(-far - 1, far + 1, day)
  }

  function MonthBetween(lo: int, hi: int, day: int): (mi: int)
    requires lo < hi && MonthStart(lo) <= day < MonthStart(hi)
    ensures MonthStart(mi) <= day < MonthStart(mi + 1)
    decreases hi - lo
  {
    if day < MonthStart(lo + 1) then lo else MonthBetween(lo + 1, hi, day)
  }

  lemma MonthOfUnique(day: int, mi: int)
    requires MonthStart(mi) <= day < MonthStart(mi + 1)
    ensures MonthOf(day) == mi
  {
    if MonthOf(day) < mi { MonthsIncrease(MonthOf(day) + 1, mi); }
    if mi < MonthOf(day) { MonthsIncrease(mi + 1, MonthOf(day)); }
  }

  lemma MonthOfMonotone(a: int, b: int)
    requires a <= b
    ensures MonthOf(a) <= MonthOf(b)
  {
    if MonthOf(b) < MonthOf(a) { MonthsIncrease(MonthOf(b) + 1, MonthOf(a)); }
  }

  /** Day of the month, from 1. */
  function DayOfMonth(day: int): (d: int)
    ensures 1 <= d <= MonthLength(MonthOf(day))
  {
    MonthStep(MonthOf(day));
    day - MonthStart(MonthOf(day)) + 1
  }

  /** The day numbered `d` of month `mi`; a `d` past the month's end runs into the next. */
  function DateOf(mi: int, d: int): int {
    MonthStart(mi) + d - 1
  }

  /** Days 1..28 exist in every month, so they read back. */
  lemma DateReadsBack(mi: int, d: int)
    requires 1 <= d <= MonthLength(mi)
    ensures MonthOf(DateOf(mi, d)) == mi && DayOfMonth(DateOf(mi, d)) == d
  {
    MonthStep(mi);
    MonthOfUnique(DateOf(mi, d), mi);
  }

  /** 0 = Sunday .. 6 = Saturday; 1 January of year 0 is a Saturday. */
  function WeekdayOf(day: int): (wd: int)
    ensures 0 <= wd < 7
  {
    (day + 6) % 7
  }

  function LeapDays(y: int): int {
    (y + 3) / 4 - (y + 99) / 100 + (y + 399) / 400
  }

  lemma LeapDaysStep(y: int)
    ensures LeapDays(y + 1) == LeapDays(y) + (if IsLeap(y) then 1 else 0)
  {
    FourStep(y);
    HundredStep(y);
    FourHundredStep(y);
    Centuries(y);
    FourCenturies(y);
  }

  lemma Centuries(y: int)
    ensures y % 100 == 0 ==> y % 4 == 0
  {
    var q := y / 100;
    if y % 100 == 0 { assert y == 4 * (25 * q); }
  }

  lemma FourCenturies(y: int)
    ensures y % 400 == 0 ==> y % 100 == 0
  {
    var q := y / 400;
    if y % 400 == 0 { assert y == 100 * (4 * q); }
  }

  lemma FourStep(y: int)
    ensures (y + 4) / 4 == (y + 3) / 4 + (if y % 4 == 0 then 1 else 0)
  {
  }

  lemma HundredStep(y: int)
    ensures (y + 100) / 100 == (y + 99) / 100 + (if y % 100 == 0 then 1 else 0)
  {
  }

  lemma FourHundredStep(y: int)
    ensures (y + 400) / 400 == (y + 399) / 400 + (if y % 400 == 0 then 1 else 0)
  {
  }

  lemma LengthIn(y: int, k: int)
    requires 0 <= k < 12
    ensures MonthLength(12 * y + k) ==
            if k == 1 then (if IsLeap(y) then 29 else 28) else if k in {3, 5, 8, 10} then 30 else 31
  {
    assert (12 * y + k) / 12 == y && (12 * y + k) % 12 == k;
  }

  function MonthsOfYear(y: int, k: nat): int {
    if k == 0 then 0 else MonthsOfYear(y, k - 1) + MonthLength(12 * y + k - 1)
  }

  lemma {:induction false} MonthsAdd(y: int, k: nat)
    ensures MonthStart(12 * y + k) == MonthStart(12 * y) + MonthsOfYear(y, k)
  {
    if k == 0 {
    } else {
      MonthsAdd(y, k - 1);
      MonthStep(12 * y + k - 1);
    }
  }

  lemma HalfYear(y: int)
    ensures MonthsOfYear(y, 6) == 181 + (if IsLeap(y) then 1 else 0)
  {
    var february := if IsLeap(y) then 29 else 28;
    LengthIn(y, 0); LengthIn(y, 1); LengthIn(y, 2); LengthIn(y, 3); LengthIn(y, 4); LengthIn(y, 5);
    assert MonthsOfYear(y, 1) == 31;
    assert MonthsOfYear(y, 2) == 31 + february;
    assert MonthsOfYear(y, 4) == MonthsOfYear(y, 3) + 30;
    assert MonthsOfYear(y, 6) == MonthsOfYear(y, 5) + 30;
  }

  lemma YearLength(y: int)
    ensures MonthsOfYear(y, 12) == 365 + (if IsLeap(y) then 1 else 0)
  {
    HalfYear(y);
    LengthIn(y, 6); LengthIn(y, 7); LengthIn(y, 8); LengthIn(y, 9); LengthIn(y, 10); LengthIn(y, 11);
    assert MonthsOfYear(y, 8) == MonthsOfYear(y, 6) + 62;
    assert MonthsOfYear(y, 10) == MonthsOfYear(y, 8) + 61;
  }

  lemma NextYear(y: nat)
    ensures MonthStart(12 * y + 12) == MonthStart(12 * y) + 365 + LeapDays(y + 1) - LeapDays(y)
  {
    LeapDaysStep(y);
    MonthsAdd(y, 12);
    YearLength(y);
  }

  /** The usual count: 365 days a year plus the leap days since year 0. */
  lemma {:induction false} YearStart(y: nat)
    ensures MonthStart(12 * y) == 365 * y + LeapDays(y)
  {
    if y == 0 {
    } else {
      YearStart(y - 1);
      NextYear(y - 1);
      assert 12 * (y - 1) + 12 == 12 * y;
    }
  }

  /** The calendar is anchored: 1 January 1970 is day 719528, a Thursday. */
  lemma UnixEpoch(y: nat)
    requires y == 1970
    ensures DateOf(12 * y, 1) == 719528 && WeekdayOf(DateOf(12 * y, 1)) == 4
  {
    YearStart(y);
  }

  // ---- minutes of the wall clock, counted from midnight of day 0 ----

  function DayOf(n: int): int { n / 1440 }
  function HourOf(n: int): (h: int) ensures 0 <= h < 24 { n % 1440 / 60 }
  function MinuteOf(n: int): (m: int) ensures 0 <= m < 60 { n % 60 }

  function At(day: int, h: int, m: int): int {
    1440 * day + 60 * h + m
  }

  lemma AtReadsBack(day: int, h: int, m: int)
    requires 0 <= h < 24 && 0 <= m < 60
    ensures DayOf(At(day, h, m)) == day && HourOf(At(day, h, m)) == h && MinuteOf(At(day, h, m)) == m
  {
    var n := At(day, h, m);
    assert n / 1440 == day && n % 1440 == 60 * h + m;
    assert n == 60 * (24 * day + h) + m;
  }

  lemma AtFields(n: int)
    ensures n == At(DayOf(n), HourOf(n), MinuteOf(n))
  {
    var (day, r) := (n / 1440, n % 1440);
    assert r == 60 * (r / 60) + r % 60;
    MinutesOfDay(day, r);
  }

  lemma MinutesOfDay(day: int, r: int)
    requires 0 <= r < 1440
    ensures (1440 * day + r) % 60 == r % 60
  {
    var (q, x) := (24 * day + r / 60, r % 60);
    assert r == 60 * (r / 60) + x;
    assert 1440 * day + r == 60 * q + x;
    SixtyRemainder(q, x);
  }

  lemma SixtyRemainder(q: int, x: int)
    requires 0 <= x < 60
    ensures (60 * q + x) % 60 == x
  {
  }

  // ---- instants ----

  /** A whole minute lies after an instant when its number exceeds the instant's minute. */
  lemma MinuteAfter(n: int, t: int)
    ensures t < n * MINUTE <==> t / MINUTE < n
  {
    assert t == t / MINUTE * MINUTE + t % MINUTE;
  }

  lemma WholeMinute(n: int)
    ensures n * MINUTE % MINUTE == 0 && n * MINUTE / MINUTE == n
  {
  }
}
