/**
 The schedule language of the daemon (internal/scheduler/schedule.go): parsing,
 the instants a schedule denotes, and the next of them after a given instant.
 */
module Schedules {
  import opened Calendar
  import opened Text

  datatype Schedule =
    | Hourly(minute: int)
    | Daily(hour: int, minute: int)
    | Weekly(weekday: int, hour: int, minute: int)
    | Monthly(monthDay: int, hour: int, minute: int)
  {
    predicate Valid() {
      && 0 <= minute < 60
      && (!Hourly? ==> 0 <= hour < 24)
      && (Weekly? ==> 0 <= weekday < 7)
      && (Monthly? ==> 1 <= monthDay <= 28)
    }
  }

  datatype Result<+T> = Ok(value: T) | Err

  /** The minutes of the wall clock a schedule names. */
  predicate OnMinute(s: Schedule, n: int) {
    && MinuteOf(n) == s.minute
    && (!s.Hourly? ==> HourOf(n) == s.hour)
    && (s.Weekly? ==> WeekdayOf(DayOf(n)) == s.weekday)
    && (s.Monthly? ==> DayOfMonth(DayOf(n)) == s.monthDay)
  }

  /** What a schedule means: the instants that are the start of one of its minutes. */
  predicate Matches(s: Schedule, t: int) {
    t % MINUTE == 0 && OnMinute(s, t / MINUTE)
  }

  // ---- parsing ----

  /** 'HH:MM' to hour and minute. */
  function ParseHM(s: string): (r: Result<(int, int)>)
    ensures r.Ok? ==> 0 <= r.value.0 < 24 && 0 <= r.value.1 < 60
  {
    var c := Cut(s, ':');
    if !c.found then Err else
    match (Atoi(c.before), Atoi(c.after))
    case (Some(h), Some(m)) => if 0 <= h <= 23 && 0 <= m <= 59 then Ok((h, m)) else Err
    case _ => Err
  }

  const WEEKDAY_NAMES := ["sun", "mon", "tue", "wed", "thu", "fri", "sat"]

  function WeekdayNamed(name: string): (wd: Option<int>)
    ensures wd.Some? ==> 0 <= wd.value < 7 && WEEKDAY_NAMES[wd.value] == name
    ensures wd.None? ==> name !in WEEKDAY_NAMES
  {
    if name == "sun" then Some(0) else if name == "mon" then Some(1)
    else if name == "tue" then Some(2) else if name == "wed" then Some(3)
    else if name == "thu" then Some(4) else if name == "fri" then Some(5)
    else if name == "sat" then Some(6) else None
  }

  /** The days of the week are counted from Sunday, and the calendar's day 719528 was a Thursday. */
  lemma NamesOfDays(epoch: int)
    requires epoch == DateOf(12 * 1970, 1)
    ensures WeekdayNamed("sun") == Some(0) && WeekdayNamed("mon") == Some(1) && WeekdayNamed("tue") == Some(2)
    ensures WeekdayNamed("wed") == Some(3) && WeekdayNamed("thu") == Some(4) && WeekdayNamed("fri") == Some(5)
    ensures WeekdayNamed("sat") == Some(6) && WEEKDAY_NAMES[WeekdayOf(epoch)] == "thu"
  {
    UnixEpoch(1970);
  }

  function TrimColon(s: string): string {
    if s != "" && s[0] == ':' then s[1..] else s
  }

  function ParseSchedule(raw: string): (r: Result<Schedule>)
    ensures r.Ok? ==> r.value.Valid()
  {
    var at := Cut(raw, '@');
    if !at.found then Err else
    var body := Cut(at.before, ':');
    ParseParts(body.before, body.after, at.after)
  }

  function ParseParts(kind: string, arg: string, tail: string): (r: Result<Schedule>)
    ensures r.Ok? ==> r.value.Valid()
  {
    if kind == "hourly" then
      (match Atoi(TrimColon(tail))
       case Some(m) => if 0 <= m <= 59 then Ok(Hourly(m)) else Err
       case None => Err)
    else if kind == "daily" then
      (match ParseHM(tail)
       case Ok(hm) => Ok(Daily(hm.0, hm.1))
       case Err => Err)
    else if kind == "weekly" then
      (match (WeekdayNamed(arg), ParseHM(tail))
       case (Some(wd), Ok(hm)) => Ok(Weekly(wd, hm.0, hm.1))
       case _ => Err)
    else if kind == "monthly" then
      (match (Atoi(arg), ParseHM(tail))
       case (Some(d), Ok(hm)) => if 1 <= d <= 28 then Ok(Monthly(d, hm.0, hm.1)) else Err
       case _ => Err)
    else Err
  }

  // ---- the language it accepts ----

  ghost predicate Around(s: string, c: char, a: string, b: string) {
    c !in a && s == a + [c] + b
  }

  lemma CutAround(s: string, c: char, a: string, b: string)
    ensures Around(s, c, a, b) <==> Cut(s, c) == CutResult(a, b, true)
  {
    if Around(s, c, a, b) { CutAt(a, c, b); }
  }

  /** A number, a colon and a number, naming a time of day. */
  ghost predicate IsClock(t: string, h: int, m: int) {
    0 <= h <= 23 && 0 <= m <= 59 && exists a, b :: Around(t, ':', a, b) && Atoi(a) == Some(h) && Atoi(b) == Some(m)
  }

  /** The kind alone or with an argument after a colon. */
  predicate OfKind(head: string, kind: string) {
    head == kind || kind + ":" <= head
  }

  /** What stands before and after the '@' of a text for `s`; hourly and daily ignore an argument. */
  ghost predicate Writes(head: string, tail: string, s: Schedule) {
    match s
    case Hourly(m) => OfKind(head, "hourly") && 0 <= m <= 59 && (Atoi(tail) == Some(m) || Minutes(tail, m))
    case Daily(h, m) => OfKind(head, "daily") && IsClock(tail, h, m)
    case Weekly(wd, h, m) => 0 <= wd < 7 && head == "weekly" + [':'] + WEEKDAY_NAMES[wd] && IsClock(tail, h, m)
    case Monthly(d, h, m) => 1 <= d <= 28 && Prefixed(head, "monthly", d) && IsClock(tail, h, m)
  }

  /** The kind, a colon and the number `d`. */
  predicate Prefixed(head: string, kind: string, d: int) {
    kind + [':'] <= head && Atoi(head[|kind| + 1..]) == Some(d)
  }

  predicate Minutes(tail: string, m: int) {
    ":" <= tail && Atoi(tail[1..]) == Some(m)
  }

  /** A text is a schedule exactly when it is written that way, and it then means that schedule. */
  lemma AcceptsExactly(raw: string, s: Schedule)
    ensures ParseSchedule(raw) == Ok(s) <==> exists head, tail :: Around(raw, '@', head, tail) && Writes(head, tail, s)
  {
    var at := Cut(raw, '@');
    CutAround(raw, '@', at.before, at.after);
    if at.found { HeadReads(at.before, at.after, s); }
    forall head, tail | Around(raw, '@', head, tail) ensures head == at.before && tail == at.after && at.found {
      CutAround(raw, '@', head, tail);
    }
  }

  lemma ClockReads(t: string, h: int, m: int)
    ensures ParseHM(t) == Ok((h, m)) <==> IsClock(t, h, m)
  {
    var c := Cut(t, ':');
    CutAround(t, ':', c.before, c.after);
    forall a, b | Around(t, ':', a, b) ensures a == c.before && b == c.after && c.found {
      CutAround(t, ':', a, b);
    }
  }

  lemma KindReads(head: string, kind: string)
    requires ':' !in kind
    ensures OfKind(head, kind) <==> Cut(head, ':').before == kind
  {
    if kind + ":" <= head {
      assert head == kind + [':'] + head[|kind| + 1..];
      CutAt(kind, ':', head[|kind| + 1..]);
    } else if head == kind {
      CutNone(head, ':');
    }
  }

  /** The kind is followed by a colon and `arg`, or stands alone and `arg` is empty. */
  lemma ArgReads(head: string, kind: string, arg: string)
    requires ':' !in kind && arg != ""
    ensures head == kind + [':'] + arg <==> Cut(head, ':').before == kind && Cut(head, ':').after == arg
  {
    var c := Cut(head, ':');
    CutAround(head, ':', kind, arg);
    assert c.after == arg ==> c.found;
  }

  lemma HeadReads(head: string, tail: string, s: Schedule)
    ensures ParseParts(Cut(head, ':').before, Cut(head, ':').after, tail) == Ok(s) <==> Writes(head, tail, s)
  {
    match s
    case Hourly(m) => HourlyHead(head, tail, Cut(head, ':'), m);
    case Daily(h, m) => DailyHead(head, tail, Cut(head, ':'), h, m);
    case Weekly(wd, h, m) => WeeklyHead(head, tail, Cut(head, ':'), wd, h, m);
    case Monthly(d, h, m) => MonthlyHead(head, tail, Cut(head, ':'), d, h, m);
  }

  lemma HourlyHead(head: string, tail: string, c: CutResult, m: int)
    requires c == Cut(head, ':')
    ensures ParseParts(c.before, c.after, tail) == Ok(Hourly(m)) <==> Writes(head, tail, Hourly(m))
  {
    PartsRead(c.before, c.after, tail, Hourly(m));
    KindReads(head, "hourly");
    HourlyReads(tail, m);
  }

  lemma DailyHead(head: string, tail: string, c: CutResult, h: int, m: int)
    requires c == Cut(head, ':')
    ensures ParseParts(c.before, c.after, tail) == Ok(Daily(h, m)) <==> Writes(head, tail, Daily(h, m))
  {
    PartsRead(c.before, c.after, tail, Daily(h, m));
    KindReads(head, "daily");
    ClockReads(tail, h, m);
  }

  lemma WeeklyHead(head: string, tail: string, c: CutResult, wd: int, h: int, m: int)
    requires c == Cut(head, ':')
    ensures ParseParts(c.before, c.after, tail) == Ok(Weekly(wd, h, m)) <==> Writes(head, tail, Weekly(wd, h, m))
  {
    PartsRead(c.before, c.after, tail, Weekly(wd, h, m));
    ClockReads(tail, h, m);
    if 0 <= wd < 7 { WeekdayReads(head, "weekly", c, wd); }
  }

  lemma MonthlyHead(head: string, tail: string, c: CutResult, d: int, h: int, m: int)
    requires c == Cut(head, ':')
    ensures ParseParts(c.before, c.after, tail) == Ok(Monthly(d, h, m)) <==> Writes(head, tail, Monthly(d, h, m))
  {
    PartsRead(c.before, c.after, tail, Monthly(d, h, m));
    ClockReads(tail, h, m);
    DayReads(head, "monthly", c, d);
  }

  lemma WeekdayReads(head: string, kind: string, c: CutResult, wd: int)
    requires 0 <= wd < 7 && ':' !in kind && c == Cut(head, ':')
    ensures c.before == kind && WeekdayNamed(c.after) == Some(wd) <==> head == kind + [':'] + WEEKDAY_NAMES[wd]
  {
    var name := WEEKDAY_NAMES[wd];
    assert name != "" && WeekdayNamed(name) == Some(wd);
    ArgReads(head, kind, name);
  }

  lemma DayReads(head: string, kind: string, c: CutResult, d: int)
    requires ':' !in kind && c == Cut(head, ':')
    ensures c.before == kind && Atoi(c.after) == Some(d) <==> Prefixed(head, kind, d)
  {
    if kind + [':'] <= head {
      PrefixCuts(head, kind, c, head[|kind| + 1..]);
    } else if c.before == kind {
      assert !c.found && c.after == "";
      NoNumber();
    }
  }

  lemma PrefixCuts(head: string, kind: string, c: CutResult, arg: string)
    requires ':' !in kind && c == Cut(head, ':') && kind + [':'] <= head && arg == head[|kind| + 1..]
    ensures c == CutResult(kind, arg, true)
  {
    assert head == kind + [':'] + arg;
    CutAt(kind, ':', arg);
  }

  lemma NoNumber()
    ensures Atoi("").None?
  {
  }

  lemma PartsRead(kind: string, arg: string, tail: string, s: Schedule)
    ensures ParseParts(kind, arg, tail) == Ok(s) <==>
              match s
              case Hourly(m) => kind == "hourly" && 0 <= m <= 59 && Atoi(TrimColon(tail)) == Some(m)
              case Daily(h, m) => kind == "daily" && ParseHM(tail) == Ok((h, m))
              case Weekly(wd, h, m) => kind == "weekly" && WeekdayNamed(arg) == Some(wd) && ParseHM(tail) == Ok((h, m))
              case Monthly(d, h, m) =>
                kind == "monthly" && Atoi(arg) == Some(d) && 1 <= d <= 28 && ParseHM(tail) == Ok((h, m))
  {
  }

  lemma HourlyReads(tail: string, m: int)
    ensures Atoi(TrimColon(tail)) == Some(m) <==> Atoi(tail) == Some(m) || Minutes(tail, m)
  {
    if ":" <= tail { assert tail[0] == ':' && tail[0] in tail && !IsDigit(tail[0]); }
  }

  // ---- the next instant ----

  /**
   The first minute of `s` after minute `last`, in closed form: at most one hour, one
   day, one week or one month of correction to the candidate on the day of `last + 1`.
   */
  function NextMinute(s: Schedule, last: int): int
    requires s.Valid()
  {
    var t := last + 1;
    match s
    case Hourly(m) =>
      var c := t / 60 * 60 + m;
      if last < c then c else c + 60
    case Daily(h, m) =>
      var c := At(DayOf(t), h, m);
      if last < c then c else c + 1440
    case Weekly(wd, h, m) =>
      var first := if last < At(DayOf(t), h, m) then DayOf(t) else DayOf(t) + 1;
      At(first + (wd - WeekdayOf(first)) % 7, h, m)
    case Monthly(md, h, m) =>
      var mi := MonthOf(DayOf(t));
      var c := At(DateOf(mi, md), h, m);
      if last < c then c else At(DateOf(mi + 1, md), h, m)
  }

  /** It is later and satisfies the schedule. */
  lemma NextMinuteMatches(s: Schedule, last: int)
    requires s.Valid()
    ensures last < NextMinute(s, last) && OnMinute(s, NextMinute(s, last))
  {
    match s
    case Hourly(m) =>
    case Daily(h, m) => DailyMatches(h, m, last);
    case Weekly(wd, h, m) => WeeklyMatches(wd, h, m, last);
    case Monthly(md, h, m) => MonthlyMatches(md, h, m, last);
  }

  lemma DailyMatches(h: int, m: int, last: int)
    requires Daily(h, m).Valid()
    ensures last < NextMinute(Daily(h, m), last) && OnMinute(Daily(h, m), NextMinute(Daily(h, m), last))
  {
    var day := DayOf(last + 1);
    AtReadsBack(day, h, m);
    AtReadsBack(day + 1, h, m);
    assert At(day + 1, h, m) == At(day, h, m) + 1440;
  }

  /** The first day from `first` on that is named. */
  lemma NamedDay(wd: int, first: int)
    requires 0 <= wd < 7
    ensures WeekdayOf(first + (wd - WeekdayOf(first)) % 7) == wd
  {
    var x := WeekdayOf(first);
    var (p, gap) := ((first + 6) / 7, (wd - x) % 7);
    assert gap == if wd >= x then wd - x else wd - x + 7;
    assert first + 6 == 7 * p + x;
    assert first + gap + 6 == 7 * (if wd >= x then p else p + 1) + wd;
  }

  lemma DayEnds(n: int, day: int, h: int, m: int)
    requires DayOf(n) < day && 0 <= h && 0 <= m
    ensures n < At(day, h, m)
  {
  }

  lemma WeeklyMatches(wd: int, h: int, m: int, last: int)
    requires Weekly(wd, h, m).Valid()
    ensures last < NextMinute(Weekly(wd, h, m), last)
    ensures OnMinute(Weekly(wd, h, m), NextMinute(Weekly(wd, h, m), last))
  {
    var day := DayOf(last + 1);
    var first := if last < At(day, h, m) then day else day + 1;
    var goal := first + (wd - WeekdayOf(first)) % 7;
    NamedDay(wd, first);
    AtReadsBack(goal, h, m);
    if goal > day { DayEnds(last + 1, goal, h, m); }
  }

  lemma OnDate(mi: int, md: int, h: int, m: int)
    requires Monthly(md, h, m).Valid()
    ensures OnMinute(Monthly(md, h, m), At(DateOf(mi, md), h, m))
  {
    DateReadsBack(mi, md);
    AtReadsBack(DateOf(mi, md), h, m);
  }

  lemma NextMonthIsLater(mi: int, md: int, h: int, m: int, last: int)
    requires Monthly(md, h, m).Valid() && mi == MonthOf(DayOf(last + 1))
    ensures last < At(DateOf(mi + 1, md), h, m)
  {
    assert DayOf(last + 1) < DateOf(mi + 1, md);
    DayEnds(last + 1, DateOf(mi + 1, md), h, m);
  }

  /** The minute of this month, or that of the next. */
  lemma MonthlyIs(mi: int, md: int, h: int, m: int, last: int)
    requires Monthly(md, h, m).Valid() && mi == MonthOf(DayOf(last + 1))
    ensures NextMinute(Monthly(md, h, m), last) ==
            if last < At(DateOf(mi, md), h, m) then At(DateOf(mi, md), h, m) else At(DateOf(mi + 1, md), h, m)
  {
  }

  lemma FirstOrSecond(s: Schedule, next: int, last: int, x: int, y: int)
    requires next == (if last < x then x else y) && OnMinute(s, x) && OnMinute(s, y) && last < y
    ensures last < next && OnMinute(s, next)
  {
  }

  lemma MonthlyMatches(md: int, h: int, m: int, last: int)
    requires Monthly(md, h, m).Valid()
    ensures last < NextMinute(Monthly(md, h, m), last)
    ensures OnMinute(Monthly(md, h, m), NextMinute(Monthly(md, h, m), last))
  {
    var mi := MonthOf(DayOf(last + 1));
    MonthlyIs(mi, md, h, m, last);
    OnDate(mi, md, h, m);
    OnDate(mi + 1, md, h, m);
    NextMonthIsLater(mi, md, h, m, last);
    FirstOrSecond(Monthly(md, h, m), NextMinute(Monthly(md, h, m), last), last,
                  At(DateOf(mi, md), h, m), At(DateOf(mi + 1, md), h, m));
  }

  /** It skips no minute of the schedule. */
  lemma NextMinuteLeast(s: Schedule, last: int, u: int)
    requires s.Valid() && OnMinute(s, u) && last < u
    ensures NextMinute(s, last) <= u
  {
    match s
    case Hourly(m) =>
      assert (last + 1) / 60 <= u / 60;
    case Daily(h, m) => AtFields(u);
    case Weekly(wd, h, m) => WeeklyLeast(wd, h, m, last, u);
    case Monthly(md, h, m) => MonthlyLeast(md, h, m, last, u);
  }

  lemma WeeklyLeast(wd: int, h: int, m: int, last: int, u: int)
    requires Weekly(wd, h, m).Valid() && OnMinute(Weekly(wd, h, m), u) && last < u
    ensures NextMinute(Weekly(wd, h, m), last) <= u
  {
    AtFields(u);
    DaysGrow(last + 1, u);
    var day := DayOf(last + 1);
    var first := if last < At(day, h, m) then day else day + 1;
    WeekdayGap(first, DayOf(u));
  }

  lemma DaysGrow(a: int, b: int)
    requires a <= b
    ensures DayOf(a) <= DayOf(b)
  {
  }

  /** From one day to a later one it is at least as far as from weekday to weekday. */
  lemma WeekdayGap(a: int, b: int)
    requires a <= b
    ensures (WeekdayOf(b) - WeekdayOf(a)) % 7 <= b - a
  {
    var (x, y) := (WeekdayOf(a), WeekdayOf(b));
    var (p, q) := ((a + 6) / 7, (b + 6) / 7);
    assert a + 6 == 7 * p + x && b + 6 == 7 * q + y;
    assert (y - x) % 7 == if y >= x then y - x else y - x + 7;
  }

  /** A minute of the schedule lies on its date. */
  lemma MonthlyFields(md: int, h: int, m: int, u: int)
    requires OnMinute(Monthly(md, h, m), u)
    ensures u == At(DateOf(MonthOf(DayOf(u)), md), h, m)
  {
    AtFields(u);
  }

  lemma DatesGrow(a: int, b: int, md: int, h: int, m: int)
    requires a <= b
    ensures At(DateOf(a, md), h, m) <= At(DateOf(b, md), h, m)
  {
    if a < b { MonthsIncrease(a, b); }
  }

  /** It is this month's minute, or not before next month's. */
  lemma ThisMonthOrLater(mi: int, md: int, h: int, m: int, last: int, u: int)
    requires OnMinute(Monthly(md, h, m), u) && last < u && mi == MonthOf(DayOf(last + 1))
    ensures u == At(DateOf(mi, md), h, m) || (At(DateOf(mi, md), h, m) <= u && At(DateOf(mi + 1, md), h, m) <= u)
  {
    var mu := MonthOf(DayOf(u));
    MonthlyFields(md, h, m, u);
    DaysGrow(last + 1, u);
    MonthOfMonotone(DayOf(last + 1), DayOf(u));
    if mi < mu {
      DatesGrow(mi, mu, md, h, m);
      DatesGrow(mi + 1, mu, md, h, m);
    }
  }

  lemma MonthlyLeast(md: int, h: int, m: int, last: int, u: int)
    requires Monthly(md, h, m).Valid() && OnMinute(Monthly(md, h, m), u) && last < u
    ensures NextMinute(Monthly(md, h, m), last) <= u
  {
    var mi := MonthOf(DayOf(last + 1));
    MonthlyIs(mi, md, h, m, last);
    ThisMonthOrLater(mi, md, h, m, last, u);
  }

  function NextInstant(s: Schedule, after: int): int
    requires s.Valid()
  {
    NextMinute(s, after / MINUTE) * MINUTE
  }

  /** On every valid schedule and every instant it is the least instant that follows. */
  lemma NextIsLeast(s: Schedule, after: int)
    requires s.Valid()
    ensures after < NextInstant(s, after) && Matches(s, NextInstant(s, after))
    ensures forall u :: after < u && Matches(s, u) ==> NextInstant(s, after) <= u
  {
    var n := NextMinute(s, after / MINUTE);
    NextMinuteMatches(s, after / MINUTE);
    MinuteAfter(n, after);
    WholeMinute(n);
    forall u | after < u && Matches(s, u) ensures n * MINUTE <= u {
      MinuteAfter(u / MINUTE, after);
      NextMinuteLeast(s, after / MINUTE, u / MINUTE);
      WholeMinute(u / MINUTE);
    }
  }

  /**
   Schedule.Next. The candidate `c`, a minute, is built on the day of the minute after
   `after` and moved on; the weekly search moves it a day at a time, at most seven times.
   */
  method Next(s: Schedule, after: int) returns (next: int, steps: nat)
    requires s.Valid()
    ensures after < next && Matches(s, next)
    ensures forall u :: after < u && Matches(s, u) ==> next <= u
    ensures next == NextInstant(s, after)
    ensures steps <= 7
  {
    var last := after / MINUTE;
    var c: int;
    steps := 0;
    match s {
      case Hourly(m) => c := NextHourly(m, after, last + 1);
      case Daily(h, m) => c := NextDaily(h, m, after, last + 1);
      case Weekly(wd, h, m) => c, steps := SearchWeek(wd, h, m, last);
      case Monthly(md, h, m) => c := NextMonthly(md, h, m, after, last + 1);
    }
    next := c * MINUTE;
    NextIsLeast(s, after);
  }

  /** The hourly case; `t` is the minute after `after`. */
  method NextHourly(m: int, after: int, t: int) returns (c: int)
    requires Hourly(m).Valid() && t == after / MINUTE + 1
    ensures c == NextMinute(Hourly(m), t - 1)
  {
    c := t / 60 * 60 + m;
    MinuteAfter(c, after);
    if c * MINUTE <= after { c := c + 60; }
  }

  method NextDaily(h: int, m: int, after: int, t: int) returns (c: int)
    requires Daily(h, m).Valid() && t == after / MINUTE + 1
    ensures c == NextMinute(Daily(h, m), t - 1)
  {
    c := At(DayOf(t), h, m);
    MinuteAfter(c, after);
    if c * MINUTE <= after { c := c + 1440; }
  }

  method NextMonthly(md: int, h: int, m: int, after: int, t: int) returns (c: int)
    requires Monthly(md, h, m).Valid() && t == after / MINUTE + 1
    ensures c == NextMinute(Monthly(md, h, m), t - 1)
  {
    var mi := MonthOf(DayOf(t));
    c := At(DateOf(mi, md), h, m);
    MinuteAfter(c, after);
    if c * MINUTE <= after { c := At(DateOf(mi + 1, md), h, m); }
  }

  /** The weekly answer falls on the first named day, at most seven days on, whose time is still to come. */
  lemma WeeklyGoal(wd: int, h: int, m: int, last: int) returns (goal: int)
    requires Weekly(wd, h, m).Valid()
    ensures NextMinute(Weekly(wd, h, m), last) == At(goal, h, m) && last < At(goal, h, m) && WeekdayOf(goal) == wd
    ensures DayOf(last + 1) <= goal <= DayOf(last + 1) + 7
    ensures forall d :: d < goal ==> At(d, h, m) <= last || WeekdayOf(d) != wd
  {
    var s := Weekly(wd, h, m);
    var c := NextMinute(s, last);
    WeeklyMatches(wd, h, m, last);
    AtFields(c);
    goal := DayOf(c);
    forall d | d < goal && last < At(d, h, m) ensures WeekdayOf(d) != wd {
      AtReadsBack(d, h, m);
      if WeekdayOf(d) == wd { WeeklyLeast(wd, h, m, last, At(d, h, m)); }
    }
  }

  /** The day-by-day search of the weekly case, after the minute `last`. */
  method SearchWeek(wd: int, h: int, m: int, last: int) returns (c: int, steps: nat)
    requires Weekly(wd, h, m).Valid()
    ensures c == NextMinute(Weekly(wd, h, m), last) && steps <= 7
  {
    ghost var goal := WeeklyGoal(wd, h, m, last);
    var day := DayOf(last + 1);
    c, steps := At(day, h, m), 0;
    AtReadsBack(day, h, m);
    while c <= last || WeekdayOf(DayOf(c)) != wd
      invariant c == At(day + steps, h, m) && DayOf(c) == day + steps <= goal
      decreases goal - DayOf(c)
    {
      c := c + 1440;
      steps := steps + 1;
      AtReadsBack(day + steps, h, m);
    }
  }

  /** The k-th instant that repeated use of Next yields after `from`, from k = 0. */
  function Nth(s: Schedule, from: int, k: nat): (t: int)
    requires s.Valid()
  {
    NextInstant(s, if k == 0 then from else Nth(s, from, k - 1))
  }

  lemma {:induction false} NthGrows(s: Schedule, from: int, k: nat)
    requires s.Valid()
    ensures from < Nth(s, from, k) && Matches(s, Nth(s, from, k))
  {
    if k == 0 {
    } else {
      NthGrows(s, from, k - 1);
    }
    NextIsLeast(s, if k == 0 then from else Nth(s, from, k - 1));
  }

  /** Iterating Next enumerates exactly the later instants of the schedule. */
  lemma NextEnumerates(s: Schedule, from: int, t: int)
    requires s.Valid()
    ensures from < t && Matches(s, t) <==> exists k: nat :: Nth(s, from, k) == t
  {
    forall k: nat ensures from < Nth(s, from, k) && Matches(s, Nth(s, from, k)) {
      NthGrows(s, from, k);
    }
    if from < t && Matches(s, t) {
      var k := FindNth(s, from, t, 0);
    }
  }

  lemma {:induction false} FindNth(s: Schedule, from: int, t: int, k: nat) returns (n: nat)
    requires s.Valid() && from < t && Matches(s, t)
    requires k > 0 ==> Nth(s, from, k - 1) < t
    ensures Nth(s, from, n) == t
    decreases t - (if k == 0 then from else Nth(s, from, k - 1))
  {
    NextIsLeast(s, if k == 0 then from else Nth(s, from, k - 1));
    if Nth(s, from, k) == t {
      n := k;
    } else {
      n := FindNth(s, from, t, k + 1);
    }
  }

  // ---- retention ----

  const TWO64: int := 0x1_0000_0000_0000_0000

  /** Go's int64 arithmetic: the representative of x modulo 2^64 in the signed range. */
  function Wrap64(x: int): (r: int)
    ensures -MAX_INT64 - 1 <= r <= MAX_INT64
  {
    (x + MAX_INT64 + 1) % TWO64 - MAX_INT64 - 1
  }

  function DaysPerUnit(unit: char): int {
    if unit == 'd' then 1 else if unit == 'm' then 30 else if unit == 'y' then 365 else 0
  }

  /** '7d', '1m', '1y' as a time.Duration in nanoseconds, wrapping as int64 does. */
  function ParseRetention(s: string): Result<int> {
    if s == "" then Err else
    match Atoi(s[..|s| - 1])
    case None => Err
    case Some(n) =>
      var days := DaysPerUnit(s[|s| - 1]);
      if n <= 0 || days == 0 then Err
      else Ok(Wrap64(Wrap64(Wrap64(n * days) * 24) * (3600 * SECOND)))
  }

  /** The retention is the written span exactly when that span fits a Duration (106751 days). */
  lemma RetentionExact(s: string, n: int)
    requires s != "" && Atoi(s[..|s| - 1]) == Some(n) && n > 0 && s[|s| - 1] in {'d', 'm', 'y'}
    ensures var days := n * match s[|s| - 1] case 'd' => 1 case 'm' => 30 case _ => 365;
            ParseRetention(s) == Ok(days * 86_400_000_000_000) <==> days <= 106751
  {
    var d := n * DaysPerUnit(s[|s| - 1]);
    DurationOfDays(d);
    assert ParseRetention(s) == Ok(Wrap64(Wrap64(Wrap64(d) * 24) * (3600 * SECOND)));
  }

  /** A retention of a day more is negative, so that its cutoff lies in the future. */
  lemma LongRetentionIsNegative()
    ensures ParseRetention(Dec(106752) + "d") == Ok(-9_223_371_273_709_551_616)
  {
    var s := Dec(106752) + "d";
    assert s[..|s| - 1] == Dec(106752) && s[|s| - 1] == 'd';
    AtoiDigits(Dec(106752));
    DayTooMany(s);
  }

  lemma DayTooMany(s: string)
    requires s != "" && Atoi(s[..|s| - 1]) == Some(106752) && s[|s| - 1] == 'd'
    ensures ParseRetention(s) == Ok(-9_223_371_273_709_551_616)
  {
    SmallWraps(106752);
    SmallWraps(106752 * 24);
  }

  /** A retention is a positive number and one of three units. */
  lemma RetentionAccepted(s: string)
    ensures ParseRetention(s).Ok? <==>
              && s != "" && s[|s| - 1] in {'d', 'm', 'y'}
              && Atoi(s[..|s| - 1]).Some? && Atoi(s[..|s| - 1]).value > 0
  {
  }

  lemma DurationOfDays(d: int)
    requires d > 0
    ensures Wrap64(Wrap64(Wrap64(d) * 24) * (3600 * SECOND)) == d * 86400 * SECOND <==> d <= 106751
  {
    if d <= 106751 {
      SmallWraps(d);
      SmallWraps(d * 24);
      SmallWraps(d * 24 * (3600 * SECOND));
    }
  }

  lemma SmallWraps(x: int)
    requires 0 <= x <= MAX_INT64
    ensures Wrap64(x) == x
  {
  }
}
