/**
 What the two system timer languages mean, for expressions made of wildcards and plain
 numbers: the crontab fields of IEEE Std 1003.1 (crontab utility, INPUT FILES), with the
 common nicknames and 7 = Sunday, and the CALENDAR EVENTS of systemd.time(7). None
 stands for an expression that is malformed or outside this fragment.
 */
module TimerSyntax {
  import opened Calendar
  import opened Text
  import opened Schedules
  import SysSched

  datatype Field = Any | Is(n: nat) {
    predicate Admits(x: int) { this.Any? || x == n }
  }

  function FieldOf(s: string, lo: nat, hi: nat): (f: Option<Field>)
  {
    if s == "*" then Some(Any)
    else if IsNum(s) && lo <= Value(s) <= hi then Some(Is(Value(s)))
    else None
  }

  // ---- crontab ----

  datatype Cron = Cron(minute: Field, hour: Field, dom: Field, month: Field, dow: Field)

  predicate IsBlank(c: char) { c == ' ' || c == '\t' }

  function CronOf(raw: string): Option<Cron> {
    var f := Tokens(IsBlank, raw);
    if |f| == 1 then NicknameOf(f[0])
    else if |f| == 5 then CronFieldsOf(f[0], f[1], f[2], f[3], f[4])
    else None
  }

  function NicknameOf(w: string): Option<Cron> {
    if w == "@hourly" then Some(Cron(Is(0), Any, Any, Any, Any))
    else if w == "@daily" || w == "@midnight" then Some(Cron(Is(0), Is(0), Any, Any, Any))
    else if w == "@weekly" then Some(Cron(Is(0), Is(0), Any, Any, Is(0)))
    else if w == "@monthly" then Some(Cron(Is(0), Is(0), Is(1), Any, Any))
    else None
  }

  function CronFieldsOf(min: string, hour: string, dom: string, month: string, dow: string): Option<Cron> {
    match (FieldOf(min, 0, 59), FieldOf(hour, 0, 23), FieldOf(dom, 1, 31), FieldOf(month, 1, 12),
           FieldOf(dow, 0, 7))
    case (Some(m), Some(h), Some(d), Some(mo), Some(w)) =>
      Some(Cron(m, h, d, mo, if w == Is(7) then Is(0) else w))
    case _ => None
  }

  /** The day rule: a restricted weekday is an alternative to a restricted month or month day. */
  predicate CronDay(c: Cron, day: int) {
    var date := c.dom.Admits(DayOfMonth(day)) && c.month.Admits(MonthOf(day) % 12 + 1);
    if c.dow.Any? then date
    else if c.dom.Any? && c.month.Any? then c.dow.Admits(WeekdayOf(day))
    else date || c.dow.Admits(WeekdayOf(day))
  }

  predicate CronMatches(c: Cron, t: int) {
    var n := t / MINUTE;
    t % MINUTE == 0 && c.minute.Admits(MinuteOf(n)) && c.hour.Admits(HourOf(n)) && CronDay(c, DayOf(n))
  }

  // ---- OnCalendar ----

  datatype OnCal = OnCal(dow: Option<int>, dom: Field, hour: Field, minute: Field, second: nat)

  predicate IsBlankSpace(c: char) { c == ' ' }

  function OnCalOf(raw: string): Option<OnCal> {
    EventWords(Tokens(IsBlankSpace, raw))
  }

  function EventWords(f: seq<string>): Option<OnCal> {
    if |f| == 1 then EventOf(SysSched.Lower(f[0]))
    else if |f| == 2 then DatedOf(None, SplitOn('-', f[0]), SplitOn(':', f[1]))
    else if |f| == 3 && WeekdayNamed(SysSched.Lower(f[0])).Some? then
      DatedOf(WeekdayNamed(SysSched.Lower(f[0])), SplitOn('-', f[1]), SplitOn(':', f[2]))
    else None
  }

  function EventOf(w: string): Option<OnCal> {
    if w == "hourly" then Some(OnCal(None, Any, Any, Is(0), 0))
    else if w == "daily" then Some(OnCal(None, Any, Is(0), Is(0), 0))
    else if w == "weekly" then Some(OnCal(Some(1), Any, Is(0), Is(0), 0))
    else if w == "monthly" then Some(OnCal(None, Is(1), Is(0), Is(0), 0))
    else None
  }

  function DatedOf(dow: Option<int>, date: seq<string>, clock: seq<string>): Option<OnCal> {
    if !(|date| == 3 && date[0] == "*" && date[1] == "*" && 2 <= |clock| <= 3) then None else
    match (FieldOf(date[2], 1, 31), FieldOf(clock[0], 0, 23), FieldOf(clock[1], 0, 59),
           if |clock| == 3 then FieldOf(clock[2], 0, 59) else Some(Is(0)))
    case (Some(dom), Some(h), Some(m), Some(Is(s))) => Some(OnCal(dow, dom, h, m, s))
    case _ => None
  }

  predicate OnCalMatches(c: OnCal, t: int) {
    var n := t / MINUTE;
    && t % SECOND == 0 && t % MINUTE / SECOND == c.second
    && c.minute.Admits(MinuteOf(n)) && c.hour.Admits(HourOf(n)) && c.dom.Admits(DayOfMonth(DayOf(n)))
    && (c.dow.Some? ==> WeekdayOf(DayOf(n)) == c.dow.value)
  }
}
