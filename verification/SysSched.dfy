/**
 The system task editor (web/src/ui/syssched.ts): presets printed as five-field cron
 and as systemd OnCalendar, and both read back. None stands for null: the expression
 is left to the advanced editor.
 */
module SysSched {
  import opened Text
  import opened Schedules
  import opened Presets

  /** A JavaScript number in a template string. */
  function Print(n: int): string {
    if n < 0 then "-" + Dec(-n) else Dec(n)
  }

  function ParseClock(time: string): (int, int) {
    var parts := SplitOn(':', time);
    (OrZero(ParseInt(parts[0])), if |parts| > 1 then OrZero(ParseInt(parts[1])) else 0)
  }

  function OrZero(n: Option<int>): int {
    if n.Some? then n.value else 0
  }

  function ClampMinute(s: string): (m: nat)
    ensures m <= 59
  {
    var m := OrZero(ParseInt(s));
    if m < 0 then 0 else if m > 59 then 59 else m
  }

  /** Five fields with a space between. */
  function BuildCron(p: Preset): string {
    Join(' ', CronParts(p))
  }

  function CronParts(p: Preset): seq<string> {
    var (h, m) := ParseClock(p.time);
    match p.freq
    case EveryHour => [Print(ClampMinute(p.minute)), "*", "*", "*", "*"]
    case EveryDay => [Print(m), Print(h), "*", "*", "*"]
    case EveryWeek => [Print(m), Print(h), "*", "*", Print(p.weekday)]
    case EveryMonth => [Print(m), Print(h), Print(p.monthday), "*", "*"]
  }

  const CALENDAR_NAMES := ["Sun", "Mon", "Tue", "Wed", "Thu", "Fri", "Sat"]

  /** An optional weekday, a date '*-*-D' and a clock 'H:M:00' with a space between. */
  function BuildOnCalendar(p: Preset): string {
    var parts := [Join('-', CalendarDate(p)), Join(':', CalendarClock(p))];
    Join(' ', if p.freq.EveryWeek? then [CALENDAR_NAMES[p.weekday]] + parts else parts)
  }

  function CalendarDate(p: Preset): seq<string> {
    ["*", "*", if p.freq.EveryMonth? then PadStart2(Print(p.monthday)) else "*"]
  }

  function CalendarClock(p: Preset): seq<string> {
    var (h, m) := ParseClock(p.time);
    if p.freq.EveryHour? then ["*", PadStart2(Print(ClampMinute(p.minute))), "00"]
    else [PadStart2(Print(h)), PadStart2(Print(m)), "00"]
  }

  function ClockText(h: nat, m: nat): string {
    Pad2(h) + ":" + Pad2(m)
  }

  predicate IsNumUpTo(s: string, max: nat) {
    IsNum(s) && Value(s) <= max
  }

  function ParseCron(raw: string): Option<Preset> {
    var f := Tokens(IsSpace, raw);
    if |f| == 1 then CronNickname(f[0])
    else if |f| == 5 && !("@" <= f[0]) then CronPreset(f[0], f[1], f[2], f[3], f[4])
    else None
  }

  function CronNickname(w: string): Option<Preset> {
    if w == "@hourly" then Some(DEFAULT.(freq := EveryHour, minute := "00"))
    else if w == "@daily" || w == "@midnight" then Some(DEFAULT.(freq := EveryDay, time := "00:00"))
    else if w == "@weekly" then Some(DEFAULT.(freq := EveryWeek, weekday := 0, time := "00:00"))
    else if w == "@monthly" then Some(DEFAULT.(freq := EveryMonth, monthday := 1, time := "00:00"))
    else None
  }

  function CronPreset(min: string, hour: string, dom: string, mon: string, dow: string): Option<Preset> {
    var okHM := IsNumUpTo(hour, 23) && IsNumUpTo(min, 59);
    if mon != "*" then None
    else if dom == "*" && dow == "*" then
      if hour == "*" && IsNumUpTo(min, 59) then Some(DEFAULT.(freq := EveryHour, minute := Pad2(Value(min))))
      else if okHM then Some(DEFAULT.(freq := EveryDay, time := ClockText(Value(hour), Value(min))))
      else None
    else if dom == "*" && okHM && IsNum(dow) then
      Some(DEFAULT.(freq := EveryWeek, weekday := Value(dow) % 7, time := ClockText(Value(hour), Value(min))))
    else if dow == "*" && okHM && IsNumUpTo(dom, 28) && Value(dom) >= 1 then
      Some(DEFAULT.(freq := EveryMonth, monthday := Value(dom), time := ClockText(Value(hour), Value(min))))
    else None
  }

  function Lower(s: string): string {
    if s == "" then ""
    else [if 'A' <= s[0] <= 'Z' then (s[0] as int + 32) as char else s[0]] + Lower(s[1..])
  }

  /** \d{1,2} */
  predicate IsShortNum(s: string) {
    IsNum(s) && |s| <= 2
  }

  /** The [Dow] date clock form; `dow` is lower case, "" when absent. */
  function ParseDated(dow: string, date: seq<string>, clock: seq<string>): Option<Preset> {
    if !(|date| == 3 && date[0] == "*" && date[1] == "*" && (date[2] == "*" || IsShortNum(date[2]))) then None
    else if !(2 <= |clock| <= 3 && IsShortNum(clock[0]) && IsNum(clock[1]) && |clock[1]| == 2
              && (|clock| == 3 ==> IsShortNum(clock[2]))) then None
    else if Value(clock[0]) > 23 || Value(clock[1]) > 59 then None
    else
      var time := ClockText(Value(clock[0]), Value(clock[1]));
      var wd := WeekdayNamed(dow);
      if date[2] == "*" then
        if wd.Some? then Some(DEFAULT.(freq := EveryWeek, weekday := wd.value, time := time))
        else Some(DEFAULT.(freq := EveryDay, time := time))
      else if wd.None? && 1 <= Value(date[2]) <= 28 then
        Some(DEFAULT.(freq := EveryMonth, monthday := Value(date[2]), time := time))
      else None
  }

  function ParseOnCalendar(raw: string): Option<Preset> {
    CalendarWords(Tokens(IsSpace, raw))
  }

  function CalendarWords(f: seq<string>): Option<Preset> {
    if |f| == 1 then CalendarNickname(Lower(f[0]))
    else if |f| == 2 then CalendarPreset("", SplitOn('-', f[0]), SplitOn(':', f[1]))
    else if |f| == 3 && Lower(f[0]) in WEEKDAY_NAMES then
      ParseDated(Lower(f[0]), SplitOn('-', f[1]), SplitOn(':', f[2]))
    else None
  }

  function CalendarNickname(w: string): Option<Preset> {
    if w == "hourly" then Some(DEFAULT.(freq := EveryHour, minute := "00"))
    else if w == "daily" then Some(DEFAULT.(freq := EveryDay, time := "00:00"))
    else if w == "weekly" then Some(DEFAULT.(freq := EveryWeek, weekday := 1, time := "00:00"))
    else if w == "monthly" then Some(DEFAULT.(freq := EveryMonth, monthday := 1, time := "00:00"))
    else None
  }

  /** A date and a clock without a weekday: '*-*-* *:MM[:SS]' first, the dated form otherwise. */
  function CalendarPreset(dow: string, date: seq<string>, clock: seq<string>): Option<Preset> {
    if date == ["*", "*", "*"] && 2 <= |clock| <= 3 && clock[0] == "*" && IsShortNum(clock[1])
       && (|clock| == 3 ==> IsShortNum(clock[2])) && Value(clock[1]) <= 59
    then Some(DEFAULT.(freq := EveryHour, minute := Pad2(Value(clock[1]))))
    else ParseDated(dow, date, clock)
  }
}
