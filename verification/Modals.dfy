/**
 The daemon task editor's half of the schedule language: buildSchedule and parseSchedule
 of web/src/components/Modals.tsx.
 */
module Modals {
  import opened Text
  import opened Schedules
  import opened Presets

  function BuildSchedule(p: Preset): string {
    match p.freq
    case EveryHour => "hourly@:" + PadStart2(p.minute)
    case EveryDay => "daily@" + p.time
    case EveryWeek => "weekly:" + WEEKDAY_NAMES[p.weekday] + "@" + p.time
    case EveryMonth => "monthly:" + (if p.monthday < 0 then "-" + Dec(-p.monthday) else Dec(p.monthday)) + "@" + p.time
  }

  predicate IsWordChar(c: char) {
    IsDigit(c) || 'a' <= c <= 'z' || 'A' <= c <= 'Z' || c == '_'
  }

  /** What /(.+)$/ can match: no line terminator, not empty. */
  predicate IsLine(s: string) {
    s != "" && forall c | c in s :: c !in {'\n', '\r', '\U{2028}', '\U{2029}'}
  }

  function OrElse(s: string, default: string): string {
    if s == "" then default else s
  }

  function ParseSchedule(sc: string): Preset {
    if "hourly@:" <= sc then DEFAULT.(freq := EveryHour, minute := OrElse(sc[8..], "00"))
    else if "daily@" <= sc then DEFAULT.(freq := EveryDay, time := OrElse(sc[6..], "06:00"))
    else ParseDated(Cut(sc, '@'))
  }

  /** The two patterns with a day before the '@'. */
  function ParseDated(at: CutResult): Preset {
    if "weekly:" <= at.before && |at.before| > 7 && (forall c | c in at.before[7..] :: IsWordChar(c))
       && at.found && IsLine(at.after) then
      var wd := WeekdayNamed(at.before[7..]);
      DEFAULT.(freq := EveryWeek, weekday := if wd.Some? then wd.value else 0, time := at.after)
    else if "monthly:" <= at.before && IsNum(at.before[8..]) && at.found && IsLine(at.after) then
      var d := Value(at.before[8..]);
      DEFAULT.(freq := EveryMonth, monthday := if d == 0 then 1 else d, time := at.after)
    else DEFAULT
  }
}
