/**
 One schedule, three languages: what the editors print means the same to the daemon, to
 cron and to systemd; what they print they read back; and an expression they accept can
 be rebuilt without changing what it means.
 */
module BackEnds {
  import opened Calendar
  import opened Text
  import opened Schedules
  import opened Presets
  import opened TimerSyntax
  import SysSched
  import Modals

  // ---- shared facts about the clock texts ----

  lemma TimeReads(time: string)
    requires IsTimeText(time)
    ensures SysSched.ParseClock(time) == (Value(time[..2]), Value(time[3..]))
    ensures time == SysSched.ClockText(Value(time[..2]), Value(time[3..]))
  {
    TimeSplit(time);
    ParseIntDigits(time[..2]);
    ParseIntDigits(time[3..]);
  }

  lemma MinuteReads(s: string)
    requires IsMinuteText(s)
    ensures SysSched.ClampMinute(s) == Value(s) && Pad2(Value(s)) == s
  {
    ParseIntDigits(s);
    TwoDigits(s);
  }

  lemma ClockTextIsTime(h: nat, m: nat)
    requires h <= 23 && m <= 59
    ensures var time := SysSched.ClockText(h, m);
            IsTimeText(time) && Value(time[..2]) == h && Value(time[3..]) == m
  {
    var time := SysSched.ClockText(h, m);
    assert time[..2] == Pad2(h) && time[3..] == Pad2(m);
  }

  // ---- the daemon's own language ----

  lemma DaemonReadsTime(time: string)
    requires IsTimeText(time)
    ensures ParseHM(time) == Ok((Value(time[..2]), Value(time[3..])))
  {
    TimeSplit(time);
    CutAt(time[..2], ':', time[3..]);
    AtoiDigits(time[..2]);
    AtoiDigits(time[3..]);
  }

  lemma DaemonReadsHourly(minute: string)
    requires IsMinuteText(minute)
    ensures ParseSchedule("hourly@:" + minute) == Ok(Hourly(Value(minute)))
  {
    var hm := ":" + minute;
    assert "hourly@:" + minute == "hourly" + ['@'] + hm && hm[1..] == minute;
    CutAt("hourly", '@', hm);
    CutNone("hourly", ':');
    AtoiDigits(minute);
  }

  lemma DaemonReadsDaily(time: string)
    requires IsTimeText(time)
    ensures ParseSchedule("daily@" + time) == Ok(Daily(Value(time[..2]), Value(time[3..])))
  {
    DailyCut(time);
    DaemonReadsTime(time);
    DaemonSplitsDaily("daily@" + time, Cut("daily@" + time, '@'), Cut("daily", ':'), time);
  }

  lemma DailyCut(time: string)
    ensures Cut("daily@" + time, '@') == CutResult("daily", time, true)
    ensures Cut("daily", ':') == CutResult("daily", "", false)
  {
    assert "daily@" + time == "daily" + ['@'] + time;
    CutBare("daily@" + time, "daily", time);
  }

  /** The two cuts of 'kind@time'. */
  lemma CutBare(raw: string, kind: string, time: string)
    requires raw == kind + ['@'] + time && '@' !in kind && ':' !in kind
    ensures Cut(raw, '@') == CutResult(kind, time, true) && Cut(kind, ':') == CutResult(kind, "", false)
  {
    CutAt(kind, '@', time);
    CutNone(kind, ':');
  }

  lemma DaemonSplitsDaily(raw: string, at: CutResult, body: CutResult, time: string)
    requires at == Cut(raw, '@') && at.found && at.after == time && body == Cut(at.before, ':')
    requires body.before == "daily" && ParseHM(time).Ok?
    ensures ParseSchedule(raw) == Ok(Daily(ParseHM(time).value.0, ParseHM(time).value.1))
  {
    assert ParseSchedule(raw) == ParseParts(body.before, body.after, time);
  }

  /** The two cuts of 'kind:arg@time', whose `head` is 'kind:'. */
  lemma CutKind(head: string, kind: string, arg: string, time: string)
    requires head == kind + [':'] && '@' !in head && ':' !in kind && '@' !in arg
    ensures Cut(head + arg + "@" + time, '@') == CutResult(head + arg, time, true)
    ensures Cut(head + arg, ':') == CutResult(kind, arg, true)
    ensures head <= head + arg && (head + arg)[|head|..] == arg
  {
    CutAt(head + arg, '@', time);
    CutAt(kind, ':', arg);
  }

  lemma NameReads(wd: Weekday)
    ensures WeekdayNamed(WEEKDAY_NAMES[wd]) == Some(wd) && '@' !in WEEKDAY_NAMES[wd]
    ensures WEEKDAY_NAMES[wd] != "" && forall c | c in WEEKDAY_NAMES[wd] :: Modals.IsWordChar(c)
  {
  }

  lemma NumberReads(n: nat)
    requires n <= 28
    ensures Atoi(Dec(n)) == Some(n) && '@' !in Dec(n)
  {
    AtoiDigits(Dec(n));
    assert !IsDigit('@');
  }

  lemma TimeIsLine(time: string)
    requires IsTimeText(time)
    ensures Modals.IsLine(time)
  {
    TimeSplit(time);
    assert forall c | c in time :: IsDigit(c) || c == ':';
  }

  lemma DaemonReadsWeekly(wd: int, name: string, time: string)
    requires WeekdayNamed(name) == Some(wd) && '@' !in name && IsTimeText(time)
    ensures ParseSchedule("weekly:" + name + "@" + time) == Ok(Weekly(wd, Value(time[..2]), Value(time[3..])))
  {
    DaemonReadsTime(time);
    CutKind("weekly:", "weekly", name, time);
    WeeklyReads("weekly:" + name + "@" + time, "weekly:" + name, name, time, wd);
  }

  lemma WeeklyReads(raw: string, before: string, name: string, time: string, wd: int)
    requires Cut(raw, '@') == CutResult(before, time, true) && Cut(before, ':') == CutResult("weekly", name, true)
    requires WeekdayNamed(name) == Some(wd) && ParseHM(time).Ok?
    ensures ParseSchedule(raw) == Ok(Weekly(wd, ParseHM(time).value.0, ParseHM(time).value.1))
  {
  }

  lemma DaemonReadsMonthly(md: nat, time: string)
    requires 1 <= md <= 28 && IsTimeText(time)
    ensures ParseSchedule("monthly:" + Dec(md) + "@" + time)
         == Ok(Monthly(md, Value(time[..2]), Value(time[3..])))
  {
    DaemonReadsTime(time);
    NumberReads(md);
    CutKind("monthly:", "monthly", Dec(md), time);
    MonthlyReads("monthly:" + Dec(md) + "@" + time, "monthly:" + Dec(md), Dec(md), time, md);
  }

  lemma MonthlyReads(raw: string, before: string, number: string, time: string, md: int)
    requires Cut(raw, '@') == CutResult(before, time, true) && Cut(before, ':') == CutResult("monthly", number, true)
    requires Atoi(number) == Some(md) && 1 <= md <= 28 && ParseHM(time).Ok?
    ensures ParseSchedule(raw) == Ok(Monthly(md, ParseHM(time).value.0, ParseHM(time).value.1))
  {
  }

  /** The daemon parses what its editor prints, and gets the meaning shown in the editor. */
  lemma DaemonReadsEditor(p: Preset)
    requires Valid(p)
    ensures ParseSchedule(Modals.BuildSchedule(p)) == Ok(Meaning(p))
  {
    match p.freq
    case EveryHour => DaemonReadsHourly(p.minute);
    case EveryDay => DaemonReadsDaily(p.time);
    case EveryWeek =>
      NameReads(p.weekday);
      DaemonReadsWeekly(p.weekday, WEEKDAY_NAMES[p.weekday], p.time);
    case EveryMonth => DaemonReadsMonthly(p.monthday, p.time);
  }

  lemma EditorReadsWeekly(wd: Weekday, time: string)
    requires IsTimeText(time)
    ensures Modals.ParseSchedule("weekly:" + WEEKDAY_NAMES[wd] + "@" + time)
         == DEFAULT.(freq := EveryWeek, weekday := wd, time := time)
  {
    NameReads(wd);
    TimeIsLine(time);
    CutKind("weekly:", "weekly", WEEKDAY_NAMES[wd], time);
    var before := "weekly:" + WEEKDAY_NAMES[wd];
    var raw := before + "@" + time;
    assert raw[0] == 'w';
    EditorSplitsWeekly(raw, before, WEEKDAY_NAMES[wd], time, wd);
  }

  /** Texts of the two dated kinds are not taken for others. */
  lemma EditorTakesDated(raw: string, at: CutResult)
    requires raw != "" && (raw[0] == 'w' || raw[0] == 'm') && at == Cut(raw, '@')
    ensures Modals.ParseSchedule(raw) == Modals.ParseDated(at)
  {
  }

  lemma EditorSplitsWeekly(raw: string, before: string, name: string, time: string, wd: Weekday)
    requires Cut(raw, '@') == CutResult(before, time, true) && raw != "" && raw[0] == 'w'
    requires "weekly:" <= before && before[7..] == name && WeekdayNamed(name) == Some(wd)
    requires name != "" && (forall c | c in name :: Modals.IsWordChar(c)) && Modals.IsLine(time)
    ensures Modals.ParseSchedule(raw) == DEFAULT.(freq := EveryWeek, weekday := wd, time := time)
  {
    var at := CutResult(before, time, true);
    EditorTakesDated(raw, at);
    WeeklyAt(at, name, wd);
  }

  lemma WeeklyAt(at: CutResult, name: string, wd: Weekday)
    requires "weekly:" <= at.before && at.before[7..] == name && WeekdayNamed(name) == Some(wd)
    requires name != "" && (forall c | c in name :: Modals.IsWordChar(c)) && at.found && Modals.IsLine(at.after)
    ensures Modals.ParseDated(at) == DEFAULT.(freq := EveryWeek, weekday := wd, time := at.after)
  {
  }

  lemma EditorReadsMonthly(md: nat, time: string)
    requires 1 <= md <= 28 && IsTimeText(time)
    ensures Modals.ParseSchedule("monthly:" + Dec(md) + "@" + time)
         == DEFAULT.(freq := EveryMonth, monthday := md, time := time)
  {
    NumberReads(md);
    TimeIsLine(time);
    CutKind("monthly:", "monthly", Dec(md), time);
    var before := "monthly:" + Dec(md);
    var raw := before + "@" + time;
    assert raw[0] == 'm' && before[0] == 'm';
    EditorSplitsMonthly(raw, before, Dec(md), time);
  }

  lemma EditorSplitsMonthly(raw: string, before: string, number: string, time: string)
    requires Cut(raw, '@') == CutResult(before, time, true) && raw != "" && raw[0] == 'm'
    requires "monthly:" <= before && before[0] == 'm' && before[8..] == number
    requires IsNum(number) && Value(number) > 0 && Modals.IsLine(time)
    ensures Modals.ParseSchedule(raw) == DEFAULT.(freq := EveryMonth, monthday := Value(number), time := time)
  {
    EditorTakesDated(raw, CutResult(before, time, true));
  }

  /** What the daemon's editor shows of a text without its part after the '@', or with an unknown weekday. */
  lemma EditorShowsElse(time: string, name: string)
    requires name != "" && (forall c | c in name :: Modals.IsWordChar(c)) && name !in WEEKDAY_NAMES
    requires Modals.IsLine(time)
    ensures Modals.ParseSchedule("hourly@:") == Preset(EveryHour, "00", "06:00", 0, 1)
    ensures Modals.ParseSchedule("daily@") == Preset(EveryDay, "15", "06:00", 0, 1)
    ensures Modals.ParseSchedule("weekly:" + name + "@" + time) == Preset(EveryWeek, "15", time, 0, 1)
  {
    UnknownDay(name, time);
  }

  lemma UnknownDay(name: string, time: string)
    requires name != "" && (forall c | c in name :: Modals.IsWordChar(c)) && name !in WEEKDAY_NAMES
    requires Modals.IsLine(time)
    ensures Modals.ParseSchedule("weekly:" + name + "@" + time) == Preset(EveryWeek, "15", time, 0, 1)
  {
    CutKind("weekly:", "weekly", name, time);
    var before := "weekly:" + name;
    var raw := before + "@" + time;
    assert raw[0] == 'w';
    EditorTakesDated(raw, CutResult(before, time, true));
    UnknownAt(CutResult(before, time, true), name);
  }

  lemma UnknownAt(at: CutResult, name: string)
    requires "weekly:" <= at.before && at.before[7..] == name && name !in WEEKDAY_NAMES
    requires name != "" && (forall c | c in name :: Modals.IsWordChar(c)) && at.found && Modals.IsLine(at.after)
    ensures Modals.ParseDated(at) == Preset(EveryWeek, "15", at.after, 0, 1)
  {
    var wd := WeekdayNamed(name);
    if wd.Some? { assert WEEKDAY_NAMES[wd.value] == name; }
  }

  /** The daemon's editor reads back what it printed, unused fields at their defaults. */
  lemma EditorRoundTrip(p: Preset)
    requires Valid(p)
    ensures Modals.ParseSchedule(Modals.BuildSchedule(p)) == Relevant(p)
  {
    var s := Modals.BuildSchedule(p);
    match p.freq
    case EveryHour =>
      assert s[..8] == "hourly@:" && s[8..] == p.minute;
    case EveryDay =>
      assert s[0] == 'd' && s[..6] == "daily@" && s[6..] == p.time;
    case EveryWeek => EditorReadsWeekly(p.weekday, p.time);
    case EveryMonth => EditorReadsMonthly(p.monthday, p.time);
  }

  // ---- cron ----

  /** The crontab entry with the meaning of a schedule. */
  function CronFor(s: Schedule): Cron
    requires s.Valid()
  {
    match s
    case Hourly(m) => Cron(Is(m), Any, Any, Any, Any)
    case Daily(h, m) => Cron(Is(m), Is(h), Any, Any, Any)
    case Weekly(wd, h, m) => Cron(Is(m), Is(h), Any, Any, Is(wd))
    case Monthly(md, h, m) => Cron(Is(m), Is(h), Is(md), Any, Any)
  }

  lemma CronForMeans(s: Schedule, t: int)
    requires s.Valid()
    ensures CronMatches(CronFor(s), t) <==> Matches(s, t)
  {
  }

  /** The five fields a schedule is printed as. */
  function CronFields(s: Schedule): (f: seq<string>)
    requires s.Valid()
    ensures |f| == 5 && forall w | w in f :: w == "*" || IsNum(w)
  {
    match s
    case Hourly(m) => [Dec(m), "*", "*", "*", "*"]
    case Daily(h, m) => [Dec(m), Dec(h), "*", "*", "*"]
    case Weekly(wd, h, m) => [Dec(m), Dec(h), "*", "*", Dec(wd)]
    case Monthly(md, h, m) => [Dec(m), Dec(h), Dec(md), "*", "*"]
  }

  predicate CutsFields(separator: char -> bool) {
    separator(' ') && !separator('*') && forall c :: IsDigit(c) ==> !separator(c)
  }

  lemma CronText(p: Preset)
    requires Valid(p)
    ensures SysSched.CronParts(p) == CronFields(Meaning(p))
  {
    if p.freq.EveryHour? { MinuteReads(p.minute); } else { CronTimeText(p, Value(p.time[..2]), Value(p.time[3..])); }
  }

  lemma CronTimeText(p: Preset, h: nat, m: nat)
    requires Valid(p) && !p.freq.EveryHour? && h == Value(p.time[..2]) && m == Value(p.time[3..])
    ensures SysSched.CronParts(p) == CronFields(Meaning(p))
  {
    TimeReads(p.time);
    TimePrinted(p, h, m);
    TimeMeant(p, h, m);
  }

  function TimeFields(p: Preset, h: nat, m: nat): seq<string>
    requires p.freq.EveryMonth? ==> p.monthday >= 0
  {
    [Dec(m), Dec(h), if p.freq.EveryMonth? then Dec(p.monthday) else "*", "*",
     if p.freq.EveryWeek? then Dec(p.weekday) else "*"]
  }

  lemma TimePrinted(p: Preset, h: nat, m: nat)
    requires Valid(p) && !p.freq.EveryHour? && SysSched.ParseClock(p.time) == (h, m)
    ensures SysSched.CronParts(p) == TimeFields(p, h, m)
  {
  }

  lemma TimeMeant(p: Preset, h: nat, m: nat)
    requires Valid(p) && !p.freq.EveryHour? && h == Value(p.time[..2]) && m == Value(p.time[3..])
    ensures CronFields(Meaning(p)) == TimeFields(p, h, m)
  {
  }

  lemma CronPrinted(sp: char -> bool, p: Preset)
    requires Valid(p) && CutsFields(sp)
    ensures Tokens(sp, SysSched.BuildCron(p)) == CronFields(Meaning(p))
  {
    var f := CronFields(Meaning(p));
    CronText(p);
    forall w | w in f ensures w != "" && forall x | x in w :: !sp(x) {
      if IsNum(w) { assert forall x | x in w :: IsDigit(x); }
    }
    TokensJoin(sp, ' ', f);
  }

  lemma NotNickname(w: string)
    requires IsNum(w)
    ensures w[0] != '@' && w != "*"
  {
    assert IsDigit(w[0]);
  }

  lemma FieldNum(w: string, lo: nat, hi: nat)
    requires IsNum(w) && lo <= Value(w) <= hi
    ensures FieldOf(w, lo, hi) == Some(Is(Value(w)))
  {
    NotNickname(w);
  }

  lemma FieldDec(n: nat, lo: nat, hi: nat)
    requires lo <= n <= hi
    ensures FieldOf(Dec(n), lo, hi) == Some(Is(n))
  {
    NotNickname(Dec(n));
  }

  lemma CronFieldsRead(s: Schedule)
    requires s.Valid()
    ensures var f := CronFields(s); CronFieldsOf(f[0], f[1], f[2], f[3], f[4]) == Some(CronFor(s))
  {
    FieldDec(s.minute, 0, 59);
    match s
    case Hourly(m) =>
    case Daily(h, m) => FieldDec(h, 0, 23);
    case Weekly(wd, h, m) => FieldDec(h, 0, 23); FieldDec(wd, 0, 7);
    case Monthly(md, h, m) => FieldDec(h, 0, 23); FieldDec(md, 1, 31);
  }

  /** cron understands the printed expression as the preset's schedule. */
  lemma CronReads(p: Preset)
    requires Valid(p)
    ensures CronOf(SysSched.BuildCron(p)) == Some(CronFor(Meaning(p)))
  {
    CronPrinted(IsBlank, p);
    CronFieldsRead(Meaning(p));
  }

  /** A number field is the printed number and nothing else. */
  lemma NumField(n: nat, max: nat)
    requires n <= max
    ensures SysSched.IsNumUpTo(Dec(n), max) && Value(Dec(n)) == n && Dec(n) != "*" && !("@" <= Dec(n))
  {
    NotNickname(Dec(n));
  }

  lemma CronHourlyRead(m: nat)
    requires m <= 59
    ensures SysSched.CronPreset(Dec(m), "*", "*", "*", "*") == Some(DEFAULT.(freq := EveryHour, minute := Pad2(m)))
  {
    NumField(m, 59);
  }

  lemma CronDailyRead(min: string, hour: string)
    requires SysSched.IsNumUpTo(min, 59) && SysSched.IsNumUpTo(hour, 23) && hour != "*"
    ensures SysSched.CronPreset(min, hour, "*", "*", "*")
         == Some(DEFAULT.(freq := EveryDay, time := SysSched.ClockText(Value(hour), Value(min))))
  {
  }

  lemma SmallRemainder(n: nat)
    requires n <= 6
    ensures n % 7 == n
  {
  }

  lemma CronWeeklyRead(min: string, hour: string, dow: string)
    requires SysSched.IsNumUpTo(min, 59) && SysSched.IsNumUpTo(hour, 23)
    requires SysSched.IsNumUpTo(dow, 6) && dow != "*"
    ensures SysSched.CronPreset(min, hour, "*", "*", dow)
         == Some(DEFAULT.(freq := EveryWeek, time := SysSched.ClockText(Value(hour), Value(min)),
                          weekday := Value(dow)))
  {
    SmallRemainder(Value(dow));
  }

  lemma CronMonthlyRead(min: string, hour: string, dom: string)
    requires SysSched.IsNumUpTo(min, 59) && SysSched.IsNumUpTo(hour, 23)
    requires SysSched.IsNumUpTo(dom, 28) && Value(dom) >= 1 && dom != "*"
    ensures SysSched.CronPreset(min, hour, dom, "*", "*")
         == Some(DEFAULT.(freq := EveryMonth, time := SysSched.ClockText(Value(hour), Value(min)),
                          monthday := Value(dom)))
  {
  }

  /** The preset a schedule is shown as. */
  function PresetFor(s: Schedule): Preset
    requires s.Valid()
  {
    match s
    case Hourly(m) => DEFAULT.(freq := EveryHour, minute := Pad2(m))
    case Daily(h, m) => DEFAULT.(freq := EveryDay, time := SysSched.ClockText(h, m))
    case Weekly(wd, h, m) => DEFAULT.(freq := EveryWeek, weekday := wd, time := SysSched.ClockText(h, m))
    case Monthly(md, h, m) => DEFAULT.(freq := EveryMonth, monthday := md, time := SysSched.ClockText(h, m))
  }

  lemma PresetForMeaning(p: Preset)
    requires Valid(p)
    ensures PresetFor(Meaning(p)) == Relevant(p)
  {
    if p.freq.EveryHour? { MinuteReads(p.minute); } else { TimeReads(p.time); }
  }

  lemma CronFieldsGive(s: Schedule)
    requires s.Valid() && (s.Monthly? ==> s.monthDay <= 28)
    ensures var f := CronFields(s);
            !("@" <= f[0]) && SysSched.CronPreset(f[0], f[1], f[2], f[3], f[4]) == Some(PresetFor(s))
  {
    NumField(s.minute, 59);
    match s
    case Hourly(m) => CronHourlyRead(m);
    case Daily(h, m) =>
      NumField(h, 23);
      CronDailyRead(Dec(m), Dec(h));
    case Weekly(wd, h, m) =>
      NumField(h, 23);
      NumField(wd, 6);
      CronWeeklyRead(Dec(m), Dec(h), Dec(wd));
    case Monthly(md, h, m) =>
      NumField(h, 23);
      NumField(md, 28);
      CronMonthlyRead(Dec(m), Dec(h), Dec(md));
  }

  lemma CronRoundTrip(p: Preset)
    requires Valid(p)
    ensures SysSched.ParseCron(SysSched.BuildCron(p)) == Some(Relevant(p))
  {
    CronPrinted(IsSpace, p);
    CronFieldsGive(Meaning(p));
    PresetForMeaning(p);
  }

  /** Every character is a separator or lies in a token. */
  lemma {:induction false} TokensCover(sp: char -> bool, s: string, i: nat)
    requires i < |s| && !sp(s[i])
    ensures exists w :: w in Tokens(sp, s) && s[i] in w
    decreases |s|
  {
    if sp(s[0]) {
      TokensCover(sp, s[1..], i - 1);
    } else {
      var w := Word(sp, s);
      if i < |w| {
        assert w[i] == s[i] && w in Tokens(sp, s);
      } else {
        TokensCover(sp, s[|w|..], i - |w|);
        var v :| v in Tokens(sp, s[|w|..]) && s[i] in v;
        assert v in Tokens(sp, s);
      }
    }
  }

  /** When no token holds white space, cutting at white space gives the same tokens. */
  lemma SameTokens(sp: char -> bool, s: string)
    requires forall c :: sp(c) ==> IsSpace(c)
    requires forall w, c | w in Tokens(sp, s) && c in w :: !IsSpace(c)
    ensures Tokens(IsSpace, s) == Tokens(sp, s)
  {
    forall c | c in s ensures sp(c) == IsSpace(c) {
      var i :| 0 <= i < |s| && s[i] == c;
      if !sp(c) { TokensCover(sp, s, i); }
    }
    TokensAgree(sp, IsSpace, s);
  }

  lemma PlainWord(w: string)
    requires FieldOf(w, 0, 59).Some? || NicknameOf(w).Some?
    ensures forall c | c in w :: !IsSpace(c)
  {
    forall c | c in w ensures !IsSpace(c) {
      if IsNum(w) { assert IsDigit(c); } else { assert c == '*' || c == '@' || 'a' <= c <= 'z'; }
    }
  }

  lemma CronTokensPlain(raw: string)
    requires CronOf(raw).Some?
    ensures Tokens(IsSpace, raw) == Tokens(IsBlank, raw)
  {
    var f := Tokens(IsBlank, raw);
    forall w | w in f ensures forall c | c in w :: !IsSpace(c) { PlainWord(w); }
    SameTokens(IsBlank, raw);
  }

  /** cron understands an accepted expression: blanks separate its fields, and its weekday is at most 7. */
  predicate ReadableCron(raw: string) {
    var f := Tokens(IsSpace, raw);
    Tokens(IsBlank, raw) == f && (|f| == 5 && IsNum(f[4]) ==> Value(f[4]) <= 7)
  }

  /** An accepted expression is invalid cron or means what the preset read from it means. */
  lemma CronAccepted(raw: string)
    requires SysSched.ParseCron(raw).Some?
    ensures Valid(SysSched.ParseCron(raw).value)
    ensures CronOf(raw) ==
            if ReadableCron(raw) then Some(CronFor(Meaning(SysSched.ParseCron(raw).value))) else None
  {
    var f := Tokens(IsSpace, raw);
    if |f| == 5 {
      CronFieldsValid(f[0], f[1], f[2], f[3], f[4]);
      CronFieldsInvalid(f[0], f[1], f[2], f[3], f[4]);
      if ReadableCron(raw) { CronFieldsAccepted(f[0], f[1], f[2], f[3], f[4]); }
    } else {
      NicknameTexts();
    }
    if CronOf(raw).Some? { CronTokensPlain(raw); }
  }

  lemma CronFieldsValid(min: string, hour: string, dom: string, month: string, dow: string)
    requires SysSched.CronPreset(min, hour, dom, month, dow).Some?
    ensures Valid(SysSched.CronPreset(min, hour, dom, month, dow).value)
  {
    if hour != "*" { ClockTextIsTime(Value(hour), Value(min)); }
  }

  lemma NicknameTexts()
    ensures IsMinuteText("00") && Value("00") == 0
    ensures IsTimeText("00:00") && Value("00:00"[..2]) == 0 && Value("00:00"[3..]) == 0
  {
    assert Pad2(0) == "00";
    ClockTextIsTime(0, 0);
    assert SysSched.ClockText(0, 0) == "00:00";
  }

  /** What cron reads in these fields is what the preset read from them means. */
  predicate FieldsAgree(min: string, hour: string, dom: string, month: string, dow: string)
    requires SysSched.CronPreset(min, hour, dom, month, dow).Some?
  {
    var p := SysSched.CronPreset(min, hour, dom, month, dow).value;
    Valid(p) && CronFieldsOf(min, hour, dom, month, dow) == Some(CronFor(Meaning(p)))
  }

  lemma CronFieldsAccepted(min: string, hour: string, dom: string, month: string, dow: string)
    requires SysSched.CronPreset(min, hour, dom, month, dow).Some?
    requires CronFieldsOf(min, hour, dom, month, dow).Some?
    ensures FieldsAgree(min, hour, dom, month, dow)
  {
    if dow != "*" {
      CronFieldsInvalid(min, hour, dom, month, dow);
      CronWeeklyAccepted(min, hour, dow);
    } else if dom != "*" {
      CronMonthlyAccepted(min, hour, dom);
    } else if hour != "*" {
      CronDailyAccepted(min, hour);
    } else {
      CronHourlyAccepted(min);
    }
  }

  lemma CronHourlyAccepted(min: string)
    requires SysSched.CronPreset(min, "*", "*", "*", "*").Some?
    ensures FieldsAgree(min, "*", "*", "*", "*")
  {
    assert !IsDigit('*') && !IsNum("*");
    FieldNum(min, 0, 59);
  }

  lemma CronDailyAccepted(min: string, hour: string)
    requires hour != "*" && SysSched.CronPreset(min, hour, "*", "*", "*").Some?
    ensures FieldsAgree(min, hour, "*", "*", "*")
  {
    CronDailyRead(min, hour);
    FieldNum(min, 0, 59);
    FieldNum(hour, 0, 23);
    ClockTextIsTime(Value(hour), Value(min));
  }

  lemma CronWeeklyAccepted(min: string, hour: string, dow: string)
    requires dow != "*" && SysSched.CronPreset(min, hour, "*", "*", dow).Some? && Value(dow) <= 7
    ensures FieldsAgree(min, hour, "*", "*", dow)
  {
    CronWeeklyFields(min, hour, dow);
    CronWeeklyPreset(min, hour, dow);
    WeeklyMeans(Value(dow) % 7, Value(hour), Value(min));
  }

  lemma WeeklyMeans(wd: Weekday, h: nat, m: nat)
    requires h <= 23 && m <= 59
    ensures var p := DEFAULT.(freq := EveryWeek, weekday := wd, time := SysSched.ClockText(h, m));
            Valid(p) && CronFor(Meaning(p)) == Cron(Is(m), Is(h), Any, Any, Is(wd))
  {
    ClockTextIsTime(h, m);
  }

  lemma CronWeeklyFields(min: string, hour: string, dow: string)
    requires SysSched.IsNumUpTo(min, 59) && SysSched.IsNumUpTo(hour, 23) && SysSched.IsNumUpTo(dow, 7)
    ensures CronFieldsOf(min, hour, "*", "*", dow)
         == Some(Cron(Is(Value(min)), Is(Value(hour)), Any, Any, Is(Value(dow) % 7)))
  {
    FieldNum(min, 0, 59);
    FieldNum(hour, 0, 23);
    FieldNum(dow, 0, 7);
    SevenIsSunday(Value(dow));
  }

  lemma SevenIsSunday(n: nat)
    requires n <= 7
    ensures n % 7 == if n == 7 then 0 else n
  {
  }

  lemma CronWeeklyPreset(min: string, hour: string, dow: string)
    requires dow != "*" && SysSched.CronPreset(min, hour, "*", "*", dow).Some?
    ensures SysSched.IsNumUpTo(min, 59) && SysSched.IsNumUpTo(hour, 23) && IsNum(dow)
    ensures SysSched.CronPreset(min, hour, "*", "*", dow).value
         == DEFAULT.(freq := EveryWeek, weekday := Value(dow) % 7, time := SysSched.ClockText(Value(hour), Value(min)))
  {
  }

  lemma CronMonthlyAccepted(min: string, hour: string, dom: string)
    requires dom != "*" && SysSched.CronPreset(min, hour, dom, "*", "*").Some?
    ensures FieldsAgree(min, hour, dom, "*", "*")
  {
    FieldNum(min, 0, 59);
    FieldNum(hour, 0, 23);
    FieldNum(dom, 1, 31);
    ClockTextIsTime(Value(hour), Value(min));
  }

  /** Rebuilding an accepted expression gives a valid one, with the same instants exactly when it was valid. */
  lemma CronRebuild(raw: string)
    requires SysSched.ParseCron(raw).Some?
    ensures var rebuilt := CronOf(SysSched.BuildCron(SysSched.ParseCron(raw).value));
            rebuilt.Some? && (rebuilt == CronOf(raw) <==> ReadableCron(raw))
  {
    CronAccepted(raw);
    CronReads(SysSched.ParseCron(raw).value);
  }

  /** Two accepted expressions that are not cron: a weekday 8, read as Monday, and fields on lines of their own. */
  lemma CronAcceptsInvalid()
    ensures var raw := Join(' ', ["0", "6", "*", "*", "8"]);
            SysSched.ParseCron(raw).Some? && SysSched.ParseCron(raw).value.weekday == 1 && CronOf(raw).None?
    ensures var raw := Join('\n', ["0", "6", "*", "*", "*"]);
            SysSched.ParseCron(raw).Some? && CronOf(raw).None?
  {
    OneDigit();
    EightIsMonday();
    LinesAreOneWord();
  }

  lemma EightIsMonday()
    ensures var raw := Join(' ', ["0", "6", "*", "*", "8"]);
            SysSched.ParseCron(raw).Some? && SysSched.ParseCron(raw).value.weekday == 1 && CronOf(raw).None?
  {
    var f := ["0", "6", "*", "*", "8"];
    OneDigit();
    forall p | p in f ensures p != "" && forall x | x in p :: !IsSpace(x) { }
    TokensJoin(IsSpace, ' ', f);
    TokensJoin(IsBlank, ' ', f);
    EighthDay(Join(' ', f), "0", "6", "8");
  }

  lemma EighthDay(raw: string, min: string, hour: string, dow: string)
    requires Tokens(IsSpace, raw) == Tokens(IsBlank, raw) == [min, hour, "*", "*", dow]
    requires SysSched.IsNumUpTo(min, 59) && SysSched.IsNumUpTo(hour, 23) && IsNum(dow) && Value(dow) == 8
    ensures SysSched.ParseCron(raw).Some? && SysSched.ParseCron(raw).value.weekday == 1 && CronOf(raw).None?
  {
    NotNickname(min);
    NotNickname(dow);
    CronFieldsInvalid(min, hour, "*", "*", dow);
  }

  lemma OneDigit()
    ensures IsNum("0") && Value("0") == 0 && IsNum("6") && Value("6") == 6 && IsNum("8") && Value("8") == 8
  {
    assert "0"[..0] == "" && "6"[..0] == "" && "8"[..0] == "";
  }

  /** cron does not cut at line ends. */
  lemma LinesAreOneWord()
    ensures var raw := Join('\n', ["0", "6", "*", "*", "*"]); SysSched.ParseCron(raw).Some? && CronOf(raw).None?
  {
    var g := ["0", "6", "*", "*", "*"];
    OneDigit();
    forall p | p in g ensures p != "" && forall x | x in p :: !IsSpace(x) { }
    TokensJoin(IsSpace, '\n', g);
    var raw := Join('\n', g);
    assert raw[0] == '0' && raw[1] == '\n';
    assert |Word(IsBlank, raw)| >= 2;
    CronAccepted(raw);
  }

  /** What a field that is understood was written as. */
  lemma FieldWritten(w: string, lo: nat, hi: nat)
    requires FieldOf(w, lo, hi).Some?
    ensures match FieldOf(w, lo, hi).value case Any => w == "*" case Is(n) => IsNum(w) && Value(w) == n && lo <= n <= hi
  {
  }

  lemma CronFieldsWritten(min: string, hour: string, dom: string, month: string, dow: string, s: Schedule)
    requires s.Valid() && CronFieldsOf(min, hour, dom, month, dow) == Some(CronFor(s))
    ensures SysSched.IsNumUpTo(min, 59) && month == "*"
    ensures if s.Hourly? then hour == "*" else SysSched.IsNumUpTo(hour, 23)
    ensures if s.Monthly? then SysSched.IsNumUpTo(dom, 28) && Value(dom) >= 1 else dom == "*"
    ensures if s.Weekly? then IsNum(dow) else dow == "*"
  {
    FieldWritten(min, 0, 59);
    FieldWritten(hour, 0, 23);
    FieldWritten(dom, 1, 31);
    FieldWritten(month, 1, 12);
    FieldWritten(dow, 0, 7);
  }

  lemma CronFieldsShown(min: string, hour: string, dom: string, month: string, dow: string, s: Schedule)
    requires s.Valid() && CronFieldsOf(min, hour, dom, month, dow) == Some(CronFor(s))
    ensures SysSched.CronPreset(min, hour, dom, month, dow).Some? && !("@" <= min)
  {
    CronFieldsWritten(min, hour, dom, month, dow, s);
    NotNickname(min);
    if !s.Hourly? { NotNickname(hour); }
    if s.Weekly? { NotNickname(dow); }
    if s.Monthly? { NotNickname(dom); }
  }

  /** Of the lines that cron understands the editor accepts exactly those that denote one of its schedules. */
  lemma CronAcceptsExactly(raw: string)
    requires CronOf(raw).Some?
    ensures SysSched.ParseCron(raw).Some? <==> exists s: Schedule :: s.Valid() && CronOf(raw).value == CronFor(s)
  {
    var f := Tokens(IsSpace, raw);
    CronTokensPlain(raw);
    if SysSched.ParseCron(raw).Some? {
      CronAccepted(raw);
      assert Meaning(SysSched.ParseCron(raw).value).Valid();
    }
    if s: Schedule :| s.Valid() && CronOf(raw).value == CronFor(s) {
      if |f| == 5 { CronFieldsShown(f[0], f[1], f[2], f[3], f[4], s); }
    }
  }

  lemma CronFieldsInvalid(min: string, hour: string, dom: string, month: string, dow: string)
    requires SysSched.CronPreset(min, hour, dom, month, dow).Some?
    ensures CronFieldsOf(min, hour, dom, month, dow).None? <==> IsNum(dow) && Value(dow) > 7
  {
    if IsNum(hour) { NotNickname(hour); }
    if IsNum(dow) { NotNickname(dow); }
  }

  // ---- OnCalendar ----

  /** The calendar event with the meaning of a schedule, on the first second of its minutes. */
  function OnCalFor(s: Schedule): OnCal
    requires s.Valid()
  {
    match s
    case Hourly(m) => OnCal(None, Any, Any, Is(m), 0)
    case Daily(h, m) => OnCal(None, Any, Is(h), Is(m), 0)
    case Weekly(wd, h, m) => OnCal(Some(wd), Any, Is(h), Is(m), 0)
    case Monthly(md, h, m) => OnCal(None, Is(md), Is(h), Is(m), 0)
  }

  lemma WholeSecond(t: int, s: nat)
    requires s < 60
    ensures t % SECOND == 0 && t % MINUTE / SECOND == s <==> t == t / MINUTE * MINUTE + s * SECOND
  {
    var (q, r) := (t / MINUTE, t % MINUTE);
    var (a, b) := (r / SECOND, r % SECOND);
    assert t == (60 * q + a) * SECOND + b;
    SecondRemainder(60 * q + a, b);
  }

  lemma SecondRemainder(a: int, b: int)
    requires 0 <= b < SECOND
    ensures (a * SECOND + b) % SECOND == b
  {
  }

  /** With a second `x` it names the instants `x` seconds into the schedule's minutes. */
  lemma OnCalForMeans(s: Schedule, x: nat, t: int)
    requires s.Valid() && x < 60
    ensures OnCalMatches(OnCalFor(s).(second := x), t)
      <==> t == t / MINUTE * MINUTE + x * SECOND && OnMinute(s, t / MINUTE)
    ensures x == 0 ==> (OnCalMatches(OnCalFor(s).(second := x), t) <==> Matches(s, t))
  {
    WholeSecond(t, x);
  }

  function DateParts(s: Schedule): seq<string>
    requires s.Valid()
  {
    ["*", "*", if s.Monthly? then Pad2(s.monthDay) else "*"]
  }

  function ClockParts(s: Schedule): seq<string>
    requires s.Valid()
  {
    [if s.Hourly? then "*" else Pad2(s.hour), Pad2(s.minute), "00"]
  }

  function CalParts(s: Schedule): (f: seq<string>)
    requires s.Valid()
    ensures 2 <= |f| <= 3
  {
    if s.Weekly? then
      [SysSched.CALENDAR_NAMES[s.weekday], Join('-', DateParts(s)), Join(':', ClockParts(s))]
    else [Join('-', DateParts(s)), Join(':', ClockParts(s))]
  }

  lemma OnCalParts(p: Preset)
    requires Valid(p)
    ensures SysSched.CalendarDate(p) == DateParts(Meaning(p)) && SysSched.CalendarClock(p) == ClockParts(Meaning(p))
  {
    if p.freq.EveryHour? { MinuteReads(p.minute); } else { TimeReads(p.time); }
  }

  lemma OnCalText(p: Preset)
    requires Valid(p)
    ensures SysSched.BuildOnCalendar(p) == Join(' ', CalParts(Meaning(p)))
  {
    OnCalParts(p);
    var (d, k) := (Join('-', SysSched.CalendarDate(p)), Join(':', SysSched.CalendarClock(p)));
    assert [SysSched.CALENDAR_NAMES[p.weekday]] + [d, k] == [SysSched.CALENDAR_NAMES[p.weekday], d, k];
  }

  predicate IsCalChar(c: char) {
    IsDigit(c) || c == '*' || c == '-' || c == ':' || 'a' <= c <= 'z' || 'A' <= c <= 'Z'
  }

  predicate AllCalChars(w: string) {
    forall c | c in w :: IsCalChar(c)
  }

  lemma JoinThree(c: char, a: string, b: string, d: string)
    ensures Join(c, [a, b, d]) == a + [c] + (b + [c] + d)
  {
    var (parts, rest) := ([a, b, d], [b, d]);
    assert parts[1..] == rest && rest[1..] == [d];
    assert Join(c, rest) == b + [c] + Join(c, [d]);
  }

  /** The printed parts hold no separators of their own. */
  lemma CalPartsPlain(s: Schedule, w: string)
    requires s.Valid() && w in CalParts(s)
    ensures w != "" && forall c | c in w :: IsCalChar(c)
  {
    PlainJoin('-', DateParts(s));
    assert IsNum("00");
    PlainJoin(':', ClockParts(s));
  }

  lemma OnCalPrinted(sp: char -> bool, p: Preset)
    requires Valid(p) && sp(' ') && forall c | IsCalChar(c) :: !sp(c)
    ensures Tokens(sp, SysSched.BuildOnCalendar(p)) == CalParts(Meaning(p))
  {
    OnCalText(p);
    var f := CalParts(Meaning(p));
    forall w | w in f ensures w != "" && forall x | x in w :: !sp(x) { CalPartsPlain(Meaning(p), w); }
    TokensJoin(sp, ' ', f);
  }

  /** A reader finds the date and clock parts again. */
  lemma PartsSplit(s: Schedule)
    requires s.Valid()
    ensures SplitOn('-', Join('-', DateParts(s))) == DateParts(s)
    ensures SplitOn(':', Join(':', ClockParts(s))) == ClockParts(s)
  {
    SplitStarsAndDigits('-', DateParts(s));
    assert IsNum("00");
    SplitStarsAndDigits(':', ClockParts(s));
  }

  lemma SplitStarsAndDigits(sep: char, parts: seq<string>)
    requires (sep == '-' || sep == ':') && parts != []
    requires forall i :: 0 <= i < |parts| ==> parts[i] == "*" || IsNum(parts[i])
    ensures SplitOn(sep, Join(sep, parts)) == parts
  {
    SplitJoin(sep, parts);
  }

  lemma NameLowers(wd: Weekday)
    ensures SysSched.Lower(SysSched.CALENDAR_NAMES[wd]) == WEEKDAY_NAMES[wd]
    ensures WeekdayNamed(WEEKDAY_NAMES[wd]) == Some(wd)
  {
    var s := SysSched.CALENDAR_NAMES[wd];
    var t := s[1..];
    var u := t[1..];
    assert u[1..] == "";
    assert SysSched.Lower(u) == u;
    assert SysSched.Lower(t) == t;
  }

  lemma FieldPad(n: nat, lo: nat, hi: nat)
    requires lo <= n <= hi
    ensures FieldOf(Pad2(n), lo, hi) == Some(Is(n)) && Pad2(n) != "*"
  {
    NotNickname(Pad2(n));
  }

  lemma OnCalPartsRead(s: Schedule)
    requires s.Valid()
    ensures DatedOf(OnCalFor(s).dow, DateParts(s), ClockParts(s)) == Some(OnCalFor(s))
  {
    FieldPad(0, 0, 59);
    assert Pad2(0) == "00";
    FieldPad(s.minute, 0, 59);
    if !s.Hourly? { FieldPad(s.hour, 0, 23); }
    if s.Monthly? { FieldPad(s.monthDay, 1, 31); }
  }

  /** systemd understands the printed expression as the preset's schedule. */
  lemma OnCalendarReads(p: Preset)
    requires Valid(p)
    ensures OnCalOf(SysSched.BuildOnCalendar(p)) == Some(OnCalFor(Meaning(p)))
  {
    OnCalPrinted(IsBlankSpace, p);
    OnCalTokensRead(Meaning(p), SysSched.BuildOnCalendar(p));
  }

  lemma OnCalTokensRead(s: Schedule, raw: string)
    requires s.Valid() && Tokens(IsBlankSpace, raw) == CalParts(s)
    ensures OnCalOf(raw) == Some(OnCalFor(s))
  {
    PartsSplit(s);
    OnCalPartsRead(s);
    var f := CalParts(s);
    if s.Weekly? {
      NameLowers(s.weekday);
      assert OnCalOf(raw) == DatedOf(Some(s.weekday), SplitOn('-', f[1]), SplitOn(':', f[2]));
    } else {
      assert OnCalOf(raw) == DatedOf(None, SplitOn('-', f[0]), SplitOn(':', f[1]));
    }
  }

  lemma PadField(n: nat)
    requires n <= 59
    ensures SysSched.IsShortNum(Pad2(n)) && Value(Pad2(n)) == n && |Pad2(n)| == 2 && Pad2(n) != "*"
    ensures SysSched.IsShortNum("00")
  {
    NotNickname(Pad2(n));
    assert Pad2(0) == "00";
  }

  lemma CalHourlyRead(m: nat)
    requires m <= 59
    ensures SysSched.CalendarPreset("", ["*", "*", "*"], ["*", Pad2(m), "00"])
         == Some(DEFAULT.(freq := EveryHour, minute := Pad2(m)))
  {
    PadField(m);
  }

  lemma CalTimedRead(dow: string, dom: string, h: nat, m: nat)
    requires h <= 23 && m <= 59 && (dom == "*" || dow == "")
    requires dom == "*" || (SysSched.IsShortNum(dom) && dom != "*" && 1 <= Value(dom) <= 28)
    requires dow == "" || WeekdayNamed(dow).Some?
    ensures var (date, clock, time) := (["*", "*", dom], [Pad2(h), Pad2(m), "00"], SysSched.ClockText(h, m));
            var expected := if dow != ""
                            then DEFAULT.(freq := EveryWeek, weekday := WeekdayNamed(dow).value, time := time)
                            else if dom != "*" then DEFAULT.(freq := EveryMonth, monthday := Value(dom), time := time)
                            else DEFAULT.(freq := EveryDay, time := time);
            SysSched.ParseDated(dow, date, clock) == Some(expected)
            && (dow == "" ==> SysSched.CalendarPreset(dow, date, clock) == Some(expected))
  {
    PadField(h);
    PadField(m);
    assert WeekdayNamed("").None?;
  }

  lemma OnCalPresetRead(p: Preset)
    requires Valid(p)
    ensures var (d, k) := (DateParts(Meaning(p)), ClockParts(Meaning(p)));
            (if p.freq.EveryWeek? then SysSched.ParseDated(WEEKDAY_NAMES[p.weekday], d, k)
             else SysSched.CalendarPreset("", d, k)) == Some(Relevant(p))
  {
    match Meaning(p) {
      case Hourly(m) =>
        MinuteReads(p.minute);
        CalHourlyRead(m);
      case Daily(h, m) =>
        TimeReads(p.time);
        CalTimedRead("", "*", h, m);
      case Weekly(wd, h, m) =>
        TimeReads(p.time);
        NameLowers(wd);
        CalTimedRead(WEEKDAY_NAMES[wd], "*", h, m);
      case Monthly(md, h, m) =>
        TimeReads(p.time);
        PadField(md);
        CalTimedRead("", Pad2(md), h, m);
    }
  }

  lemma OnCalendarRoundTrip(p: Preset)
    requires Valid(p)
    ensures SysSched.ParseOnCalendar(SysSched.BuildOnCalendar(p)) == Some(Relevant(p))
  {
    OnCalPrinted(IsSpace, p);
    OnCalPresetRead(p);
    OnCalTokensParse(Meaning(p), SysSched.BuildOnCalendar(p));
  }

  lemma OnCalTokensParse(s: Schedule, raw: string)
    requires s.Valid() && Tokens(IsSpace, raw) == CalParts(s)
    ensures SysSched.ParseOnCalendar(raw) ==
            if s.Weekly? then SysSched.ParseDated(WEEKDAY_NAMES[s.weekday], DateParts(s), ClockParts(s))
            else SysSched.CalendarPreset("", DateParts(s), ClockParts(s))
  {
    PartsSplit(s);
    var f := CalParts(s);
    if s.Weekly? {
      NameLowers(s.weekday);
      assert WEEKDAY_NAMES[s.weekday] in WEEKDAY_NAMES;
      assert f == [f[0], Join('-', DateParts(s)), Join(':', ClockParts(s))];
    } else {
      assert f == [Join('-', DateParts(s)), Join(':', ClockParts(s))];
    }
  }

  lemma {:induction false} LowerChars(s: string)
    ensures |SysSched.Lower(s)| == |s|
    ensures forall i | 0 <= i < |s| ::
              SysSched.Lower(s)[i] == if 'A' <= s[i] <= 'Z' then (s[i] as int + 32) as char else s[i]
  {
    if s == "" {
    } else {
      LowerChars(s[1..]);
    }
  }

  lemma LowerPlain(w: string)
    requires forall c | c in SysSched.Lower(w) :: 'a' <= c <= 'z'
    ensures forall c | c in w :: IsCalChar(c)
  {
    LowerChars(w);
    forall c | c in w ensures IsCalChar(c) {
      var i :| 0 <= i < |w| && w[i] == c;
      assert SysSched.Lower(w)[i] in SysSched.Lower(w);
    }
  }

  lemma {:induction false} SplitCover(sep: char, s: string, c: char)
    requires c in s && c != sep
    ensures exists p :: p in SplitOn(sep, s) && c in p
    decreases |s|
  {
    var r := Cut(s, sep);
    if r.found && c !in r.before {
      SplitCover(sep, r.after, c);
      var p :| p in SplitOn(sep, r.after) && c in p;
      assert p in SplitOn(sep, s);
    } else {
      assert SplitOn(sep, s)[0] == r.before;
    }
  }

  lemma SplitPlain(sep: char, w: string)
    requires IsCalChar(sep) && forall p | p in SplitOn(sep, w) :: forall c | c in p :: IsCalChar(c)
    ensures forall c | c in w :: IsCalChar(c)
  {
    forall c | c in w ensures IsCalChar(c) {
      if c != sep { SplitCover(sep, w, c); }
    }
  }

  lemma FieldPlain(w: string, lo: nat, hi: nat)
    requires FieldOf(w, lo, hi).Some?
    ensures forall c | c in w :: IsCalChar(c)
  {
  }

  lemma DatedPlain(dow: Option<int>, date: string, clock: string)
    requires DatedOf(dow, SplitOn('-', date), SplitOn(':', clock)).Some?
    ensures AllCalChars(date) && AllCalChars(clock)
  {
    var (d, k) := (SplitOn('-', date), SplitOn(':', clock));
    FieldPlain(d[2], 1, 31);
    FieldPlain(k[0], 0, 23);
    FieldPlain(k[1], 0, 59);
    if |k| == 3 { FieldPlain(k[2], 0, 59); }
    SplitPlain('-', date);
    SplitPlain(':', clock);
  }

  lemma EventPlain(w: string)
    requires EventOf(SysSched.Lower(w)).Some? || WeekdayNamed(SysSched.Lower(w)).Some?
    ensures AllCalChars(w)
  {
    var l := SysSched.Lower(w);
    assert l in ["hourly", "daily", "weekly", "monthly", "sun", "mon", "tue", "wed", "thu", "fri", "sat"];
    LowerPlain(w);
  }

  lemma OnCalTokensPlain(raw: string)
    requires OnCalOf(raw).Some?
    ensures Tokens(IsSpace, raw) == Tokens(IsBlankSpace, raw)
  {
    var f := Tokens(IsBlankSpace, raw);
    forall i | 0 <= i < |f| ensures AllCalChars(f[i]) {
      if |f| == 1 {
        EventPlain(f[0]);
      } else if |f| == 2 {
        DatedPlain(None, f[0], f[1]);
      } else {
        EventPlain(f[0]);
        DatedPlain(WeekdayNamed(SysSched.Lower(f[0])), f[1], f[2]);
      }
    }
    forall w, c | w in f && c in w ensures !IsSpace(c) {
      assert AllCalChars(w) && IsCalChar(c);
    }
    SameTokens(IsBlankSpace, raw);
  }

  /** The fields of an accepted date and clock. */
  lemma DatedFields(dow: string, date: seq<string>, clock: seq<string>)
    requires SysSched.ParseDated(dow, date, clock).Some? && DatedOf(WeekdayNamed(dow), date, clock).Some?
    ensures var c := DatedOf(WeekdayNamed(dow), date, clock).value;
            && c.second < 60
            && c == OnCal(WeekdayNamed(dow), if date[2] == "*" then Any else Is(Value(date[2])),
                          Is(Value(clock[0])), Is(Value(clock[1])), c.second)
  {
    FieldNum(clock[0], 0, 23);
    FieldNum(clock[1], 0, 59);
    if date[2] != "*" { FieldNum(date[2], 1, 31); }
  }

  lemma DatedPreset(dow: string, date: seq<string>, clock: seq<string>)
    requires SysSched.ParseDated(dow, date, clock).Some?
    ensures var p := SysSched.ParseDated(dow, date, clock).value;
            var (h, m) := (Value(clock[0]), Value(clock[1]));
            Valid(p) && Meaning(p) == if WeekdayNamed(dow).Some? then Weekly(WeekdayNamed(dow).value, h, m)
                                      else if date[2] == "*" then Daily(h, m) else Monthly(Value(date[2]), h, m)
  {
    ClockTextIsTime(Value(clock[0]), Value(clock[1]));
  }

  /** The fields read from an accepted date and clock are those of the preset, whatever the second. */
  lemma DatedAccepted(dow: string, date: seq<string>, clock: seq<string>)
    requires dow == "" || WeekdayNamed(dow).Some?
    requires SysSched.ParseDated(dow, date, clock).Some?
    requires DatedOf(WeekdayNamed(dow), date, clock).Some?
    ensures var p := SysSched.ParseDated(dow, date, clock).value;
            var c := DatedOf(WeekdayNamed(dow), date, clock).value;
            Valid(p) && c.second < 60 && c == OnCalFor(Meaning(p)).(second := c.second)
  {
    DatedFields(dow, date, clock);
    DatedPreset(dow, date, clock);
  }

  lemma HourlyAccepted(date: seq<string>, clock: seq<string>)
    requires date == ["*", "*", "*"] && 2 <= |clock| && clock[0] == "*"
    requires SysSched.CalendarPreset("", date, clock).Some?
    requires DatedOf(None, date, clock).Some?
    ensures var p := SysSched.CalendarPreset("", date, clock).value;
            var c := DatedOf(None, date, clock).value;
            Valid(p) && c.second < 60 && c == OnCalFor(Meaning(p)).(second := c.second)
  {
    assert !IsDigit('*');
    NotNickname(clock[1]);
  }

  /** The seconds field, 0 when absent. */
  function SecondOf(clock: seq<string>): nat {
    if |clock| == 3 && IsNum(clock[2]) then Value(clock[2]) else 0
  }

  /** The seconds written in an expression of these words. */
  function SecondIn(f: seq<string>): nat {
    if |f| < 2 then 0 else SecondOf(SplitOn(':', f[|f| - 1]))
  }

  /** systemd understands an accepted expression: spaces separate its parts, and its seconds are below 60. */
  predicate ReadableOnCal(raw: string) {
    Tokens(IsBlankSpace, raw) == Tokens(IsSpace, raw) && SecondIn(Tokens(IsSpace, raw)) < 60
  }

  lemma DatedValid(dow: string, date: seq<string>, clock: seq<string>)
    requires SysSched.ParseDated(dow, date, clock).Some?
    ensures Valid(SysSched.ParseDated(dow, date, clock).value)
  {
    ClockTextIsTime(Value(clock[0]), Value(clock[1]));
  }

  lemma DatedSecond(dow: string, date: seq<string>, clock: seq<string>)
    requires dow == "" || WeekdayNamed(dow).Some?
    requires SysSched.ParseDated(dow, date, clock).Some?
    ensures var c := DatedOf(WeekdayNamed(dow), date, clock);
            if SecondOf(clock) < 60 then c.Some? && c.value.second == SecondOf(clock) else c.None?
  {
    NotNickname(clock[0]);
    NotNickname(clock[1]);
    if |clock| == 3 { NotNickname(clock[2]); }
    if date[2] != "*" { NotNickname(date[2]); }
  }

  lemma HourlySecond(date: seq<string>, clock: seq<string>)
    requires date == ["*", "*", "*"] && 2 <= |clock| && clock[0] == "*"
    requires SysSched.CalendarPreset("", date, clock).Some?
    ensures var c := DatedOf(None, date, clock);
            if SecondOf(clock) < 60 then c.Some? && c.value.second == SecondOf(clock) else c.None?
    ensures Valid(SysSched.CalendarPreset("", date, clock).value)
  {
    assert !IsDigit('*');
    NotNickname(clock[1]);
    if |clock| == 3 { NotNickname(clock[2]); }
  }

  /** What systemd makes of a date and a clock that the editor accepts. */
  lemma PartsAccepted(dow: string, date: seq<string>, clock: seq<string>)
    requires dow == "" || WeekdayNamed(dow).Some?
    requires (if dow == "" then SysSched.CalendarPreset(dow, date, clock)
              else SysSched.ParseDated(dow, date, clock)).Some?
    ensures var p := (if dow == "" then SysSched.CalendarPreset(dow, date, clock)
                      else SysSched.ParseDated(dow, date, clock)).value;
            Agreed(p, DatedOf(WeekdayNamed(dow), date, clock), SecondOf(clock))
  {
    assert WeekdayNamed("").None?;
    if dow == "" && date == ["*", "*", "*"] && 2 <= |clock| <= 3 && clock[0] == "*" {
      HourlySecond(date, clock);
      if SecondOf(clock) < 60 { HourlyAccepted(date, clock); }
    } else {
      DatedValid(dow, date, clock);
      DatedSecond(dow, date, clock);
      if SecondOf(clock) < 60 { DatedAccepted(dow, date, clock); }
    }
  }

  /** An accepted expression is invalid, or means the preset's schedule displaced by its seconds. */
  lemma OnCalendarAccepted(raw: string)
    requires SysSched.ParseOnCalendar(raw).Some?
    ensures Valid(SysSched.ParseOnCalendar(raw).value)
    ensures OnCalOf(raw) ==
            if ReadableOnCal(raw)
            then Some(OnCalFor(Meaning(SysSched.ParseOnCalendar(raw).value)).(second := SecondIn(Tokens(IsSpace, raw))))
            else None
  {
    WordsAccepted(Tokens(IsSpace, raw));
    if OnCalOf(raw).Some? { OnCalTokensPlain(raw); }
  }

  /** The event of these words is that of the preset, at their second. */
  predicate Agreed(p: Preset, c: Option<OnCal>, second: nat) {
    Valid(p) && c == if second < 60 then Some(OnCalFor(Meaning(p)).(second := second)) else None
  }

  predicate WordsAgree(f: seq<string>)
    requires SysSched.CalendarWords(f).Some?
  {
    Agreed(SysSched.CalendarWords(f).value, EventWords(f), SecondIn(f))
  }

  lemma WordsAccepted(f: seq<string>)
    requires SysSched.CalendarWords(f).Some?
    ensures WordsAgree(f)
  {
    if |f| == 1 { OneWord(f); } else if |f| == 2 { TwoWords(f); } else { ThreeWords(f); }
  }

  lemma OneWord(f: seq<string>)
    requires |f| == 1 && SysSched.CalendarWords(f).Some?
    ensures WordsAgree(f)
  {
    EventAccepted(SysSched.Lower(f[0]));
  }

  lemma TwoWords(f: seq<string>)
    requires |f| == 2 && SysSched.CalendarWords(f).Some?
    ensures WordsAgree(f)
  {
    TwoWordsAccepted(SplitOn('-', f[0]), SplitOn(':', f[1]));
  }

  lemma ThreeWords(f: seq<string>)
    requires |f| == 3 && SysSched.CalendarWords(f).Some?
    ensures WordsAgree(f)
  {
    NamedWeekday(SysSched.Lower(f[0]));
    PartsAccepted(SysSched.Lower(f[0]), SplitOn('-', f[1]), SplitOn(':', f[2]));
  }

  lemma TwoWordsAccepted(date: seq<string>, clock: seq<string>)
    requires SysSched.CalendarPreset("", date, clock).Some?
    ensures Agreed(SysSched.CalendarPreset("", date, clock).value, DatedOf(None, date, clock), SecondOf(clock))
  {
    assert WeekdayNamed("").None?;
    PartsAccepted("", date, clock);
  }

  lemma EventAccepted(w: string)
    requires SysSched.CalendarNickname(w).Some?
    ensures Agreed(SysSched.CalendarNickname(w).value, EventOf(w), 0)
  {
    NicknameTexts();
  }

  lemma NamedWeekday(dow: string)
    requires dow in WEEKDAY_NAMES
    ensures dow != "" && WeekdayNamed(dow).Some?
  {
    var i :| 0 <= i < |WEEKDAY_NAMES| && WEEKDAY_NAMES[i] == dow;
    NameReads(i);
  }

  /** Numbers as the editor writes them: one or two digits, the minute always two. */
  predicate ShortParts(date: seq<string>, clock: seq<string>) {
    && (forall p | p in date :: |p| <= 2) && (forall p | p in clock :: |p| <= 2)
    && (|clock| > 1 ==> |clock[1]| == 2)
  }

  lemma DatedWritten(dow: Option<int>, date: seq<string>, clock: seq<string>, s: Schedule, x: nat)
    requires s.Valid() && DatedOf(dow, date, clock) == Some(OnCalFor(s).(second := x)) && ShortParts(date, clock)
    ensures |date| == 3 && date[0] == "*" && date[1] == "*" && 2 <= |clock| <= 3
    ensures dow == if s.Weekly? then Some(s.weekday) else None
    ensures if s.Monthly? then SysSched.IsShortNum(date[2]) && 1 <= Value(date[2]) <= 28 else date[2] == "*"
    ensures if s.Hourly? then clock[0] == "*" else SysSched.IsShortNum(clock[0]) && Value(clock[0]) <= 23
    ensures IsNum(clock[1]) && Value(clock[1]) <= 59 && (|clock| == 3 ==> SysSched.IsShortNum(clock[2]))
  {
    FieldWritten(date[2], 1, 31);
    FieldWritten(clock[0], 0, 23);
    FieldWritten(clock[1], 0, 59);
    if |clock| == 3 { FieldWritten(clock[2], 0, 59); }
    assert clock[0] in clock && clock[1] in clock && date[2] in date;
    if |clock| == 3 { assert clock[2] in clock; }
  }

  lemma DatedShown(dow: string, date: seq<string>, clock: seq<string>, s: Schedule, x: nat)
    requires dow == "" || WeekdayNamed(dow).Some?
    requires s.Valid() && DatedOf(WeekdayNamed(dow), date, clock) == Some(OnCalFor(s).(second := x))
    requires ShortParts(date, clock)
    ensures (if s.Weekly? then SysSched.ParseDated(dow, date, clock)
             else SysSched.CalendarPreset("", date, clock)).Some?
  {
    DatedWritten(WeekdayNamed(dow), date, clock, s, x);
    assert WeekdayNamed("").None?;
    if s.Hourly? {
      assert date == ["*", "*", "*"];
    } else {
      NotNickname(clock[0]);
      if s.Monthly? { NotNickname(date[2]); }
    }
  }

  /** The words of an expression are written short. */
  predicate ShortWords(f: seq<string>) {
    |f| >= 2 ==> ShortParts(SplitOn('-', f[|f| - 2]), SplitOn(':', f[|f| - 1]))
  }

  lemma TwoShown(date: seq<string>, clock: seq<string>, s: Schedule, x: nat)
    requires s.Valid() && DatedOf(None, date, clock) == Some(OnCalFor(s).(second := x)) && ShortParts(date, clock)
    ensures SysSched.CalendarPreset("", date, clock).Some?
  {
    assert WeekdayNamed("").None?;
    DatedWritten(None, date, clock, s, x);
    DatedShown("", date, clock, s, x);
  }

  lemma ThreeShown(dow: string, date: seq<string>, clock: seq<string>, s: Schedule, x: nat)
    requires WeekdayNamed(dow).Some? && ShortParts(date, clock)
    requires s.Valid() && DatedOf(WeekdayNamed(dow), date, clock) == Some(OnCalFor(s).(second := x))
    ensures SysSched.ParseDated(dow, date, clock).Some? && dow in WEEKDAY_NAMES
  {
    DatedWritten(WeekdayNamed(dow), date, clock, s, x);
    DatedShown(dow, date, clock, s, x);
    assert WEEKDAY_NAMES[WeekdayNamed(dow).value] == dow;
  }

  lemma OneShown(w: string)
    requires EventOf(w).Some?
    ensures SysSched.CalendarNickname(w).Some?
  {
  }

  lemma TwoWordsShown(f: seq<string>, s: Schedule, x: nat)
    requires |f| == 2 && s.Valid() && EventWords(f) == Some(OnCalFor(s).(second := x)) && ShortWords(f)
    ensures SysSched.CalendarWords(f).Some?
  {
    TwoShown(SplitOn('-', f[0]), SplitOn(':', f[1]), s, x);
  }

  lemma ThreeWordsShown(f: seq<string>, s: Schedule, x: nat)
    requires |f| == 3 && s.Valid() && EventWords(f) == Some(OnCalFor(s).(second := x)) && ShortWords(f)
    ensures SysSched.CalendarWords(f).Some?
  {
    ThreeShown(SysSched.Lower(f[0]), SplitOn('-', f[1]), SplitOn(':', f[2]), s, x);
  }

  lemma WordsShown(f: seq<string>, s: Schedule, x: nat)
    requires s.Valid() && EventWords(f) == Some(OnCalFor(s).(second := x)) && ShortWords(f)
    ensures SysSched.CalendarWords(f).Some?
  {
    if |f| == 1 {
      OneShown(SysSched.Lower(f[0]));
    } else if |f| == 2 {
      TwoWordsShown(f, s, x);
    } else {
      ThreeWordsShown(f, s, x);
    }
  }

  /**
   Of the expressions that systemd understands and that are written with one or two digits,
   two for the minute, the editor accepts exactly those that denote one of its schedules, at
   any second.
   */
  lemma OnCalendarAcceptsExactly(raw: string)
    requires OnCalOf(raw).Some? && ShortWords(Tokens(IsSpace, raw))
    ensures SysSched.ParseOnCalendar(raw).Some? <==>
              exists s: Schedule :: s.Valid() && OnCalOf(raw).value == OnCalFor(s).(second := OnCalOf(raw).value.second)
  {
    OnCalTokensPlain(raw);
    if SysSched.ParseOnCalendar(raw).Some? {
      OnCalendarAccepted(raw);
      assert Meaning(SysSched.ParseOnCalendar(raw).value).Valid();
    }
    if s: Schedule :| s.Valid() && OnCalOf(raw).value == OnCalFor(s).(second := OnCalOf(raw).value.second) {
      WordsShown(Tokens(IsSpace, raw), s, OnCalOf(raw).value.second);
    }
  }

  /**
   Rebuilding an accepted OnCalendar expression gives a valid one, with the same instants
   exactly when the first was written with spaces only and its seconds are absent or 00.
   */
  lemma OnCalendarRebuild(raw: string)
    requires SysSched.ParseOnCalendar(raw).Some?
    ensures var rebuilt := OnCalOf(SysSched.BuildOnCalendar(SysSched.ParseOnCalendar(raw).value));
            && rebuilt.Some?
            && ((OnCalOf(raw).Some?
                 && forall t :: OnCalMatches(rebuilt.value, t) <==> OnCalMatches(OnCalOf(raw).value, t))
                <==> Tokens(IsBlankSpace, raw) == Tokens(IsSpace, raw) && SecondIn(Tokens(IsSpace, raw)) == 0)
  {
    OnCalendarAccepted(raw);
    var p := SysSched.ParseOnCalendar(raw).value;
    var s := Meaning(p);
    OnCalendarReads(p);
    assert OnCalFor(s).second == 0;
    NextIsLeast(s, 0);
    var t := NextInstant(s, 0);
    OnCalForMeans(s, 0, t);
    if OnCalOf(raw).Some? && SecondIn(Tokens(IsSpace, raw)) != 0 { assert !OnCalMatches(OnCalOf(raw).value, t); }
  }

  /** A daily event with any second is accepted as the preset without it: 1..59 are dropped, 60..99 are invalid. */
  lemma SecondsAreDropped(h: nat, m: nat, x: nat)
    requires h <= 23 && m <= 59 && x <= 99
    ensures var raw := Join(' ', [Join('-', ["*", "*", "*"]), Join(':', [Pad2(h), Pad2(m), Pad2(x)])]);
            && SysSched.ParseOnCalendar(raw) == Some(DEFAULT.(freq := EveryDay, time := SysSched.ClockText(h, m)))
            && OnCalOf(raw) == if x <= 59 then Some(OnCal(None, Any, Is(h), Is(m), x)) else None
  {
    var (d, k) := (["*", "*", "*"], [Pad2(h), Pad2(m), Pad2(x)]);
    PadField(h); PadField(m);
    SecondsSplit(d, k);
    DailyWithSecond(k, h, m, x);
  }

  lemma PlainJoin(sep: char, parts: seq<string>)
    requires (sep == '-' || sep == ':') && |parts| == 3
    requires forall i :: 0 <= i < |parts| ==> parts[i] == "*" || IsNum(parts[i])
    ensures Join(sep, parts) != "" && forall c | c in Join(sep, parts) :: IsCalChar(c)
  {
    assert parts == [parts[0], parts[1], parts[2]];
    JoinThree(sep, parts[0], parts[1], parts[2]);
  }

  lemma SecondsSplit(d: seq<string>, k: seq<string>)
    requires |d| == 3 && |k| == 3
    requires forall i :: 0 <= i < |d| ==> d[i] == "*" || IsNum(d[i])
    requires forall i :: 0 <= i < |k| ==> k[i] == "*" || IsNum(k[i])
    ensures SplitOn('-', Join('-', d)) == d && SplitOn(':', Join(':', k)) == k
    ensures var w := [Join('-', d), Join(':', k)];
            Tokens(IsSpace, Join(' ', w)) == w && Tokens(IsBlankSpace, Join(' ', w)) == w
  {
    SplitStarsAndDigits('-', d);
    SplitStarsAndDigits(':', k);
    PlainJoin('-', d);
    PlainJoin(':', k);
    var w := [Join('-', d), Join(':', k)];
    PlainTokens(w, Join(' ', w));
  }

  lemma DailyWithSecond(k: seq<string>, h: nat, m: nat, x: nat)
    requires h <= 23 && m <= 59 && x <= 99 && k == [Pad2(h), Pad2(m), Pad2(x)]
    ensures SysSched.CalendarPreset("", ["*", "*", "*"], k)
         == Some(DEFAULT.(freq := EveryDay, time := SysSched.ClockText(h, m)))
    ensures DatedOf(None, ["*", "*", "*"], k) == if x <= 59 then Some(OnCal(None, Any, Is(h), Is(m), x)) else None
  {
    PadField(h); PadField(m); FieldPad(x, 0, 99);
    FieldPad(h, 0, 23); FieldPad(m, 0, 59);
    assert WeekdayNamed("").None?;
  }

  lemma PlainTokens(w: seq<string>, raw: string)
    requires w != [] && raw == Join(' ', w)
    requires forall p | p in w :: p != "" && forall c | c in p :: IsCalChar(c)
    ensures Tokens(IsSpace, raw) == Tokens(IsBlankSpace, raw) == w
  {
    TokensJoin(IsSpace, ' ', w);
    TokensJoin(IsBlankSpace, ' ', w);
  }

  // ---- the three together ----

  /** cron, systemd and the daemon run the same preset at the same instants. */
  lemma BackEndsAgree(p: Preset, from: int, t: int)
    requires Valid(p)
    ensures CronOf(SysSched.BuildCron(p)).Some? && OnCalOf(SysSched.BuildOnCalendar(p)).Some?
    ensures ParseSchedule(Modals.BuildSchedule(p)).Ok?
    ensures var daemon := ParseSchedule(Modals.BuildSchedule(p)).value;
            && (CronMatches(CronOf(SysSched.BuildCron(p)).value, t)
                <==> OnCalMatches(OnCalOf(SysSched.BuildOnCalendar(p)).value, t))
            && (from < t ==> (CronMatches(CronOf(SysSched.BuildCron(p)).value, t)
                              <==> exists k: nat :: Nth(daemon, from, k) == t))
  {
    var s := Meaning(p);
    CronReads(p);
    OnCalendarReads(p);
    DaemonReadsEditor(p);
    CronForMeans(s, t);
    OnCalForMeans(s, 0, t);
    NextEnumerates(s, from, t);
  }
}
