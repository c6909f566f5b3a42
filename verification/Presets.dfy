/** The "easy" schedule editor's state, shared by both schedule editors of the front end. */
module Presets {
  import opened Text
  import opened Schedules

  type Weekday = d: int | 0 <= d < 7  // 0 = Sunday

  datatype Frequency = EveryHour | EveryDay | EveryWeek | EveryMonth

  datatype Preset = Preset(freq: Frequency, minute: string, time: string, weekday: Weekday, monthday: int)

  const DEFAULT := Preset(EveryDay, "15", "06:00", 0, 1)

  /** '00'..'59'. */
  predicate IsMinuteText(s: string) {
    |s| == 2 && IsNum(s) && Value(s) <= 59
  }

  /** '00:00'..'23:59', what a time input holds. */
  predicate IsTimeText(s: string) {
    && |s| == 5 && s[2] == ':'
    && IsNum(s[..2]) && Value(s[..2]) <= 23
    && IsNum(s[3..]) && Value(s[3..]) <= 59
  }

  /** The fields its frequency uses hold values the editor can produce. */
  predicate Valid(p: Preset) {
    && (p.freq.EveryHour? ==> IsMinuteText(p.minute))
    && (!p.freq.EveryHour? ==> IsTimeText(p.time))
    && (p.freq.EveryMonth? ==> 1 <= p.monthday <= 28)
  }

  /** What the editor shows the user: the reference meaning of every printed form. */
  function Meaning(p: Preset): (s: Schedule)
    requires Valid(p)
    ensures s.Valid()
  {
    match p.freq
    case EveryHour => Hourly(Value(p.minute))
    case EveryDay => Daily(Value(p.time[..2]), Value(p.time[3..]))
    case EveryWeek => Weekly(p.weekday, Value(p.time[..2]), Value(p.time[3..]))
    case EveryMonth => Monthly(p.monthday, Value(p.time[..2]), Value(p.time[3..]))
  }

  /** The preset with the fields its frequency does not use back at their defaults. */
  function Relevant(p: Preset): Preset {
    match p.freq
    case EveryHour => DEFAULT.(freq := EveryHour, minute := p.minute)
    case EveryDay => DEFAULT.(freq := EveryDay, time := p.time)
    case EveryWeek => DEFAULT.(freq := EveryWeek, time := p.time, weekday := p.weekday)
    case EveryMonth => DEFAULT.(freq := EveryMonth, time := p.time, monthday := p.monthday)
  }

  /** A two-digit text is the padded text of its value. */
  lemma TwoDigits(s: string)
    requires |s| == 2 && IsNum(s)
    ensures Pad2(Value(s)) == s && Value(s) < 100
  {
    assert IsDigit(s[0]) && IsDigit(s[1]);
    var (a, b) := (DigitValue(s[0]), DigitValue(s[1]));
    ValueOfTwo(s);
    DecOfTwo(a, b);
    assert s == [DigitChar(a), DigitChar(b)];
  }

  lemma ValueOfTwo(s: string)
    requires |s| == 2 && IsNum(s)
    ensures IsDigit(s[0]) && IsDigit(s[1]) && Value(s) == 10 * DigitValue(s[0]) + DigitValue(s[1])
  {
    assert IsDigit(s[0]) && IsDigit(s[1]);
    var t := s[..1];
    assert t[..0] == "" && t[0] == s[0];
    assert Value(t) == 10 * Value(t[..0]) + DigitValue(t[0]);
  }

  lemma DecOfTwo(a: nat, b: nat)
    requires a < 10 && b < 10
    ensures Pad2(10 * a + b) == [DigitChar(a), DigitChar(b)]
  {
    var n := 10 * a + b;
    if a > 0 {
      assert n / 10 == a && n % 10 == b;
      assert Dec(n) == Dec(a) + [DigitChar(b)];
    }
  }

  lemma TimeSplit(time: string)
    requires IsTimeText(time)
    ensures time == time[..2] + [':'] + time[3..] && ':' !in time[..2] && ':' !in time[3..]
    ensures time == Pad2(Value(time[..2])) + [':'] + Pad2(Value(time[3..]))
    ensures SplitOn(':', time) == [time[..2], time[3..]]
  {
    assert time == time[..2] + [':'] + time[3..];
    TwoDigits(time[..2]);
    TwoDigits(time[3..]);
    assert forall c | c in time[..2] || c in time[3..] :: IsDigit(c);
    SplitAt(':', time[..2], time[3..]);
    SplitNone(':', time[3..]);
  }
}
