/**
 A run of the scheduler in which one instant triggers a job twice: a run on demand takes its
 time stamp a second before six o'clock and stores it after the six o'clock run was stored.
 */
module StaleStamp {
  import opened Calendar
  import opened Text
  import opened Schedules
  import opened Scheduling
  import BackEnds

  const SIX: int := 360 * MINUTE  // six o'clock of day 0

  const RAW := "daily@06:00"

  /** A daily job, created at the midnight before. */
  function SixJob(lastRun: Option<int>, result: string): Job {
    Job(1, RAW, true, Some(0), lastRun, result)
  }

  lemma RawMeansSix()
    ensures ParseSchedule(RAW) == Ok(Daily(6, 0))
  {
    var time := "06:00";
    assert Pad2(6) == "06" && Pad2(0) == "00";
    BackEnds.ClockTextIsTime(6, 0);
    assert time == BackEnds.SysSched.ClockText(6, 0);
    BackEnds.DaemonReadsDaily(time);
    assert "daily@" + time == RAW;
  }

  lemma NextSix(base: int)
    requires 0 <= base < SIX
    ensures NextInstant(Daily(6, 0), base) == SIX
  {
    var last := base / MINUTE;
    assert 0 <= last < 360;
    FirstDay(last + 1);
    assert At(0, 6, 0) == 360;
  }

  lemma FirstDay(n: int)
    requires 0 <= n <= 360
    ensures DayOf(n) == 0
  {
  }

  lemma SixIsDue(j: Job, now: int)
    requires j.enabled && ParseSchedule(j.schedule) == Ok(Daily(6, 0))
    requires 0 <= Base(j, now) < SIX <= now
    ensures DueAt(j, now) == Some(SIX)
  {
    NextSix(Base(j, now));
  }

  /** The table with one job, a second before the stamp is taken. */
  function Start(j: Job): State {
    State([j], SIX - 2 * SECOND, [], None, [])
  }

  lemma AfterFirst(s: State, es: seq<Event>)
    requires es != []
    ensures After(s, es) == After(Step(s, es[0]), es[1..])
  {
    AfterConcat(s, [es[0]], es[1..]);
    assert es == [es[0]] + es[1..];
    assert [es[0]][..0] == [];
  }

  lemma AfterThree(s: State, a: Event, b: Event, c: Event)
    ensures After(s, [a, b, c]) == Step(Step(Step(s, a), b), c)
  {
    AfterFirst(s, [a, b, c]);
    AfterFirst(Step(s, a), [b, c]);
    AfterFirst(Step(Step(s, a), b), [c]);
  }

  /** What is left when a check has found the job due: the trigger is logged and its action runs. */
  lemma CheckStarts(j: Job, clock: int, wait: nat, log: seq<Trigger>, writes: seq<Write>)
    requires j.enabled && ParseSchedule(j.schedule) == Ok(Daily(6, 0)) && 0 <= Base(j, 0) < SIX <= clock + wait
    requires j.lastRun.Some? || j.created.Some?
    ensures var s := State([j], clock, log, None, writes);
            After(s, [Read, Look(wait), Turn]) ==
            State([j], clock + wait, log + [Trigger(j.id, SIX)], Some(Tick([j], Some(clock + wait), 0, true, None)),
                  writes)
  {
    AfterThree(State([j], clock, log, None, writes), Read, Look(wait), Turn);
    SixIsDue(j, clock + wait);
    var s := State([j], clock + wait, log, Some(Tick([j], Some(clock + wait), 0, false, None)), writes);
    JobTurns(s, j, clock + wait);
  }

  lemma JobTurns(s: State, j: Job, now: int)
    requires s.tick == Some(Tick([j], Some(now), 0, false, None)) && DueAt(j, now) == Some(SIX)
    ensures Step(s, Turn) == s.(log := s.log + [Trigger(j.id, SIX)], tick := Some(Tick([j], Some(now), 0, true, None)))
  {
  }

  /** The action ends, its run is stored, and the check with it. */
  lemma CheckEnds(j: Job, now: int, clock: int, wait: nat, log: seq<Trigger>, writes: seq<Write>)
    ensures var s := State([j], clock, log, Some(Tick([j], Some(now), 0, true, None)), writes);
            After(s, [Stamp(wait, ""), Store, Done]) ==
            State([Marked(j, Run(clock + wait, ""))], clock + wait, log, None, writes)
  {
    AfterThree(State([j], clock, log, Some(Tick([j], Some(now), 0, true, None)), writes), Stamp(wait, ""), Store, Done);
    assert MarkRow([j], j.id, Run(clock + wait, "")) == [Marked(j, Run(clock + wait, ""))];
  }

  lemma LateStore(j: Job, clock: int, log: seq<Trigger>, run: Run)
    ensures After(State([j], clock, log, None, [Write(j.id, run)]), [Beside(Save(0))])
         == State([Marked(j, run)], clock, log, None, [])
  {
    var s := State([j], clock, log, None, [Write(j.id, run)]);
    AfterFirst(s, [Beside(Save(0))]);
    assert MarkRow([j], j.id, run) == [Marked(j, run)];
  }

  /** A stamp taken a second before six; the six o'clock check; the late store; the next check. */
  function Steps(id: int): seq<Event> {
    [Beside(Finish(id, SECOND, ""))] + [Read, Look(6 * SECOND), Turn] + [Stamp(SECOND, ""), Store, Done]
    + [Beside(Save(0))] + [Read, Look(24 * SECOND), Turn]
  }

  lemma Unroll(s: State, a: seq<Event>, b: seq<Event>, c: seq<Event>, d: seq<Event>, e: seq<Event>)
    ensures After(s, a + b + c + d + e) == After(After(After(After(After(s, a), b), c), d), e)
  {
    AfterConcat(s, a + b + c + d, e);
    AfterConcat(s, a + b + c, d);
    AfterConcat(s, a + b, c);
    AfterConcat(s, a, b);
  }

  lemma StampTaken(j: Job)
    ensures After(Start(j), [Beside(Finish(j.id, SECOND, ""))])
         == State([j], SIX - SECOND, [], None, [Write(j.id, Run(SIX - SECOND, ""))])
  {
    AfterFirst(Start(j), [Beside(Finish(j.id, SECOND, ""))]);
  }

  predicate IsSix(j: Job) {
    j.enabled && ParseSchedule(j.schedule) == Ok(Daily(6, 0)) && j.created == Some(0) && j.lastRun.None?
  }

  /** The run of the six o'clock check, and the late stamp. */
  function First(): Run { Run(SIX + 6 * SECOND, "") }
  function Late(): Run { Run(SIX - SECOND, "") }

  lemma FirstHalf(j: Job)
    requires IsSix(j)
    ensures After(After(After(Start(j), [Beside(Finish(j.id, SECOND, ""))]), [Read, Look(6 * SECOND), Turn]),
                  [Stamp(SECOND, ""), Store, Done])
         == State([Marked(j, First())], SIX + 6 * SECOND, [Trigger(j.id, SIX)], None, [Write(j.id, Late())])
  {
    StampTaken(j);
    CheckStarts(j, SIX - SECOND, 6 * SECOND, [], [Write(j.id, Late())]);
    assert [] + [Trigger(j.id, SIX)] == [Trigger(j.id, SIX)];
    CheckEnds(j, SIX + 5 * SECOND, SIX + 5 * SECOND, SECOND, [Trigger(j.id, SIX)], [Write(j.id, Late())]);
  }

  lemma SecondHalf(k: Job, t: seq<Trigger>)
    requires k.enabled && ParseSchedule(k.schedule) == Ok(Daily(6, 0))
    ensures After(After(State([k], SIX + 6 * SECOND, t, None, [Write(k.id, Late())]), [Beside(Save(0))]),
                  [Read, Look(24 * SECOND), Turn]).log == t + [Trigger(k.id, SIX)]
  {
    LateStore(k, SIX + 6 * SECOND, t, Late());
    assert Stored(SIX - SECOND) == SIX - SECOND;
    CheckStarts(Marked(k, Late()), SIX + 6 * SECOND, 24 * SECOND, t, []);
  }

  lemma RunsTwice(j: Job)
    requires IsSix(j)
    ensures After(Start(j), Steps(j.id)).log == [Trigger(j.id, SIX)] + [Trigger(j.id, SIX)]
  {
    Unroll(Start(j), [Beside(Finish(j.id, SECOND, ""))], [Read, Look(6 * SECOND), Turn],
           [Stamp(SECOND, ""), Store, Done],
           [Beside(Save(0))], [Read, Look(24 * SECOND), Turn]);
    FirstHalf(j);
    SecondHalf(Marked(j, First()), [Trigger(j.id, SIX)]);
  }

  /** The instant of six o'clock triggers the job twice, from a state in which everything is in order. */
  lemma SixRunsTwice()
    ensures var j := SixJob(None, "");
            Inv(Start(j)) && After(Start(j), Steps(j.id)).log == [Trigger(j.id, SIX)] + [Trigger(j.id, SIX)]
  {
    RawMeansSix();
    RunsTwice(SixJob(None, ""));
  }
}
