/**
 The job scheduler (internal/scheduler/scheduler.go): a periodic check runs every enabled
 job one of whose schedule instants has passed since its last run, while runs on demand
 and edits go on beside it. Every read or write of the table and every reading of the
 clock is one step; steps of the check and of everybody else interleave freely.
 */
module Scheduling {
  import opened Calendar
  import opened Text
  import opened Schedules

  /** A row of the jobs table; `created` is None when its time stamp is zero. */
  datatype Job = Job(id: int, schedule: string, enabled: bool,
                     created: Option<int>, lastRun: Option<int>, lastResult: string)

  /** How an action ended: when, and with what error ("" for success or a skip). */
  datatype Run = Run(finish: int, error: string)

  /** An automatic run of a job, and the schedule instant that caused it. */
  datatype Trigger = Trigger(id: int, at: int)

  /** The instant scheduling starts from. */
  function Base(j: Job, now: int): int {
    if j.lastRun.Some? then j.lastRun.value
    else if j.created.Some? then j.created.value
    else now
  }

  /** The due instant of a job, None while it has nothing to do. */
  function DueAt(j: Job, now: int): Option<int> {
    if !j.enabled then None else
    match ParseSchedule(j.schedule)
    case Err => None
    case Ok(s) =>
      var next := NextInstant(s, Base(j, now));
      if now < next then None else Some(next)
  }

  /** Time stamps are stored in whole seconds. */
  function Stored(t: int): (r: int)
    ensures r <= t < r + SECOND && r % SECOND == 0
  {
    t / SECOND * SECOND
  }

  function Marked(j: Job, run: Run): Job {
    j.(lastRun := Some(Stored(run.finish)), lastResult := if run.error == "" then "ok" else "error: " + run.error)
  }

  function MarkRow(jobs: seq<Job>, id: int, run: Run): (r: seq<Job>)
    ensures |r| == |jobs|
    ensures forall i :: 0 <= i < |r| ==> r[i] == if jobs[i].id == id then Marked(jobs[i], run) else jobs[i]
  {
    seq(|jobs|, i requires 0 <= i < |jobs| => if jobs[i].id == id then Marked(jobs[i], run) else jobs[i])
  }

  function EditRow(jobs: seq<Job>, id: int, enabled: bool, schedule: string): (r: seq<Job>)
    ensures |r| == |jobs|
    ensures forall i :: 0 <= i < |r| ==>
              r[i] == if jobs[i].id == id then jobs[i].(enabled := enabled, schedule := schedule) else jobs[i]
  {
    seq(|jobs|, i requires 0 <= i < |jobs| =>
      if jobs[i].id == id then jobs[i].(enabled := enabled, schedule := schedule) else jobs[i])
  }

  // ---- the specification: one step at a time ----

  /** A check under way: the rows it read, its time, the row it has come to, and that row's action and stamp. */
  datatype Tick = Tick(list: seq<Job>, now: Option<int>, i: nat, running: bool, stamp: Option<Run>)

  /** A run on demand that has taken its time stamp and not yet stored it. */
  datatype Write = Write(id: int, run: Run)

  datatype State = State(jobs: seq<Job>, clock: int, log: seq<Trigger>, tick: Option<Tick>, writes: seq<Write>)

  /** What goes on beside the check: a run on demand takes its stamp, or stores it; a job is edited. */
  datatype Outside =
    | Finish(id: int, wait: nat, error: string)
    | Save(k: nat)
    | Edit(id: int, enabled: bool, schedule: string)

  /** The steps of a check, in order, and those of everybody else. `wait` is the time since the last reading. */
  datatype Event = Read | Look(wait: nat) | Turn | Stamp(wait: nat, error: string) | Store | Done | Beside(o: Outside)

  /** The steps the check can take next; everybody else can act at any time. */
  predicate Legal(s: State, e: Event) {
    match e
    case Read => s.tick.None?
    case Look(_) => s.tick.Some? && s.tick.value.now.None?
    case Turn =>
      s.tick.Some? && s.tick.value.now.Some? && !s.tick.value.running && s.tick.value.i < |s.tick.value.list|
    case Stamp(_, _) => s.tick.Some? && s.tick.value.running && s.tick.value.stamp.None?
    case Store =>
      s.tick.Some? && s.tick.value.running && s.tick.value.stamp.Some? && s.tick.value.i < |s.tick.value.list|
    case Done =>
      s.tick.Some? && s.tick.value.now.Some? && !s.tick.value.running && s.tick.value.i == |s.tick.value.list|
    case Beside(o) => o.Save? ==> o.k < |s.writes|
  }

  /** A row that is not due is passed over; for a due one the trigger is logged and its action starts. */
  function Turned(s: State): State
    requires Legal(s, Turn)
  {
    var tick := s.tick.value;
    var j := tick.list[tick.i];
    var due := DueAt(j, tick.now.value);
    if due.None? then s.(tick := Some(tick.(i := tick.i + 1)))
    else s.(log := s.log + [Trigger(j.id, due.value)], tick := Some(tick.(running := true)))
  }

  function StoredTick(s: State): State
    requires Legal(s, Store)
  {
    var tick := s.tick.value;
    s.(jobs := MarkRow(s.jobs, tick.list[tick.i].id, tick.stamp.value),
       tick := Some(tick.(i := tick.i + 1, running := false, stamp := None)))
  }

  function Besides(s: State, o: Outside): State
    requires o.Save? ==> o.k < |s.writes|
  {
    match o
    case Finish(id, wait, error) =>
      s.(clock := s.clock + wait, writes := s.writes + [Write(id, Run(s.clock + wait, error))])
    case Save(k) =>
      s.(jobs := MarkRow(s.jobs, s.writes[k].id, s.writes[k].run), writes := s.writes[..k] + s.writes[k + 1..])
    case Edit(id, enabled, schedule) => s.(jobs := EditRow(s.jobs, id, enabled, schedule))
  }

  /** Steps that cannot be taken leave the state alone. */
  function Step(s: State, e: Event): State {
    if !Legal(s, e) then s else
    match e
    case Read => s.(tick := Some(Tick(s.jobs, None, 0, false, None)))
    case Look(wait) => s.(clock := s.clock + wait, tick := Some(s.tick.value.(now := Some(s.clock + wait))))
    case Turn => Turned(s)
    case Stamp(wait, error) =>
      s.(clock := s.clock + wait, tick := Some(s.tick.value.(stamp := Some(Run(s.clock + wait, error)))))
    case Store => StoredTick(s)
    case Done => s.(tick := None)
    case Beside(o) => Besides(s, o)
  }

  function After(s: State, es: seq<Event>): State {
    if es == [] then s else Step(After(s, es[..|es| - 1]), es[|es| - 1])
  }

  lemma AfterSnoc(s: State, es: seq<Event>, e: Event)
    ensures After(s, es + [e]) == Step(After(s, es), e)
  {
    assert (es + [e])[..|es|] == es;
  }

  lemma {:induction false} AfterConcat(s: State, a: seq<Event>, b: seq<Event>)
    ensures After(s, a + b) == After(After(s, a), b)
  {
    if b == [] {
      assert a + b == a;
    } else {
      var (front, e) := (b[..|b| - 1], b[|b| - 1]);
      AfterConcat(s, a, front);
      AfterSnoc(s, a + front, e);
      AfterSnoc(After(s, a), front, e);
      assert b == front + [e] && a + b == (a + front) + [e];
    }
  }

  // ---- the steps of one whole check ----

  /** The run of a due row: its length and error, and what others do during it and before its store. */
  datatype Course = Course(wait: nat, error: string, busy: seq<Outside>, late: seq<Outside>)

  function Others(os: seq<Outside>): (es: seq<Event>)
    ensures |es| == |os| && forall i :: 0 <= i < |os| ==> es[i] == Beside(os[i])
  {
    seq(|os|, i requires 0 <= i < |os| => Beside(os[i]))
  }

  /** A due row: its action, its time stamp, and its store. */
  function JobRun(s: State, c: Course): State {
    Step(After(Step(After(s, Others(c.busy)), Stamp(c.wait, c.error)), Others(c.late)), Store)
  }

  /** The listing, and the reading of the clock after it; `gap` is what others do between the two. */
  function Begun(s: State, wait: nat, gap: seq<Outside>): State {
    Step(After(Step(s, Read), Others(gap)), Look(wait))
  }

  /** What a row's turn consists of. */
  function RowSteps(j: Job, now: int, c: Course): seq<Event> {
    if DueAt(j, now).None? then [Turn]
    else [Turn] + Others(c.busy) + [Stamp(c.wait, c.error)] + Others(c.late) + [Store]
  }

  function RowsSteps(list: seq<Job>, now: int, courses: nat -> Course, n: nat): seq<Event>
    requires n <= |list|
  {
    if n == 0 then [] else RowsSteps(list, now, courses, n - 1) + RowSteps(list[n - 1], now, courses(n - 1))
  }

  /** All that happens from a check's reading of the table to the end of its loop, in order. */
  function CheckSteps(wait: nat, gap: seq<Outside>, list: seq<Job>, now: int, courses: nat -> Course): seq<Event> {
    Others(gap) + [Look(wait)] + RowsSteps(list, now, courses, |list|)
  }

  /** The state at the end of the loop. */
  function Checked(s: State, wait: nat, gap: seq<Outside>, now: int, courses: nat -> Course): State {
    After(Step(s, Read), CheckSteps(wait, gap, s.jobs, now, courses))
  }

  /** The triggers of the first `n` rows, in row order. */
  function Triggers(list: seq<Job>, now: int, n: nat): seq<Trigger>
    requires n <= |list|
  {
    if n == 0 then []
    else
      var front := Triggers(list, now, n - 1);
      var due := DueAt(list[n - 1], now);
      if due.Some? then front + [Trigger(list[n - 1].id, due.value)] else front
  }

  /** The scheduler over its table, with a clock that its readings move on. */
  class Scheduler {
    var jobs: seq<Job>
    var clock: int
    var writes: seq<Write>  // time stamps held by the goroutines of RunNow
    ghost var log: seq<Trigger>
    ghost var tick: Option<Tick>

    ghost function Abs(): State
      reads this
    {
      State(jobs, clock, log, tick, writes)
    }

    constructor (rows: seq<Job>, now: int)
      ensures Abs() == State(rows, now, [], None, [])
    {
      jobs, clock, writes, log, tick := rows, now, [], [], None;
    }

    /** time.Now() */
    method Now(wait: nat) returns (t: int)
      modifies this`clock
      ensures t == clock == old(clock) + wait
    {
      clock := clock + wait;
      t := clock;
    }

    /** UPDATE jobs SET last_run, last_result WHERE id. */
    method MarkRun(id: int, run: Run)
      modifies this`jobs
      ensures jobs == MarkRow(old(jobs), id, run)
      ensures forall i :: 0 <= i < |jobs| && old(jobs)[i].id != id ==> jobs[i] == old(jobs)[i]
      ensures forall i :: 0 <= i < |jobs| && old(jobs)[i].id == id ==>
                && jobs[i] == old(jobs)[i].(lastRun := jobs[i].lastRun, lastResult := jobs[i].lastResult)
                && jobs[i].lastRun.Some? && jobs[i].lastRun.value <= run.finish < jobs[i].lastRun.value + SECOND
                && jobs[i].lastRun.value % SECOND == 0
                && jobs[i].lastResult == if run.error == "" then "ok" else "error: " + run.error
    {
      var was := jobs;
      for i := 0 to |was|
        invariant |jobs| == |was|
        invariant forall k :: 0 <= k < |jobs| ==>
                    jobs[k] == if k < i && was[k].id == id then Marked(was[k], run) else was[k]
      {
        if jobs[i].id == id {
          var result := if run.error == "" then "ok" else "error: " + run.error;
          jobs := jobs[i := jobs[i].(lastRun := Some(Stored(run.finish)), lastResult := result)];
        }
      }
    }

    /** What others do, in order; a write nobody holds is skipped. */
    method Interfere(os: seq<Outside>)
      modifies this`jobs, this`clock, this`writes
      ensures Abs() == After(old(Abs()), Others(os))
    {
      for i := 0 to |os|
        invariant Abs() == After(old(Abs()), Others(os[..i])) && log == old(log) && tick == old(tick)
      {
        assert Others(os[..i + 1]) == Others(os[..i]) + [Beside(os[i])];
        AfterSnoc(old(Abs()), Others(os[..i]), Beside(os[i]));
        match os[i]
        case Finish(id, wait, error) => FinishRun(id, wait, error);
        case Save(k) => if k < |writes| { SaveRun(k); }
        case Edit(id, enabled, schedule) => jobs := EditRow(jobs, id, enabled, schedule);
      }
      assert os[..|os|] == os;
    }

    /** The goroutine of RunNow, up to its time stamp. */
    method FinishRun(id: int, wait: nat, error: string)
      modifies this`clock, this`writes
      ensures Abs() == Step(old(Abs()), Beside(Finish(id, wait, error)))
    {
      var finish := Now(wait);
      writes := writes + [Write(id, Run(finish, error))];
    }

    /** And its store, some time later. */
    method SaveRun(k: nat)
      requires k < |writes|
      modifies this`jobs, this`writes
      ensures Abs() == Step(old(Abs()), Beside(Save(k)))
    {
      MarkRun(writes[k].id, writes[k].run);
      writes := writes[..k] + writes[k + 1..];
    }

    /**
     check: the table is read once, then every row found due is run in turn, whatever others
     do meanwhile.
     */
    method Check(wait: nat, gap: seq<Outside>, courses: nat -> Course) returns (now: int)
      requires tick.None?
      modifies this
      ensures tick.None? && log == old(log) + Triggers(old(jobs), now, |old(jobs)|)
      ensures now == Begun(old(Abs()), wait, gap).clock
      ensures Abs() == Step(Checked(old(Abs()), wait, gap, now, courses), Done)
      ensures KeepsOrder(old(Abs()), Abs(), CheckSteps(wait, gap, old(jobs), now, courses))
      ensures LeavesNoneDue(old(Abs()), Abs(), CheckSteps(wait, gap, old(jobs), now, courses), now)
    {
      ghost var s := Abs();
      var list;
      list, now := ReadJobs(wait, gap);
      CheckRows(list, now, courses);
      WholeCheckIsRun(s, wait, gap, now, courses);
      DoneEnds(Abs(), now);
      tick := None;
      CheckKeepsOrder(s, wait, gap, now, courses);
      CheckLeavesNoneDue(s, wait, gap, now, courses);
    }

    /** The loop of check. */
    method CheckRows(list: seq<Job>, now: int, courses: nat -> Course)
      requires tick == Some(Tick(list, Some(now), 0, false, None))
      modifies this
      ensures tick == Some(Tick(list, Some(now), |list|, false, None))
      ensures log == old(log) + Triggers(list, now, |list|)
      ensures Abs() == After(old(Abs()), RowsSteps(list, now, courses, |list|))
    {
      ghost var s := Abs();
      for i := 0 to |list|
        invariant tick == Some(Tick(list, Some(now), i, false, None))
        invariant Abs() == After(s, RowsSteps(list, now, courses, i))
      {
        LastRow(s, list, now, courses, i);
        CheckRow(list, now, i, courses(i));
      }
      CheckedRows(s, list, now, courses, |list|);
      CheckedTriggers(s, list, now, courses, |list|);
    }

    /** The listing, and the reading of the clock after it. */
    method ReadJobs(wait: nat, gap: seq<Outside>) returns (list: seq<Job>, now: int)
      requires tick.None?
      modifies this`jobs, this`clock, this`writes, this`tick
      ensures list == old(jobs) && tick == Some(Tick(list, Some(now), 0, false, None)) && log == old(log)
      ensures Abs() == Begun(old(Abs()), wait, gap) && now == clock
    {
      list := jobs;
      tick := Some(Tick(list, None, 0, false, None));
      BesideKeepsTick(Abs(), gap);
      Interfere(gap);
      now := Now(wait);
      tick := Some(Tick(list, Some(now), 0, false, None));
    }

    /** One turn of the loop. */
    method CheckRow(list: seq<Job>, now: int, i: nat, c: Course)
      requires i < |list| && tick == Some(Tick(list, Some(now), i, false, None))
      modifies this
      ensures tick == Some(Tick(list, Some(now), i + 1, false, None))
      ensures Abs() == After(old(Abs()), RowSteps(list[i], now, c))
    {
      RowIsRun(Abs(), list[i], now, c);
      var next := Due(list[i], now);
      if next.None? {
        tick := Some(Tick(list, Some(now), i + 1, false, None));
        return;
      }
      log := log + [Trigger(list[i].id, next.value)];
      tick := Some(Tick(list, Some(now), i, true, None));
      RunJob(list, now, i, c);
    }

    /** runJob, called by check: the action, its time stamp, and the store. */
    method RunJob(list: seq<Job>, now: int, i: nat, c: Course)
      requires i < |list| && tick == Some(Tick(list, Some(now), i, true, None))
      modifies this`jobs, this`clock, this`writes, this`tick
      ensures tick == Some(Tick(list, Some(now), i + 1, false, None))
      ensures Abs() == JobRun(old(Abs()), c)
    {
      BesideKeepsTick(Abs(), c.busy);
      Interfere(c.busy);
      var finish := Now(c.wait);
      tick := Some(Tick(list, Some(now), i, true, Some(Run(finish, c.error))));
      BesideKeepsTick(Abs(), c.late);
      Interfere(c.late);
      MarkRun(list[i].id, Run(finish, c.error));
      tick := Some(Tick(list, Some(now), i + 1, false, None));
    }

    /** The loop's test of a row: skip a disabled job, an invalid schedule, or one not yet due. */
    method Due(j: Job, now: int) returns (at: Option<int>)
      ensures at == DueAt(j, now)
    {
      if !j.enabled { return None; }
      var base := if j.lastRun.Some? then j.lastRun.value
                  else if j.created.Some? then j.created.value else now;
      var parsed := ParseSchedule(j.schedule);
      if parsed.Err? { return None; }
      var next, _ := Next(parsed.value, base);
      if now < next { return None; }
      at := Some(next);
    }
  }

  /** Others neither advance the check nor trigger anything. */
  lemma {:induction false} BesideKeepsTick(s: State, os: seq<Outside>)
    ensures After(s, Others(os)).tick == s.tick && After(s, Others(os)).log == s.log
  {
    if os == [] {
    } else {
      var front := os[..|os| - 1];
      BesideKeepsTick(s, front);
      assert Others(os)[..|os| - 1] == Others(front);
    }
  }

  /** A row is passed or run: the check moves on by one row and logs a trigger if it was due. */
  lemma RowTriggers(s: State, list: seq<Job>, now: int, i: nat, c: Course)
    requires i < |list| && s.tick == Some(Tick(list, Some(now), i, false, None))
    ensures var (t, due) := (After(s, RowSteps(list[i], now, c)), DueAt(list[i], now));
            && t.tick == Some(Tick(list, Some(now), i + 1, false, None))
            && t.log == if due.Some? then s.log + [Trigger(list[i].id, due.value)] else s.log
  {
    RowIsRun(s, list[i], now, c);
    if DueAt(list[i], now).Some? { JobRunTick(Step(s, Turn), list, now, i, c); }
  }

  lemma JobRunTick(s: State, list: seq<Job>, now: int, i: nat, c: Course)
    requires i < |list| && s.tick == Some(Tick(list, Some(now), i, true, None))
    ensures JobRun(s, c).tick == Some(Tick(list, Some(now), i + 1, false, None)) && JobRun(s, c).log == s.log
  {
    BesideKeepsTick(s, c.busy);
    BesideKeepsTick(Step(After(s, Others(c.busy)), Stamp(c.wait, c.error)), c.late);
  }

  /** Whatever others do meanwhile, a check comes to its next row. */
  lemma CheckedRows(s: State, list: seq<Job>, now: int, courses: nat -> Course, n: nat)
    requires n <= |list| && s.tick == Some(Tick(list, Some(now), 0, false, None))
    ensures After(s, RowsSteps(list, now, courses, n)).tick == Some(Tick(list, Some(now), n, false, None))
  {
    for i := 0 to n
      invariant After(s, RowsSteps(list, now, courses, i)).tick == Some(Tick(list, Some(now), i, false, None))
    {
      RowPasses(s, list, now, courses, i);
    }
  }

  lemma RowPasses(s: State, list: seq<Job>, now: int, courses: nat -> Course, m: nat)
    requires m < |list|
    requires After(s, RowsSteps(list, now, courses, m)).tick == Some(Tick(list, Some(now), m, false, None))
    ensures After(s, RowsSteps(list, now, courses, m + 1)).tick == Some(Tick(list, Some(now), m + 1, false, None))
  {
    LastRow(s, list, now, courses, m);
    RowTriggers(After(s, RowsSteps(list, now, courses, m)), list, now, m, courses(m));
  }

  /** And it triggers exactly the rows that were due when it read them. */
  lemma CheckedTriggers(s: State, list: seq<Job>, now: int, courses: nat -> Course, n: nat)
    requires n <= |list| && s.tick == Some(Tick(list, Some(now), 0, false, None))
    ensures After(s, RowsSteps(list, now, courses, n)).log == s.log + Triggers(list, now, n)
  {
    assert s.log + [] == s.log;
    for i := 0 to n
      invariant After(s, RowsSteps(list, now, courses, i)).log == s.log + Triggers(list, now, i)
    {
      LogGrows(s, list, now, courses, i);
    }
  }

  lemma LogGrows(s: State, list: seq<Job>, now: int, courses: nat -> Course, m: nat)
    requires m < |list| && s.tick == Some(Tick(list, Some(now), 0, false, None))
    requires After(s, RowsSteps(list, now, courses, m)).log == s.log + Triggers(list, now, m)
    ensures After(s, RowsSteps(list, now, courses, m + 1)).log == s.log + Triggers(list, now, m + 1)
  {
    CheckedRows(s, list, now, courses, m);
    LastRow(s, list, now, courses, m);
    RowTriggers(After(s, RowsSteps(list, now, courses, m)), list, now, m, courses(m));
    TriggersSnoc(s.log, list, now, m);
  }

  lemma LastRow(s: State, list: seq<Job>, now: int, courses: nat -> Course, m: nat)
    requires m < |list|
    ensures After(s, RowsSteps(list, now, courses, m + 1)) ==
            After(After(s, RowsSteps(list, now, courses, m)), RowSteps(list[m], now, courses(m)))
  {
    AfterConcat(s, RowsSteps(list, now, courses, m), RowSteps(list[m], now, courses(m)));
  }

  lemma TriggersSnoc(log: seq<Trigger>, list: seq<Job>, now: int, i: nat)
    requires i < |list|
    ensures var due := DueAt(list[i], now);
            log + Triggers(list, now, i + 1) ==
            if due.Some? then log + Triggers(list, now, i) + [Trigger(list[i].id, due.value)]
            else log + Triggers(list, now, i)
  {
    if DueAt(list[i], now).Some? {
      var x := Trigger(list[i].id, DueAt(list[i], now).value);
      assert Triggers(list, now, i + 1) == Triggers(list, now, i) + [x];
      assert log + (Triggers(list, now, i) + [x]) == log + Triggers(list, now, i) + [x];
    }
  }

  // ---- a check is a run of steps ----

  lemma Extend(s: State, es: seq<Event>, more: seq<Event>, e: Event)
    ensures After(s, es + more + [e]) == Step(After(After(s, es), more), e)
  {
    AfterConcat(s, es, more);
    AfterSnoc(s, es + more, e);
  }

  lemma OneStep(s: State, e: Event)
    ensures After(s, [e]) == Step(s, e)
  {
    assert [e][..0] == [];
  }

  lemma JobIsRun(s: State, c: Course)
    ensures After(s, [Turn] + Others(c.busy) + [Stamp(c.wait, c.error)] + Others(c.late) + [Store])
         == JobRun(Step(s, Turn), c)
  {
    OneStep(s, Turn);
    Extend(s, [Turn], Others(c.busy), Stamp(c.wait, c.error));
    Extend(s, [Turn] + Others(c.busy) + [Stamp(c.wait, c.error)], Others(c.late), Store);
  }

  lemma RowIsRun(s: State, j: Job, now: int, c: Course)
    ensures After(s, RowSteps(j, now, c)) ==
            if DueAt(j, now).None? then Step(s, Turn) else JobRun(Step(s, Turn), c)
  {
    OneStep(s, Turn);
    JobIsRun(s, c);
  }

  /** A check comes to the end of its loop by its own steps and those of others, in this order, and nothing else. */
  lemma WholeCheckIsRun(s: State, wait: nat, gap: seq<Outside>, now: int, courses: nat -> Course)
    ensures After(Begun(s, wait, gap), RowsSteps(s.jobs, now, courses, |s.jobs|)) == Checked(s, wait, gap, now, courses)
  {
    var begin := Others(gap) + [Look(wait)];
    AfterSnoc(Step(s, Read), Others(gap), Look(wait));
    AfterConcat(Step(s, Read), begin, RowsSteps(s.jobs, now, courses, |s.jobs|));
  }

  // ---- when a job is due ----

  /** An instant of the job's schedule after `base` and not after `now`. */
  predicate Pending(j: Job, base: int, now: int, t: int) {
    ParseSchedule(j.schedule).Ok? && base < t <= now && Matches(ParseSchedule(j.schedule).value, t)
  }

  /**
   A job is due exactly when it is enabled, its schedule is valid and has an instant after its
   last run (its creation, if it never ran) and not after now. One with neither is never due.
   */
  lemma DueExactly(j: Job, now: int)
    ensures DueAt(j, now).Some? <==>
              && j.enabled && ParseSchedule(j.schedule).Ok? && (j.lastRun.Some? || j.created.Some?)
              && exists t :: Matches(ParseSchedule(j.schedule).value, t) && t <= now
                             && (if j.lastRun.Some? then j.lastRun.value else j.created.value) < t
  {
    if j.enabled {
      DueIffPending(j, now);
      if DueAt(j, now).Some? { assert Pending(j, Base(j, now), now, DueAt(j, now).value); }
      if ParseSchedule(j.schedule).Ok? && (j.lastRun.Some? || j.created.Some?) {
        forall t | Matches(ParseSchedule(j.schedule).value, t) && t <= now && Base(j, now) < t
          ensures Pending(j, Base(j, now), now, t)
        {
        }
      }
    }
  }

  /** The stamp of a run, of the check or on demand, is the reading of the clock after its action. */
  lemma StampsAreNow(s: State, id: int, wait: nat, error: string)
    ensures Legal(s, Stamp(wait, error)) ==>
              var t := Step(s, Stamp(wait, error));
              && t == s.(clock := s.clock + wait, tick := t.tick)
              && t.tick == Some(s.tick.value.(stamp := Some(Run(s.clock + wait, error))))
    ensures Step(s, Beside(Finish(id, wait, error)))
         == s.(clock := s.clock + wait, writes := s.writes + [Write(id, Run(s.clock + wait, error))])
  {
  }

  /** What is stored is that stamp, in the row of that job, with the outcome. */
  lemma StoresMarkTheRow(s: State, k: nat, i: nat)
    requires k < |s.writes| && i < |s.jobs|
    ensures var (w, t) := (s.writes[k], Step(s, Beside(Save(k))));
            && |t.jobs| == |s.jobs|
            && t.jobs[i] == if s.jobs[i].id == w.id
                            then s.jobs[i].(lastRun := Some(w.run.finish - w.run.finish % 1_000_000_000),
                                            lastResult := if w.run.error == "" then "ok" else "error: " + w.run.error)
                            else s.jobs[i]
  {
  }

  lemma StoreMarksTheRow(s: State, i: nat)
    requires Legal(s, Store) && i < |s.jobs|
    ensures var (id, run, t) := (s.tick.value.list[s.tick.value.i].id, s.tick.value.stamp.value, Step(s, Store));
            && |t.jobs| == |s.jobs|
            && t.jobs[i] == if s.jobs[i].id == id
                            then s.jobs[i].(lastRun := Some(run.finish - run.finish % 1_000_000_000),
                                            lastResult := if run.error == "" then "ok" else "error: " + run.error)
                            else s.jobs[i]
  {
  }

  /** An edit switches and reschedules the job with the id, and changes nothing else. */
  lemma EditExactly(s: State, id: int, enabled: bool, schedule: string)
    ensures var t := Step(s, Beside(Edit(id, enabled, schedule)));
            && t == s.(jobs := t.jobs) && |t.jobs| == |s.jobs|
            && forall i :: 0 <= i < |s.jobs| ==>
                 var j := s.jobs[i];
                 t.jobs[i] == if j.id == id then Job(id, schedule, enabled, j.created, j.lastRun, j.lastResult) else j
  {
  }

  /** A job is due exactly when some instant is pending, and its trigger is the first of them. */
  lemma DueIffPending(j: Job, now: int)
    requires j.enabled
    ensures DueAt(j, now).Some? ==>
              && Pending(j, Base(j, now), now, DueAt(j, now).value)
              && forall t :: Pending(j, Base(j, now), now, t) ==> DueAt(j, now).value <= t
    ensures DueAt(j, now).None? ==> forall t :: !Pending(j, Base(j, now), now, t)
  {
    if ParseSchedule(j.schedule).Ok? {
      NextIsLeast(ParseSchedule(j.schedule).value, Base(j, now));
    }
  }

  lemma InstantsAreSeconds(j: Job, base: int, now: int, t: int)
    requires Pending(j, base, now, t)
    ensures t % SECOND == 0
  {
    MinutesAreSeconds(t);
  }

  lemma MinutesAreSeconds(t: int)
    requires t % MINUTE == 0
    ensures t % SECOND == 0
  {
    assert t == 60 * (t / MINUTE) * SECOND;
  }

  /** A trigger lies after the base, not after the check's reading of the clock, on a whole second. */
  lemma TriggerBounds(j: Job, now: int)
    requires DueAt(j, now).Some?
    ensures var at := DueAt(j, now).value; Base(j, now) < at <= now && at % SECOND == 0
  {
    DueIffPending(j, now);
    InstantsAreSeconds(j, Base(j, now), now, DueAt(j, now).value);
  }

  /** Rounding down to a second keeps every earlier whole second behind. */
  lemma StoredKeepsSeconds(t: int, u: int)
    requires u <= t && u % SECOND == 0
    ensures u <= Stored(t)
  {
    assert u == u / SECOND * SECOND;
  }

  // ---- what every step keeps ----

  /** The stamps of a row are whole seconds not later than the clock. */
  predicate Settled(j: Job, clock: int) {
    && (j.lastRun.Some? ==> j.lastRun.value <= clock && j.lastRun.value % SECOND == 0)
    && (j.created.Some? ==> j.created.value <= clock && j.created.value % SECOND == 0)
  }

  predicate AllSettled(jobs: seq<Job>, clock: int) {
    forall i :: 0 <= i < |jobs| ==> Settled(jobs[i], clock)
  }

  predicate Distinct(jobs: seq<Job>) {
    forall i, j :: 0 <= i < j < |jobs| ==> jobs[i].id != jobs[j].id
  }

  predicate Consumed(j: Job, l: Trigger) {
    l.id == j.id ==> j.lastRun.Some? && l.at <= j.lastRun.value
  }

  /** Every trigger among the first `n` is behind the last run of its row. */
  predicate AllConsumed(jobs: seq<Job>, log: seq<Trigger>, n: nat)
    requires n <= |log|
  {
    forall i, a :: 0 <= i < |jobs| && 0 <= a < n ==> Consumed(jobs[i], log[a])
  }

  /** The triggers of each job strictly increase. */
  predicate Increasing(log: seq<Trigger>) {
    forall a, b :: 0 <= a < b < |log| && log[a].id == log[b].id ==> log[a].at < log[b].at
  }

  /** How many triggers have had their run stored. */
  function Past(s: State): (n: nat)
    ensures n <= |s.log|
  {
    if s.tick.Some? && s.tick.value.running && s.log != [] then |s.log| - 1 else |s.log|
  }

  /** The check's rows still to come are as consumed as when they were read; a running row is the last trigger's. */
  predicate TickInv(t: Tick, clock: int, log: seq<Trigger>) {
    && Distinct(t.list) && AllSettled(t.list, clock) && t.i <= |t.list|
    && (t.now.None? ==> t.i == 0 && !t.running) && (t.now.Some? ==> t.now.value <= clock)
    && (t.stamp.Some? ==> t.running && t.now.value <= t.stamp.value.finish <= clock)
    && (t.running ==> && t.i < |t.list| && log != [] && log[|log| - 1].id == t.list[t.i].id
                      && log[|log| - 1].at <= t.now.value && log[|log| - 1].at % SECOND == 0)
    && (forall r, a :: (if t.running then t.i + 1 else t.i) <= r < |t.list| && 0 <= a < |log| ==>
          Consumed(t.list[r], log[a]))
  }

  predicate Inv(s: State) {
    && Distinct(s.jobs) && AllSettled(s.jobs, s.clock)
    && (forall k :: 0 <= k < |s.writes| ==> s.writes[k].run.finish <= s.clock)
    && Increasing(s.log) && AllConsumed(s.jobs, s.log, Past(s))
    && (s.tick.Some? ==> TickInv(s.tick.value, s.clock, s.log))
  }

  /** A late stamp is harmless if it is not before a trigger of its job whose run is stored. */
  predicate Fresh(s: State, k: nat)
    requires k < |s.writes|
  {
    forall i, a :: 0 <= i < |s.jobs| && 0 <= a < Past(s) && s.jobs[i].id == s.writes[k].id == s.log[a].id ==>
      s.log[a].at <= Stored(s.writes[k].run.finish)
  }

  predicate IsFresh(s: State, e: Event) {
    e.Beside? && e.o.Save? && Legal(s, e) ==> Fresh(s, e.o.k)
  }

  /** A stamp that does not set the row's last run back is fresh. */
  lemma NotBackIsFresh(s: State, k: nat, i: nat)
    requires Inv(s) && k < |s.writes| && i < |s.jobs| && s.jobs[i].id == s.writes[k].id
    requires s.jobs[i].lastRun.Some? ==> s.jobs[i].lastRun.value <= Stored(s.writes[k].run.finish)
    ensures Fresh(s, k)
  {
    forall h, a | 0 <= h < |s.jobs| && 0 <= a < Past(s) && s.jobs[h].id == s.writes[k].id == s.log[a].id
      ensures s.log[a].at <= Stored(s.writes[k].run.finish)
    {
      assert h == i;
      assert Consumed(s.jobs[i], s.log[a]);
    }
  }

  /** Storing a run consumes the triggers of its job that it is not before. */
  lemma MarkKeeps(jobs: seq<Job>, id: int, run: Run, clock: int, log: seq<Trigger>, m: nat, n: nat)
    requires Distinct(jobs) && AllSettled(jobs, clock) && run.finish <= clock && m <= n <= |log|
    requires AllConsumed(jobs, log, m) && forall a :: m <= a < n ==> log[a].id == id
    requires forall i, a :: 0 <= i < |jobs| && 0 <= a < n && jobs[i].id == id == log[a].id ==>
               log[a].at <= Stored(run.finish)
    ensures var r := MarkRow(jobs, id, run); Distinct(r) && AllSettled(r, clock) && AllConsumed(r, log, n)
  {
    var r := MarkRow(jobs, id, run);
    forall i, a | 0 <= i < |r| && 0 <= a < n ensures Consumed(r[i], log[a]) {
      if jobs[i].id != id && a < m { assert Consumed(jobs[i], log[a]); }
    }
  }

  lemma EditKeeps(s: State, id: int, enabled: bool, schedule: string)
    requires Inv(s)
    ensures Inv(Step(s, Beside(Edit(id, enabled, schedule))))
  {
    var r := EditRow(s.jobs, id, enabled, schedule);
    forall i, a | 0 <= i < |r| && 0 <= a < Past(s) ensures Consumed(r[i], s.log[a]) {
      assert Consumed(s.jobs[i], s.log[a]);
    }
    forall i | 0 <= i < |r| ensures Settled(r[i], s.clock) { assert Settled(s.jobs[i], s.clock); }
  }

  /** Time passing unsettles nothing. */
  lemma ClockKeeps(s: State, wait: nat)
    requires Inv(s)
    ensures Inv(s.(clock := s.clock + wait))
  {
    forall i | 0 <= i < |s.jobs| ensures Settled(s.jobs[i], s.clock + wait) { assert Settled(s.jobs[i], s.clock); }
    if s.tick.Some? {
      var list := s.tick.value.list;
      forall i | 0 <= i < |list| ensures Settled(list[i], s.clock + wait) { assert Settled(list[i], s.clock); }
    }
  }

  lemma SaveKeeps(s: State, k: nat)
    requires Inv(s) && k < |s.writes| && Fresh(s, k)
    ensures Inv(Step(s, Beside(Save(k))))
  {
    MarkKeeps(s.jobs, s.writes[k].id, s.writes[k].run, s.clock, s.log, Past(s), Past(s));
  }

  /** A trigger is later than every earlier one of its job. */
  lemma TurnKeeps(s: State)
    requires Inv(s) && Legal(s, Turn)
    ensures Inv(Step(s, Turn))
  {
    var t := s.tick.value;
    var j := t.list[t.i];
    if DueAt(j, t.now.value).Some? {
      TriggerBounds(j, t.now.value);
      TriggerKeeps(s.log, t, DueAt(j, t.now.value).value, s.clock);
    }
  }

  lemma TriggerKeeps(log: seq<Trigger>, t: Tick, at: int, clock: int)
    requires TickInv(t, clock, log) && Increasing(log) && t.now.Some? && !t.running && t.i < |t.list|
    requires (t.list[t.i].lastRun.Some? ==> t.list[t.i].lastRun.value < at) && at <= t.now.value && at % SECOND == 0
    ensures var after := log + [Trigger(t.list[t.i].id, at)];
            Increasing(after) && TickInv(t.(running := true), clock, after)
  {
    var after := log + [Trigger(t.list[t.i].id, at)];
    forall a | 0 <= a < |log| && log[a].id == t.list[t.i].id ensures log[a].at < at {
      assert Consumed(t.list[t.i], log[a]);
    }
    forall r, a | t.i + 1 <= r < |t.list| && 0 <= a < |after| ensures Consumed(t.list[r], after[a]) {
      if a < |log| { assert Consumed(t.list[r], log[a]); } else { assert t.list[t.i].id != t.list[r].id; }
    }
  }

  /** The check's own store covers its trigger, whatever was stored meanwhile. */
  lemma StoreKeeps(s: State)
    requires Inv(s) && Legal(s, Store)
    ensures Inv(Step(s, Store))
  {
    var t := s.tick.value;
    var n := |s.log| - 1;
    StoredKeepsSeconds(t.stamp.value.finish, s.log[n].at);
    forall a | 0 <= a < n && s.log[a].id == s.log[n].id ensures s.log[a].at < s.log[n].at { }
    MarkKeeps(s.jobs, t.list[t.i].id, t.stamp.value, s.clock, s.log, n, n + 1);
  }

  lemma StepKeepsInv(s: State, e: Event)
    requires Inv(s) && IsFresh(s, e)
    ensures Inv(Step(s, e))
  {
    if Legal(s, e) {
      match e
      case Read =>
      case Look(wait) => ClockKeeps(s, wait);
      case Turn => TurnKeeps(s);
      case Stamp(wait, error) => ClockKeeps(s, wait);
      case Store => StoreKeeps(s);
      case Done =>
      case Beside(o) =>
        match o {
          case Finish(id, wait, error) => ClockKeeps(s, wait);
          case Save(k) => SaveKeeps(s, k);
          case Edit(id, enabled, schedule) => EditKeeps(s, id, enabled, schedule);
        }
    }
  }

  /** Every stamp stored by a run on demand is fresh when it is stored. */
  predicate FreshRun(s: State, es: seq<Event>) {
    es == [] || (FreshRun(s, es[..|es| - 1]) && IsFresh(After(s, es[..|es| - 1]), es[|es| - 1]))
  }

  /**
   Over every interleaving in which no run on demand stores a stamp from before a trigger of
   its job already stored, no instant triggers a job twice, although last runs are kept in
   whole seconds: its triggers strictly increase.
   */
  lemma {:induction false} NoInstantRunsTwice(s: State, es: seq<Event>)
    requires Inv(s) && FreshRun(s, es)
    ensures Inv(After(s, es)) && Increasing(After(s, es).log)
  {
    if es == [] {
    } else {
      var front := es[..|es| - 1];
      NoInstantRunsTwice(s, front);
      StepKeepsInv(After(s, front), es[|es| - 1]);
    }
  }

  /** The check's run of row `r` is under way or still to come. */
  predicate MayRun(t: Tick, r: nat)
    requires r < |t.list|
  {
    t.i <= r && ((t.running && r == t.i) || t.now.None? || DueAt(t.list[r], t.now.value).Some?)
  }

  /** A check under way has a run of the job before it. */
  predicate RunsYet(s: State, id: int) {
    s.tick.Some? && exists r :: 0 <= r < |s.tick.value.list| && s.tick.value.list[r].id == id && MayRun(s.tick.value, r)
  }

  /**
   Nothing less will do. Unless a check under way still runs the job, which stores a later
   stamp, storing a stamp lets the next check trigger the job at or before its latest trigger
   exactly when the stamp is from before that trigger.
   */
  lemma StaleStampTriggersAgain(s: State, k: nat, i: nat, a: nat, now: int)
    requires Inv(s) && k < |s.writes| && i < |s.jobs| && a < |s.log| && s.clock <= now
    requires s.jobs[i].enabled && s.jobs[i].id == s.writes[k].id == s.log[a].id && !RunsYet(s, s.log[a].id)
    requires forall b :: 0 <= b < |s.log| && s.log[b].id == s.log[a].id ==> s.log[b].at <= s.log[a].at
    requires ParseSchedule(s.jobs[i].schedule).Ok? && Matches(ParseSchedule(s.jobs[i].schedule).value, s.log[a].at)
    ensures var j := Step(s, Beside(Save(k))).jobs[i];
            (DueAt(j, now).Some? && !Increasing(s.log + [Trigger(j.id, DueAt(j, now).value)]))
            <==> Stored(s.writes[k].run.finish) < s.log[a].at
  {
    var j := Step(s, Beside(Save(k))).jobs[i];
    var (f, at) := (Stored(s.writes[k].run.finish), s.log[a].at);
    assert Base(j, now) == f && j.schedule == s.jobs[i].schedule && j.enabled && j.id == s.log[a].id;
    NotRunningIsPast(s, a);
    assert Consumed(s.jobs[i], s.log[a]) && Settled(s.jobs[i], s.clock);
    DueIffPending(j, now);
    if f < at { assert Pending(j, f, now, at); }
    if DueAt(j, now).Some? { AgainExactly(s.log, a, j.id, DueAt(j, now).value); }
  }

  lemma NotRunningIsPast(s: State, a: nat)
    requires Inv(s) && a < |s.log| && !RunsYet(s, s.log[a].id)
    ensures a < Past(s)
  {
    if s.tick.Some? && s.tick.value.running { assert MayRun(s.tick.value, s.tick.value.i); }
  }

  /** A further trigger breaks the order exactly when it is not later than the latest of its job. */
  lemma AgainExactly(log: seq<Trigger>, a: nat, id: int, at: int)
    requires Increasing(log) && a < |log| && log[a].id == id
    requires forall b :: 0 <= b < |log| && log[b].id == id ==> log[b].at <= log[a].at
    ensures Increasing(log + [Trigger(id, at)]) <==> log[a].at < at
  {
    var after := log + [Trigger(id, at)];
    assert after[a] == log[a] && after[|log|] == Trigger(id, at);
  }

  // ---- what a check leaves ----

  predicate HasBase(j: Job) {
    j.lastRun.Some? || j.created.Some?
  }

  /** A stamp that sets no row's base back. */
  predicate NotBack(s: State, k: nat)
    requires k < |s.writes|
  {
    forall i :: 0 <= i < |s.jobs| && s.jobs[i].id == s.writes[k].id && HasBase(s.jobs[i]) ==>
      Base(s.jobs[i], 0) <= Stored(s.writes[k].run.finish)
  }

  /** A step of a check still going on, or of others who edit nothing and set nothing back. */
  predicate Calm(s: State, e: Event) {
    !e.Done? && (e.Beside? ==> !e.o.Edit? && (e.o.Save? && Legal(s, e) ==> NotBack(s, e.o.k)))
  }

  predicate CalmRun(s: State, es: seq<Event>) {
    es == [] || (CalmRun(s, es[..|es| - 1]) && Calm(After(s, es[..|es| - 1]), es[|es| - 1]))
  }

  /** The row `j` as it was read, but for runs since. */
  predicate Follows(l: Job, j: Job) {
    && j == l.(lastRun := j.lastRun, lastResult := j.lastResult) && (l.lastRun.Some? ==> j.lastRun.Some?)
    && (HasBase(l) ==> Base(l, 0) <= Base(j, 0))
  }

  predicate Covered(l: Job, j: Job, now: int) {
    DueAt(l, now).Some? ==> j.lastRun.Some? && Stored(now) <= j.lastRun.value
  }

  /** The rows follow those read, and those already looked at are covered up to the check's time. */
  predicate CheckInv(list: seq<Job>, s: State) {
    && s.tick.Some? && s.tick.value.list == list && |s.jobs| == |list|
    && (forall r :: 0 <= r < |list| ==> Follows(list[r], s.jobs[r]))
    && (s.tick.value.now.Some? ==>
          && AllSettled(list, s.tick.value.now.value)
          && forall r :: 0 <= r < |list| && r < s.tick.value.i ==> Covered(list[r], s.jobs[r], s.tick.value.now.value))
  }

  lemma CalmIsFresh(s: State, k: nat)
    requires Inv(s) && k < |s.writes| && NotBack(s, k)
    ensures Fresh(s, k)
  {
    forall i, a | 0 <= i < |s.jobs| && 0 <= a < Past(s) && s.jobs[i].id == s.writes[k].id == s.log[a].id
      ensures s.log[a].at <= Stored(s.writes[k].run.finish)
    {
      assert Consumed(s.jobs[i], s.log[a]);
    }
  }

  /** Marking one row with a stamp not before its base when read, nor, if it was covered, before the check. */
  lemma MarkFollows(list: seq<Job>, jobs: seq<Job>, id: int, run: Run, now: int, n: nat)
    requires |list| == |jobs| && n <= |list| && forall r :: 0 <= r < |list| ==> Follows(list[r], jobs[r])
    requires forall r :: 0 <= r < n ==> Covered(list[r], jobs[r], now) || jobs[r].id == id
    requires forall r :: 0 <= r < |jobs| && jobs[r].id == id && HasBase(list[r]) ==>
               Base(list[r], 0) <= Stored(run.finish)
    requires forall r :: 0 <= r < n && jobs[r].id == id && DueAt(list[r], now).Some? ==>
               Stored(now) <= Stored(run.finish)
    ensures var after := MarkRow(jobs, id, run);
            && (forall r :: 0 <= r < |list| ==> Follows(list[r], after[r]))
            && (forall r :: 0 <= r < n ==> Covered(list[r], after[r], now))
  {
    var after := MarkRow(jobs, id, run);
    forall r | 0 <= r < |list| ensures Follows(list[r], after[r]) { assert Follows(list[r], jobs[r]); }
    forall r | 0 <= r < n ensures Covered(list[r], after[r], now) {
      if jobs[r].id != id { assert Covered(list[r], jobs[r], now); }
    }
  }

  lemma StoredMonotone(a: int, b: int)
    requires a <= b
    ensures Stored(a) <= Stored(b)
  {
    StoredKeepsSeconds(b, Stored(a));
  }

  lemma SaveFollows(list: seq<Job>, s: State, k: nat)
    requires CheckInv(list, s) && Inv(s) && k < |s.writes| && NotBack(s, k)
    ensures CheckInv(list, Step(s, Beside(Save(k))))
  {
    var w := s.writes[k];
    var (t, n) := (s.tick.value, if s.tick.value.now.Some? then s.tick.value.i else 0);
    var now := if t.now.Some? then t.now.value else 0;
    forall r | 0 <= r < |list| && s.jobs[r].id == w.id && HasBase(list[r])
      ensures Base(list[r], 0) <= Stored(w.run.finish)
    {
      assert Follows(list[r], s.jobs[r]);
    }
    forall r | 0 <= r < n && s.jobs[r].id == w.id && DueAt(list[r], now).Some?
      ensures Stored(now) <= Stored(w.run.finish)
    {
      assert Covered(list[r], s.jobs[r], now);
    }
    MarkFollows(list, s.jobs, w.id, w.run, now, n);
  }

  lemma StoreFollows(list: seq<Job>, s: State)
    requires CheckInv(list, s) && Inv(s) && Legal(s, Store)
    ensures CheckInv(list, Step(s, Store))
  {
    var t := s.tick.value;
    var (now, finish) := (t.now.value, t.stamp.value.finish);
    StoredMonotone(now, finish);
    SettledBefore(list, now, finish);
    assert Follows(list[t.i], s.jobs[t.i]);
    MarkFollows(list, s.jobs, list[t.i].id, t.stamp.value, now, t.i + 1);
  }

  lemma SettledBefore(list: seq<Job>, now: int, finish: int)
    requires AllSettled(list, now) && now <= finish
    ensures forall r :: 0 <= r < |list| && HasBase(list[r]) ==> Base(list[r], 0) <= Stored(finish)
  {
    forall r | 0 <= r < |list| && HasBase(list[r]) ensures Base(list[r], 0) <= Stored(finish) {
      assert Settled(list[r], now);
      StoredKeepsSeconds(finish, Base(list[r], 0));
    }
  }

  /** A row that is not due is covered as it is. */
  lemma TurnFollows(list: seq<Job>, s: State)
    requires CheckInv(list, s) && Legal(s, Turn)
    ensures CheckInv(list, Step(s, Turn))
  {
    var t := s.tick.value;
    var u := Step(s, Turn);
    forall r | 0 <= r < |list| && r < u.tick.value.i ensures Covered(list[r], s.jobs[r], t.now.value) { }
  }

  lemma CalmKeepsCheck(list: seq<Job>, s: State, e: Event)
    requires CheckInv(list, s) && Inv(s) && Calm(s, e)
    ensures CheckInv(list, Step(s, e)) && Inv(Step(s, e))
  {
    if e.Beside? && e.o.Save? && Legal(s, e) {
      CalmIsFresh(s, e.o.k);
      SaveFollows(list, s, e.o.k);
    } else if e.Store? && Legal(s, e) {
      StoreFollows(list, s);
    } else if e.Turn? && Legal(s, e) {
      TurnFollows(list, s);
    }
    StepKeepsInv(s, e);
  }

  lemma {:induction false} CalmRunKeepsCheck(list: seq<Job>, s: State, es: seq<Event>)
    requires CheckInv(list, s) && Inv(s) && CalmRun(s, es)
    ensures CheckInv(list, After(s, es)) && Inv(After(s, es))
  {
    if es == [] {
    } else {
      var front := es[..|es| - 1];
      CalmRunKeepsCheck(list, s, front);
      CalmKeepsCheck(list, After(s, front), es[|es| - 1]);
    }
  }

  /** A covered row has nothing pending: however many instants were missed, one run consumed them all. */
  lemma CoveredIsDone(l: Job, j: Job, now: int, t: int)
    requires Follows(l, j) && Covered(l, j, now) && l.enabled && HasBase(l)
    ensures !Pending(j, Base(j, now), now, t)
  {
    DueIffPending(l, now);
    if Pending(j, Base(j, now), now, t) {
      assert Pending(l, Base(l, now), now, t);
      InstantsAreSeconds(l, Base(l, now), now, t);
      StoredKeepsSeconds(now, t);
      assert false;
    }
  }

  /**
   When a check has come to its end, beside runs on demand that set no row's base back and
   without edits, no enabled job with a non-zero base has an instant left between its base
   and the check's time.
   */
  lemma CheckLeavesNothing(s: State, es: seq<Event>, r: nat, t: int)
    requires Inv(s) && s.tick.None? && CalmRun(Step(s, Read), es) && r < |s.jobs|
    requires var tick := After(Step(s, Read), es).tick; tick.Some? && tick.value.now.Some? && tick.value.i == |s.jobs|
    requires s.jobs[r].enabled && HasBase(s.jobs[r])
    ensures var u := After(Step(s, Read), es);
            var now := u.tick.value.now.value;
            r < |u.jobs| && !Pending(u.jobs[r], Base(u.jobs[r], now), now, t)
  {
    StepKeepsInv(s, Read);
    CalmRunKeepsCheck(s.jobs, Step(s, Read), es);
    var u := After(Step(s, Read), es);
    CoveredIsDone(s.jobs[r], u.jobs[r], u.tick.value.now.value, t);
  }

  // ---- what that means for the method ----

  /** The check's own steps before its end, and stamps taken by others. */
  predicate Harmless(e: Event) {
    !e.Done? && (e.Beside? ==> e.o.Finish?)
  }

  predicate AllHarmless(es: seq<Event>) {
    forall i :: 0 <= i < |es| ==> Harmless(es[i])
  }

  lemma {:induction false} HarmlessIsCalm(s: State, es: seq<Event>)
    requires AllHarmless(es)
    ensures CalmRun(s, es)
  {
    if es == [] {
    } else {
      HarmlessIsCalm(s, es[..|es| - 1]);
    }
  }

  predicate OnlyStamps(os: seq<Outside>) {
    forall i :: 0 <= i < |os| ==> os[i].Finish?
  }

  predicate Undisturbed(courses: nat -> Course, n: nat) {
    forall i :: 0 <= i < n ==> OnlyStamps(courses(i).busy) && OnlyStamps(courses(i).late)
  }

  lemma StampsAreHarmless(es: seq<Event>, os: seq<Outside>, e: Event)
    requires AllHarmless(es) && OnlyStamps(os) && Harmless(e)
    ensures AllHarmless(es + Others(os) + [e])
  {
  }

  lemma RowIsHarmless(j: Job, now: int, c: Course)
    requires OnlyStamps(c.busy) && OnlyStamps(c.late)
    ensures AllHarmless(RowSteps(j, now, c))
  {
    StampsAreHarmless([Turn], c.busy, Stamp(c.wait, c.error));
    StampsAreHarmless([Turn] + Others(c.busy) + [Stamp(c.wait, c.error)], c.late, Store);
  }

  lemma HarmlessConcat(a: seq<Event>, b: seq<Event>)
    requires AllHarmless(a) && AllHarmless(b)
    ensures AllHarmless(a + b)
  {
  }

  lemma {:induction false} RowsAreHarmless(list: seq<Job>, now: int, courses: nat -> Course, n: nat)
    requires n <= |list| && Undisturbed(courses, n)
    ensures AllHarmless(RowsSteps(list, now, courses, n))
  {
    if n == 0 {
    } else {
      RowsAreHarmless(list, now, courses, n - 1);
      RowIsHarmless(list[n - 1], now, courses(n - 1));
      HarmlessConcat(RowsSteps(list, now, courses, n - 1), RowSteps(list[n - 1], now, courses(n - 1)));
    }
  }

  /** Where others at most take stamps, a check is calm. */
  lemma UndisturbedIsCalm(s: State, wait: nat, gap: seq<Outside>, list: seq<Job>, now: int, courses: nat -> Course)
    requires OnlyStamps(gap) && Undisturbed(courses, |list|)
    ensures CalmRun(s, CheckSteps(wait, gap, list, now, courses))
  {
    RowsAreHarmless(list, now, courses, |list|);
    assert [] + Others(gap) == Others(gap);
    StampsAreHarmless([], gap, Look(wait));
    HarmlessConcat(Others(gap) + [Look(wait)], RowsSteps(list, now, courses, |list|));
    HarmlessIsCalm(s, CheckSteps(wait, gap, list, now, courses));
  }

  lemma DoneEnds(u: State, now: int)
    requires u.tick.Some? && u.tick == Some(Tick(u.tick.value.list, Some(now), |u.tick.value.list|, false, None))
    ensures Step(u, Done) == u.(tick := None)
  {
  }

  lemma BegunTick(s: State, wait: nat, gap: seq<Outside>)
    requires s.tick.None?
    ensures var u := Begun(s, wait, gap); u.tick == Some(Tick(s.jobs, Some(u.clock), 0, false, None)) && u.log == s.log
  {
    BesideKeepsTick(Step(s, Read), gap);
  }

  /** If every stamp stored by others in these steps was fresh, the triggers are in order afterwards. */
  ghost predicate KeepsOrder(s: State, t: State, es: seq<Event>) {
    Inv(s) && FreshRun(Step(s, Read), es) ==> Inv(t) && Increasing(t.log)
  }

  /** If nothing was edited or set back in these steps, no job with a base is due at `now` afterwards. */
  ghost predicate LeavesNoneDue(s: State, t: State, es: seq<Event>, now: int) {
    Inv(s) && CalmRun(Step(s, Read), es) ==>
      Inv(t) && forall r :: 0 <= r < |s.jobs| && HasBase(s.jobs[r]) ==> r < |t.jobs| && DueAt(t.jobs[r], now).None?
  }

  lemma CheckKeepsOrder(s: State, wait: nat, gap: seq<Outside>, now: int, courses: nat -> Course)
    ensures KeepsOrder(s, Step(Checked(s, wait, gap, now, courses), Done), CheckSteps(wait, gap, s.jobs, now, courses))
  {
    OrderAtEnd(s, CheckSteps(wait, gap, s.jobs, now, courses));
  }

  lemma OrderAtEnd(s: State, es: seq<Event>)
    ensures KeepsOrder(s, Step(After(Step(s, Read), es), Done), es)
  {
    if Inv(s) && FreshRun(Step(s, Read), es) {
      StepKeepsInv(s, Read);
      NoInstantRunsTwice(Step(s, Read), es);
      StepKeepsInv(After(Step(s, Read), es), Done);
    }
  }

  lemma CheckLeavesNoneDue(s: State, wait: nat, gap: seq<Outside>, now: int, courses: nat -> Course)
    requires s.tick.None? && now == Begun(s, wait, gap).clock
    ensures LeavesNoneDue(s, Step(Checked(s, wait, gap, now, courses), Done),
                          CheckSteps(wait, gap, s.jobs, now, courses), now)
  {
    BegunTick(s, wait, gap);
    CheckedRows(Begun(s, wait, gap), s.jobs, now, courses, |s.jobs|);
    WholeCheckIsRun(s, wait, gap, now, courses);
    NoneDueAtEnd(s, CheckSteps(wait, gap, s.jobs, now, courses), Checked(s, wait, gap, now, courses), now);
  }

  lemma NoneDueAtEnd(s: State, es: seq<Event>, u: State, now: int)
    requires s.tick.None? && u == After(Step(s, Read), es)
    requires u.tick == Some(Tick(s.jobs, Some(now), |s.jobs|, false, None))
    ensures LeavesNoneDue(s, Step(u, Done), es, now)
  {
    if Inv(s) && CalmRun(Step(s, Read), es) {
      StepKeepsInv(s, Read);
      CalmRunKeepsCheck(s.jobs, Step(s, Read), es);
      StepKeepsInv(u, Done);
      forall r | 0 <= r < |s.jobs| && HasBase(s.jobs[r]) ensures r < |u.jobs| && DueAt(u.jobs[r], now).None? {
        NothingLeft(s, es, u, now, r);
      }
    }
  }

  lemma NothingLeft(s: State, es: seq<Event>, u: State, now: int, r: nat)
    requires Inv(s) && s.tick.None? && CalmRun(Step(s, Read), es) && u == After(Step(s, Read), es)
    requires u.tick == Some(Tick(s.jobs, Some(now), |s.jobs|, false, None)) && CheckInv(s.jobs, u)
    requires r < |s.jobs| && HasBase(s.jobs[r])
    ensures DueAt(u.jobs[r], now).None?
  {
    assert Follows(s.jobs[r], u.jobs[r]);
    if u.jobs[r].enabled && DueAt(u.jobs[r], now).Some? {
      DueIffPending(u.jobs[r], now);
      CheckLeavesNothing(s, es, r, DueAt(u.jobs[r], now).value);
      assert false;
    }
  }
}
