/**
 Push notifications (internal/push): which users an alert reaches at once, the queue that
 holds it through a user's quiet hours, and the drains that empty the queue. Database
 writes succeed and a drain is not interleaved with other work.
 */
module Push {
  import opened Lists
  import opened Text
  import Sending

  datatype Alert = Alert(level: string, kind: string, content: string)

  /** Any other level, "critical" included, is an ordinary one. */
  predicate IsCrit(a: Alert) {
    a.level == "crit"
  }

  /** One device of a user. */
  datatype Sub = Sub(id: nat, user: string)

  datatype Row = Row(id: nat, user: string, alert: Alert)

  /** Quiet hours as stored; `zone` is the user's UTC offset in minutes. */
  datatype Window = Window(start: Option<int>, end: Option<int>, zone: int)

  /** An attempt to deliver; `row` is the queue row it came from. */
  datatype Sent = Sent(sub: Sub, alert: Alert, row: Option<nat>)

  /** The tables, with what was ever queued, what drains took out, and every send, in order. */
  datatype State = State(prefs: map<(string, string), bool>, quiet: map<string, Window>, subs: seq<Sub>,
                         queue: seq<Row>, history: seq<Row>, consumed: seq<Row>, sent: seq<Sent>)

  /**
   What the outside answers: the time at the `n`-th device, whether the user of a device has
   the application open, and the replies of the push services to each send.
   */
  datatype Env = Env(clock: nat -> int, active: (nat, nat) -> bool, reply: (nat, nat) -> Sending.Reply,
                     rand: nat -> nat)

  // ---- quiet hours ----

  /** Whole hours, in the user's zone, of a time in seconds. */
  function HourCount(zone: int, now: int): int {
    (now + zone * 60) / 3600
  }

  /** The hour of the day. */
  function LocalHour(zone: int, now: int): (h: int)
    ensures 0 <= h < 24
  {
    HourCount(zone, now) % 24
  }

  predicate QuietHour(start: int, end: int, h: int) {
    if start == end then false
    else if start < end then start <= h < end
    else h >= start || h < end
  }

  predicate InWindow(w: Window, now: int) {
    w.start.Some? && w.end.Some? && QuietHour(w.start.value, w.end.value, LocalHour(w.zone, now))
  }

  predicate InQuiet(quiet: map<string, Window>, user: string, now: int) {
    user in quiet && InWindow(quiet[user], now)
  }

  /** The window is the hours walked clockwise from its start before its end is met. */
  lemma QuietHourClockwise(start: int, end: int, h: int)
    requires 0 <= start < 24 && 0 <= end < 24 && 0 <= h < 24
    ensures QuietHour(start, end, h) <==> (h - start) % 24 < (end - start) % 24
  {
    assert (h - start) % 24 == if h >= start then h - start else h - start + 24;
    assert (end - start) % 24 == if end >= start then end - start else end - start + 24;
  }

  /** The next instant that starts the hour `w.end`. */
  function WindowEnd(w: Window, now: int): int
    requires w.end.Some?
  {
    var hours := HourCount(w.zone, now);
    (hours + (w.end.value - hours) % 24) * 3600 - w.zone * 60
  }

  /** Silence lasts, without a break, until the window's end, at most a day ahead. */
  lemma SilenceEnds(w: Window, now: int)
    requires InWindow(w, now) && 0 <= w.start.value < 24 && 0 <= w.end.value < 24
    ensures now < WindowEnd(w, now) <= now + 24 * 3600
    ensures !InWindow(w, WindowEnd(w, now))
    ensures forall t :: now <= t < WindowEnd(w, now) ==> InWindow(w, t)
  {
    var (s, e) := (w.start.value, w.end.value);
    var hours := HourCount(w.zone, now);
    var k := (e - hours) % 24;
    HoursLeft(s, e, hours);
    HourAfter(w.zone, now, WindowEnd(w, now));
    assert HourCount(w.zone, WindowEnd(w, now)) == hours + k;
    forall t | now <= t < WindowEnd(w, now) ensures InWindow(w, t) {
      HourAfter(w.zone, now, t);
      HourInside(s, e, hours, HourCount(w.zone, t) - hours);
    }
  }

  lemma HoursLeft(s: int, e: int, hours: int)
    requires 0 <= s < 24 && 0 <= e < 24 && QuietHour(s, e, hours % 24)
    ensures var k := (e - hours) % 24; 0 < k < 24 && (hours + k) % 24 == e && !QuietHour(s, e, (hours + k) % 24)
  {
    var (h, q) := (hours % 24, hours / 24);
    assert hours == 24 * q + h;
    var k := if e >= h then e - h else e - h + 24;
    assert e - hours == 24 * (if e >= h then -q else -q - 1) + k;
    DayHour(if e >= h then -q else -q - 1, k);
    assert hours + k == 24 * (if e >= h then q else q + 1) + e;
    DayHour(if e >= h then q else q + 1, e);
  }

  lemma DayHour(q: int, h: int)
    requires 0 <= h < 24
    ensures (24 * q + h) % 24 == h
  {
  }

  /** Hours pass with the seconds. */
  lemma HourAfter(zone: int, now: int, t: int)
    requires now <= t
    ensures HourCount(zone, now) <= HourCount(zone, t)
    ensures HourCount(zone, t) * 3600 <= t + zone * 60 < HourCount(zone, t) * 3600 + 3600
  {
  }

  lemma HourInside(s: int, e: int, hours: int, j: int)
    requires 0 <= s < 24 && 0 <= e < 24 && QuietHour(s, e, hours % 24) && 0 <= j < (e - hours) % 24
    ensures QuietHour(s, e, (hours + j) % 24)
  {
    var (h, q) := (hours % 24, hours / 24);
    var k := if e >= h then e - h else e - h + 24;
    assert e - hours == 24 * (if e >= h then -q else -q - 1) + k;
    DayHour(if e >= h then -q else -q - 1, k);
    var x := if h + j < 24 then h + j else h + j - 24;
    assert hours + j == 24 * (if h + j < 24 then q else q + 1) + x;
    DayHour(if h + j < 24 then q else q + 1, x);
  }

  // ---- the tables ----

  predicate Enabled(s: State, user: string, kind: string) {
    (user, kind) !in s.prefs || s.prefs[(user, kind)]
  }

  function ByUser(rows: seq<Row>, user: string): seq<Row> {
    if rows == [] then []
    else
      var row := rows[|rows| - 1];
      var front := ByUser(rows[..|rows| - 1], user);
      if row.user == user then front + [row] else front
  }

  function NotBy(rows: seq<Row>, user: string): seq<Row> {
    if rows == [] then []
    else
      var row := rows[|rows| - 1];
      var front := NotBy(rows[..|rows| - 1], user);
      if row.user == user then front else front + [row]
  }

  function SubsOf(subs: seq<Sub>, user: string): seq<Sub> {
    if subs == [] then []
    else
      var sub := subs[|subs| - 1];
      var front := SubsOf(subs[..|subs| - 1], user);
      if sub.user == user then front + [sub] else front
  }

  function Without(subs: seq<Sub>, id: nat): seq<Sub> {
    if subs == [] then []
    else
      var sub := subs[|subs| - 1];
      var front := Without(subs[..|subs| - 1], id);
      if sub.id == id then front else front + [sub]
  }

  function IfBy(row: Row, u: string): seq<Row> {
    if row.user == u then [row] else []
  }

  lemma ByUserSnoc(rows: seq<Row>, row: Row, u: string)
    ensures ByUser(rows + [row], u) == ByUser(rows, u) + IfBy(row, u)
  {
    assert (rows + [row])[..|rows|] == rows;
  }

  lemma {:induction false} ByUserConcat(a: seq<Row>, b: seq<Row>, u: string)
    ensures ByUser(a + b, u) == ByUser(a, u) + ByUser(b, u)
  {
    if b == [] {
      assert a + b == a;
    } else {
      var (front, row) := (b[..|b| - 1], b[|b| - 1]);
      ByUserConcat(a, front, u);
      ConcatSnoc(a, front, row, u);
      assert b == front + [row];
    }
  }

  lemma ConcatSnoc(a: seq<Row>, b: seq<Row>, row: Row, u: string)
    requires ByUser(a + b, u) == ByUser(a, u) + ByUser(b, u)
    ensures ByUser(a + (b + [row]), u) == ByUser(a, u) + ByUser(b + [row], u)
  {
    ByUserSnoc(a + b, row, u);
    ByUserSnoc(b, row, u);
    ConcatAssociates(a, b, [row]);
    ConcatAssociates(ByUser(a, u), ByUser(b, u), IfBy(row, u));
  }

  lemma {:induction false} ByUserIs(rows: seq<Row>, u: string, i: nat)
    requires i < |ByUser(rows, u)|
    ensures ByUser(rows, u)[i].user == u && ByUser(rows, u)[i] in rows
  {
    var front := rows[..|rows| - 1];
    if i < |ByUser(front, u)| { ByUserIs(front, u, i); }
  }

  lemma {:induction false} ByUserNotBy(rows: seq<Row>, v: string, u: string)
    ensures ByUser(NotBy(rows, v), u) == if u == v then [] else ByUser(rows, u)
  {
    if rows == [] {
    } else {
      var n := |rows| - 1;
      ByUserNotBy(rows[..n], v, u);
      ByUserSnoc(NotBy(rows[..n], v), rows[n], u);
    }
  }

  lemma {:induction false} ByUserByUser(rows: seq<Row>, v: string, u: string)
    ensures ByUser(ByUser(rows, v), u) == if u == v then ByUser(rows, u) else []
  {
    if rows == [] {
    } else {
      var n := |rows| - 1;
      ByUserByUser(rows[..n], v, u);
      ByUserSnoc(ByUser(rows[..n], v), rows[n], u);
    }
  }

  lemma {:induction false} RowIsItsUsers(rows: seq<Row>, row: Row)
    requires row in rows
    ensures row in ByUser(rows, row.user)
  {
    var n := |rows| - 1;
    assert rows == rows[..n] + [rows[n]];
    if row != rows[n] { RowIsItsUsers(rows[..n], row); }
  }

  // ---- sending and queueing one alert ----

  function Attempted(s: State, sub: Sub, a: Alert, row: Option<nat>, env: Env): State {
    var dead := Sending.Result(env.reply, |s.sent|, 0).Gone?;
    s.(sent := s.sent + [Sent(sub, a, row)], subs := if dead then Without(s.subs, sub.id) else s.subs)
  }

  /** AUTOINCREMENT numbers the rows in the order they were ever queued. */
  function Enqueued(s: State, user: string, a: Alert): State {
    var row := Row(|s.history| + 1, user, a);
    s.(queue := s.queue + [row], history := s.history + [row])
  }

  datatype Decision = Omit | Hold | Send

  function Decided(s: State, user: string, a: Alert, now: int): Decision {
    if IsCrit(a) then Send
    else if !Enabled(s, user, a.kind) then Omit
    else if InQuiet(s.quiet, user, now) then Hold
    else Send
  }

  /** The row added at a device, if it is the first of a user whose fate is to wait. */
  function HeldAt(t: State, ds: map<string, Decision>, sub: Sub, n: nat, a: Alert, env: Env): seq<Row> {
    if sub.user !in ds && Decided(t, sub.user, a, env.clock(n)).Hold? then [Row(|t.history| + 1, sub.user, a)] else []
  }

  /** One turn of Notify's loop, at the `n`-th device, with the decisions taken so far. */
  function Noticed(t: State, ds: map<string, Decision>, sub: Sub, n: nat, a: Alert, env: Env)
    : (r: (State, map<string, Decision>))
    ensures r.0 == t.(queue := r.0.queue, history := r.0.history, subs := r.0.subs, sent := r.0.sent)
    ensures var held := HeldAt(t, ds, sub, n, a, env);
            r.0.queue == t.queue + held && r.0.history == t.history + held
  {
    var d := if sub.user in ds then ds[sub.user] else Decided(t, sub.user, a, env.clock(n));
    var held := if sub.user !in ds && d.Hold? then Enqueued(t, sub.user, a) else t;
    (if !d.Send? || (!IsCrit(a) && env.active(0, n)) then held else Attempted(held, sub, a, None, env),
     ds[sub.user := d])
  }

  function Notified(s: State, listed: seq<Sub>, a: Alert, env: Env): (r: (State, map<string, Decision>))
    ensures r.0.prefs == s.prefs && r.0.quiet == s.quiet && r.0.consumed == s.consumed
  {
    if listed == [] then (s, map[])
    else
      var n := |listed| - 1;
      var (t, ds) := Notified(s, listed[..n], a, env);
      Noticed(t, ds, listed[n], n, a, env)
  }

  lemma NotifiedSnoc(s: State, listed: seq<Sub>, n: nat, a: Alert, env: Env)
    requires n < |listed|
    ensures var (t, ds) := Notified(s, listed[..n], a, env);
            Notified(s, listed[..n + 1], a, env) == Noticed(t, ds, listed[n], n, a, env)
  {
    assert listed[..n + 1][..n] == listed[..n];
  }

  /** A drain sends a queued alert to the user's devices until the application is seen open. */
  function Delivered(s: State, subs: seq<Sub>, row: Row, env: Env, j: nat): (t: State)
    requires j <= |subs|
    ensures t == s.(sent := t.sent, subs := t.subs)
    decreases |subs| - j
  {
    if j == |subs| || (!IsCrit(row.alert) && env.active(row.id, j)) then s
    else Delivered(Attempted(s, subs[j], row.alert, Some(row.id), env), subs, row, env, j + 1)
  }

  function DrainedRows(s: State, subs: seq<Sub>, rows: seq<Row>, env: Env): (t: State)
    ensures t == s.(sent := t.sent, subs := t.subs)
  {
    if rows == [] then s
    else
      var t := DrainedRows(s, subs, rows[..|rows| - 1], env);
      var row := rows[|rows| - 1];
      if Enabled(t, row.user, row.alert.kind) then Delivered(t, subs, row, env, 0) else t
  }

  function DrainedUser(s: State, user: string, env: Env): State {
    var items := ByUser(s.queue, user);
    var t := DrainedRows(s, SubsOf(s.subs, user), items, env);
    t.(queue := NotBy(t.queue, user), consumed := t.consumed + items)
  }

  function Drained(s: State, users: seq<string>, now: int, env: Env): (t: State)
    ensures t.prefs == s.prefs && t.quiet == s.quiet && t.history == s.history
  {
    if users == [] then s
    else
      var t := Drained(s, users[..|users| - 1], now, env);
      var u := users[|users| - 1];
      if InQuiet(t.quiet, u, now) then t else DrainedUser(t, u, env)
  }

  /** SELECT DISTINCT user_id, in the order of first appearance. */
  function Users(rows: seq<Row>): (us: seq<string>)
    ensures forall i, j :: 0 <= i < j < |us| ==> us[i] != us[j]
    ensures forall u :: u in us <==> ByUser(rows, u) != []
  {
    if rows == [] then []
    else
      var (us, row) := (Users(rows[..|rows| - 1]), rows[|rows| - 1]);
      if row.user in us then us else us + [row.user]
  }

  // ---- the sender ----

  class Sender {
    var prefs: map<(string, string), bool>
    var quiet: map<string, Window>
    var subs: seq<Sub>
    var queue: seq<Row>
    var lastId: nat
    ghost var history: seq<Row>
    ghost var consumed: seq<Row>
    ghost var sent: seq<Sent>

    ghost function View(): State
      reads this
    {
      State(prefs, quiet, subs, queue, history, consumed, sent)
    }

    ghost predicate Valid()
      reads this
    {
      lastId == |history|
    }

    method PrefEnabled(user: string, kind: string) returns (b: bool)
      ensures b == Enabled(View(), user, kind)
    {
      if (user, kind) !in prefs { return true; }
      b := prefs[(user, kind)];
    }

    method Enqueue(user: string, a: Alert)
      requires Valid()
      modifies this
      ensures Valid() && View() == Enqueued(old(View()), user, a)
    {
      lastId := lastId + 1;
      queue := queue + [Row(lastId, user, a)];
      history := history + [Row(lastId, user, a)];
    }

    method SendTo(sub: Sub, a: Alert, ghost row: Option<nat>, number: nat, env: Env)
      requires Valid() && number == |sent|
      modifies this
      ensures Valid() && View() == Attempted(old(View()), sub, a, row, env)
    {
      var out, _ := Sending.Transmit(env.reply, env.rand, number);
      if out.Gone? {
        var kept := [];
        for i := 0 to |subs|
          invariant kept == Without(subs[..i], sub.id) && View() == old(View()) && Valid()
        {
          assert subs[..i + 1][..i] == subs[..i];
          if subs[i].id != sub.id { kept := kept + [subs[i]]; }
        }
        assert subs[..|subs|] == subs;
        subs := kept;
      }
      sent := sent + [Sent(sub, a, row)];
    }

    /** The decision for a user met for the first time; a held alert is queued. */
    method Decide(user: string, a: Alert, now: int) returns (d: Decision)
      requires Valid()
      modifies this
      ensures Valid() && d == Decided(old(View()), user, a, now) && sent == old(sent)
      ensures View() == if d.Hold? then Enqueued(old(View()), user, a) else old(View())
    {
      d := Send;
      if IsCrit(a) { return; }
      var enabled := PrefEnabled(user, a.kind);
      if !enabled {
        d := Omit;
      } else if InQuiet(quiet, user, now) {
        Enqueue(user, a);
        d := Hold;
      }
    }

    method Notify(a: Alert, sends: nat, env: Env)
      requires Valid() && sends == |sent|
      modifies this
      ensures Valid() && View() == Notified(old(View()), old(subs), a, env).0
    {
      var listed := subs;
      var decisions: map<string, Decision> := map[];
      var count := sends;
      for n := 0 to |listed|
        invariant Valid() && count == |sent|
        invariant (View(), decisions) == Notified(old(View()), listed[..n], a, env)
      {
        NotifiedSnoc(old(View()), listed, n, a, env);
        decisions, count := Notice(listed[n], n, decisions, a, count, env);
      }
      assert listed[..|listed|] == listed;
    }

    /** One turn of the loop. */
    method Notice(sub: Sub, n: nat, was: map<string, Decision>, a: Alert, sends: nat, env: Env)
      returns (decisions: map<string, Decision>, count: nat)
      requires Valid() && sends == |sent|
      modifies this
      ensures Valid() && count == |sent| && (View(), decisions) == Noticed(old(View()), was, sub, n, a, env)
    {
      var d;
      if sub.user in was {
        d := was[sub.user];
      } else {
        d := Decide(sub.user, a, env.clock(n));
      }
      decisions, count := was[sub.user := d], sends;
      if d == Omit || d == Hold { return; }
      if !IsCrit(a) && env.active(0, n) { return; }
      SendTo(sub, a, None, count, env);
      count := count + 1;
    }

    method ListUser(user: string) returns (r: seq<Sub>)
      ensures r == SubsOf(subs, user)
    {
      r := [];
      for i := 0 to |subs|
        invariant r == SubsOf(subs[..i], user)
      {
        assert subs[..i + 1][..i] == subs[..i];
        if subs[i].user == user { r := r + [subs[i]]; }
      }
      assert subs[..|subs|] == subs;
    }

    method Items(user: string) returns (r: seq<Row>)
      ensures r == ByUser(queue, user)
    {
      r := [];
      for i := 0 to |queue|
        invariant r == ByUser(queue[..i], user)
      {
        assert queue[..i + 1][..i] == queue[..i];
        if queue[i].user == user { r := r + [queue[i]]; }
      }
      assert queue[..|queue|] == queue;
    }

    method ClearQueue(user: string)
      requires Valid()
      modifies this`queue
      ensures Valid() && queue == NotBy(old(queue), user)
    {
      var kept := [];
      for i := 0 to |queue|
        invariant kept == NotBy(queue[..i], user)
      {
        assert queue[..i + 1][..i] == queue[..i];
        if queue[i].user != user { kept := kept + [queue[i]]; }
      }
      assert queue[..|queue|] == queue;
      queue := kept;
    }

    /** The inner loop of drainUser. */
    method Deliver(devices: seq<Sub>, row: Row, sends: nat, env: Env) returns (count: nat)
      requires Valid() && sends == |sent|
      modifies this
      ensures Valid() && count == |sent| && View() == Delivered(old(View()), devices, row, env, 0)
    {
      count := sends;
      var j := 0;
      while j < |devices|
        invariant Valid() && count == |sent| && 0 <= j <= |devices|
        invariant Delivered(View(), devices, row, env, j) == Delivered(old(View()), devices, row, env, 0)
      {
        if !IsCrit(row.alert) && env.active(row.id, j) { break; }
        SendTo(devices[j], row.alert, Some(row.id), count, env);
        count := count + 1;
        j := j + 1;
      }
    }

    method DrainUser(user: string, sends: nat, env: Env) returns (count: nat)
      requires Valid() && sends == |sent|
      modifies this
      ensures Valid() && count == |sent| && View() == DrainedUser(old(View()), user, env)
    {
      count := sends;
      var items := Items(user);
      if items == [] {
        ClearQueue(user);
        assert consumed + [] == consumed;
        return;
      }
      var devices := ListUser(user);
      for i := 0 to |items|
        invariant Valid() && count == |sent| && View() == DrainedRows(old(View()), devices, items[..i], env)
      {
        assert items[..i + 1][..i] == items[..i];
        ByUserIs(queue, user, i);
        var enabled := PrefEnabled(user, items[i].alert.kind);
        if !enabled { continue; }
        count := Deliver(devices, items[i], count, env);
      }
      assert items[..|items|] == items;
      consumed := consumed + items;
      ClearQueue(user);
    }

    method DrainQueue(now: int, sends: nat, env: Env)
      requires Valid() && sends == |sent|
      modifies this
      ensures Valid() && View() == Drained(old(View()), Users(old(queue)), now, env)
    {
      var users := Users(queue);
      var count := sends;
      for i := 0 to |users|
        invariant Valid() && count == |sent| && View() == Drained(old(View()), users[..i], now, env)
      {
        assert users[..i + 1][..i] == users[..i];
        if InQuiet(quiet, users[i], now) { continue; }
        count := DrainUser(users[i], count, env);
      }
      assert users[..|users|] == users;
    }
  }

  // ---- what one alert does ----

  /** The first device listed for a user. */
  function First(listed: seq<Sub>, user: string): (i: nat)
    ensures i <= |listed|
  {
    if listed == [] then 0
    else
      var i := First(listed[..|listed| - 1], user);
      if i < |listed| - 1 || listed[|listed| - 1].user == user then i else |listed|
  }

  lemma {:induction false} FirstIsFirst(listed: seq<Sub>, user: string)
    ensures var i := First(listed, user);
            && (forall k :: 0 <= k < i ==> listed[k].user != user)
            && (i < |listed| ==> listed[i].user == user)
  {
    if listed == [] {
    } else {
      FirstIsFirst(listed[..|listed| - 1], user);
    }
  }

  /** What becomes of an alert for a user with a device: decided once, at the first device. */
  function Fate(s: State, listed: seq<Sub>, a: Alert, env: Env, user: string): Decision {
    Decided(s, user, a, env.clock(First(listed, user)))
  }

  lemma FirstSnoc(front: seq<Sub>, sub: Sub, u: string)
    ensures First(front + [sub], u) ==
            if First(front, u) < |front| || sub.user == u then First(front, u) else |front| + 1
  {
    assert (front + [sub])[..|front|] == front;
  }

  lemma NotifiedLast(s: State, front: seq<Sub>, sub: Sub, a: Alert, env: Env)
    ensures var (t, ds) := Notified(s, front, a, env);
            Notified(s, front + [sub], a, env) == Noticed(t, ds, sub, |front|, a, env)
  {
    assert (front + [sub])[..|front|] == front;
  }

  /** The decision about `u` after these devices: none before their first device, their fate from then on. */
  predicate IsDecided(s: State, ds: map<string, Decision>, listed: seq<Sub>, a: Alert, env: Env, u: string) {
    if u in ds then First(listed, u) < |listed| && ds[u] == Fate(s, listed, a, env, u)
    else First(listed, u) == |listed|
  }

  lemma {:induction false} DecisionIsFate(s: State, listed: seq<Sub>, a: Alert, env: Env, u: string)
    ensures IsDecided(s, Notified(s, listed, a, env).1, listed, a, env, u)
  {
    if listed == [] {
    } else {
      var (front, sub) := (listed[..|listed| - 1], listed[|listed| - 1]);
      DecisionIsFate(s, front, a, env, u);
      DecidedNext(s, front, sub, a, env, u);
      assert listed == front + [sub];
    }
  }

  lemma DecidedNext(s: State, front: seq<Sub>, sub: Sub, a: Alert, env: Env, u: string)
    requires IsDecided(s, Notified(s, front, a, env).1, front, a, env, u)
    ensures IsDecided(s, Notified(s, front + [sub], a, env).1, front + [sub], a, env, u)
  {
    FirstSnoc(front, sub, u);
    NotifiedLast(s, front, sub, a, env);
    SameDecision(s, Notified(s, front, a, env).0, sub.user, a, env.clock(|front|));
  }

  /** The rows an alert adds: one at the first device of each user whose fate is to wait. */
  function NewRows(s: State, listed: seq<Sub>, a: Alert, env: Env): seq<Row> {
    if listed == [] then []
    else
      var (n, v) := (|listed| - 1, listed[|listed| - 1].user);
      var rows := NewRows(s, listed[..n], a, env);
      if First(listed[..n], v) == n && Fate(s, listed, a, env, v).Hold?
      then rows + [Row(|s.history| + |rows| + 1, v, a)] else rows
  }

  /** Rows of the alert that take the ids after `n`. */
  predicate AreNext(rows: seq<Row>, n: nat, a: Alert) {
    forall i :: 0 <= i < |rows| ==> rows[i].id == n + i + 1 && rows[i].alert == a
  }

  lemma {:induction false} NewRowsAre(s: State, listed: seq<Sub>, a: Alert, env: Env)
    ensures AreNext(NewRows(s, listed, a, env), |s.history|, a)
  {
    if listed == [] {
    } else {
      NewRowsAre(s, listed[..|listed| - 1], a, env);
    }
  }

  lemma NewRowsSnoc(s: State, listed: seq<Sub>, a: Alert, env: Env, t: State, ds: map<string, Decision>)
    requires listed != [] && t.prefs == s.prefs && t.quiet == s.quiet
    requires |t.history| == |s.history| + |NewRows(s, listed[..|listed| - 1], a, env)|
    requires var (n, v) := (|listed| - 1, listed[|listed| - 1].user); v in ds <==> First(listed[..n], v) < n
    ensures var n := |listed| - 1;
            NewRows(s, listed, a, env) == NewRows(s, listed[..n], a, env) + HeldAt(t, ds, listed[n], n, a, env)
  {
    var (n, v) := (|listed| - 1, listed[|listed| - 1].user);
    var rows := NewRows(s, listed[..n], a, env);
    if First(listed[..n], v) == n {
      NewRowsFirst(s, listed, a, env, v, n, rows);
      HeldFirst(s, t, ds, listed[n], n, a, env, rows);
    } else {
      NewRowsLater(s, listed, a, env, v, n);
      assert HeldAt(t, ds, listed[n], n, a, env) == [];
      assert rows + [] == rows;
    }
  }

  lemma HeldFirst(s: State, t: State, ds: map<string, Decision>, sub: Sub, n: nat, a: Alert, env: Env, rows: seq<Row>)
    requires t.prefs == s.prefs && t.quiet == s.quiet && |t.history| == |s.history| + |rows| && sub.user !in ds
    ensures HeldAt(t, ds, sub, n, a, env) ==
            if Decided(s, sub.user, a, env.clock(n)).Hold? then [Row(|s.history| + |rows| + 1, sub.user, a)] else []
  {
    SameDecision(s, t, sub.user, a, env.clock(n));
  }

  lemma NewRowsLater(s: State, listed: seq<Sub>, a: Alert, env: Env, v: string, n: nat)
    requires |listed| == n + 1 && v == listed[n].user && First(listed[..n], v) != n
    ensures NewRows(s, listed, a, env) == NewRows(s, listed[..n], a, env)
  {
  }

  lemma NewRowsFirst(s: State, listed: seq<Sub>, a: Alert, env: Env, v: string, n: nat, rows: seq<Row>)
    requires |listed| == n + 1 && v == listed[n].user && First(listed[..n], v) == n
    requires rows == NewRows(s, listed[..n], a, env)
    ensures NewRows(s, listed, a, env) ==
            rows + if Decided(s, v, a, env.clock(n)).Hold? then [Row(|s.history| + |rows| + 1, v, a)] else []
  {
    FirstAtEnd(listed);
  }

  lemma FirstAtEnd(listed: seq<Sub>)
    requires listed != []
    ensures var (n, v) := (|listed| - 1, listed[|listed| - 1].user);
            First(listed[..n], v) == n ==> First(listed, v) == n
  {
  }

  lemma SameDecision(s: State, t: State, user: string, a: Alert, now: int)
    requires s.prefs == t.prefs && s.quiet == t.quiet
    ensures Decided(s, user, a, now) == Decided(t, user, a, now)
  {
  }

  lemma {:induction false} NotifyQueues(s: State, listed: seq<Sub>, a: Alert, env: Env)
    ensures AddsRows(s, Notified(s, listed, a, env).0, NewRows(s, listed, a, env))
  {
    if listed == [] {
    } else {
      var (front, sub) := (listed[..|listed| - 1], listed[|listed| - 1]);
      NotifyQueues(s, front, a, env);
      AddsNext(s, front, sub, a, env);
      assert listed == front + [sub];
    }
  }

  predicate AddsRows(s: State, t: State, rows: seq<Row>) {
    t.queue == s.queue + rows && t.history == s.history + rows
  }

  lemma AddsMore(s: State, t: State, rows: seq<Row>, u: State, held: seq<Row>)
    requires AddsRows(s, t, rows) && AddsRows(t, u, held)
    ensures AddsRows(s, u, rows + held)
  {
    assert s.queue + rows + held == s.queue + (rows + held);
    assert s.history + rows + held == s.history + (rows + held);
  }

  lemma AddsNext(s: State, front: seq<Sub>, sub: Sub, a: Alert, env: Env)
    requires AddsRows(s, Notified(s, front, a, env).0, NewRows(s, front, a, env))
    ensures AddsRows(s, Notified(s, front + [sub], a, env).0, NewRows(s, front + [sub], a, env))
  {
    var (listed, (t, ds)) := (front + [sub], Notified(s, front, a, env));
    assert listed[..|front|] == front;
    NotifiedLast(s, front, sub, a, env);
    DecisionIsFate(s, front, a, env, sub.user);
    NewRowsSnoc(s, listed, a, env, t, ds);
    AddsMore(s, t, NewRows(s, front, a, env), Notified(s, listed, a, env).0, HeldAt(t, ds, sub, |front|, a, env));
  }

  /** How many rows a user is to get. */
  function Waits(s: State, listed: seq<Sub>, a: Alert, env: Env, u: string): nat {
    if First(listed, u) < |listed| && Fate(s, listed, a, env, u).Hold? then 1 else 0
  }

  /** Each user whose fate is to wait gets exactly one row, however many devices; nobody else any. */
  lemma QueuedOnce(s: State, listed: seq<Sub>, a: Alert, env: Env, u: string)
    ensures |ByUser(NewRows(s, listed, a, env), u)| == Waits(s, listed, a, env, u)
  {
    QueuedUpTo(s, listed, |listed|, a, env, u);
    assert listed[..|listed|] == listed;
  }

  lemma QueuedUpTo(s: State, listed: seq<Sub>, n: nat, a: Alert, env: Env, u: string)
    requires n <= |listed|
    ensures |ByUser(NewRows(s, listed[..n], a, env), u)| == Waits(s, listed[..n], a, env, u)
  {
    NoneQueued(s, a, env, u);
    for i := 0 to n
      invariant |ByUser(NewRows(s, listed[..i], a, env), u)| == Waits(s, listed[..i], a, env, u)
    {
      QueuedAt(s, listed, i, a, env, u);
    }
  }

  lemma QueuedAt(s: State, listed: seq<Sub>, i: nat, a: Alert, env: Env, u: string)
    requires i < |listed| && |ByUser(NewRows(s, listed[..i], a, env), u)| == Waits(s, listed[..i], a, env, u)
    ensures |ByUser(NewRows(s, listed[..i + 1], a, env), u)| == Waits(s, listed[..i + 1], a, env, u)
  {
    PrefixSnoc(listed, i);
    QueuedNext(s, listed[..i], listed[i], listed[..i + 1], a, env, u);
  }

  lemma NoneQueued(s: State, a: Alert, env: Env, u: string)
    ensures |ByUser(NewRows(s, [], a, env), u)| == Waits(s, [], a, env, u)
  {
  }

  lemma QueuedNext(s: State, front: seq<Sub>, sub: Sub, listed: seq<Sub>, a: Alert, env: Env, u: string)
    requires listed == front + [sub]
    requires |ByUser(NewRows(s, front, a, env), u)| == Waits(s, front, a, env, u)
    ensures |ByUser(NewRows(s, listed, a, env), u)| == Waits(s, listed, a, env, u)
  {
    var (n, rows) := (|front|, NewRows(s, front, a, env));
    assert listed[..n] == front;
    if First(front, sub.user) == n {
      NewRowsFirst(s, listed, a, env, sub.user, n, rows);
      RowsGrow(s, rows, sub, n, a, env, u);
      WaitsFirst(s, front, sub, a, env, u);
    } else {
      NewRowsLater(s, listed, a, env, sub.user, n);
      FirstSnoc(front, sub, u);
    }
  }

  /** The row, if any, that the first device of a user adds. */
  lemma RowsGrow(s: State, rows: seq<Row>, sub: Sub, n: nat, a: Alert, env: Env, u: string)
    ensures var hold := Decided(s, sub.user, a, env.clock(n)).Hold?;
            |ByUser(rows + if hold then [Row(|s.history| + |rows| + 1, sub.user, a)] else [], u)| ==
            |ByUser(rows, u)| + if hold && sub.user == u then 1 else 0
  {
    ByUserSnoc(rows, Row(|s.history| + |rows| + 1, sub.user, a), u);
    assert rows + [] == rows;
  }

  lemma WaitsFirst(s: State, front: seq<Sub>, sub: Sub, a: Alert, env: Env, u: string)
    requires First(front, sub.user) == |front|
    ensures Waits(s, front + [sub], a, env, u) == Waits(s, front, a, env, u)
              + if Decided(s, sub.user, a, env.clock(|front|)).Hold? && sub.user == u then 1 else 0
  {
    FirstSnoc(front, sub, u);
  }

  /** A sleeping user with the type enabled finds the alert, once, at the end of their queue. */
  lemma SleeperGetsOneRow(s: State, a: Alert, env: Env, u: string)
    requires exists k :: 0 <= k < |s.subs| && s.subs[k].user == u
    requires !IsCrit(a) && Enabled(s, u, a.kind) && InQuiet(s.quiet, u, env.clock(First(s.subs, u)))
    ensures var t := Step(s, Notify(a, env));
            && |ByUser(t.queue, u)| == |ByUser(s.queue, u)| + 1
            && ByUser(t.queue, u)[..|ByUser(s.queue, u)|] == ByUser(s.queue, u)
            && ByUser(t.queue, u)[|ByUser(s.queue, u)|].alert == a
  {
    FirstIsFirst(s.subs, u);
    NotifyQueues(s, s.subs, a, env);
    QueuedOnce(s, s.subs, a, env, u);
    var rows := NewRows(s, s.subs, a, env);
    NewRowsAre(s, s.subs, a, env);
    ByUserConcat(s.queue, rows, u);
    ByUserIs(rows, u, 0);
  }

  /** Exactly one send of the alert to each device listed, in order, was added. */
  predicate SentToAll(before: seq<Sent>, after: seq<Sent>, listed: seq<Sub>, a: Alert) {
    && |after| == |before| + |listed| && after[..|before|] == before
    && forall i :: 0 <= i < |listed| ==> after[|before| + i] == Sent(listed[i], a, None)
  }

  lemma SentToOneMore(before: seq<Sent>, after: seq<Sent>, listed: seq<Sub>, sub: Sub, a: Alert)
    requires SentToAll(before, after, listed, a)
    ensures SentToAll(before, after + [Sent(sub, a, None)], listed + [sub], a)
  {
  }

  /** A broken backup chain is raised as "critical": it waits for the end of the quiet hours like any other alert. */
  lemma CriticalWaits(s: State, a: Alert, env: Env, u: string)
    requires exists k :: 0 <= k < |s.subs| && s.subs[k].user == u
    requires a.level == "critical" && InQuiet(s.quiet, u, env.clock(First(s.subs, u)))
    ensures var t := Step(s, Notify(a, env));
            |ByUser(t.queue, u)| == |ByUser(s.queue, u)| + if Enabled(s, u, a.kind) then 1 else 0
    ensures var t := Step(s, Notify(a, env));
            forall k :: |s.sent| <= k < |t.sent| ==> t.sent[k].sub.user != u
  {
    assert !IsCrit(a);
    FirstIsFirst(s.subs, u);
    NotifyQueues(s, s.subs, a, env);
    QueuedOnce(s, s.subs, a, env, u);
    ByUserConcat(s.queue, NewRows(s, s.subs, a, env), u);
    SilenceIsKept(s, s.subs, a, env);
  }

  /** One device's turn of a "crit" alert, whose user's decision, if any, is to send. */
  lemma CritTurn(t: State, ds: map<string, Decision>, sub: Sub, n: nat, a: Alert, env: Env)
    requires IsCrit(a) && (sub.user in ds ==> ds[sub.user].Send?)
    ensures var r := Noticed(t, ds, sub, n, a, env).0;
            r.queue == t.queue && r.history == t.history && r.sent == t.sent + [Sent(sub, a, None)]
  {
  }

  /** A "crit" alert is attempted on every device listed, in order, and never queued. */
  lemma {:induction false} CritReachesEveryDevice(s: State, listed: seq<Sub>, a: Alert, env: Env)
    requires IsCrit(a)
    ensures var t := Notified(s, listed, a, env).0;
            t.queue == s.queue && t.history == s.history && SentToAll(s.sent, t.sent, listed, a)
  {
    if listed == [] {
    } else {
      var (n, front, sub) := (|listed| - 1, listed[..|listed| - 1], listed[|listed| - 1]);
      var (t, ds) := Notified(s, front, a, env);
      CritReachesEveryDevice(s, front, a, env);
      DecisionIsFate(s, front, a, env, sub.user);
      CritTurn(t, ds, sub, n, a, env);
      SentToOneMore(s.sent, t.sent, front, sub, a);
      assert listed == front + [sub];
    }
  }

  /** A send of the alert to a user who has a device, enabled the type, and was awake at the first of their devices. */
  predicate SentAwake(s: State, x: Sent, listed: seq<Sub>, a: Alert, env: Env) {
    var u := x.sub.user;
    && x.alert == a && Enabled(s, u, a.kind)
    && First(listed, u) < |listed| && !InQuiet(s.quiet, u, env.clock(First(listed, u)))
  }

  /** The sends after the first `n` are such. */
  predicate AllAwake(s: State, n: nat, sent: seq<Sent>, listed: seq<Sub>, a: Alert, env: Env) {
    forall k :: n <= k < |sent| ==> SentAwake(s, sent[k], listed, a, env)
  }

  lemma StillAwake(s: State, n: nat, sent: seq<Sent>, front: seq<Sub>, sub: Sub, a: Alert, env: Env)
    requires AllAwake(s, n, sent, front, a, env)
    ensures AllAwake(s, n, sent, front + [sub], a, env)
  {
    forall k | n <= k < |sent| ensures SentAwake(s, sent[k], front + [sub], a, env) {
      assert SentAwake(s, sent[k], front, a, env);
      FirstSnoc(front, sub, sent[k].sub.user);
    }
  }

  /** A device is sent to at its turn only if its user's decision is to send. */
  lemma TurnIsAwake(s: State, front: seq<Sub>, sub: Sub, a: Alert, env: Env)
    requires !IsCrit(a)
    ensures var (t, ds) := Notified(s, front, a, env);
            var r := Noticed(t, ds, sub, |front|, a, env).0;
            r.sent == t.sent || (r.sent == t.sent + [Sent(sub, a, None)]
                                 && SentAwake(s, Sent(sub, a, None), front + [sub], a, env))
  {
    DecisionIsFate(s, front, a, env, sub.user);
    FirstSnoc(front, sub, sub.user);
  }

  /** Any other alert is sent at once only to users who enabled it and are awake. */
  lemma {:induction false} SilenceIsKept(s: State, listed: seq<Sub>, a: Alert, env: Env)
    requires !IsCrit(a)
    ensures var t := Notified(s, listed, a, env).0;
            s.sent <= t.sent && AllAwake(s, |s.sent|, t.sent, listed, a, env)
  {
    if listed == [] {
    } else {
      var (front, sub) := (listed[..|listed| - 1], listed[|listed| - 1]);
      SilenceIsKept(s, front, a, env);
      SilenceNext(s, front, sub, a, env);
      assert listed == front + [sub];
    }
  }

  lemma SilenceNext(s: State, front: seq<Sub>, sub: Sub, a: Alert, env: Env)
    requires !IsCrit(a) && s.sent <= Notified(s, front, a, env).0.sent
    requires AllAwake(s, |s.sent|, Notified(s, front, a, env).0.sent, front, a, env)
    ensures var t := Notified(s, front + [sub], a, env).0;
            s.sent <= t.sent && AllAwake(s, |s.sent|, t.sent, front + [sub], a, env)
  {
    StillAwake(s, |s.sent|, Notified(s, front, a, env).0.sent, front, sub, a, env);
    TurnIsAwake(s, front, sub, a, env);
    NotifiedLast(s, front, sub, a, env);
  }

  /** Enabled unless the user switched the type off. */
  predicate SwitchedOn(s: State, user: string, kind: string) {
    !((user, kind) in s.prefs && !s.prefs[(user, kind)])
  }

  /** The time lies in the user's window, walked clockwise from its start; an incomplete window is none. */
  predicate Sleeps(s: State, user: string, now: int) {
    && user in s.quiet && s.quiet[user].start.Some? && s.quiet[user].end.Some?
    && var (w, hour) := (s.quiet[user], (now + s.quiet[user].zone * 60) / 3600 % 24);
       (hour - w.start.value) % 24 < (w.end.value - w.start.value) % 24
  }

  /** The hours of a window are hours of the day. */
  predicate RealHours(s: State) {
    forall u | u in s.quiet && s.quiet[u].start.Some? && s.quiet[u].end.Some? ::
      0 <= s.quiet[u].start.value < 24 && 0 <= s.quiet[u].end.value < 24
  }

  lemma SleepsIs(s: State, user: string, now: int)
    requires RealHours(s)
    ensures InQuiet(s.quiet, user, now) <==> Sleeps(s, user, now)
  {
    if user in s.quiet && s.quiet[user].start.Some? && s.quiet[user].end.Some? {
      QuietHourClockwise(s.quiet[user].start.value, s.quiet[user].end.value, LocalHour(s.quiet[user].zone, now));
    }
  }

  /** The `n`-th device is to be sent the alert at once. */
  predicate AtOnce(s: State, listed: seq<Sub>, n: nat, a: Alert, env: Env)
    requires n < |listed|
  {
    var u := listed[n].user;
    a.level == "crit"
    || (SwitchedOn(s, u, a.kind) && !Sleeps(s, u, env.clock(First(listed[..n + 1], u))) && !env.active(0, n))
  }

  /** The sends at once to the first `m` devices, in order. */
  function SendsAtOnce(s: State, listed: seq<Sub>, m: nat, a: Alert, env: Env): seq<Sent>
    requires m <= |listed|
  {
    if m == 0 then []
    else SendsAtOnce(s, listed, m - 1, a, env)
         + if AtOnce(s, listed, m - 1, a, env) then [Sent(listed[m - 1], a, None)] else []
  }

  /** A device's turn, by what is to be said of it. */
  lemma TurnSends(s: State, listed: seq<Sub>, n: nat, a: Alert, env: Env)
    requires RealHours(s) && n < |listed|
    ensures Notified(s, listed[..n + 1], a, env).0.sent ==
            Notified(s, listed[..n], a, env).0.sent
              + if AtOnce(s, listed, n, a, env) then [Sent(listed[n], a, None)] else []
  {
    var (t, ds) := Notified(s, listed[..n], a, env);
    var u := listed[n].user;
    PrefixSnoc(listed, n);
    NotifiedLast(s, listed[..n], listed[n], a, env);
    DecisionIsFate(s, listed[..n], a, env, u);
    FirstSnoc(listed[..n], listed[n], u);
    SameDecision(s, t, u, a, env.clock(n));
    SleepsIs(s, u, env.clock(First(listed[..n + 1], u)));
    DeviceSends(s, t, ds, listed[n], n, First(listed[..n + 1], u), a, env);
  }

  lemma DeviceSends(s: State, t: State, ds: map<string, Decision>, sub: Sub, n: nat, f: nat, a: Alert, env: Env)
    requires sub.user in ds ==> ds[sub.user] == Decided(s, sub.user, a, env.clock(f))
    requires sub.user !in ds ==>
               f == n && Decided(t, sub.user, a, env.clock(n)) == Decided(s, sub.user, a, env.clock(f))
    ensures Noticed(t, ds, sub, n, a, env).0.sent ==
            t.sent + if IsCrit(a) || (Enabled(s, sub.user, a.kind) && !InQuiet(s.quiet, sub.user, env.clock(f))
                                      && !env.active(0, n))
                     then [Sent(sub, a, None)] else []
  {
    assert t.sent + [] == t.sent;
  }

  /** An alert is sent at once, in the order of the devices, exactly where it is to be. */
  lemma NotifySendsExactly(s: State, listed: seq<Sub>, a: Alert, env: Env)
    requires RealHours(s)
    ensures Notified(s, listed, a, env).0.sent == s.sent + SendsAtOnce(s, listed, |listed|, a, env)
  {
    assert s.sent + [] == s.sent;
    for m := 0 to |listed|
      invariant Notified(s, listed[..m], a, env).0.sent == s.sent + SendsAtOnce(s, listed, m, a, env)
    {
      TurnSends(s, listed, m, a, env);
      OneMoreAtOnce(s, listed, m, a, env);
    }
    assert listed[..|listed|] == listed;
  }

  lemma OneMoreAtOnce(s: State, listed: seq<Sub>, m: nat, a: Alert, env: Env)
    requires m < |listed|
    ensures s.sent + SendsAtOnce(s, listed, m + 1, a, env) ==
            s.sent + SendsAtOnce(s, listed, m, a, env)
              + if AtOnce(s, listed, m, a, env) then [Sent(listed[m], a, None)] else []
  {
    ConcatAssociates(s.sent, SendsAtOnce(s, listed, m, a, env),
                     if AtOnce(s, listed, m, a, env) then [Sent(listed[m], a, None)] else []);
  }

  /** A user's alert waits exactly when it is not "crit", its type is on, and they sleep at their first device. */
  lemma WaitsExactly(s: State, a: Alert, env: Env, u: string)
    requires RealHours(s)
    ensures var t := Step(s, Notify(a, env));
            |ByUser(t.queue, u)| == |ByUser(s.queue, u)|
              + if && a.level != "crit" && (exists k :: 0 <= k < |s.subs| && s.subs[k].user == u)
                   && SwitchedOn(s, u, a.kind) && Sleeps(s, u, env.clock(First(s.subs, u))) then 1 else 0
  {
    FirstIsFirst(s.subs, u);
    NotifyQueues(s, s.subs, a, env);
    QueuedOnce(s, s.subs, a, env, u);
    ByUserConcat(s.queue, NewRows(s, s.subs, a, env), u);
    SleepsIs(s, u, env.clock(First(s.subs, u)));
    if First(s.subs, u) < |s.subs| { assert s.subs[First(s.subs, u)].user == u; }
  }

  // ---- what a drain does ----

  /** Exactly the sends of the row to devices `j` up to `k`, in order, were added. */
  predicate Sends(before: seq<Sent>, after: seq<Sent>, subs: seq<Sub>, row: Row, j: nat, k: nat) {
    && j <= k <= |subs|
    && |after| == |before| + k - j && after[..|before|] == before
    && forall i :: j <= i < k ==> after[|before| + i - j] == Sent(subs[i], row.alert, Some(row.id))
  }

  lemma SendsOneMore(before: seq<Sent>, sent: seq<Sent>, after: seq<Sent>, subs: seq<Sub>, row: Row, j: nat, k: nat)
    requires j < |subs| && sent == before + [Sent(subs[j], row.alert, Some(row.id))]
    requires Sends(sent, after, subs, row, j + 1, k)
    ensures Sends(before, after, subs, row, j, k)
  {
    SentGrows(before, sent[|before|], after);
    forall i | j <= i < k ensures after[|before| + i - j] == Sent(subs[i], row.alert, Some(row.id)) {
      if i > j { assert after[|sent| + i - (j + 1)] == Sent(subs[i], row.alert, Some(row.id)); }
    }
  }

  /** A row goes to the user's devices in order, up to the first one met with the application open. */
  lemma {:induction false} DeliveredPrefix(s: State, subs: seq<Sub>, row: Row, env: Env, j: nat) returns (k: nat)
    requires j <= |subs|
    ensures j <= k <= |subs|
    ensures forall i :: j <= i < k ==> IsCrit(row.alert) || !env.active(row.id, i)
    ensures k < |subs| ==> !IsCrit(row.alert) && env.active(row.id, k)
    ensures Sends(s.sent, Delivered(s, subs, row, env, j).sent, subs, row, j, k)
    decreases |subs| - j
  {
    k := j;
    if j < |subs| && (IsCrit(row.alert) || !env.active(row.id, j)) {
      var t := Attempted(s, subs[j], row.alert, Some(row.id), env);
      k := DeliveredPrefix(t, subs, row, env, j + 1);
      SendsOneMore(s.sent, t.sent, Delivered(t, subs, row, env, j + 1).sent, subs, row, j, k);
    }
  }

  lemma SentGrows(before: seq<Sent>, x: Sent, after: seq<Sent>)
    requires |after| > |before| && after[..|before| + 1] == before + [x]
    ensures after[..|before|] == before && after[|before|] == x
  {
    assert after[..|before|] == after[..|before| + 1][..|before|];
    assert after[|before|] == after[..|before| + 1][|before|];
  }

  predicate Ascending(rows: seq<Row>) {
    forall i, j :: 0 <= i < j < |rows| ==> rows[i].id < rows[j].id
  }

  predicate FromRow(s: State, subs: seq<Sub>, row: Row, x: Sent) {
    x.sub in subs && x.alert == row.alert && x.row == Some(row.id) && Enabled(s, row.user, row.alert.kind)
  }

  lemma DeliveredFromRow(s: State, subs: seq<Sub>, row: Row, env: Env)
    requires Enabled(s, row.user, row.alert.kind)
    ensures var t := Delivered(s, subs, row, env, 0);
            && |t.sent| >= |s.sent| && t.sent[..|s.sent|] == s.sent
            && forall k :: |s.sent| <= k < |t.sent| ==> FromRow(s, subs, row, t.sent[k])
  {
    var k := DeliveredPrefix(s, subs, row, env, 0);
    var t := Delivered(s, subs, row, env, 0);
    forall i | |s.sent| <= i < |t.sent| ensures FromRow(s, subs, row, t.sent[i]) {
      assert t.sent[|s.sent| + (i - |s.sent|) - 0] == Sent(subs[i - |s.sent|], row.alert, Some(row.id));
    }
  }

  /** The sends added to `before` come from rows, in row order; `from[k]` is the row of the `k`-th. */
  predicate SentFrom(s: State, subs: seq<Sub>, rows: seq<Row>, before: seq<Sent>, after: seq<Sent>, from: seq<nat>) {
    && |after| == |before| + |from| && after[..|before|] == before
    && (forall k :: 0 <= k < |from| ==>
          from[k] < |rows| && FromRow(s, subs, rows[from[k]], after[|before| + k]))
    && (forall k, l :: 0 <= k <= l < |from| ==> from[k] <= from[l])
  }

  /** The sends of a drain, each with the position of its row: rows of enabled types only, in order. */
  lemma {:induction false} DrainSendsInOrder(s: State, subs: seq<Sub>, rows: seq<Row>, env: Env)
    returns (from: seq<nat>)
    ensures SentFrom(s, subs, rows, s.sent, DrainedRows(s, subs, rows, env).sent, from)
  {
    if rows == [] {
      from := [];
    } else {
      var (front, row) := (rows[..|rows| - 1], rows[|rows| - 1]);
      from := DrainSendsInOrder(s, subs, front, env);
      var t := DrainedRows(s, subs, front, env);
      var u := DrainedRows(s, subs, rows, env);
      if Enabled(t, row.user, row.alert.kind) { DeliveredFromRow(t, subs, row, env); }
      from := SentFromNext(s, subs, front, row, s.sent, t.sent, u.sent, from);
      assert rows == front + [row];
    }
  }

  lemma SentFromNext(s: State, subs: seq<Sub>, front: seq<Row>, row: Row, before: seq<Sent>, sent: seq<Sent>,
                     after: seq<Sent>, was: seq<nat>) returns (from: seq<nat>)
    requires SentFrom(s, subs, front, before, sent, was)
    requires |after| >= |sent| && after[..|sent|] == sent
    requires forall k :: |sent| <= k < |after| ==> FromRow(s, subs, row, after[k])
    ensures SentFrom(s, subs, front + [row], before, after, from)
  {
    var rows := front + [row];
    from := was + seq(|after| - |sent|, _ => |front|);
    assert forall i :: 0 <= i < |sent| ==> after[i] == after[..|sent|][i];
    forall k | 0 <= k < |from| ensures from[k] < |rows| && FromRow(s, subs, rows[from[k]], after[|before| + k]) {
      if k < |was| { assert FromRow(s, subs, front[was[k]], sent[|before| + k]); }
    }
  }

  /** The first device from `j` on at which a row meets the application open; a "crit" row meets none. */
  function FirstOpen(subs: seq<Sub>, row: Row, env: Env, j: nat): (k: nat)
    requires j <= |subs|
    ensures j <= k <= |subs|
    decreases |subs| - j
  {
    if j == |subs| || (!IsCrit(row.alert) && env.active(row.id, j)) then j else FirstOpen(subs, row, env, j + 1)
  }

  /** The attempts a row calls for: none when its type is disabled, else every device before that one. */
  function RowSends(s: State, subs: seq<Sub>, row: Row, env: Env): seq<Sent> {
    if !Enabled(s, row.user, row.alert.kind) then []
    else
      var k := FirstOpen(subs, row, env, 0);
      seq(k, i requires 0 <= i < k => Sent(subs[i], row.alert, Some(row.id)))
  }

  function RowsSends(s: State, subs: seq<Sub>, rows: seq<Row>, env: Env): seq<Sent> {
    if rows == [] then []
    else
      var n := |rows| - 1;
      RowsSends(s, subs, rows[..n], env) + RowSends(s, subs, rows[n], env)
  }

  lemma {:induction false} DeliveredUpTo(s: State, subs: seq<Sub>, row: Row, env: Env, j: nat)
    requires j <= |subs|
    ensures Sends(s.sent, Delivered(s, subs, row, env, j).sent, subs, row, j, FirstOpen(subs, row, env, j))
    decreases |subs| - j
  {
    if j < |subs| && (IsCrit(row.alert) || !env.active(row.id, j)) {
      var t := Attempted(s, subs[j], row.alert, Some(row.id), env);
      DeliveredUpTo(t, subs, row, env, j + 1);
      SendsOneMore(s.sent, t.sent, Delivered(t, subs, row, env, j + 1).sent, subs, row, j,
                   FirstOpen(subs, row, env, j + 1));
    }
  }

  /** One row of a drain, for the preferences of `s`. */
  lemma RowSendsExactly(s: State, t: State, subs: seq<Sub>, row: Row, env: Env)
    requires t.prefs == s.prefs && Enabled(t, row.user, row.alert.kind)
    ensures Delivered(t, subs, row, env, 0).sent == t.sent + RowSends(s, subs, row, env)
  {
    DeliveredUpTo(t, subs, row, env, 0);
    SentSplits(t.sent, Delivered(t, subs, row, env, 0).sent, RowSends(s, subs, row, env), subs, row);
  }

  lemma SentSplits(before: seq<Sent>, after: seq<Sent>, added: seq<Sent>, subs: seq<Sub>, row: Row)
    requires Sends(before, after, subs, row, 0, |added|)
    requires forall i :: 0 <= i < |added| ==> added[i] == Sent(subs[i], row.alert, Some(row.id))
    ensures after == before + added
  {
    forall i | 0 <= i < |after| ensures after[i] == (before + added)[i] {
      if i < |before| {
        assert after[i] == after[..|before|][i];
      } else {
        assert after[|before| + (i - |before|) - 0] == added[i - |before|];
      }
    }
  }

  /** The sends of a drain are exactly those its rows call for, row by row: none missing, none besides. */
  lemma {:induction false} DrainSendsExactly(s: State, subs: seq<Sub>, rows: seq<Row>, env: Env)
    ensures DrainedRows(s, subs, rows, env).sent == s.sent + RowsSends(s, subs, rows, env)
  {
    if rows == [] {
    } else {
      var n := |rows| - 1;
      DrainSendsExactly(s, subs, rows[..n], env);
      var t := DrainedRows(s, subs, rows[..n], env);
      if Enabled(t, rows[n].user, rows[n].alert.kind) { RowSendsExactly(s, t, subs, rows[n], env); }
    }
  }

  /** A drain leaves a sleeping user's rows alone and consumes all of everybody else's, in order. */
  lemma {:induction false} DrainEffect(s: State, users: seq<string>, now: int, env: Env, u: string)
    requires forall i, j :: 0 <= i < j < |users| ==> users[i] != users[j]
    ensures var t := Drained(s, users, now, env);
            var drained := u in users && !InQuiet(s.quiet, u, now);
            && ByUser(t.queue, u) == (if drained then [] else ByUser(s.queue, u))
            && ByUser(t.consumed, u) == ByUser(s.consumed, u) + if drained then ByUser(s.queue, u) else []
  {
    if users != [] {
      var n := |users| - 1;
      DrainEffect(s, users[..n], now, env, u);
      var (t, v) := (Drained(s, users[..n], now, env), users[n]);
      assert users == users[..n] + [v];
      if !InQuiet(t.quiet, v, now) {
        ByUserNotBy(t.queue, v, u);
        ByUserByUser(t.queue, v, u);
        ByUserConcat(t.consumed, ByUser(t.queue, v), u);
        if u == v { assert forall i :: 0 <= i < n ==> users[..n][i] != v; }
        assert ByUser(s.consumed, u) + [] == ByUser(s.consumed, u);
        assert ByUser(s.consumed, u) + ByUser(s.queue, u) + [] == ByUser(s.consumed, u) + ByUser(s.queue, u);
      }
    } else {
      assert ByUser(s.consumed, u) + [] == ByUser(s.consumed, u);
    }
  }

  // ---- which subscriptions survive ----

  /** Send number `n` was answered 404 or 410, after only transient failures, within three attempts. */
  predicate FoundGone(reply: (nat, nat) -> Sending.Reply, n: nat) {
    exists i :: 0 <= i < 3 && GoneAt(reply, n, i)
  }

  predicate GoneAt(reply: (nat, nat) -> Sending.Reply, n: nat, i: nat) {
    && reply(n, i).Answer? && (reply(n, i).status == 404 || reply(n, i).status == 410)
    && forall j :: 0 <= j < i ==> IsTransient(reply(n, j))
  }

  predicate IsTransient(r: Sending.Reply) {
    r.NetworkError? || r.status == 429 || r.status >= 500
  }

  lemma GoneIs(reply: (nat, nat) -> Sending.Reply, n: nat)
    ensures Sending.Result(reply, n, 0).Gone? <==> FoundGone(reply, n)
  {
    Sending.GoneExactly(reply, n, 0);
    if FoundGone(reply, n) {
      var i :| 0 <= i < 3 && GoneAt(reply, n, i);
    }
    if Sending.Result(reply, n, 0).Gone? { assert GoneAt(reply, n, 0) || GoneAt(reply, n, 1) || GoneAt(reply, n, 2); }
  }

  /** The subscriptions whose id is not dead, in their order. */
  function Survivors(subs: seq<Sub>, dead: nat -> bool): seq<Sub> {
    if subs == [] then []
    else
      var (front, sub) := (Survivors(subs[..|subs| - 1], dead), subs[|subs| - 1]);
      if dead(sub.id) then front else front + [sub]
  }

  /** Ids to which one of the sends from number `n` on found nobody. */
  ghost function DeadIn(n: nat, sent: seq<Sent>, reply: (nat, nat) -> Sending.Reply): nat -> bool {
    id => exists k :: n <= k < |sent| && sent[k].sub.id == id && FoundGone(reply, k)
  }

  lemma {:induction false} SurvivorsAgain(subs: seq<Sub>, p: nat -> bool, q: nat -> bool, r: nat -> bool)
    requires forall id :: r(id) <==> p(id) || q(id)
    ensures Survivors(Survivors(subs, p), q) == Survivors(subs, r)
  {
    if subs == [] {
    } else {
      var (front, sub) := (subs[..|subs| - 1], subs[|subs| - 1]);
      SurvivorsAgain(front, p, q, r);
      if !p(sub.id) { assert (Survivors(front, p) + [sub])[..|Survivors(front, p)|] == Survivors(front, p); }
    }
  }

  lemma {:induction false} SurvivorsAll(subs: seq<Sub>, p: nat -> bool)
    requires forall id :: !p(id)
    ensures Survivors(subs, p) == subs
  {
    if subs == [] {
    } else {
      SurvivorsAll(subs[..|subs| - 1], p);
    }
  }

  lemma {:induction false} WithoutIs(subs: seq<Sub>, id: nat, p: nat -> bool)
    requires forall x :: p(x) <==> x == id
    ensures Without(subs, id) == Survivors(subs, p)
  {
    if subs == [] {
    } else {
      WithoutIs(subs[..|subs| - 1], id, p);
    }
  }

  /** What stays is what was there and whose id no send found gone. */
  lemma {:induction false} SurvivorsAre(subs: seq<Sub>, dead: nat -> bool, sub: Sub)
    ensures sub in Survivors(subs, dead) <==> sub in subs && !dead(sub.id)
  {
    if subs == [] {
    } else {
      var (front, last) := (subs[..|subs| - 1], subs[|subs| - 1]);
      SurvivorsAre(front, dead, sub);
      assert subs == front + [last];
    }
  }

  /** Between `s` and `t` sends were added, and exactly the subscriptions these found gone were deleted. */
  ghost predicate SubsFollow(s: State, t: State, reply: (nat, nat) -> Sending.Reply) {
    s.sent <= t.sent && t.subs == Survivors(s.subs, DeadIn(|s.sent|, t.sent, reply))
  }

  lemma FollowSame(s: State, t: State, reply: (nat, nat) -> Sending.Reply)
    requires t.sent == s.sent && t.subs == s.subs
    ensures SubsFollow(s, t, reply)
  {
    SurvivorsAll(s.subs, DeadIn(|s.sent|, t.sent, reply));
  }

  lemma FollowAttempt(s: State, sub: Sub, a: Alert, row: Option<nat>, env: Env)
    ensures SubsFollow(s, Attempted(s, sub, a, row, env), env.reply)
  {
    var (n, t) := (|s.sent|, Attempted(s, sub, a, row, env));
    var dead := DeadIn(n, t.sent, env.reply);
    GoneIs(env.reply, n);
    forall id ensures dead(id) <==> id == sub.id && FoundGone(env.reply, n) {
      if id == sub.id && FoundGone(env.reply, n) { assert t.sent[n].sub.id == id; }
    }
    if FoundGone(env.reply, n) {
      WithoutIs(s.subs, sub.id, dead);
    } else {
      SurvivorsAll(s.subs, dead);
    }
  }

  lemma DeadSplit(n: nat, t: seq<Sent>, u: seq<Sent>, reply: (nat, nat) -> Sending.Reply, id: nat)
    requires n <= |t| && t <= u
    ensures DeadIn(n, u, reply)(id) <==> DeadIn(n, t, reply)(id) || DeadIn(|t|, u, reply)(id)
  {
    if k :| n <= k < |t| && t[k].sub.id == id && FoundGone(reply, k) { assert u[k] == t[k]; }
  }

  lemma FollowThen(s: State, t: State, u: State, reply: (nat, nat) -> Sending.Reply)
    requires SubsFollow(s, t, reply) && SubsFollow(t, u, reply)
    ensures SubsFollow(s, u, reply)
  {
    var n := |s.sent|;
    forall id
      ensures DeadIn(n, u.sent, reply)(id) <==> DeadIn(n, t.sent, reply)(id) || DeadIn(|t.sent|, u.sent, reply)(id)
    {
      DeadSplit(n, t.sent, u.sent, reply, id);
    }
    SurvivorsAgain(s.subs, DeadIn(n, t.sent, reply), DeadIn(|t.sent|, u.sent, reply), DeadIn(n, u.sent, reply));
  }

  lemma FollowNoticed(t: State, ds: map<string, Decision>, sub: Sub, n: nat, a: Alert, env: Env)
    ensures SubsFollow(t, Noticed(t, ds, sub, n, a, env).0, env.reply)
  {
    var u := Noticed(t, ds, sub, n, a, env).0;
    if u.sent == t.sent {
      FollowSame(t, u, env.reply);
    } else {
      FollowAttempt(t, sub, a, None, env);
    }
  }

  /** One alert deletes exactly the subscriptions its sends find gone. */
  lemma {:induction false} NotifySubs(s: State, listed: seq<Sub>, a: Alert, env: Env)
    ensures SubsFollow(s, Notified(s, listed, a, env).0, env.reply)
  {
    if listed == [] {
      FollowSame(s, s, env.reply);
    } else {
      var n := |listed| - 1;
      var (t, ds) := Notified(s, listed[..n], a, env);
      NotifySubs(s, listed[..n], a, env);
      FollowNoticed(t, ds, listed[n], n, a, env);
      FollowThen(s, t, Notified(s, listed, a, env).0, env.reply);
    }
  }

  lemma {:induction false} FollowDelivered(s: State, subs: seq<Sub>, row: Row, env: Env, j: nat)
    requires j <= |subs|
    ensures SubsFollow(s, Delivered(s, subs, row, env, j), env.reply)
    decreases |subs| - j
  {
    if j == |subs| || (!IsCrit(row.alert) && env.active(row.id, j)) {
      FollowSame(s, s, env.reply);
    } else {
      var t := Attempted(s, subs[j], row.alert, Some(row.id), env);
      FollowAttempt(s, subs[j], row.alert, Some(row.id), env);
      FollowDelivered(t, subs, row, env, j + 1);
      FollowThen(s, t, Delivered(s, subs, row, env, j), env.reply);
    }
  }

  lemma {:induction false} FollowRows(s: State, subs: seq<Sub>, rows: seq<Row>, env: Env)
    ensures SubsFollow(s, DrainedRows(s, subs, rows, env), env.reply)
  {
    if rows == [] {
      FollowSame(s, s, env.reply);
    } else {
      var (front, row) := (rows[..|rows| - 1], rows[|rows| - 1]);
      var t := DrainedRows(s, subs, front, env);
      FollowRows(s, subs, front, env);
      if Enabled(t, row.user, row.alert.kind) {
        FollowDelivered(t, subs, row, env, 0);
        FollowThen(s, t, Delivered(t, subs, row, env, 0), env.reply);
      }
    }
  }

  /** So does one tick. */
  lemma {:induction false} DrainSubs(s: State, users: seq<string>, now: int, env: Env)
    ensures SubsFollow(s, Drained(s, users, now, env), env.reply)
  {
    if users == [] {
      FollowSame(s, s, env.reply);
    } else {
      var (front, u) := (users[..|users| - 1], users[|users| - 1]);
      var t := Drained(s, front, now, env);
      DrainSubs(s, front, now, env);
      if !InQuiet(t.quiet, u, now) {
        FollowRows(t, SubsOf(t.subs, u), ByUser(t.queue, u), env);
        FollowThen(s, t, Drained(s, users, now, env), env.reply);
      }
    }
  }

  // ---- the sends of one tick ----

  predicate DistinctIds(subs: seq<Sub>) {
    forall i, j :: 0 <= i < j < |subs| ==> subs[i].id != subs[j].id
  }

  /** A user's devices are the listed ones with their name. */
  lemma {:induction false} SubsOfAre(subs: seq<Sub>, u: string, sub: Sub)
    ensures sub in SubsOf(subs, u) <==> sub in subs && sub.user == u
  {
    if subs == [] {
    } else {
      var (front, last) := (subs[..|subs| - 1], subs[|subs| - 1]);
      SubsOfAre(front, u, sub);
      assert subs == front + [last];
    }
  }

  /** The sends of a tick: the rows of each queued user who is awake, to that user's devices. */
  function TickSends(s: State, users: seq<string>, now: int, env: Env): seq<Sent> {
    if users == [] then []
    else
      var (front, u) := (users[..|users| - 1], users[|users| - 1]);
      TickSends(s, front, now, env)
      + if Sleeps(s, u, now) then [] else RowsSends(s, SubsOf(s.subs, u), ByUser(s.queue, u), env)
  }

  lemma {:induction false} RowsSendsTo(s: State, subs: seq<Sub>, rows: seq<Row>, env: Env, x: Sent)
    requires x in RowsSends(s, subs, rows, env)
    ensures x.sub in subs
  {
    var n := |rows| - 1;
    if x !in RowSends(s, subs, rows[n], env) { RowsSendsTo(s, subs, rows[..n], env, x); }
  }

  lemma {:induction false} TickSendsTo(s: State, users: seq<string>, now: int, env: Env, x: Sent)
    requires x in TickSends(s, users, now, env)
    ensures x.sub in s.subs && x.sub.user in users
  {
    var (front, u) := (users[..|users| - 1], users[|users| - 1]);
    assert users == front + [u];
    if x in TickSends(s, front, now, env) {
      TickSendsTo(s, front, now, env, x);
    } else {
      RowsSendsTo(s, SubsOf(s.subs, u), ByUser(s.queue, u), env, x);
      SubsOfAre(s.subs, u, x.sub);
    }
  }

  lemma {:induction false} SamePrefsSameSends(s: State, t: State, subs: seq<Sub>, rows: seq<Row>, env: Env)
    requires t.prefs == s.prefs
    ensures RowsSends(t, subs, rows, env) == RowsSends(s, subs, rows, env)
  {
    if rows == [] {
    } else {
      SamePrefsSameSends(s, t, subs, rows[..|rows| - 1], env);
    }
  }

  lemma {:induction false} OwnSurvive(subs: seq<Sub>, dead: nat -> bool, u: string)
    requires forall i :: 0 <= i < |subs| && subs[i].user == u ==> !dead(subs[i].id)
    ensures SubsOf(Survivors(subs, dead), u) == SubsOf(subs, u)
  {
    if subs == [] {
    } else {
      var (front, sub) := (subs[..|subs| - 1], subs[|subs| - 1]);
      OwnSurvive(front, dead, u);
      var kept := Survivors(front, dead);
      if !dead(sub.id) { assert (kept + [sub])[..|kept|] == kept; }
    }
  }

  /** No send of a tick to others finds a user's device gone. */
  lemma OthersMiss(s: State, users: seq<string>, now: int, env: Env, sent: seq<Sent>, i: nat)
    requires DistinctIds(s.subs) && i < |s.subs| && s.subs[i].user !in users
    requires sent == s.sent + TickSends(s, users, now, env)
    ensures !DeadIn(|s.sent|, sent, env.reply)(s.subs[i].id)
  {
    var n := |s.sent|;
    forall k | n <= k < |sent| ensures sent[k].sub.id != s.subs[i].id {
      assert sent[k] == TickSends(s, users, now, env)[k - n];
      TickSendsTo(s, users, now, env, sent[k]);
      var j :| 0 <= j < |s.subs| && s.subs[j] == sent[k].sub;
    }
  }

  /** The drains of others leave a user's devices alone. */
  lemma OthersSpare(s: State, users: seq<string>, now: int, env: Env, u: string)
    requires DistinctIds(s.subs) && u !in users
    requires Drained(s, users, now, env).sent == s.sent + TickSends(s, users, now, env)
    ensures SubsOf(Drained(s, users, now, env).subs, u) == SubsOf(s.subs, u)
  {
    var sent := Drained(s, users, now, env).sent;
    DrainSubs(s, users, now, env);
    forall i | 0 <= i < |s.subs| && s.subs[i].user == u ensures !DeadIn(|s.sent|, sent, env.reply)(s.subs[i].id) {
      OthersMiss(s, users, now, env, sent, i);
    }
    OwnSurvive(s.subs, DeadIn(|s.sent|, sent, env.reply), u);
  }

  /** One more user of a tick. */
  lemma UserSends(s: State, front: seq<string>, u: string, now: int, env: Env)
    requires DistinctIds(s.subs) && RealHours(s) && u !in front && NoDuplicates(front)
    requires Drained(s, front, now, env).sent == s.sent + TickSends(s, front, now, env)
    ensures var t := Drained(s, front, now, env);
            (if InQuiet(t.quiet, u, now) then t else DrainedUser(t, u, env)).sent ==
            s.sent + (TickSends(s, front, now, env)
              + if Sleeps(s, u, now) then [] else RowsSends(s, SubsOf(s.subs, u), ByUser(s.queue, u), env))
  {
    var t := Drained(s, front, now, env);
    SleepsIs(s, u, now);
    OthersSpare(s, front, now, env, u);
    DrainEffect(s, front, now, env, u);
    DrainSendsExactly(t, SubsOf(t.subs, u), ByUser(t.queue, u), env);
    SamePrefsSameSends(s, t, SubsOf(s.subs, u), ByUser(s.queue, u), env);
    Moved(s.sent, TickSends(s, front, now, env), RowsSends(s, SubsOf(s.subs, u), ByUser(s.queue, u), env));
  }

  /** A tick sends exactly what is waiting for users who are awake, user by user and row by row. */
  lemma {:induction false} TickSendsExactly(s: State, users: seq<string>, now: int, env: Env)
    requires DistinctIds(s.subs) && RealHours(s) && NoDuplicates(users)
    ensures Drained(s, users, now, env).sent == s.sent + TickSends(s, users, now, env)
  {
    if users == [] {
      assert s.sent + [] == s.sent;
    } else {
      var (front, u) := (users[..|users| - 1], users[|users| - 1]);
      TickSendsExactly(s, front, now, env);
      UserSends(s, front, u, now, env);
    }
  }

  // ---- every run ----

  datatype Event =
    | Notify(a: Alert, env: Env)
    | Tick(now: int, env: Env)
    | Settings(prefs: map<(string, string), bool>, quiet: map<string, Window>, subs: seq<Sub>)

  ghost function Step(s: State, e: Event): State {
    match e
    case Notify(a, env) => Notified(s, s.subs, a, env).0
    case Tick(now, env) => Drained(s, Users(s.queue), now, env)
    case Settings(prefs, quiet, subs) => s.(prefs := prefs, quiet := quiet, subs := subs)
  }

  /** Rows are numbered as queued, none is "crit", and each user's are consumed in that order. */
  ghost predicate Inv(s: State) {
    IsNumbered(s.history) && forall u :: Balanced(s, u)
  }

  /** What was ever queued for a user was consumed or is waiting. */
  predicate Balanced(s: State, u: string) {
    ByUser(s.history, u) == ByUser(s.consumed, u) + ByUser(s.queue, u)
  }

  predicate IsNumbered(history: seq<Row>) {
    forall i :: 0 <= i < |history| ==> history[i].id == i + 1 && !IsCrit(history[i].alert)
  }

  lemma NumberingGoesOn(history: seq<Row>, rows: seq<Row>, a: Alert)
    requires IsNumbered(history) && !IsCrit(a)
    requires AreNext(rows, |history|, a)
    ensures IsNumbered(history + rows)
  {
    forall i | 0 <= i < |history + rows| ensures (history + rows)[i].id == i + 1 && !IsCrit((history + rows)[i].alert) {
      if i >= |history| { assert (history + rows)[i] == rows[i - |history|]; }
    }
  }

  lemma NotifyKeepsInv(s: State, a: Alert, env: Env)
    requires Inv(s)
    ensures Inv(Notified(s, s.subs, a, env).0)
  {
    var (t, rows) := (Notified(s, s.subs, a, env).0, NewRows(s, s.subs, a, env));
    NotifyQueues(s, s.subs, a, env);
    NewRowsAre(s, s.subs, a, env);
    if IsCrit(a) {
      CritReachesEveryDevice(s, s.subs, a, env);
    } else {
      NumberingGoesOn(s.history, rows, a);
    }
    forall u ensures Balanced(t, u) {
      assert Balanced(s, u);
      AddingBalances(s, t, rows, u);
    }
  }

  lemma AddingBalances(s: State, t: State, rows: seq<Row>, u: string)
    requires Balanced(s, u) && AddsRows(s, t, rows) && t.consumed == s.consumed
    ensures Balanced(t, u)
  {
    ByUserConcat(s.history, rows, u);
    ByUserConcat(s.queue, rows, u);
    ConcatAssociates(ByUser(s.consumed, u), ByUser(s.queue, u), ByUser(rows, u));
  }

  lemma TickKeepsInv(s: State, now: int, env: Env)
    requires Inv(s)
    ensures Inv(Drained(s, Users(s.queue), now, env))
  {
    var t := Drained(s, Users(s.queue), now, env);
    forall u ensures Balanced(t, u) { DrainBalances(s, now, env, u); }
  }

  lemma DrainBalances(s: State, now: int, env: Env, u: string)
    requires Balanced(s, u)
    ensures Balanced(Drained(s, Users(s.queue), now, env), u)
  {
    DrainEffect(s, Users(s.queue), now, env, u);
    Moved(ByUser(s.consumed, u), ByUser(s.queue, u), []);
  }

  lemma Moved<T>(x: seq<T>, y: seq<T>, z: seq<T>)
    ensures x + y + z == x + (y + z) && y + [] == y && x + [] == x
  {
  }

  lemma StepKeepsInv(s: State, e: Event)
    requires Inv(s)
    ensures Inv(Step(s, e))
  {
    match e {
      case Notify(a, env) => NotifyKeepsInv(s, a, env);
      case Tick(now, env) => TickKeepsInv(s, now, env);
      case Settings(_, _, _) =>
        forall u ensures Balanced(Step(s, e), u) { assert Balanced(s, u); }
    }
  }

  ghost function Final(s: State, es: seq<Event>): State
    decreases |es|
  {
    if es == [] then s else Final(Step(s, es[0]), es[1..])
  }

  /** The queue when nothing was ever queued. */
  predicate Initial(s: State) {
    s.queue == [] && s.history == [] && s.consumed == []
  }

  lemma {:induction false} EveryRunKeepsInv(s: State, es: seq<Event>)
    requires Inv(s)
    ensures Inv(Final(s, es))
    decreases |es|
  {
    if es == [] {
    } else {
      StepKeepsInv(s, es[0]);
      EveryRunKeepsInv(Step(s, es[0]), es[1..]);
    }
  }

  /** In every run, no queued row is "crit". */
  lemma NoQueuedCrit(s: State, es: seq<Event>, row: Row)
    requires Initial(s) && row in Final(s, es).queue
    ensures !IsCrit(row.alert)
  {
    EveryRunKeepsInv(s, es);
    var t := Final(s, es);
    RowIsItsUsers(t.queue, row);
    assert Balanced(t, row.user);
    var mine := ByUser(t.history, row.user);
    assert row in mine;
    var i :| 0 <= i < |mine| && mine[i] == row;
    ByUserIs(t.history, row.user, i);
  }

  lemma {:induction false} ByUserAscending(rows: seq<Row>, u: string)
    requires Ascending(rows)
    ensures Ascending(ByUser(rows, u))
  {
    if rows == [] {
    } else {
      var n := |rows| - 1;
      ByUserAscending(rows[..n], u);
      var front := ByUser(rows[..n], u);
      forall i | 0 <= i < |front| ensures front[i].id < rows[n].id { ByUserIs(rows[..n], u, i); }
    }
  }

  /**
   In every run each row ever queued for a user is either consumed or still waiting, never
   both and never twice, and they are consumed in id order.
   */
  lemma ConsumedOnceInOrder(s: State, es: seq<Event>, u: string)
    requires Initial(s)
    ensures var t := Final(s, es);
            && ByUser(t.history, u) == ByUser(t.consumed, u) + ByUser(t.queue, u)
            && Ascending(ByUser(t.consumed, u) + ByUser(t.queue, u))
  {
    EveryRunKeepsInv(s, es);
    assert Balanced(Final(s, es), u);
    ByUserAscending(Final(s, es).history, u);
  }

  /** One tick: nothing while the window lasts, everything once it is over. */
  lemma TickWaitsForTheWindow(s: State, now: int, env: Env, u: string)
    ensures var t := Step(s, Tick(now, env));
            if InQuiet(s.quiet, u, now)
            then ByUser(t.queue, u) == ByUser(s.queue, u) && ByUser(t.consumed, u) == ByUser(s.consumed, u)
            else ByUser(t.queue, u) == [] && ByUser(t.consumed, u) == ByUser(s.consumed, u) + ByUser(s.queue, u)
  {
    DrainEffect(s, Users(s.queue), now, env, u);
    assert ByUser(s.consumed, u) + [] == ByUser(s.consumed, u);
  }

  // ---- subscriptions over a run ----

  ghost predicate DiesAt(s: State, e: Event, id: nat) {
    !e.Settings? && DeadIn(|s.sent|, Step(s, e).sent, e.env.reply)(id)
  }

  /** In one of the events some send finds nobody at this id. */
  ghost predicate DiesIn(s: State, es: seq<Event>, id: nat)
    decreases |es|
  {
    es != [] && (DiesAt(s, es[0], id) || DiesIn(Step(s, es[0]), es[1..], id))
  }

  ghost function Dies(s: State, es: seq<Event>): nat -> bool {
    (id: nat) => DiesIn(s, es, id)
  }

  /**
   Between changes of the settings a subscription is deleted exactly when a send to it is
   answered 404 or 410; all others stay, in their order, and none is added.
   */
  lemma {:induction false} RunSubs(s: State, es: seq<Event>)
    requires forall i :: 0 <= i < |es| ==> !es[i].Settings?
    ensures Final(s, es).subs == Survivors(s.subs, Dies(s, es))
    decreases |es|
  {
    if es == [] {
      SurvivorsAll(s.subs, Dies(s, es));
    } else {
      RunSubs(Step(s, es[0]), es[1..]);
      DeathsJoin(s, Step(s, es[0]), es[0], es[1..], es);
    }
  }

  lemma DeathsJoin(s: State, t: State, e: Event, rest: seq<Event>, es: seq<Event>)
    requires es != [] && e == es[0] && rest == es[1..] && t == Step(s, e) && !e.Settings?
    ensures Survivors(t.subs, Dies(t, rest)) == Survivors(s.subs, Dies(s, es))
  {
    StepSubs(s, e);
    var dead := DeadIn(|s.sent|, t.sent, e.env.reply);
    forall id ensures Dies(s, es)(id) <==> dead(id) || Dies(t, rest)(id) {
      assert DiesIn(s, es, id) <==> DiesAt(s, e, id) || DiesIn(t, rest, id);
    }
    SurvivorsAgain(s.subs, dead, Dies(t, rest), Dies(s, es));
  }

  lemma StepSubs(s: State, e: Event)
    requires !e.Settings?
    ensures SubsFollow(s, Step(s, e), e.env.reply)
  {
    match e
    case Notify(a, env) => NotifySubs(s, s.subs, a, env);
    case Tick(now, env) => DrainSubs(s, Users(s.queue), now, env);
  }
}
