/**
 The login rate limiter (internal/httpapi/auth_handlers.go): at most five attempts in a
 sliding minute for each key, and a block of fifteen minutes after ten consecutive failures.
 Times are nanoseconds. The table holds at most 1024 keys, so its hygiene sweep never runs.
 */
module LoginLimiter {
  import opened Text

  const MAX_PER_MINUTE := 5
  const BLOCK_AFTER := 10
  const WINDOW := 60_000_000_000
  const BLOCK := 900_000_000_000

  // ---- the specification of one key ----

  /** Admitted attempts still in the window, consecutive failures, and the end of a block. */
  datatype Attempt = Attempt(window: seq<int>, failures: nat, blockedTo: Option<int>)

  const FRESH := Attempt([], 0, None)

  datatype Verdict = Verdict(ok: bool, wait: int)

  function Recent(window: seq<int>, cut: int): (r: seq<int>)
    ensures |r| <= |window|
  {
    if window == [] then []
    else
      var last := window[|window| - 1];
      var front := Recent(window[..|window| - 1], cut);
      if last > cut then front + [last] else front
  }

  predicate Blocked(a: Attempt, now: int) {
    a.blockedTo.Some? && now < a.blockedTo.value
  }

  /** `wall` is the clock read when a block's remaining time is computed. */
  function Allowed(a: Attempt, now: int, wall: int): (Attempt, Verdict) {
    if Blocked(a, now) then (a, Verdict(false, a.blockedTo.value - wall))
    else
      var kept := Recent(a.window, now - WINDOW);
      if |kept| >= MAX_PER_MINUTE then (a.(window := kept), Verdict(false, WINDOW - (now - kept[0])))
      else (a.(window := kept + [now]), Verdict(true, 0))
  }

  function Succeeded(a: Attempt): Attempt {
    a.(failures := 0, blockedTo := None)
  }

  function Failed(a: Attempt, now: int): Attempt {
    if a.failures + 1 >= BLOCK_AFTER then a.(failures := 0, blockedTo := Some(now + BLOCK))
    else a.(failures := a.failures + 1)
  }

  // ---- the limiter ----

  class LoginAttempt {
    var window: seq<int>
    var failures: nat
    var blockedTo: Option<int>

    function View(): Attempt
      reads this
    {
      Attempt(window, failures, blockedTo)
    }

    constructor ()
      ensures View() == FRESH
    {
      window, failures, blockedTo := [], 0, None;
    }

    /** The part of allow under the attempt's own lock. */
    method Allow(now: int, wall: int) returns (v: Verdict)
      modifies this
      ensures (View(), v) == Allowed(old(View()), now, wall)
    {
      if blockedTo.Some? && now < blockedTo.value {
        return Verdict(false, blockedTo.value - wall);
      }
      var cut := now - WINDOW;
      var kept: seq<int> := [];
      for i := 0 to |window|
        invariant kept == Recent(window[..i], cut)
        invariant View() == old(View())
      {
        assert window[..i + 1][..i] == window[..i];
        if window[i] > cut { kept := kept + [window[i]]; }
      }
      assert window[..|window|] == window;
      window := kept;
      if |window| >= MAX_PER_MINUTE {
        return Verdict(false, WINDOW - (now - window[0]));
      }
      window := window + [now];
      v := Verdict(true, 0);
    }
  }

  lemma UpdateTwice(m: map<string, Attempt>, k: string, a: Attempt, b: Attempt)
    ensures m[k := a][k := b] == m[k := b]
  {
  }

  class Limiter {
    var att: map<string, LoginAttempt>
    ghost var abs: map<string, Attempt>

    ghost predicate Valid()
      reads this, att.Values
    {
      && att.Keys == abs.Keys
      && (forall k | k in att :: att[k].View() == abs[k])
      && (forall k, l | k in att && l in att && k != l :: att[k] != att[l])
    }

    constructor ()
      ensures Valid() && abs == map[]
    {
      att, abs := map[], map[];
    }

    ghost function Of(key: string): Attempt
      reads this
    {
      if key in abs then abs[key] else FRESH
    }

    method Allow(key: string, now: int, wall: int) returns (v: Verdict)
      requires Valid() && (key in att || |att| < 1024)
      modifies this, att.Values
      ensures Valid()
      ensures (abs, v) == (old(abs)[key := Allowed(old(Of(key)), now, wall).0], Allowed(old(Of(key)), now, wall).1)
    {
      ghost var (was, a) := (abs, Of(key));
      Lookup(key);
      v := Enter(key, now, wall);
      UpdateTwice(was, key, a, Allowed(a, now, wall).0);
    }

    method Enter(key: string, now: int, wall: int) returns (v: Verdict)
      requires Valid() && key in att
      modifies this`abs, att[key]
      ensures Valid()
      ensures (abs, v) == (old(abs)[key := Allowed(old(abs)[key], now, wall).0], Allowed(old(abs)[key], now, wall).1)
    {
      v := att[key].Allow(now, wall);
      abs := abs[key := att[key].View()];
    }

    /** The entry of a key, created on its first attempt. */
    method Lookup(key: string)
      requires Valid()
      modifies this
      ensures Valid() && key in att && (fresh(att[key]) || att[key] in old(att.Values))
      ensures abs == old(abs)[key := old(Of(key))]
    {
      if key !in att {
        var a := new LoginAttempt();
        att, abs := att[key := a], abs[key := FRESH];
      }
    }

    method Success(key: string)
      requires Valid()
      modifies this`abs, att.Values
      ensures Valid()
      ensures abs == if key in old(abs) then old(abs)[key := Succeeded(old(abs)[key])] else old(abs)
    {
      if key !in att { return; }
      att[key].failures := 0;
      att[key].blockedTo := None;
      abs := abs[key := Succeeded(abs[key])];
    }

    method Failure(key: string, now: int)
      requires Valid()
      modifies this`abs, att.Values
      ensures Valid()
      ensures abs == if key in old(abs) then old(abs)[key := Failed(old(abs)[key], now)] else old(abs)
    {
      if key !in att { return; }
      var a := att[key];
      a.failures := a.failures + 1;
      if a.failures >= BLOCK_AFTER {
        a.blockedTo := Some(now + BLOCK);
        a.failures := 0;
      }
      abs := abs[key := Failed(abs[key], now)];
    }
  }

  // ---- the sliding window, over any interleaving on one key ----

  datatype Event = Try(now: int) | Good | Bad(now: int)

  /** The attempt, every admitted time so far, and the time of the last try. */
  datatype State = State(a: Attempt, admitted: seq<int>, clock: int)

  predicate Legal(s: State, e: Event) {
    e.Try? ==> s.clock <= e.now
  }

  function Step(s: State, e: Event): State {
    match e
    case Good => s.(a := Succeeded(s.a))
    case Bad(now) => s.(a := Failed(s.a, now))
    case Try(now) =>
      var r := Allowed(s.a, now, now);
      State(r.0, if r.1.ok then s.admitted + [now] else s.admitted, now)
  }

  predicate Sorted(s: seq<int>) {
    forall i, j :: 0 <= i < j < |s| ==> s[i] <= s[j]
  }

  /** Any six admitted attempts span at least a minute. */
  predicate Spread(admitted: seq<int>) {
    forall i, j :: 0 <= i && i + 5 <= j < |admitted| ==> admitted[i] + 60_000_000_000 <= admitted[j]
  }

  predicate EndOf(w: seq<int>, all: seq<int>) {
    |w| <= |all| && forall i :: 0 <= i < |w| ==> w[i] == all[|all| - |w| + i]
  }

  /** The window is the end of the admitted list; what it lost is at least a minute old. */
  predicate Inv(s: State) {
    && Sorted(s.admitted) && Spread(s.admitted)
    && |s.a.window| <= MAX_PER_MINUTE && EndOf(s.a.window, s.admitted)
    && (forall i :: 0 <= i < |s.admitted| - |s.a.window| ==> s.admitted[i] + WINDOW <= s.clock)
    && (forall i :: 0 <= i < |s.admitted| ==> s.admitted[i] <= s.clock)
  }

  /** `r` is the end of `window`, later than `cut`; what comes before is not. */
  predicate IsCut(r: seq<int>, window: seq<int>, cut: int) {
    && EndOf(r, window)
    && (forall i :: 0 <= i < |window| - |r| ==> window[i] <= cut)
    && (forall i :: 0 <= i < |r| ==> r[i] > cut)
  }

  lemma CutSnoc(r: seq<int>, window: seq<int>, x: int, cut: int)
    requires IsCut(r, window, cut) && x > cut
    ensures IsCut(r + [x], window + [x], cut)
  {
  }

  /** On a sorted window the filter keeps a suffix, and what it drops is old. */
  lemma {:induction false} RecentIsSuffix(window: seq<int>, cut: int)
    requires Sorted(window)
    ensures IsCut(Recent(window, cut), window, cut)
  {
    if window == [] {
    } else {
      var (front, x) := (window[..|window| - 1], window[|window| - 1]);
      if x > cut {
        RecentIsSuffix(front, cut);
        CutSnoc(Recent(front, cut), front, x, cut);
        assert window == front + [x];
      } else {
        NothingRecent(window, cut);
      }
    }
  }

  lemma {:induction false} NothingRecent(window: seq<int>, cut: int)
    requires forall i :: 0 <= i < |window| ==> window[i] <= cut
    ensures Recent(window, cut) == []
  {
    if window == [] {
    } else {
      NothingRecent(window[..|window| - 1], cut);
    }
  }

  /** Filtering the window keeps it the end of the admitted list. */
  lemma FilterKeepsInv(s: State, kept: seq<int>, now: int)
    requires Inv(s) && s.clock <= now
    requires EndOf(kept, s.a.window)
    requires forall i :: 0 <= i < |s.a.window| - |kept| ==> s.a.window[i] + WINDOW <= now
    ensures Inv(s.(a := s.a.(window := kept), clock := now))
  {
    var (n, k) := (|s.admitted|, |s.a.window|);
    forall i | 0 <= i < n - |kept| ensures s.admitted[i] + WINDOW <= now {
      if i >= n - k { assert s.a.window[i - (n - k)] == s.admitted[i]; }
    }
  }

  lemma WindowSorted(s: State)
    requires Inv(s)
    ensures Sorted(s.a.window)
  {
  }

  lemma RecentInWindow(s: State, now: int) returns (kept: seq<int>)
    requires Inv(s)
    ensures kept == Recent(s.a.window, now - WINDOW)
    ensures EndOf(kept, s.a.window)
    ensures forall i :: 0 <= i < |s.a.window| - |kept| ==> s.a.window[i] + WINDOW <= now
    ensures forall i :: 0 <= i < |kept| ==> kept[i] + WINDOW > now
  {
    WindowSorted(s);
    kept := Recent(s.a.window, now - WINDOW);
    RecentIsSuffix(s.a.window, now - WINDOW);
  }

  lemma AdmitKeepsInv(s: State)
    requires Inv(s) && |s.a.window| < MAX_PER_MINUTE
    ensures Inv(s.(a := s.a.(window := s.a.window + [s.clock]), admitted := s.admitted + [s.clock]))
  {
  }

  /** An unblocked try, given what is left of the window. */
  function Tried(s: State, kept: seq<int>, now: int): State {
    if |kept| >= MAX_PER_MINUTE then s.(a := s.a.(window := kept), clock := now)
    else State(s.a.(window := kept + [now]), s.admitted + [now], now)
  }

  lemma StepIsTried(s: State, now: int)
    requires !Blocked(s.a, now)
    ensures Step(s, Try(now)) == Tried(s, Recent(s.a.window, now - WINDOW), now)
  {
  }

  lemma TriedKeepsInv(s: State, kept: seq<int>, now: int)
    requires Inv(s.(a := s.a.(window := kept), clock := now))
    ensures Inv(Tried(s, kept, now))
  {
    if |kept| < MAX_PER_MINUTE { AdmitKeepsInv(s.(a := s.a.(window := kept), clock := now)); }
  }

  lemma TryKeepsInv(s: State, now: int)
    requires Inv(s) && s.clock <= now && !Blocked(s.a, now)
    ensures Inv(Step(s, Try(now)))
  {
    var kept := RecentInWindow(s, now);
    FilterKeepsInv(s, kept, now);
    TriedKeepsInv(s, kept, now);
    StepIsTried(s, now);
  }

  lemma StepKeepsInv(s: State, e: Event)
    requires Inv(s) && Legal(s, e)
    ensures Inv(Step(s, e))
  {
    if e.Try? && !Blocked(s.a, e.now) { TryKeepsInv(s, e.now); }
  }

  predicate LegalRun(s: State, es: seq<Event>)
    decreases |es|
  {
    es == [] || (Legal(s, es[0]) && LegalRun(Step(s, es[0]), es[1..]))
  }

  function Final(s: State, es: seq<Event>): State
    decreases |es|
  {
    if es == [] then s else Final(Step(s, es[0]), es[1..])
  }

  /** However tries, successes and failures interleave, six admissions never fit in a minute. */
  lemma {:induction false} SixSpanAMinute(s: State, es: seq<Event>)
    requires Inv(s) && LegalRun(s, es)
    ensures Inv(Final(s, es)) && Spread(Final(s, es).admitted)
    decreases |es|
  {
    if es == [] {
    } else {
      StepKeepsInv(s, es[0]);
      SixSpanAMinute(Step(s, es[0]), es[1..]);
    }
  }

  /** A window denial's wait is exact: an unblocked retry is admitted then, and not a moment sooner. */
  lemma WaitIsExact(s: State, now: int, t: int)
    requires Inv(s) && s.clock <= now <= t && !Blocked(s.a, now) && !Allowed(s.a, now, now).1.ok
    ensures var (a, v) := Allowed(s.a, now, now);
            && 0 < v.wait <= WINDOW
            && (!Blocked(a, t) ==> (Allowed(a, t, t).1.ok <==> now + v.wait <= t))
  {
    var w := FullWhenDenied(s, now);
    FullWindow(w, t);
  }

  lemma FullWhenDenied(s: State, now: int) returns (w: seq<int>)
    requires Inv(s) && s.clock <= now && !Blocked(s.a, now) && !Allowed(s.a, now, now).1.ok
    ensures Sorted(w) && |w| == MAX_PER_MINUTE && now < w[0] + WINDOW && w[0] <= now
    ensures Allowed(s.a, now, now) == (s.a.(window := w), Verdict(false, WINDOW - (now - w[0])))
  {
    w := RecentInWindow(s, now);
    FilterKeepsInv(s, w, now);
    WindowSorted(s.(a := s.a.(window := w), clock := now));
    WindowPast(s.(a := s.a.(window := w), clock := now));
  }

  lemma WindowPast(s: State)
    requires Inv(s) && s.a.window != []
    ensures s.a.window[0] <= s.clock
  {
    assert s.a.window[0] == s.admitted[|s.admitted| - |s.a.window|];
  }

  /** A full sorted window lets the next attempt through exactly when its oldest entry has aged. */
  lemma FullWindow(w: seq<int>, t: int)
    requires Sorted(w) && |w| == MAX_PER_MINUTE
    ensures |Recent(w, t - WINDOW)| < MAX_PER_MINUTE <==> w[0] + WINDOW <= t
  {
    RecentIsSuffix(w, t - WINDOW);
    assert |Recent(w, t - WINDOW)| == |w| ==> Recent(w, t - WINDOW)[0] == w[0];
  }

  // ---- who is admitted ----

  /** How many of these times lie after `cut`. */
  function CountSince(times: seq<int>, cut: int): nat {
    if times == [] then 0
    else CountSince(times[..|times| - 1], cut) + if times[|times| - 1] > cut then 1 else 0
  }

  lemma {:induction false} NoneSince(times: seq<int>, cut: int)
    requires forall i :: 0 <= i < |times| ==> times[i] <= cut
    ensures CountSince(times, cut) == 0
  {
    if times == [] {
    } else {
      NoneSince(times[..|times| - 1], cut);
    }
  }

  lemma {:induction false} EndSince(times: seq<int>, cut: int, m: nat)
    requires m <= |times| && forall i :: 0 <= i < |times| ==> (times[i] > cut <==> i >= |times| - m)
    ensures CountSince(times, cut) == m
  {
    if m == 0 {
      NoneSince(times, cut);
    } else {
      EndSince(times[..|times| - 1], cut, m - 1);
    }
  }

  /**
   In every interleaving a try is admitted exactly when no block lasts and fewer than five
   tries were admitted in the last minute.
   */
  lemma AdmittedExactly(s: State, now: int)
    requires Inv(s) && s.clock <= now
    ensures var t := Step(s, Try(now));
            var admitted := !(s.a.blockedTo.Some? && now < s.a.blockedTo.value)
                            && CountSince(s.admitted, now - 60_000_000_000) < 5;
            && t.admitted == (if admitted then s.admitted + [now] else s.admitted)
            && Allowed(s.a, now, now).1.ok == admitted
  {
    var kept := RecentInWindow(s, now);
    var (n, k, m) := (|s.admitted|, |s.a.window|, |kept|);
    forall i | 0 <= i < n ensures s.admitted[i] > now - WINDOW <==> i >= n - m {
      if i >= n - k { assert s.a.window[i - (n - k)] == s.admitted[i]; }
      if i >= n - m { assert kept[i - (n - m)] == s.a.window[i - (n - k)]; }
    }
    EndSince(s.admitted, now - WINDOW, m);
  }

  /** The wait told during a block is the time that is left of it, by the clock read last. */
  lemma BlockWaitIsExact(a: Attempt, now: int, wall: int, t: int)
    requires a.blockedTo.Some? && now < a.blockedTo.value && now <= t
    ensures var (b, v) := Allowed(a, now, wall);
            b == a && !v.ok && (t < wall + v.wait <==> t < a.blockedTo.value)
  {
  }

  // ---- consecutive failures, in serial logins ----

  /** A login: its time, and whether the password would be right. */
  datatype Login = Login(now: int, good: bool)

  /** The login handler: limiter, verification, and its outcome told to the limiter. */
  function Attended(a: Attempt, l: Login): Attempt {
    var (b, v) := Allowed(a, l.now, l.now);
    if !v.ok then b else if l.good then Succeeded(b) else Failed(b, l.now)
  }

  function Serve(a: Attempt, ls: seq<Login>): Attempt
  {
    if ls == [] then a else Attended(Serve(a, ls[..|ls| - 1]), ls[|ls| - 1])
  }

  predicate Admitted(a: Attempt, l: Login) {
    Allowed(a, l.now, l.now).1.ok
  }

  /** How many of the latest verified logins failed in a row; denied ones are not verified. */
  function Streak(a: Attempt, ls: seq<Login>): nat {
    if ls == [] then 0
    else
      var (front, last) := (ls[..|ls| - 1], ls[|ls| - 1]);
      if !Admitted(Serve(a, front), last) then Streak(a, front)
      else if last.good then 0
      else Streak(a, front) + 1
  }

  /** The counter holds the streak modulo ten; a key is under a block's shadow once the streak reached ten. */
  lemma {:induction false} CounterTracksStreak(ls: seq<Login>)
    ensures Tracks(Serve(FRESH, ls), Streak(FRESH, ls))
  {
    if ls == [] {
    } else {
      var (front, last) := (ls[..|ls| - 1], ls[|ls| - 1]);
      CounterTracksStreak(front);
      TracksStep(Serve(FRESH, front), last, Streak(FRESH, front));
    }
  }

  /** The counter and the block of a key with a streak of `k`. */
  predicate Tracks(a: Attempt, k: nat) {
    a.failures == k % 10 && (a.blockedTo.Some? <==> k >= 10)
  }

  lemma TracksStep(a: Attempt, l: Login, k: nat)
    requires Tracks(a, k)
    ensures Tracks(Attended(a, l), if !Admitted(a, l) then k else if l.good then 0 else k + 1)
  {
    CountStep(k);
    AttendKeeps(a, l);
  }

  lemma CountStep(n: nat)
    ensures (n + 1) % BLOCK_AFTER == if n % BLOCK_AFTER == BLOCK_AFTER - 1 then 0 else n % BLOCK_AFTER + 1
    ensures n % BLOCK_AFTER == BLOCK_AFTER - 1 ==> n + 1 >= BLOCK_AFTER
    ensures n + 1 >= BLOCK_AFTER && n < BLOCK_AFTER ==> n % BLOCK_AFTER == BLOCK_AFTER - 1
  {
  }

  /** What a login does to the counter and the block. */
  lemma AttendKeeps(a: Attempt, l: Login)
    ensures var b := Attended(a, l);
            if !Admitted(a, l) then b.failures == a.failures && b.blockedTo == a.blockedTo
            else if l.good then b.failures == 0 && b.blockedTo.None?
            else if a.failures + 1 >= BLOCK_AFTER then b.failures == 0 && b.blockedTo == Some(l.now + BLOCK)
            else b.failures == a.failures + 1 && b.blockedTo == a.blockedTo
  {
  }

  /** While a block lasts every login is denied, whatever its password, and nothing changes. */
  lemma {:induction false} BlockDeniesAll(a: Attempt, ls: seq<Login>, i: nat)
    requires i < |ls| && forall k :: 0 <= k <= i ==> Blocked(a, ls[k].now)
    ensures Serve(a, ls[..i]) == a && !Admitted(a, ls[i])
  {
    if i == 0 {
    } else {
      BlockDeniesAll(a, ls, i - 1);
      assert ls[..i][..i - 1] == ls[..i - 1];
    }
  }

  /**
   In serial logins from a fresh key, the failure that makes the streak ten (or twenty ...)
   denies every login of the next fifteen minutes.
   */
  lemma TenthFailureBlocks(ls: seq<Login>, later: seq<Login>, i: nat)
    requires ls != [] && Admitted(Serve(FRESH, ls[..|ls| - 1]), ls[|ls| - 1])
    requires Streak(FRESH, ls) > 0 && Streak(FRESH, ls) % 10 == 0
    requires i < |later| && forall k :: 0 <= k <= i ==> later[k].now < ls[|ls| - 1].now + 900_000_000_000
    ensures !Admitted(Serve(Serve(FRESH, ls), later[..i]), later[i])
  {
    var n := |ls| - 1;
    CounterTracksStreak(ls[..n]);
    StreakBlocks(ls, ls[..n], ls[n], Streak(FRESH, ls[..n]));
    BlockDeniesAll(Serve(FRESH, ls), later, i);
  }

  lemma StreakBlocks(ls: seq<Login>, front: seq<Login>, last: Login, k: nat)
    requires ls != [] && front == ls[..|ls| - 1] && last == ls[|ls| - 1]
    requires Admitted(Serve(FRESH, front), last) && Serve(FRESH, front).failures == k % BLOCK_AFTER
    requires k == Streak(FRESH, front) && Streak(FRESH, ls) > 0 && Streak(FRESH, ls) % BLOCK_AFTER == 0
    ensures Serve(FRESH, ls).blockedTo == Some(last.now + BLOCK)
  {
    LastFailure(ls, front, last);
    FailureBlocks(Serve(FRESH, front), last, k, Streak(FRESH, ls));
  }

  lemma LastFailure(ls: seq<Login>, front: seq<Login>, last: Login)
    requires ls != [] && front == ls[..|ls| - 1] && last == ls[|ls| - 1]
    requires Admitted(Serve(FRESH, front), last) && Streak(FRESH, ls) > 0
    ensures Streak(FRESH, ls) == Streak(FRESH, front) + 1 && !last.good
    ensures Serve(FRESH, ls) == Attended(Serve(FRESH, front), last)
  {
  }

  lemma FailureBlocks(a: Attempt, l: Login, k: nat, n: nat)
    requires a.failures == k % BLOCK_AFTER && n == k + 1 && n % BLOCK_AFTER == 0
    requires Admitted(a, l) && !l.good
    ensures Attended(a, l).blockedTo == Some(l.now + BLOCK)
  {
    NineBeforeTen(k);
    AttendKeeps(a, l);
  }

  lemma NineBeforeTen(k: nat)
    requires (k + 1) % BLOCK_AFTER == 0
    ensures k % BLOCK_AFTER == BLOCK_AFTER - 1
  {
  }
}
