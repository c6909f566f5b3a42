/**
 The event broker (internal/hub/hub.go): subscribers with bounded buffers, a publisher that
 drops rather than waits, and a close that happens once. Each method is one critical section;
 consumers read their channels between them.
 */
module Hub {
  import opened Text

  const CAPACITY := 32

  datatype Event = Event(name: string, data: string)

  /**
   A channel and its past: the events offered to it, which of them were taken, how many had
   been read at each offer, and those read.
   */
  datatype Traffic = Traffic(buf: seq<Event>, closed: bool, offered: seq<Event>, taken: seq<bool>,
                             readAt: seq<nat>, received: seq<Event>)

  const OPEN := Traffic([], false, [], [], [], [])

  /** A channel ever handed out; `user` while it is registered; `since` counts the events before it. */
  datatype Entry = Entry(t: Traffic, user: Option<string>, since: nat)

  datatype State = State(chans: seq<Entry>, closed: bool, published: seq<Event>)

  datatype Action = Publish(ev: Event) | Subscribe(user: string) | Unsubscribe(k: nat) | Read(k: nat) | Close

  function Offered(t: Traffic, ev: Event): Traffic {
    var room := |t.buf| < CAPACITY;
    t.(buf := if room then t.buf + [ev] else t.buf, offered := t.offered + [ev], taken := t.taken + [room],
       readAt := t.readAt + [|t.received|])
  }

  function Reading(t: Traffic): Traffic
    requires t.buf != []
  {
    t.(buf := t.buf[1..], received := t.received + [t.buf[0]])
  }

  function PublishedTo(e: Entry, ev: Event): Entry {
    if e.user.Some? then e.(t := Offered(e.t, ev)) else e
  }

  function ClosedBy(e: Entry): Entry {
    if e.user.Some? then e.(t := e.t.(closed := true), user := None) else e
  }

  predicate Legal(s: State, a: Action) {
    match a
    case Unsubscribe(k) => k < |s.chans|
    case Read(k) => k < |s.chans| && s.chans[k].t.buf != []
    case _ => true
  }

  /** What an action does to a channel already handed out. */
  function Moved(s: State, a: Action, k: nat): Entry
    requires Legal(s, a) && k < |s.chans|
  {
    var e := s.chans[k];
    match a
    case Publish(ev) => if s.closed then e else PublishedTo(e, ev)
    case Subscribe(_) => e
    case Unsubscribe(j) => if j == k then e.(user := None) else e
    case Read(j) => if j == k then e.(t := Reading(e.t)) else e
    case Close => if s.closed then e else ClosedBy(e)
  }

  function Step(s: State, a: Action): (t: State)
    requires Legal(s, a)
    ensures |t.chans| == |s.chans| + if a.Subscribe? then 1 else 0
    ensures forall k :: 0 <= k < |s.chans| ==> t.chans[k] == Moved(s, a, k)
  {
    var moved := seq(|s.chans|, k requires 0 <= k < |s.chans| => Moved(s, a, k));
    match a
    case Publish(ev) => s.(chans := moved, published := if s.closed then s.published else s.published + [ev])
    case Subscribe(user) =>
      s.(chans := moved + [Entry(OPEN.(closed := s.closed), if s.closed then None else Some(user), |s.published|)])
    case Close => s.(chans := moved, closed := true)
    case _ => s.(chans := moved)
  }

  // ---- the broker ----

  /** A Go channel of capacity 32: sending on, or closing, a closed one would panic. */
  class Channel {
    var buf: seq<Event>
    var closed: bool
    ghost var past: Traffic
    ghost const index: nat  // position among the channels ever handed out

    ghost function View(): Traffic
      reads this
    {
      past.(buf := buf, closed := closed)
    }

    constructor (ghost index: nat)
      ensures this.index == index && View() == OPEN
    {
      this.index := index;
      buf, closed, past := [], false, OPEN;
    }

    /** select { case ch <- ev: default: } */
    method TrySend(ev: Event)
      requires !closed
      modifies this
      ensures View() == Offered(old(View()), ev)
    {
      past := Offered(View(), ev);
      if |buf| < CAPACITY { buf := buf + [ev]; }
    }

    method Shut()
      requires !closed
      modifies this
      ensures View() == old(View()).(closed := true)
    {
      closed := true;
    }

    method Receive() returns (ev: Event)
      requires buf != []
      modifies this
      ensures View() == Reading(old(View())) && ev == old(buf)[0]
    {
      past := Reading(View());
      ev := buf[0];
      buf := buf[1..];
    }
  }

  class Broker {
    var subs: map<Channel, string>
    var closed: bool
    ghost var all: seq<Channel>
    ghost var abs: State

    ghost predicate Valid()
      reads this, all
    {
      && |all| == |abs.chans| && closed == abs.closed
      && (forall k :: 0 <= k < |all| ==> all[k].index == k && all[k].View() == abs.chans[k].t)
      && (forall k :: 0 <= k < |all| ==>
            abs.chans[k].user == if all[k] in subs then Some(subs[all[k]]) else None)
      && (forall ch | ch in subs :: ch in all && !ch.closed)
      && (closed ==> subs == map[])
    }

    constructor ()
      ensures Valid() && abs == State([], false, [])
    {
      subs, closed, all, abs := map[], false, [], State([], false, []);
    }

    method Publish(ev: Event)
      requires Valid()
      modifies this`abs, all
      ensures Valid() && abs == Step(old(abs), Action.Publish(ev))
    {
      if closed { return; }
      Broadcast(ev);
      abs := Step(abs, Action.Publish(ev));
    }

    method Broadcast(ev: Event)
      requires forall ch | ch in subs :: !ch.closed
      modifies subs.Keys
      ensures forall ch | ch in subs :: ch.View() == Offered(old(ch.View()), ev)
    {
      var rest := subs.Keys;
      while rest != {}
        invariant rest <= subs.Keys && forall ch | ch in rest :: !ch.closed
        invariant forall ch | ch in subs ::
          ch.View() == if ch in rest then old(ch.View()) else Offered(old(ch.View()), ev)
        decreases |rest|
      {
        var ch :| ch in rest;
        ch.TrySend(ev);
        rest := rest - {ch};
      }
    }

    method Subscribe(user: string) returns (ch: Channel)
      requires Valid()
      modifies this
      ensures Valid() && fresh(ch) && all == old(all) + [ch]
      ensures abs == Step(old(abs), Action.Subscribe(user))
    {
      ch := new Channel(|all|);
      if closed {
        ch.Shut();
      } else {
        subs := subs[ch := user];
      }
      all := all + [ch];
      abs := Step(abs, Action.Subscribe(user));
    }

    method UserActive(user: string) returns (active: bool)
      requires Valid()
      ensures active <==> user != "" && exists k :: 0 <= k < |abs.chans| && abs.chans[k].user == Some(user)
    {
      if user == "" { return false; }
      var rest := subs.Keys;
      while rest != {}
        invariant rest <= subs.Keys && forall ch | ch in subs :: ch in rest || subs[ch] != user
        decreases |rest|
      {
        var ch :| ch in rest;
        if subs[ch] == user {
          assert ch in all && abs.chans[ch.index].user == Some(user);
          return true;
        }
        rest := rest - {ch};
      }
      active := false;
    }

    method Unsubscribe(ch: Channel)
      requires Valid() && ch in all
      modifies this
      ensures Valid() && all == old(all) && abs == Step(old(abs), Action.Unsubscribe(ch.index))
    {
      subs := subs - {ch};
      abs := Step(abs, Action.Unsubscribe(ch.index));
    }

    method Close()
      requires Valid()
      modifies this, all
      ensures Valid() && all == old(all) && abs == Step(old(abs), Action.Close)
    {
      if closed { return; }
      ShutAll();
      closed := true;
      subs := map[];
      abs := Step(abs, Action.Close);
    }

    method ShutAll()
      requires forall ch | ch in subs :: !ch.closed
      modifies subs.Keys
      ensures forall ch | ch in subs :: ch.View() == old(ch.View()).(closed := true)
    {
      var rest := subs.Keys;
      while rest != {}
        invariant rest <= subs.Keys && forall ch | ch in rest :: !ch.closed
        invariant forall ch | ch in subs ::
          ch.View() == if ch in rest then old(ch.View()) else old(ch.View()).(closed := true)
        decreases |rest|
      {
        var ch :| ch in rest;
        ch.Shut();
        rest := rest - {ch};
      }
    }

    /** A consumer's receive. */
    method Read(ch: Channel) returns (ev: Event)
      requires Valid() && ch in all && ch.buf != []
      modifies this`abs, ch
      ensures Valid() && Legal(old(abs), Action.Read(ch.index)) && abs == Step(old(abs), Action.Read(ch.index))
      ensures ev == old(ch.buf)[0]
    {
      ev := ch.Receive();
      abs := Step(abs, Action.Read(ch.index));
    }
  }

  // ---- every run ----

  function Count(taken: seq<bool>): nat {
    if taken == [] then 0 else Count(taken[..|taken| - 1]) + if taken[|taken| - 1] then 1 else 0
  }

  /** The events of a list that are marked. */
  function Select(evs: seq<Event>, taken: seq<bool>): (r: seq<Event>)
    requires |evs| == |taken|
    ensures |r| == Count(taken)
  {
    if evs == [] then []
    else
      var n := |evs| - 1;
      var front := Select(evs[..n], taken[..n]);
      if taken[n] then front + [evs[n]] else front
  }

  /** A drop met a buffer with 32 events taken and not yet read. */
  predicate FairAt(taken: seq<bool>, readAt: seq<nat>, i: nat)
    requires i < |taken| == |readAt|
  {
    var before := Count(taken[..i]);
    readAt[i] <= before && (taken[i] <==> before - readAt[i] < CAPACITY)
  }

  /** What a channel delivers is a part of what was offered, in order; drops are fair. */
  predicate InOrder(t: Traffic) {
    && |t.taken| == |t.offered| == |t.readAt| && |t.buf| <= CAPACITY
    && t.received + t.buf == Select(t.offered, t.taken)
    && forall i :: 0 <= i < |t.taken| ==> FairAt(t.taken, t.readAt, i)
  }

  /** A channel was offered exactly what was published while it was registered. */
  predicate Heard(e: Entry, published: seq<Event>) {
    && e.since + |e.t.offered| <= |published|
    && e.t.offered == published[e.since..e.since + |e.t.offered|]
    && (e.user.Some? ==> e.since + |e.t.offered| == |published|)
  }

  predicate EntryInv(s: State, e: Entry) {
    && InOrder(e.t) && Heard(e, s.published)
    && (e.user.Some? ==> !e.t.closed && !s.closed)
  }

  predicate Inv(s: State) {
    forall k :: 0 <= k < |s.chans| ==> EntryInv(s, s.chans[k])
  }

  lemma OfferedInOrder(t: Traffic, ev: Event)
    requires InOrder(t)
    ensures InOrder(Offered(t, ev))
  {
    var (u, n) := (Offered(t, ev), |t.taken|);
    var room := |t.buf| < CAPACITY;
    assert u.offered[..n] == t.offered && u.taken[..n] == t.taken;
    assert Select(u.offered, u.taken) == if room then Select(t.offered, t.taken) + [ev] else Select(t.offered, t.taken);
    assert t.received + t.buf + [ev] == t.received + (t.buf + [ev]);
    forall i | 0 <= i < n + 1 ensures FairAt(u.taken, u.readAt, i) {
      if i < n {
        assert FairAt(t.taken, t.readAt, i);
        assert u.taken[..i] == t.taken[..i];
      } else {
        assert Count(t.taken) == |t.received| + |t.buf|;
      }
    }
  }

  lemma PublishKeeps(s: State, e: Entry, ev: Event)
    requires EntryInv(s, e) && !s.closed
    ensures EntryInv(s.(published := s.published + [ev]), PublishedTo(e, ev))
  {
    if e.user.Some? { OfferedInOrder(e.t, ev); }
  }

  lemma ReadKeeps(s: State, e: Entry)
    requires EntryInv(s, e) && e.t.buf != []
    ensures EntryInv(s, e.(t := Reading(e.t)))
  {
    var u := Reading(e.t);
    assert e.t.received + e.t.buf == u.received + u.buf;
  }

  lemma MovedKeeps(s: State, a: Action, k: nat)
    requires Legal(s, a) && k < |s.chans| && EntryInv(s, s.chans[k])
    ensures EntryInv(Step(s, a), Moved(s, a, k))
  {
    var e := s.chans[k];
    match a {
      case Publish(ev) => if !s.closed { PublishKeeps(s, e, ev); }
      case Subscribe(_) =>
      case Unsubscribe(j) =>
      case Read(j) => if j == k { ReadKeeps(s, e); }
      case Close =>
    }
  }

  lemma StepKeepsInv(s: State, a: Action)
    requires Inv(s) && Legal(s, a)
    ensures Inv(Step(s, a))
  {
    var t := Step(s, a);
    forall k | 0 <= k < |t.chans| ensures EntryInv(t, t.chans[k]) {
      if k < |s.chans| {
        MovedKeeps(s, a, k);
      } else {
        NewChannel(t, t.chans[k]);
      }
    }
  }

  lemma NewChannel(s: State, e: Entry)
    requires e == Entry(OPEN.(closed := s.closed), e.user, |s.published|) && (e.user.Some? ==> !s.closed)
    ensures EntryInv(s, e)
  {
  }

  predicate LegalRun(s: State, run: seq<Action>)
    decreases |run|
  {
    run == [] || (Legal(s, run[0]) && LegalRun(Step(s, run[0]), run[1..]))
  }

  function Final(s: State, run: seq<Action>): State
    requires LegalRun(s, run)
    decreases |run|
  {
    if run == [] then s else Final(Step(s, run[0]), run[1..])
  }

  /** In every run each channel delivers, in order, what it could hold of what it was meant to hear. */
  lemma {:induction false} EveryRunKeepsInv(s: State, run: seq<Action>)
    requires Inv(s) && LegalRun(s, run)
    ensures Inv(Final(s, run))
    decreases |run|
  {
    if run == [] {
    } else {
      StepKeepsInv(s, run[0]);
      EveryRunKeepsInv(Step(s, run[0]), run[1..]);
    }
  }

  /** A subscriber that keeps up loses nothing: no drop if never 32 events behind. */
  lemma {:induction false} KeepingUpLosesNothing(t: Traffic)
    requires InOrder(t) && forall i :: 0 <= i < |t.offered| ==> i - t.readAt[i] < CAPACITY
    ensures t.received + t.buf == t.offered
  {
    AllTaken(t, |t.offered|);
    assert t.offered[..|t.offered|] == t.offered && t.taken[..|t.taken|] == t.taken;
  }

  lemma {:induction false} AllTaken(t: Traffic, n: nat)
    requires InOrder(t) && n <= |t.offered| && forall i :: 0 <= i < |t.offered| ==> i - t.readAt[i] < CAPACITY
    ensures Count(t.taken[..n]) == n && Select(t.offered[..n], t.taken[..n]) == t.offered[..n]
  {
    if n == 0 {
    } else {
      AllTaken(t, n - 1);
      assert t.taken[..n][..n - 1] == t.taken[..n - 1] && t.offered[..n][..n - 1] == t.offered[..n - 1];
      assert FairAt(t.taken, t.readAt, n - 1);
      assert t.offered[..n] == t.offered[..n - 1] + [t.offered[n - 1]];
    }
  }

  /** Once closed, a hub stays closed and never reopens or registers a channel. */
  lemma {:induction false} CloseIsFinal(s: State, run: seq<Action>, k: nat)
    requires Inv(s) && LegalRun(s, run) && s.closed && k < |s.chans|
    ensures var t := Final(s, run);
            && t.closed && t.published == s.published && k < |t.chans|
            && t.chans[k].user.None? && t.chans[k].t.closed == s.chans[k].t.closed
    decreases |run|
  {
    assert EntryInv(s, s.chans[k]);
    if run == [] {
    } else {
      StepKeepsInv(s, run[0]);
      CloseIsFinal(Step(s, run[0]), run[1..], k);
    }
  }

  // ---- who is registered, from the actions of a run ----

  /** A drop means, and is meant by, 32 events taken and not read. */
  lemma DropsExactlyWhenFull(t: Traffic, i: nat)
    requires InOrder(t) && i < |t.offered|
    ensures !t.taken[i] <==> Count(t.taken[..i]) >= t.readAt[i] + 32
    ensures |t.buf| <= 32
  {
    assert FairAt(t.taken, t.readAt, i);
  }

  /** A new channel belongs to its subscriber; a closed hub gives out a closed one that belongs to nobody. */
  lemma SubscribeGives(s: State, user: string)
    ensures var t := Step(s, Subscribe(user));
            && |t.chans| == |s.chans| + 1 && t.chans[..|s.chans|] == s.chans
            && t.chans[|s.chans|].user == (if s.closed then None else Some(user))
            && t.chans[|s.chans|].t.closed == s.closed
            && t.chans[|s.chans|].t.buf == [] && t.chans[|s.chans|].t.offered == []
  {
  }

  /** One action takes a channel from its user exactly if it closes the hub or gives up that channel. */
  lemma StepUser(s: State, a: Action, k: nat)
    requires Inv(s) && Legal(s, a) && k < |s.chans|
    ensures k < |Step(s, a).chans|
    ensures Step(s, a).chans[k].user == if a == Close || a == Unsubscribe(k) then None else s.chans[k].user
    ensures Step(s, a).chans[k].t.closed <==> s.chans[k].t.closed || (a == Close && s.chans[k].user.Some?)
  {
    assert EntryInv(s, s.chans[k]);
  }

  /** A channel belongs to its user until the hub is closed or that channel is given up, and to nobody afterwards. */
  lemma {:induction false} RegisteredExactly(s: State, run: seq<Action>, k: nat)
    requires Inv(s) && LegalRun(s, run) && k < |s.chans|
    ensures k < |Final(s, run).chans|
    ensures Final(s, run).chans[k].user ==
            if Close in run || Unsubscribe(k) in run then None else s.chans[k].user
    decreases |run|
  {
    if run == [] {
    } else {
      StepUser(s, run[0], k);
      StepKeepsInv(s, run[0]);
      RegisteredExactly(Step(s, run[0]), run[1..], k);
      assert run == [run[0]] + run[1..];
    }
  }

  /** The hub is closed exactly when somebody closed it. */
  lemma {:induction false} ClosedExactly(s: State, run: seq<Action>)
    requires LegalRun(s, run)
    ensures Final(s, run).closed <==> s.closed || Close in run
    decreases |run|
  {
    if run == [] {
    } else {
      ClosedExactly(Step(s, run[0]), run[1..]);
      assert run == [run[0]] + run[1..];
    }
  }

  /** The hub is closed at `j`, and channel `k` was not given up before. */
  predicate ClosesAt(run: seq<Action>, k: nat, j: nat) {
    j < |run| && run[j] == Close && Unsubscribe(k) !in run[..j]
  }

  /** Closing the hub closes the channels that belong to somebody, and no other action closes any. */
  lemma {:induction false} ChannelsClose(s: State, run: seq<Action>, k: nat)
    requires Inv(s) && LegalRun(s, run) && k < |s.chans| && s.chans[k].user.Some?
    ensures k < |Final(s, run).chans|
    ensures Final(s, run).chans[k].t.closed <==> exists j: nat :: ClosesAt(run, k, j)
    decreases |run|
  {
    assert EntryInv(s, s.chans[k]);
    if run == [] {
    } else {
      var t := Step(s, run[0]);
      StepUser(s, run[0], k);
      StepKeepsInv(s, run[0]);
      if t.chans[k].user.Some? {
        ChannelsClose(t, run[1..], k);
        CloseLater(run, k);
      } else {
        StaysShut(t, run[1..], k);
        if run[0] == Close {
          assert run[..0] == [] && ClosesAt(run, k, 0);
        } else {
          AfterGivingUp(run, k);
        }
      }
    }
  }

  /** A channel that belongs to nobody is never closed any more, nor opened. */
  lemma {:induction false} StaysShut(s: State, run: seq<Action>, k: nat)
    requires Inv(s) && LegalRun(s, run) && k < |s.chans| && s.chans[k].user.None?
    ensures k < |Final(s, run).chans| && Final(s, run).chans[k].t.closed == s.chans[k].t.closed
    decreases |run|
  {
    if run == [] {
    } else {
      StepUser(s, run[0], k);
      StepKeepsInv(s, run[0]);
      StaysShut(Step(s, run[0]), run[1..], k);
    }
  }

  lemma CloseLater(run: seq<Action>, k: nat)
    requires run != [] && run[0] != Close && run[0] != Unsubscribe(k)
    ensures (exists j: nat :: ClosesAt(run, k, j)) <==> exists j: nat :: ClosesAt(run[1..], k, j)
  {
    if j: nat :| ClosesAt(run, k, j) {
      assert run[1..][..j - 1] == run[..j][1..];
      assert ClosesAt(run[1..], k, j - 1);
    }
    if j: nat :| ClosesAt(run[1..], k, j) {
      assert run[..j + 1] == [run[0]] + run[1..][..j];
      assert ClosesAt(run, k, j + 1);
    }
  }

  lemma AfterGivingUp(run: seq<Action>, k: nat)
    requires run != [] && run[0] == Unsubscribe(k)
    ensures !exists j: nat :: ClosesAt(run, k, j)
  {
    forall j: nat ensures !ClosesAt(run, k, j) {
      if 0 < j < |run| { assert run[..j][0] == run[0]; }
    }
  }
}
