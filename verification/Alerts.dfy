/**
 The alerts table (internal/alerts/alerts.go): raising with deduplication, acknowledging, and
 the purge of old acknowledged alerts (internal/db/db.go). Calls do not overlap and database
 writes succeed.
 */
module Alerts {
  import opened Text

  /** A row; `meta` is the structured data, "" without a kind. */
  datatype Row = Row(id: nat, ts: int, level: string, source: string, target: string, message: string,
                     meta: string, kind: string, acked: bool)

  datatype Raise = Raise(ts: int, level: string, source: string, target: string, message: string, kind: string,
                         meta: string)

  /** What an alert is about: a kind of problem of a source or, without a kind, a message. */
  datatype Key = OfKind(source: string, kind: string) | OfMessage(source: string, message: string)

  function KeyOf(r: Row): Key {
    if r.kind != "" then OfKind(r.source, r.kind) else OfMessage(r.source, r.message)
  }

  function RaisedKey(a: Raise): Key {
    if a.kind != "" then OfKind(a.source, a.kind) else OfMessage(a.source, a.message)
  }

  predicate IsActive(r: Row, k: Key) {
    !r.acked && KeyOf(r) == k
  }

  predicate Active(rows: seq<Row>, k: Key) {
    exists i :: 0 <= i < |rows| && IsActive(rows[i], k)
  }

  /** What the lookup before an insertion matches: the kindless one does not look at the kind. */
  predicate Duplicates(r: Row, a: Raise) {
    && !r.acked && r.source == a.source
    && if a.kind != "" then r.kind == a.kind else r.message == a.message
  }

  /** The first row a raise duplicates, |rows| if none. */
  function Match(rows: seq<Row>, a: Raise): (i: nat)
    ensures i <= |rows| && (i < |rows| ==> Duplicates(rows[i], a))
    ensures forall j :: 0 <= j < i ==> !Duplicates(rows[j], a)
  {
    if rows == [] then 0
    else if Duplicates(rows[0], a) then 0
    else 1 + Match(rows[1..], a)
  }

  /** INTEGER PRIMARY KEY: one more than the largest id in the table. */
  function NextId(rows: seq<Row>): nat {
    if rows == [] then 1 else rows[|rows| - 1].id + 1
  }

  function Inserted(rows: seq<Row>, a: Raise): Row {
    Row(NextId(rows), a.ts, a.level, a.source, a.target, a.message, a.meta, a.kind, false)
  }

  function Refreshed(r: Row, a: Raise): Row {
    r.(ts := a.ts, level := a.level, message := a.message, meta := a.meta)
  }

  /** The table and every row published as alert.new, in order. */
  datatype State = State(rows: seq<Row>, news: seq<Row>)

  function Raised(s: State, a: Raise): State {
    var i := Match(s.rows, a);
    if i == |s.rows| then State(s.rows + [Inserted(s.rows, a)], s.news + [Inserted(s.rows, a)])
    else if a.kind != "" then s.(rows := s.rows[i := Refreshed(s.rows[i], a)])
    else s
  }

  function AckRow(r: Row, id: nat): Row {
    if r.id == id then r.(acked := true) else r
  }

  function Acked(rows: seq<Row>, id: nat): (r: seq<Row>)
    ensures |r| == |rows| && forall i :: 0 <= i < |r| ==> r[i] == AckRow(rows[i], id)
  {
    seq(|rows|, i requires 0 <= i < |rows| => AckRow(rows[i], id))
  }

  function Purged(rows: seq<Row>, cutoff: int): (r: seq<Row>)
    ensures forall x | x in r :: x in rows
  {
    if rows == [] then []
    else
      var last := rows[|rows| - 1];
      var front := Purged(rows[..|rows| - 1], cutoff);
      if last.acked && last.ts < cutoff then front else front + [last]
  }

  // ---- the alerter ----

  class Alerter {
    var rows: seq<Row>
    ghost var news: seq<Row>

    ghost function View(): State
      reads this
    {
      State(rows, news)
    }

    /** The SELECT ... LIMIT 1 of either branch. */
    method Lookup(a: Raise) returns (i: nat)
      ensures i == Match(rows, a)
    {
      i := 0;
      while i < |rows| && !Duplicates(rows[i], a)
        invariant 0 <= i <= |rows| && Match(rows, a) == i + Match(rows[i..], a)
      {
        assert rows[i..][1..] == rows[i + 1..];
        i := i + 1;
      }
    }

    method RaiseKind(a: Raise)
      modifies this
      ensures View() == Raised(old(View()), a)
    {
      var i := Lookup(a);
      if i < |rows| {
        if a.kind != "" {
          rows := rows[i := rows[i].(ts := a.ts, level := a.level, message := a.message, meta := a.meta)];
        }
        return;
      }
      var id := if rows == [] then 1 else rows[|rows| - 1].id + 1;
      var row := Row(id, a.ts, a.level, a.source, a.target, a.message, a.meta, a.kind, false);
      rows := rows + [row];
      news := news + [row];
    }

    method Ack(id: nat)
      modifies this
      ensures View() == State(Acked(old(rows), id), old(news))
      ensures forall i :: 0 <= i < |rows| ==>
                rows[i] == old(rows)[i].(acked := old(rows)[i].acked || old(rows)[i].id == id)
    {
      var was := rows;
      for i := 0 to |was|
        invariant |rows| == |was| && news == old(news)
        invariant forall k :: 0 <= k < |rows| ==> rows[k] == if k < i then AckRow(was[k], id) else was[k]
      {
        if rows[i].id == id && !rows[i].acked { rows := rows[i := rows[i].(acked := true)]; }
      }
    }

    method Purge(cutoff: int)
      modifies this
      ensures View() == State(Purged(old(rows), cutoff), old(news))
      ensures forall x :: x in rows <==> x in old(rows) && (!x.acked || x.ts >= cutoff)
    {
      var kept := [];
      for i := 0 to |rows|
        invariant kept == Purged(rows[..i], cutoff)
      {
        assert rows[..i + 1][..i] == rows[..i];
        if !(rows[i].acked && rows[i].ts < cutoff) { kept := kept + [rows[i]]; }
      }
      assert rows[..|rows|] == rows;
      forall x ensures x in kept <==> x in rows && (!x.acked || x.ts >= cutoff) { PurgeExactly(rows, cutoff, x); }
      rows := kept;
    }
  }

  // ---- every run ----

  datatype Event = Raising(a: Raise) | Acking(id: nat) | Purging(cutoff: int)

  function Step(s: State, e: Event): State {
    match e
    case Raising(a) => Raised(s, a)
    case Acking(id) => s.(rows := Acked(s.rows, id))
    case Purging(cutoff) => s.(rows := Purged(s.rows, cutoff))
  }

  predicate Ascending(rows: seq<Row>) {
    forall i, j :: 0 <= i < j < |rows| ==> rows[i].id < rows[j].id
  }

  /** No two unacknowledged alerts are about the same thing. */
  predicate OnePerKey(rows: seq<Row>) {
    forall i, j :: 0 <= i < j < |rows| && !rows[i].acked && !rows[j].acked ==> KeyOf(rows[i]) != KeyOf(rows[j])
  }

  predicate Inv(s: State) {
    Ascending(s.rows) && OnePerKey(s.rows)
  }

  lemma {:induction false} PurgedKeeps(rows: seq<Row>, cutoff: int)
    requires Ascending(rows) && OnePerKey(rows)
    ensures Ascending(Purged(rows, cutoff)) && OnePerKey(Purged(rows, cutoff))
  {
    if rows == [] {
    } else {
      var n := |rows| - 1;
      PurgedKeeps(rows[..n], cutoff);
      var front := Purged(rows[..n], cutoff);
      forall i | 0 <= i < |front|
        ensures front[i].id < rows[n].id
        ensures !front[i].acked && !rows[n].acked ==> KeyOf(front[i]) != KeyOf(rows[n])
      {
        assert front[i] in front && front[i] in rows[..n];
      }
    }
  }

  /** A purge forgets no unacknowledged alert. */
  lemma {:induction false} PurgeSparesActive(rows: seq<Row>, cutoff: int, r: Row)
    requires !r.acked
    ensures r in Purged(rows, cutoff) <==> r in rows
  {
    if rows == [] {
    } else {
      assert rows == rows[..|rows| - 1] + [rows[|rows| - 1]];
      PurgeSparesActive(rows[..|rows| - 1], cutoff, r);
    }
  }

  lemma StepKeepsInv(s: State, e: Event)
    requires Inv(s)
    ensures Inv(Step(s, e))
  {
    match e {
      case Raising(a) => RaiseKeepsInv(s, a);
      case Acking(id) =>
        forall i, j | 0 <= i < j < |s.rows| && !Acked(s.rows, id)[i].acked && !Acked(s.rows, id)[j].acked
          ensures KeyOf(Acked(s.rows, id)[i]) != KeyOf(Acked(s.rows, id)[j])
        {
          assert KeyOf(s.rows[i]) != KeyOf(s.rows[j]);
        }
      case Purging(cutoff) => PurgedKeeps(s.rows, cutoff);
    }
  }

  /** A raise matches a row about the same thing, if there is one. */
  lemma MatchFindsKey(rows: seq<Row>, a: Raise, i: nat)
    requires i < |rows| && IsActive(rows[i], RaisedKey(a))
    ensures Match(rows, a) <= i && Duplicates(rows[i], a)
  {
  }

  lemma RaiseKeepsInv(s: State, a: Raise)
    requires Inv(s)
    ensures Inv(Raised(s, a))
  {
    var m := Match(s.rows, a);
    if m == |s.rows| {
      var row := Inserted(s.rows, a);
      assert KeyOf(row) == RaisedKey(a);
      forall i | 0 <= i < m && !s.rows[i].acked ensures KeyOf(s.rows[i]) != KeyOf(row) {
        if KeyOf(s.rows[i]) == KeyOf(row) { MatchFindsKey(s.rows, a, i); }
      }
    } else if a.kind != "" {
      assert KeyOf(Refreshed(s.rows[m], a)) == KeyOf(s.rows[m]);
    }
  }

  function Final(s: State, es: seq<Event>): State
    decreases |es|
  {
    if es == [] then s else Final(Step(s, es[0]), es[1..])
  }

  /** In every run at most one unacknowledged alert exists for each key. */
  lemma {:induction false} AtMostOneActive(s: State, es: seq<Event>)
    requires Inv(s)
    ensures Inv(Final(s, es))
    decreases |es|
  {
    if es == [] {
    } else {
      StepKeepsInv(s, es[0]);
      AtMostOneActive(Step(s, es[0]), es[1..]);
    }
  }

  // ---- what acknowledging and purging do to the table ----

  /** Acknowledging marks the row with the id and no other, and changes nothing else. */
  lemma AckExactly(rows: seq<Row>, id: nat)
    ensures |Acked(rows, id)| == |rows|
    ensures forall i :: 0 <= i < |rows| ==> Acked(rows, id)[i] == rows[i].(acked := rows[i].acked || rows[i].id == id)
  {
  }

  /** A purge removes exactly the acknowledged rows from before the cutoff. */
  lemma {:induction false} PurgeExactly(rows: seq<Row>, cutoff: int, x: Row)
    ensures x in Purged(rows, cutoff) <==> x in rows && (!x.acked || x.ts >= cutoff)
  {
    if rows == [] {
    } else {
      var (front, last) := (rows[..|rows| - 1], rows[|rows| - 1]);
      PurgeExactly(front, cutoff, x);
      assert rows == front + [last];
    }
  }

  /** What is published is the row that was inserted, as it was raised, and unacknowledged. */
  lemma PublishedIsInserted(s: State, a: Raise)
    ensures var t := Raised(s, a);
            || (t.news == s.news && |t.rows| == |s.rows|)
            || (&& |t.news| == |s.news| + 1 && t.news[..|s.news|] == s.news
                && |t.rows| == |s.rows| + 1 && t.rows[..|s.rows|] == s.rows
                && t.rows[|s.rows|] == t.news[|s.news|]
                && var r := t.rows[|s.rows|];
                   && r.ts == a.ts && r.level == a.level && r.source == a.source && r.target == a.target
                   && r.message == a.message && r.meta == a.meta && r.kind == a.kind && !r.acked)
  {
  }

  // ---- one alert.new for each activation ----

  function Published(news: seq<Row>, k: Key): nat {
    if news == [] then 0
    else Published(news[..|news| - 1], k) + if KeyOf(news[|news| - 1]) == k then 1 else 0
  }

  /** How often the key turned from inactive to active. */
  function Activations(s: State, es: seq<Event>, k: Key): nat
    decreases |es|
  {
    if es == [] then 0
    else
      var t := Step(s, es[0]);
      (if !Active(s.rows, k) && Active(t.rows, k) then 1 else 0) + Activations(t, es[1..], k)
  }

  /** One step publishes a key exactly when it activates it. */
  lemma PublishedIffActivated(s: State, e: Event, k: Key)
    requires Inv(s)
    ensures var t := Step(s, e);
            Published(t.news, k) == Published(s.news, k) + if !Active(s.rows, k) && Active(t.rows, k) then 1 else 0
  {
    var t := Step(s, e);
    match e {
      case Raising(a) => RaisePublishes(s, a, k);
      case Acking(id) =>
        if i :| 0 <= i < |t.rows| && IsActive(t.rows[i], k) { assert IsActive(s.rows[i], k); }
      case Purging(cutoff) =>
        if i :| 0 <= i < |t.rows| && IsActive(t.rows[i], k) { assert t.rows[i] in s.rows; }
    }
  }

  lemma RaisePublishes(s: State, a: Raise, k: Key)
    ensures var t := Raised(s, a);
            Published(t.news, k) == Published(s.news, k) + if !Active(s.rows, k) && Active(t.rows, k) then 1 else 0
  {
    var (t, m) := (Raised(s, a), Match(s.rows, a));
    if m == |s.rows| {
      var row := Inserted(s.rows, a);
      assert t.news[..|s.news|] == s.news && t.rows[m] == row;
      if i :| 0 <= i < m && IsActive(s.rows[i], k) {
        if k == RaisedKey(a) { MatchFindsKey(s.rows, a, i); }
      } else if k == RaisedKey(a) {
        assert IsActive(t.rows[m], k);
      } else if i :| 0 <= i < |t.rows| && IsActive(t.rows[i], k) {
        assert false;
      }
    } else if i :| 0 <= i < |t.rows| && IsActive(t.rows[i], k) {
      assert IsActive(s.rows[i], k);
    }
  }

  /** In every run the alert.new events of a key are as many as its activations. */
  lemma {:induction false} OneEventPerActivation(s: State, es: seq<Event>, k: Key)
    requires Inv(s)
    ensures Published(Final(s, es).news, k) == Published(s.news, k) + Activations(s, es, k)
    decreases |es|
  {
    if es == [] {
    } else {
      PublishedIffActivated(s, es[0], k);
      StepKeepsInv(s, es[0]);
      OneEventPerActivation(Step(s, es[0]), es[1..], k);
    }
  }

  // ---- what the active alert says ----

  /** The last raise of a kind, after a run that began with `last`. */
  function LastRaise(es: seq<Event>, k: Key, last: Option<Raise>): Option<Raise> {
    if es == [] then last
    else
      var e := es[|es| - 1];
      if e.Raising? && RaisedKey(e.a) == k then Some(e.a) else LastRaise(es[..|es| - 1], k, last)
  }

  predicate Says(r: Row, a: Option<Raise>) {
    a.Some? && r.ts == a.value.ts && r.level == a.value.level && r.message == a.value.message && r.meta == a.value.meta
  }

  lemma {:induction false} FinalSnoc(s: State, es: seq<Event>)
    requires es != []
    ensures Final(s, es) == Step(Final(s, es[..|es| - 1]), es[|es| - 1])
    decreases |es|
  {
    if |es| > 1 {
      FinalSnoc(Step(s, es[0]), es[1..]);
      assert es[1..][..|es| - 2] == es[..|es| - 1][1..];
    }
  }

  lemma SaysAfterStep(s: State, e: Event, k: Key, last: Option<Raise>, i: nat)
    requires Inv(s) && k.OfKind? && k.kind != ""
    requires forall j :: 0 <= j < |s.rows| && IsActive(s.rows[j], k) ==> Says(s.rows[j], last)
    requires i < |Step(s, e).rows| && IsActive(Step(s, e).rows[i], k)
    ensures Says(Step(s, e).rows[i], if e.Raising? && RaisedKey(e.a) == k then Some(e.a) else last)
  {
    var r := Step(s, e).rows[i];
    match e {
      case Raising(a) =>
        if i < |s.rows| && IsActive(s.rows[i], k) && RaisedKey(a) == k {
          var m := Match(s.rows, a);
          MatchFindsKey(s.rows, a, i);
          assert IsActive(s.rows[m], k);
        }
      case Acking(id) => assert r == s.rows[i];
      case Purging(cutoff) => assert r in s.rows;
    }
  }

  /** In every run from an empty table, an active alert with a kind says what its last raise said. */
  lemma {:induction false} ActiveSaysLastRaise(es: seq<Event>, k: Key, i: nat)
    requires k.OfKind? && k.kind != ""
    requires var t := Final(State([], []), es); i < |t.rows| && IsActive(t.rows[i], k)
    ensures Says(Final(State([], []), es).rows[i], LastRaise(es, k, None))
    decreases |es|
  {
    if es == [] {
    } else {
      var n := |es| - 1;
      FinalSnoc(State([], []), es);
      var s := Final(State([], []), es[..n]);
      forall j | 0 <= j < |s.rows| && IsActive(s.rows[j], k) ensures Says(s.rows[j], LastRaise(es[..n], k, None)) {
        ActiveSaysLastRaise(es[..n], k, j);
      }
      AtMostOneActive(State([], []), es[..n]);
      SaysAfterStep(s, es[n], k, LastRaise(es[..n], k, None), i);
    }
  }

  /** The raise that last turned the key from inactive to active. */
  function Activator(es: seq<Event>, k: Key): Option<Raise>
    decreases |es|
  {
    if es == [] then None
    else
      var n := |es| - 1;
      var s := Final(State([], []), es[..n]);
      var t := Step(s, es[n]);
      if es[n].Raising? && !Active(s.rows, k) && Active(t.rows, k) then Some(es[n].a) else Activator(es[..n], k)
  }

  /** What an active alert keeps of the raise that activated it: without a kind, everything. */
  predicate Keeps(r: Row, k: Key, a: Option<Raise>) {
    && a.Some? && RaisedKey(a.value) == k && r.target == a.value.target
    && (k.OfMessage? ==> Says(r, a))
  }

  /** All active rows of the key keep what `a` set. */
  predicate AllKeep(rows: seq<Row>, k: Key, a: Option<Raise>) {
    forall j :: 0 <= j < |rows| && IsActive(rows[j], k) ==> Keeps(rows[j], k, a)
  }

  lemma KeepsAfterRaise(s: State, a: Raise, k: Key, first: Option<Raise>, i: nat)
    requires AllKeep(s.rows, k, first)
    requires var t := Raised(s, a); i < |t.rows| && IsActive(t.rows[i], k)
    ensures Keeps(Raised(s, a).rows[i], k, if Active(s.rows, k) then first else Some(a))
  {
    var m := Match(s.rows, a);
    if i < |s.rows| {
      assert IsActive(s.rows[i], k);
    } else if j :| 0 <= j < |s.rows| && IsActive(s.rows[j], k) {
      MatchFindsKey(s.rows, a, j);
    }
  }

  lemma KeepsAfterStep(s: State, e: Event, k: Key, first: Option<Raise>, i: nat)
    requires AllKeep(s.rows, k, first)
    requires i < |Step(s, e).rows| && IsActive(Step(s, e).rows[i], k)
    ensures Keeps(Step(s, e).rows[i], k, if e.Raising? && !Active(s.rows, k) then Some(e.a) else first)
  {
    var r := Step(s, e).rows[i];
    match e {
      case Raising(a) => KeepsAfterRaise(s, a, k, first, i);
      case Acking(id) => assert r == s.rows[i];
      case Purging(cutoff) => assert r in s.rows;
    }
  }

  /**
   In every run from an empty table, an active alert keeps the target of the raise that
   activated it and, when it has no kind, all that raise said: later raises change nothing.
   */
  lemma {:induction false} ActiveKeepsActivator(es: seq<Event>, k: Key, i: nat)
    requires var t := Final(State([], []), es); i < |t.rows| && IsActive(t.rows[i], k)
    ensures Keeps(Final(State([], []), es).rows[i], k, Activator(es, k))
    decreases |es|
  {
    if es == [] {
    } else {
      var n := |es| - 1;
      FinalSnoc(State([], []), es);
      var s := Final(State([], []), es[..n]);
      forall j | 0 <= j < |s.rows| && IsActive(s.rows[j], k) ensures Keeps(s.rows[j], k, Activator(es[..n], k)) {
        ActiveKeepsActivator(es[..n], k, j);
      }
      KeepsAfterStep(s, es[n], k, Activator(es[..n], k), i);
    }
  }

  /** Every unacknowledged alert with this source and message has this level. */
  predicate AllAtLevel(rows: seq<Row>, a: Raise) {
    forall i :: 0 <= i < |rows| && !rows[i].acked && rows[i].source == a.source && rows[i].message == a.message ==>
      rows[i].level == a.level
  }

  /**
   Without a kind nothing is refreshed: the active alerts with the raised message carry
   the raised level exactly when those active before already did.
   */
  lemma KindlessLevel(s: State, a: Raise)
    requires a.kind == ""
    ensures AllAtLevel(Raised(s, a).rows, a) <==> AllAtLevel(s.rows, a)
  {
    var (t, m) := (Raised(s, a), Match(s.rows, a));
    if m == |s.rows| {
      forall i | 0 <= i < |t.rows| && Duplicates(t.rows[i], a) ensures t.rows[i].level == a.level {
        assert i == m;
      }
      assert forall r :: Duplicates(r, a) <==> !r.acked && r.source == a.source && r.message == a.message;
    }
  }

  /** A warning raised again as critical stays a warning. */
  lemma KindlessKeepsOldLevel()
    ensures var s := State([Row(1, 0, "warn", "task", "", "m", "", "", false)], []);
            var a := Raise(1, "crit", "task", "", "m", "", "");
            Raised(s, a) == s && !AllAtLevel(Raised(s, a).rows, a)
  {
    var s := State([Row(1, 0, "warn", "task", "", "m", "", "", false)], []);
    var a := Raise(1, "crit", "task", "", "m", "", "");
    assert Duplicates(s.rows[0], a);
  }

  /** After a raise its key is active, unless a kindless one met the same message under a kind. */
  lemma RaisedKeyIsActive(s: State, a: Raise)
    ensures Active(Raised(s, a).rows, RaisedKey(a)) <==>
              || Active(s.rows, RaisedKey(a)) || a.kind != ""
              || forall i :: 0 <= i < |s.rows| ==>
                   s.rows[i].acked || s.rows[i].source != a.source || s.rows[i].message != a.message
  {
    var (t, m) := (Raised(s, a), Match(s.rows, a));
    if m == |s.rows| {
      assert IsActive(t.rows[m], RaisedKey(a));
    } else if a.kind != "" {
      assert IsActive(t.rows[m], RaisedKey(a));
    }
  }
}
