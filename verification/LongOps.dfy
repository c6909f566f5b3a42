/**
 The long-operation runner (internal/longops/longops.go). Each method of the manager is
 one critical section of its mutex; an operation's watcher, its output scanner and any
 number of callers interleave them. The registry is a slice compacted in place.
 */
module LongOps {
  import opened Lists
  import opened Text

  datatype Status = Running | Done | Error | Canceled

  const MAX_LINES := 50
  const DONE_TTL := 3600

  /** 'op-<unix>-<seq>'. */
  datatype OpId = OpId(unix: int, number: nat)

  /** The fields of an operation, as copied out by List, Get and publish. */
  datatype View = View(id: OpId, kind: string, target: string, started: int, ended: Option<int>,
                       status: Status, error: string, lines: seq<string>,
                       cancel: bool,       // the cancel function is set
                       canceledReq: bool)  // Cancel asked for it to be killed

  // ---- the specification: one critical section at a time ----

  /**
   Every operation ever started, in order; the registry as positions into it; all the
   lines each one printed; and the operations whose watcher has not finished.
   */
  datatype State = State(ops: seq<View>, list: seq<nat>, output: seq<seq<string>>, watched: set<nat>)

  datatype Event =
    | Start(kind: string, target: string, now: int)
    | Line(k: nat, line: string)                // appendLine, from the scanner
    | Exit(k: nat, error: string, now: int)     // watch, after cmd.Wait and the scanner
    | Mark(k: nat)                              // Cancel, once it has found the operation
    | List(now: int)

  /** A found operation stays reachable by its pointer whether or not it is still registered. */
  predicate Legal(s: State, e: Event) {
    match e
    case Start(_, _, _) => true
    case Line(k, _) => k in s.watched && k < |s.ops|
    case Exit(k, _, _) => k in s.watched && k < |s.ops|
    case Mark(k) => k < |s.ops|
    case List(_) => true
  }

  function NewView(number: nat, kind: string, target: string, now: int): View {
    View(OpId(now, number), kind, target, now, None, Running, "", [], true, false)
  }

  function WithLine(v: View, line: string): View {
    v.(lines := LastOf(v.lines + [line], MAX_LINES))
  }

  function Ended(v: View, error: string, now: int): View {
    var w := v.(ended := Some(now), cancel := false);
    if v.canceledReq then w.(status := Canceled)
    else if error != "" then w.(status := Error, error := error)
    else w.(status := Done)
  }

  function Asked(v: View): View {
    if v.cancel then v.(canceledReq := true) else v
  }

  predicate Expired(v: View, cutoff: int) {
    v.ended.Some? && v.ended.value < cutoff
  }

  predicate InRange(list: seq<nat>, n: nat) {
    forall i :: 0 <= i < |list| ==> list[i] < n
  }

  /** The first `n` entries of the registry without the operations that ended before the cutoff. */
  function KeptTo(ops: seq<View>, list: seq<nat>, n: nat, cutoff: int): (r: seq<nat>)
    requires InRange(list, |ops|) && n <= |list|
    ensures InRange(r, |ops|)
  {
    if n == 0 then []
    else
      var front := KeptTo(ops, list, n - 1, cutoff);
      if Expired(ops[list[n - 1]], cutoff) then front else front + [list[n - 1]]
  }

  function Kept(ops: seq<View>, list: seq<nat>, cutoff: int): (r: seq<nat>)
    requires InRange(list, |ops|)
    ensures InRange(r, |ops|)
  {
    KeptTo(ops, list, |list|, cutoff)
  }

  predicate Registered(s: State) {
    InRange(s.list, |s.ops|)
  }

  function Step(s: State, e: Event): State
    requires Legal(s, e) && Registered(s) && |s.output| == |s.ops|
  {
    match e
    case Start(kind, target, now) =>
      State(s.ops + [NewView(|s.ops| + 1, kind, target, now)], [|s.ops|] + s.list, s.output + [[]],
            s.watched + {|s.ops|})
    case Line(k, line) =>
      s.(ops := s.ops[k := WithLine(s.ops[k], line)], output := s.output[k := s.output[k] + [line]])
    case Exit(k, error, now) =>
      s.(ops := s.ops[k := Ended(s.ops[k], error, now)], watched := s.watched - {k})
    case Mark(k) => s.(ops := s.ops[k := Asked(s.ops[k])])
    case List(now) => s.(list := Kept(s.ops, s.list, now - DONE_TTL))
  }

  // ---- the manager ----

  class Op {
    ghost const index: nat  // position among all operations ever started
    const id: OpId
    const kind: string
    const target: string
    const started: int
    var ended: Option<int>
    var status: Status
    var error: string
    var lines: seq<string>
    var cancel: bool
    var canceledReq: bool

    function Copy(): View
      reads this
    {
      View(id, kind, target, started, ended, status, error, lines, cancel, canceledReq)
    }

    constructor (number: nat, kind: string, target: string, now: int)
      requires number > 0
      ensures index == number - 1 && Copy() == NewView(number, kind, target, now)
    {
      this.index := number - 1;
      this.id := OpId(now, number);
      this.kind, this.target, this.started := kind, target, now;
      ended, status, error, lines, cancel, canceledReq := None, Running, "", [], true, false;
    }
  }

  class Manager {
    var ops: array<Op>  // backing array of the registry, most recent first
    var len: nat
    var number: nat
    ghost var all: seq<Op>
    ghost var abs: State  // the specification state these fields stand for

    ghost predicate Valid()
      reads this, ops, all
    {
      && len <= ops.Length && |all| == number == |abs.ops| == |abs.output|
      && |abs.list| == len && Registered(abs)
      && (forall i :: 0 <= i < |all| ==> all[i].index == i && all[i].Copy() == abs.ops[i])
      && (forall i :: 0 <= i < len ==> all[abs.list[i]] == ops[i])
    }

    constructor ()
      ensures Valid() && abs == State([], [], [], {})
    {
      ops := new Op[0];
      len, number, all, abs := 0, 0, [], State([], [], [], {});
    }

    /** The critical section of Start, after the process was launched. */
    method Start(kind: string, target: string, now: int) returns (op: Op)
      requires Valid()
      modifies this
      ensures Valid() && op in all
      ensures abs == Step(old(abs), Event.Start(kind, target, now))
    {
      number := number + 1;
      op := new Op(number, kind, target, now);
      var next := Prepended(op, ops, len);
      ops, len := next, len + 1;
      all := all + [op];
      abs := Step(abs, Event.Start(kind, target, now));
    }

    /** append([]*Op{op}, m.ops...) */
    static method Prepended(op: Op, was: array<Op>, n: nat) returns (next: array<Op>)
      requires n <= was.Length
      ensures fresh(next) && next.Length == n + 1 && next[0] == op
      ensures forall i :: 0 < i <= n ==> next[i] == was[i - 1]
    {
      next := new Op[n + 1](i requires 0 <= i <= n <= was.Length reads was =>
        if i == 0 then op else was[i - 1]);
    }

    /** appendLine. */
    method AppendLine(op: Op, line: string)
      requires Valid() && op in all && Legal(abs, Event.Line(op.index, line))
      modifies this`abs, op
      ensures Valid() && abs == Step(old(abs), Event.Line(op.index, line))
    {
      op.lines := op.lines + [line];
      if |op.lines| > MAX_LINES {
        op.lines := op.lines[|op.lines| - MAX_LINES..];
      }
      abs := Step(abs, Event.Line(op.index, line));
    }

    /** The closing critical section of watch; `error` is cmd.Wait's, "" for none. */
    method Finish(op: Op, error: string, now: int)
      requires Valid() && op in all && Legal(abs, Event.Exit(op.index, error, now))
      modifies this`abs, op
      ensures Valid() && abs == Step(old(abs), Event.Exit(op.index, error, now))
      ensures op.status == (if old(op.canceledReq) then Canceled else if error == "" then Done else Error)
      ensures op.ended == Some(now) && op.error == if op.status.Error? then error else old(op.error)
    {
      op.ended := Some(now);
      if op.canceledReq {
        op.status := Canceled;
      } else if error != "" {
        op.status := Error;
        op.error := error;
      } else {
        op.status := Done;
      }
      op.cancel := false;
      abs := Step(abs, Event.Exit(op.index, error, now));
    }

    /** The first critical section of Cancel, and that of Get: look an operation up by id. */
    method Find(id: OpId) returns (op: Op?)
      requires Valid()
      ensures op != null ==> op in all && op.index in abs.list && op.id == id
      ensures op == null ==> forall i :: 0 <= i < |abs.list| ==> abs.ops[abs.list[i]].id != id
    {
      for i := 0 to len
        invariant forall j :: 0 <= j < i ==> abs.ops[abs.list[j]].id != id
      {
        assert all[abs.list[i]].Copy() == abs.ops[abs.list[i]];
        if ops[i].id == id { return ops[i]; }
      }
      op := null;
    }

    /** The second critical section of Cancel: true when the operation will be killed. */
    method Mark(op: Op) returns (ok: bool)
      requires Valid() && op in all
      modifies this`abs, op
      ensures Valid() && op.index < |old(abs).ops| && ok == old(abs).ops[op.index].cancel
      ensures abs == Step(old(abs), Event.Mark(op.index))
    {
      ok := op.cancel;
      if ok { op.canceledReq := true; }
      abs := Step(abs, Event.Mark(op.index));
    }

    /** List: the registry is compacted in its own backing array, then copied out. */
    method List(now: int) returns (out: seq<View>)
      requires Valid()
      modifies this`len, this`abs, ops
      ensures Valid() && abs == Step(old(abs), Event.List(now))
      ensures |out| == |abs.list|
      ensures forall i :: 0 <= i < |out| ==> out[i] == abs.ops[abs.list[i]].(cancel := false)
    {
      ghost var kept := Compact(now - DONE_TTL);
      abs := abs.(list := kept);
      out := CopyOut();
    }

    method CopyOut() returns (out: seq<View>)
      requires Valid()
      ensures |out| == |abs.list|
      ensures forall i :: 0 <= i < |out| ==> out[i] == abs.ops[abs.list[i]].(cancel := false)
    {
      out := [];
      for i := 0 to len
        invariant |out| == i && forall j :: 0 <= j < i ==> out[j] == abs.ops[abs.list[j]].(cancel := false)
      {
        assert all[abs.list[i]].Copy() == abs.ops[abs.list[i]];
        out := out + [ops[i].Copy().(cancel := false)];
      }
    }

    /** keep := m.ops[:0]; the survivors are written over the slice being read. */
    method Compact(cutoff: int) returns (ghost kept: seq<nat>)
      requires Valid()
      modifies this`len, ops
      ensures kept == Kept(abs.ops, abs.list, cutoff)
      ensures len == |kept| <= ops.Length && forall j :: 0 <= j < len ==> ops[j] == all[kept[j]]
    {
      ghost var list := abs.list;
      var (n, keep) := (len, 0);
      kept := [];
      for i := 0 to n
        invariant |kept| == keep <= i && kept == KeptTo(abs.ops, list, i, cutoff)
        invariant forall j :: 0 <= j < keep ==> ops[j] == all[kept[j]]
        invariant forall j :: i <= j < n ==> ops[j] == all[list[j]]
      {
        var op := ops[i];
        assert all[list[i]].Copy() == abs.ops[list[i]];
        if !(op.ended.Some? && op.ended.value < cutoff) {
          ops[keep] := op;
          keep := keep + 1;
          kept := kept + [list[i]];
        }
      }
      len := keep;
    }

    method RunningFor(target: string) returns (running: bool)
      requires Valid()
      ensures running <==> exists i :: 0 <= i < |abs.list| &&
                             abs.ops[abs.list[i]].status.Running? && abs.ops[abs.list[i]].target == target
    {
      for i := 0 to len
        invariant forall j :: 0 <= j < i ==>
                    !(abs.ops[abs.list[j]].status.Running? && abs.ops[abs.list[j]].target == target)
      {
        assert all[abs.list[i]].Copy() == abs.ops[abs.list[i]];
        if ops[i].status == Running && ops[i].target == target { return true; }
      }
      running := false;
    }
  }

  // ---- what every interleaving keeps ----

  /** An operation is running, cancelable, unended and watched, all four or none. */
  predicate Coherent(v: View, watched: bool) {
    && (v.status.Running? <==> watched) && (v.cancel <==> watched) && (v.ended.None? <==> watched)
    && (v.status.Canceled? ==> v.canceledReq)
    && (v.canceledReq && !watched ==> v.status.Canceled?)
  }

  predicate Decreasing(list: seq<nat>) {
    forall i, j :: 0 <= i < j < |list| ==> list[i] > list[j]
  }

  /** Every operation is coherent, numbered in order of its start, and shows the end of its output. */
  predicate OpsInv(s: State) {
    && |s.output| == |s.ops|
    && (forall k :: 0 <= k < |s.ops| ==>
          && Coherent(s.ops[k], k in s.watched)
          && s.ops[k].id.number == k + 1
          && s.ops[k].lines == LastOf(s.output[k], MAX_LINES))
  }

  /** The registry is strictly decreasing in sequence number and holds every running operation. */
  predicate ListInv(s: State) {
    Registered(s) && Decreasing(s.list) && forall k | k in s.watched :: k in s.list
  }

  predicate Inv(s: State) {
    OpsInv(s) && ListInv(s)
  }

  lemma {:induction false} KeptMembers(ops: seq<View>, list: seq<nat>, n: nat, cutoff: int, k: nat)
    requires InRange(list, |ops|) && n <= |list|
    ensures k in KeptTo(ops, list, n, cutoff) <==> k in list[..n] && k < |ops| && !Expired(ops[k], cutoff)
  {
    if n == 0 {
    } else {
      KeptMembers(ops, list, n - 1, cutoff, k);
      assert list[..n] == list[..n - 1] + [list[n - 1]];
    }
  }

  predicate AtLeast(list: seq<nat>, low: nat) {
    forall i :: 0 <= i < |list| ==> list[i] >= low
  }

  lemma KeptDecreasing(ops: seq<View>, list: seq<nat>, n: nat, cutoff: int)
    requires Decreasing(list) && InRange(list, |ops|) && n <= |list|
    ensures Decreasing(KeptTo(ops, list, n, cutoff))
  {
    for i := 0 to n
      invariant Decreasing(KeptTo(ops, list, i, cutoff))
      invariant i > 0 ==> AtLeast(KeptTo(ops, list, i, cutoff), list[i - 1])
    {
      if i == 0 {
        assert KeptTo(ops, list, 0, cutoff) == [];
      } else {
        OneLower(KeptTo(ops, list, i, cutoff), list[i - 1], list[i]);
      }
    }
  }

  /** What ends above `low` still decreases, and ends at `x`, with a lower `x` at its end or without it. */
  lemma OneLower(list: seq<nat>, low: nat, x: nat)
    requires Decreasing(list) && AtLeast(list, low) && x < low
    ensures Decreasing(list + [x]) && AtLeast(list + [x], x) && AtLeast(list, x)
  {
  }

  lemma LastOfAppend<T>(s: seq<T>, n: nat, x: T)
    requires n > 0
    ensures LastOf(LastOf(s, n) + [x], n) == LastOf(s + [x], n)
  {
  }

  /** Every critical section keeps the registry ordered, complete and coherent. */
  lemma StepKeepsInv(s: State, e: Event)
    requires Inv(s) && Legal(s, e)
    ensures Inv(Step(s, e))
  {
    match e {
      case Start(kind, target, now) => StartKeepsInv(s, kind, target, now);
      case Line(k, line) => LineKeepsInv(s, k, line);
      case Exit(k, error, now) => ExitKeepsInv(s, k, error, now);
      case Mark(k) => MarkKeepsInv(s, k);
      case List(now) => ListKeepsInv(s, now);
    }
  }

  lemma ExitKeepsInv(s: State, k: nat, error: string, now: int)
    requires Inv(s) && Legal(s, Event.Exit(k, error, now))
    ensures Inv(Step(s, Event.Exit(k, error, now)))
  {
    ExitKeepsOps(s, k, error, now);
  }

  lemma ExitKeepsOps(s: State, k: nat, error: string, now: int)
    requires OpsInv(s) && Registered(s) && Legal(s, Event.Exit(k, error, now))
    ensures OpsInv(Step(s, Event.Exit(k, error, now)))
  {
    assert Coherent(Ended(s.ops[k], error, now), false);
  }

  lemma MarkKeepsInv(s: State, k: nat)
    requires Inv(s) && Legal(s, Event.Mark(k))
    ensures Inv(Step(s, Event.Mark(k)))
  {
    MarkKeepsOps(s, k);
  }

  lemma MarkKeepsOps(s: State, k: nat)
    requires OpsInv(s) && Registered(s) && Legal(s, Event.Mark(k))
    ensures OpsInv(Step(s, Event.Mark(k)))
  {
    assert Coherent(Asked(s.ops[k]), k in s.watched);
  }

  lemma StartKeepsInv(s: State, kind: string, target: string, now: int)
    requires Inv(s)
    ensures Inv(Step(s, Event.Start(kind, target, now)))
  {
    StartKeepsOps(s, kind, target, now);
    FirstInList(|s.ops|, s.list);
    WatchedInList(|s.ops|, s.list, s.watched);
  }

  lemma StartKeepsOps(s: State, kind: string, target: string, now: int)
    requires OpsInv(s) && ListInv(s)
    ensures OpsInv(Step(s, Event.Start(kind, target, now)))
  {
    var n := |s.ops|;
    var v := NewView(n + 1, kind, target, now);
    forall k | 0 <= k <= n
      ensures Coherent((s.ops + [v])[k], k in s.watched + {n}) && (s.ops + [v])[k].id.number == k + 1
      ensures (s.ops + [v])[k].lines == LastOf((s.output + [[]])[k], MAX_LINES)
    {
      StartedAt(s, v, k);
    }
  }

  lemma StartedAt(s: State, v: View, k: nat)
    requires OpsInv(s) && ListInv(s) && k <= |s.ops|
    requires Coherent(v, true) && v.id.number == |s.ops| + 1 && v.lines == []
    ensures Coherent((s.ops + [v])[k], k in s.watched + {|s.ops|}) && (s.ops + [v])[k].id.number == k + 1
    ensures (s.ops + [v])[k].lines == LastOf((s.output + [[]])[k], MAX_LINES)
  {
    if k < |s.ops| {
      assert (s.ops + [v])[k] == s.ops[k] && (s.output + [[]])[k] == s.output[k];
    }
  }

  lemma WatchedInList(n: nat, list: seq<nat>, watched: set<nat>)
    requires forall k | k in watched :: k in list
    ensures forall k | k in watched + {n} :: k in [n] + list
  {
    forall k | k in watched + {n} ensures k in [n] + list {
      if k != n { assert k in list; }
    }
  }

  lemma FirstInList(n: nat, list: seq<nat>)
    requires InRange(list, n) && Decreasing(list)
    ensures InRange([n] + list, n + 1) && Decreasing([n] + list)
  {
  }

  lemma LineKeepsInv(s: State, k: nat, line: string)
    requires Inv(s) && Legal(s, Event.Line(k, line))
    ensures Inv(Step(s, Event.Line(k, line)))
  {
    LastOfAppend(s.output[k], MAX_LINES, line);
  }

  lemma ListKeepsInv(s: State, now: int)
    requires Inv(s)
    ensures Inv(Step(s, Event.List(now)))
  {
    KeptDecreasing(s.ops, s.list, |s.list|, now - DONE_TTL);
    forall k | k in s.watched ensures k in Step(s, Event.List(now)).list { WatchedStays(s, now, k); }
  }

  lemma WatchedStays(s: State, now: int, k: nat)
    requires Inv(s) && k in s.watched
    ensures k in Step(s, Event.List(now)).list
  {
    assert k in s.list;
    RunningUnended(s, k);
    ListDrops(s, now, k);
  }

  /** List drops exactly the operations that ended before the cutoff, and never a running one. */
  lemma ListDropsExactly(s: State, now: int, k: nat)
    requires Inv(s) && k in s.list
    ensures k !in Step(s, List(now)).list <==> s.ops[k].ended.Some? && s.ops[k].ended.value < now - 3600
    ensures s.ops[k].status.Running? ==> k in Step(s, List(now)).list
  {
    RunningUnended(s, k);
    ListDrops(s, now, k);
  }

  lemma ListDrops(s: State, now: int, k: nat)
    requires Registered(s) && |s.output| == |s.ops| && k in s.list
    ensures k < |s.ops| && (k !in Step(s, List(now)).list <==> Expired(s.ops[k], now - DONE_TTL))
  {
    assert s.list[..|s.list|] == s.list;
    KeptMembers(s.ops, s.list, |s.list|, now - DONE_TTL, k);
  }

  lemma RunningUnended(s: State, k: nat)
    requires Inv(s) && k < |s.ops|
    ensures s.ops[k].status.Running? <==> s.ops[k].ended.None?
    ensures k in s.watched ==> s.ops[k].ended.None?
  {
    assert Coherent(s.ops[k], k in s.watched);
  }

  predicate LegalRun(s: State, es: seq<Event>)
    requires Inv(s)
    decreases |es|
  {
    es == [] || (Legal(s, es[0]) && (StepKeepsInv(s, es[0]); LegalRun(Step(s, es[0]), es[1..])))
  }

  function Final(s: State, es: seq<Event>): (t: State)
    requires Inv(s) && LegalRun(s, es)
    ensures Inv(t)
    decreases |es|
  {
    if es == [] then s else
    StepKeepsInv(s, es[0]);
    Final(Step(s, es[0]), es[1..])
  }

  /** How many of the events are the exit of operation `k`. */
  function Exits(es: seq<Event>, k: nat): nat {
    if es == [] then 0 else (if es[0].Exit? && es[0].k == k then 1 else 0) + Exits(es[1..], k)
  }

  /**
   In every interleaving an operation leaves the running state at most once, and exactly
   once if it is seen finished; from then on its status and end never change.
   */
  lemma {:induction false} LeavesRunningOnce(s: State, es: seq<Event>, k: nat)
    requires Inv(s) && LegalRun(s, es) && k < |s.ops|
    ensures k < |Final(s, es).ops|
    ensures Exits(es, k) == (if s.ops[k].status.Running? && !Final(s, es).ops[k].status.Running? then 1 else 0)
    ensures !s.ops[k].status.Running? ==>
              Final(s, es).ops[k].status == s.ops[k].status && Final(s, es).ops[k].ended == s.ops[k].ended
    decreases |es|
  {
    if es == [] {
    } else {
      assert Coherent(s.ops[k], k in s.watched);
      StepKeepsInv(s, es[0]);
      LeavesRunningOnce(Step(s, es[0]), es[1..], k);
    }
  }

  /** A cancellation that reported success is honoured however the exit races with it. */
  lemma {:induction false} CancelIsHonoured(s: State, es: seq<Event>, k: nat)
    requires Inv(s) && k < |s.ops| && s.ops[k].cancel && Legal(s, Mark(k)) && Inv(Step(s, Mark(k)))
    requires LegalRun(Step(s, Mark(k)), es)
    ensures k < |Final(Step(s, Mark(k)), es).ops|
    ensures var v := Final(Step(s, Mark(k)), es).ops[k]; v.status.Running? || v.status.Canceled?
  {
    RequestPersists(Step(s, Mark(k)), es, k);
    var t := Final(Step(s, Mark(k)), es);
    assert Coherent(t.ops[k], k in t.watched);
  }

  lemma {:induction false} RequestPersists(s: State, es: seq<Event>, k: nat)
    requires Inv(s) && LegalRun(s, es) && k < |s.ops| && s.ops[k].canceledReq
    ensures k < |Final(s, es).ops| && Final(s, es).ops[k].canceledReq
    decreases |es|
  {
    if es == [] {
    } else {
      StepKeepsInv(s, es[0]);
      RequestPersists(Step(s, es[0]), es[1..], k);
    }
  }

  /** A cancellation that reported ErrNotRunning changed nothing: the operation had ended. */
  lemma RefusedCancelHasNoEffect(s: State, k: nat)
    requires Inv(s) && k < |s.ops| && !s.ops[k].cancel
    ensures Step(s, Mark(k)) == s && s.ops[k].ended.Some? && !s.ops[k].status.Running?
  {
    assert Coherent(s.ops[k], k in s.watched);
    assert s.ops[k := s.ops[k]] == s.ops;
  }

  /** An operation can only end canceled if somebody's Cancel succeeded. */
  lemma CanceledWasAsked(s: State, k: nat)
    requires Inv(s) && k < |s.ops| && s.ops[k].status.Canceled?
    ensures s.ops[k].canceledReq
  {
    assert Coherent(s.ops[k], k in s.watched);
  }

  // ---- from the events of a whole run ----

  const START := State([], [], [], {})  // nothing was ever started

  lemma {:induction false} RunSplit(s: State, es: seq<Event>, n: nat)
    requires Inv(s) && LegalRun(s, es) && n <= |es|
    ensures LegalRun(s, es[..n]) && LegalRun(Final(s, es[..n]), es[n..])
    ensures Final(s, es) == Final(Final(s, es[..n]), es[n..])
    decreases n
  {
    if n == 0 {
      assert es[..0] == [] && es[0..] == es;
    } else {
      StepKeepsInv(s, es[0]);
      RunSplit(Step(s, es[0]), es[1..], n - 1);
      assert es[..n][0] == es[0] && es[..n][1..] == es[1..][..n - 1] && es[1..][n - 1..] == es[n..];
    }
  }

  /** The last event of a run is a legal step from where the others led. */
  lemma RunLast(es: seq<Event>, n: nat)
    requires LegalRun(START, es) && |es| == n + 1
    ensures LegalRun(START, es[..n]) && Legal(Final(START, es[..n]), es[n])
    ensures Final(START, es) == Step(Final(START, es[..n]), es[n])
  {
    RunSplit(START, es, n);
    assert es[n..] == [es[n]];
  }

  /** No error yet, and a request for cancellation exactly if `marked`. */
  predicate IsPending(v: View, marked: bool) {
    v.error == "" && (v.canceledReq <==> marked)
  }

  /** While operation `k` runs it is pending; before it is started nobody has asked for its cancellation. */
  predicate PendingIn(s: State, k: nat, marked: bool) {
    if k < |s.ops| then s.ops[k].status.Running? ==> IsPending(s.ops[k], marked) else !marked
  }

  lemma PendingNext(s: State, e: Event, k: nat, marked: bool)
    requires Inv(s) && Legal(s, e) && PendingIn(s, k, marked)
    ensures PendingIn(Step(s, e), k, marked || e == Event.Mark(k))
  {
    if k < |s.ops| { assert Coherent(s.ops[k], k in s.watched); }
  }

  /** A running operation has no error, and is to be canceled exactly when somebody asked for it. */
  lemma {:induction false} RunningIs(es: seq<Event>, k: nat)
    requires LegalRun(START, es)
    ensures PendingIn(Final(START, es), k, Event.Mark(k) in es)
    decreases |es|
  {
    if es == [] {
    } else {
      var n := |es| - 1;
      RunLast(es, n);
      RunningIs(es[..n], k);
      PendingNext(Final(START, es[..n]), es[n], k, Event.Mark(k) in es[..n]);
      assert es == es[..n] + [es[n]];
    }
  }

  /** How an operation ended, by the exit event and whether it was to be canceled. */
  predicate EndedBy(v: View, error: string, now: int, marked: bool) {
    && v.ended == Some(now)
    && v.status == (if marked then Canceled else if error == "" then Done else Error)
    && v.error == if v.status.Error? then error else ""
  }

  lemma ExitNow(s: State, e: Event, marked: bool)
    requires Inv(s) && Legal(s, e) && e.Exit? && IsPending(s.ops[e.k], marked)
    ensures EndedBy(Step(s, e).ops[e.k], e.error, e.now, marked)
  {
  }

  lemma {:induction false} EndStays(s: State, es: seq<Event>, k: nat)
    requires Inv(s) && LegalRun(s, es) && k < |s.ops| && !s.ops[k].status.Running?
    ensures k < |Final(s, es).ops|
    ensures var (v, w) := (s.ops[k], Final(s, es).ops[k]);
            w.status == v.status && w.ended == v.ended && w.error == v.error
    decreases |es|
  {
    if es == [] {
    } else {
      EndedStep(s, es[0], k);
      StepKeepsInv(s, es[0]);
      EndStays(Step(s, es[0]), es[1..], k);
    }
  }

  lemma EndedStep(s: State, e: Event, k: nat)
    requires Inv(s) && Legal(s, e) && k < |s.ops| && !s.ops[k].status.Running?
    ensures k < |Step(s, e).ops|
    ensures var (v, w) := (s.ops[k], Step(s, e).ops[k]);
            w.status == v.status && w.ended == v.ended && w.error == v.error
  {
    assert Coherent(s.ops[k], k in s.watched);
  }

  /**
   The exit event decides, for every later state: canceled if somebody had asked for it,
   done without an error, else failed with that error; the end is the time of the exit.
   */
  lemma ExitDecides(es: seq<Event>, i: nat)
    requires LegalRun(START, es) && i < |es| && es[i].Exit?
    ensures var (k, t) := (es[i].k, Final(START, es));
            && k < |t.ops| && t.ops[k].ended == Some(es[i].now)
            && t.ops[k].status == (if Event.Mark(k) in es[..i] then Canceled
                                   else if es[i].error == "" then Done else Error)
            && t.ops[k].error == (if t.ops[k].status.Error? then es[i].error else "")
  {
    var k := es[i].k;
    RunSplit(START, es, i + 1);
    assert es[..i + 1][..i] == es[..i];
    ExitAt(es[..i + 1], es[..i], i);
    EndStays(Final(START, es[..i + 1]), es[i + 1..], k);
  }

  lemma ExitAt(es: seq<Event>, front: seq<Event>, i: nat)
    requires |es| == i + 1 && front == es[..i] && es[i].Exit?
    requires LegalRun(START, es)
    ensures es[i].k < |Final(START, es).ops|
    ensures EndedBy(Final(START, es).ops[es[i].k], es[i].error, es[i].now, Event.Mark(es[i].k) in front)
  {
    RunLast(es, i);
    var s := Final(START, front);
    assert Coherent(s.ops[es[i].k], es[i].k in s.watched);
    RunningIs(front, es[i].k);
    ExitNow(s, es[i], Event.Mark(es[i].k) in front);
  }

  lemma {:induction false} IdentityStays(s: State, es: seq<Event>, k: nat)
    requires Inv(s) && LegalRun(s, es) && k < |s.ops|
    ensures k < |Final(s, es).ops|
    ensures var (v, w) := (s.ops[k], Final(s, es).ops[k]);
            w.id == v.id && w.kind == v.kind && w.target == v.target && w.started == v.started
    decreases |es|
  {
    if es == [] {
    } else {
      StepKeepsInv(s, es[0]);
      IdentityStays(Step(s, es[0]), es[1..], k);
    }
  }

  /** An operation keeps the kind, target, time and number it was started with. */
  lemma StartNames(es: seq<Event>, i: nat)
    requires LegalRun(START, es) && i < |es| && es[i].Start?
    ensures LegalRun(START, es[..i])
    ensures var (k, t) := (|Final(START, es[..i]).ops|, Final(START, es));
            && k < |t.ops| && t.ops[k].id == OpId(es[i].now, k + 1) && t.ops[k].started == es[i].now
            && t.ops[k].kind == es[i].kind && t.ops[k].target == es[i].target
  {
    RunSplit(START, es, i + 1);
    assert es[..i + 1][..i] == es[..i];
    RunLast(es[..i + 1], i);
    IdentityStays(Final(START, es[..i + 1]), es[i + 1..], |Final(START, es[..i]).ops|);
  }

  /** What operation `k` printed, in order. */
  function Printed(es: seq<Event>, k: nat): seq<string> {
    if es == [] then [] else Printed(es[..|es| - 1], k) + LineOf(es[|es| - 1], k)
  }

  function LineOf(e: Event, k: nat): seq<string> {
    if e.Line? && e.k == k then [e.line] else []
  }

  /** The output of operation `k` is `printed`; nothing is before it is started. */
  predicate HasPrinted(s: State, k: nat, printed: seq<string>) {
    if k < |s.output| then s.output[k] == printed else printed == []
  }

  lemma PrintedNext(s: State, e: Event, k: nat, printed: seq<string>)
    requires Inv(s) && Legal(s, e) && HasPrinted(s, k, printed)
    ensures HasPrinted(Step(s, e), k, printed + LineOf(e, k))
  {
    assert printed + [] == printed;
  }

  lemma {:induction false} OutputIsPrinted(es: seq<Event>, k: nat)
    requires LegalRun(START, es)
    ensures HasPrinted(Final(START, es), k, Printed(es, k))
    decreases |es|
  {
    if es == [] {
    } else {
      var n := |es| - 1;
      RunLast(es, n);
      OutputIsPrinted(es[..n], k);
      PrintedNext(Final(START, es[..n]), es[n], k, Printed(es[..n], k));
    }
  }

  /** An operation shows the last fifty lines it printed. */
  lemma ShowsLastFifty(es: seq<Event>, k: nat)
    requires LegalRun(START, es) && k < |Final(START, es).ops|
    ensures var (shown, all) := (Final(START, es).ops[k].lines, Printed(es, k));
            shown == all[if |all| <= 50 then 0 else |all| - 50..]
  {
    OutputIsPrinted(es, k);
  }
}
