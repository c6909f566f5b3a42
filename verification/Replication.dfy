/**
 The replication runner (internal/replication/runner.go): one execution takes a snapshot,
 runs a send|recv pipeline, moves the bookmark, prunes, and may once destroy the
 destination and retry with a full send. Every external command succeeds or fails as
 the environment decides, within what zfs can do:

 - a snapshot or a bookmark is not created over an existing one of its name;
 - an incremental stream is received only onto a destination whose newest snapshot is
   the one the source's bookmark names and which holds no interrupted receive, a full
   stream only where no dataset exists (no `recv -F` is used);
 - a pipeline that ends 'done' has committed its receive; one that fails or is canceled
   may have committed it or not, or been interrupted on the way: `recv -s` then may leave
   its resumable partial state, and a full receive a dataset without snapshots;
 - a dataset, a bookmark or a snapshot that is not there cannot be destroyed;
 - a destroy of the destination that is reported failed (it runs over ssh, against a
   timeout) may all the same have removed the partial state, some of its snapshots, or
   everything.

 The job is the only one on its source, its executions do not overlap, and between them
 nobody else touches its bookmark or its destination.
 */
module Replication {
  import opened Lists
  import opened Text
  import opened Order
  import opened Pruning
  import LongOps

  type Status = LongOps.Status

  datatype Job = Job(valid: bool, forceFull: bool)  // Validate's verdict, and the force_full flag

  /** The destination dataset: its snapshots, and whether it holds an interrupted receive. */
  datatype Dest = Absent | Present(snaps: seq<string>, partial: bool)

  /** The source's snapshots and ezrepl-last bookmark, the destination, the stored row. */
  datatype World = World(snaps: seq<string>, bookmark: Option<string>, dest: Dest,
                         lastBookmark: string, lastOk: Option<bool>)

  /** How a pipeline ended, and the destination it left. */
  datatype Sent = Sent(status: Status, dest: Dest)

  /** What a destroy reported failed did: everything, or only the snapshots in `gone` and perhaps the partial state. */
  datatype Damage = All | Part(gone: set<string>, aborted: bool)

  /** The environment's answers during one execution, in the order they are asked. */
  datatype Env = Env(snap: string, snapOk: bool, started: bool, sent: Sent,
                     destroyOk: bool, damage: Damage, restarted: bool, resent: Sent,
                     unbookmarkOk: bool, bookmarkOk: bool, listOk: bool, stuck: set<string>, markOk: bool)

  /** What an execution did to the pool, the destination and the bookmark. */
  datatype Act =
    | Snapshot(ok: bool)
    | Send(incremental: bool, started: bool, status: Status)
    | DestroyDest(ok: bool)
    | Bookmark(ok: bool)
    | Prune

  // ---- what zfs allows ----

  function Newest(dest: Dest): Option<string> {
    if dest.Present? && dest.snaps != [] then Some(dest.snaps[|dest.snaps| - 1]) else None
  }

  predicate CanReceive(w: World, incremental: bool) {
    if incremental then w.bookmark.Some? && Newest(w.dest) == w.bookmark && !w.dest.partial else w.dest.Absent?
  }

  function Snaps(dest: Dest): seq<string> {
    if dest.Present? then dest.snaps else []
  }

  function Received(w: World, snap: string): Dest {
    Present(Snaps(w.dest) + [snap], false)
  }

  /** The destination after a destroy that was reported failed. */
  function Damaged(dest: Dest, d: Damage): Dest {
    if d.All? || dest.Absent? then Absent else Present(Drop(dest.snaps, d.gone), dest.partial && !d.aborted)
  }

  predicate LegalSend(w: World, incremental: bool, snap: string, s: Sent) {
    && !s.status.Running?
    && (s.status.Done? ==> CanReceive(w, incremental) && s.dest == Received(w, snap))
    && (s.dest == w.dest
        || (CanReceive(w, incremental) && s.dest == Received(w, snap))
        || (CanReceive(w, incremental) && IsInterrupted(w.dest, s.dest)))
  }

  /** Nothing was received for good; partial state may be left. */
  predicate IsInterrupted(before: Dest, after: Dest) {
    after.Present? && after.snaps == Snaps(before)
  }

  /** The environment's answers respect what zfs can do when they are given. */
  predicate Legal(w: World, j: Job, e: Env) {
    && IsRepl(e.snap)
    && (e.snapOk ==> e.snap !in w.snaps)
    && LegalSend(w, w.lastBookmark != "", e.snap, e.sent)
    && (e.destroyOk ==> e.sent.dest.Present?)
    && LegalSend(w.(dest := if e.destroyOk then Absent else e.sent.dest), false, e.snap, e.resent)
    && (e.unbookmarkOk ==> w.bookmark.Some?)
    && (e.bookmarkOk ==> w.bookmark.None? || e.unbookmarkOk)
  }

  // ---- the specification of one execution ----

  datatype Result = Result(world: World, ok: bool, trace: seq<Act>)

  /** postSuccess: drop the old bookmark, set the new one, prune. */
  function Succeeded(w: World, e: Env, trace: seq<Act>): Result {
    var w := w.(bookmark := if e.unbookmarkOk then None else w.bookmark);
    if !e.bookmarkOk then Result(w, false, trace + [Bookmark(false)])
    else
      var snaps := if e.listOk then Drop(w.snaps, Superseded(w.snaps) - e.stuck) else w.snaps;
      Result(w.(bookmark := Some(e.snap), snaps := snaps), true, trace + [Bookmark(true), Prune])
  }

  function Ran(w: World, j: Job, e: Env): Result {
    if !j.valid then Result(w, false, [])
    else if !e.snapOk then Result(w, false, [Snapshot(false)])
    else
      var incremental := w.lastBookmark != "";
      var w := w.(snaps := w.snaps + [e.snap]);
      if !e.started then Result(w, false, [Snapshot(true), Send(incremental, false, LongOps.Error)])
      else
        var w := w.(dest := e.sent.dest);
        var trace := [Snapshot(true), Send(incremental, true, e.sent.status)];
        if e.sent.status.Done? then Succeeded(w, e, trace)
        else if e.sent.status.Canceled? || !incremental || !j.forceFull then Result(w, false, trace)
        else Retried(w, e, trace)
  }

  /** force_full: destroy the destination and send everything, once. */
  function Retried(w: World, e: Env, trace: seq<Act>): Result {
    var trace := trace + [DestroyDest(e.destroyOk)];
    if !e.destroyOk then Result(w.(dest := Damaged(w.dest, e.damage)), false, trace)
    else
      var w := w.(dest := Absent);
      if !e.restarted then Result(w, false, trace + [Send(false, false, LongOps.Error)])
      else
        var w := w.(dest := e.resent.dest);
        var trace := trace + [Send(false, true, e.resent.status)];
        if e.resent.status.Done? then Succeeded(w, e, trace) else Result(w, false, trace)
  }

  /** execute: the outcome is written to the row unless the database refuses. */
  function Executed(w: World, j: Job, e: Env): Result {
    var r := Ran(w, j, e);
    if e.markOk then
      r.(world := r.world.(lastBookmark := if r.ok then e.snap else w.lastBookmark, lastOk := Some(r.ok)))
    else r
  }

  // ---- the runner ----

  class Runner {
    var source: Source               // snapshots of the source dataset
    var bookmark: Option<string>     // source#ezrepl-last
    var dest: Dest
    var lastBookmark: string         // stored row
    var lastOk: Option<bool>
    ghost var trace: seq<Act>

    ghost function Abs(): World
      reads this, source
    {
      World(source.snaps, bookmark, dest, lastBookmark, lastOk)
    }

    constructor (w: World)
      ensures Abs() == w && fresh(source)
    {
      source := new Source(w.snaps);
      bookmark, dest, lastBookmark, lastOk, trace := w.bookmark, w.dest, w.lastBookmark, w.lastOk, [];
    }

    /** waitOp: poll until the operation is seen in a final state; None while no poll has shown one. */
    static method WaitOp(polls: seq<Option<Status>>) returns (status: Option<Status>)
      ensures Awaited(polls, status)
    {
      for i := 0 to |polls|
        invariant forall k :: 0 <= k < i ==> polls[k].None? || polls[k].value.Running?
      {
        if polls[i].Some? && !polls[i].value.Running? { return polls[i]; }
      }
      status := None;
    }

    method Execute(j: Job, e: Env) returns (ok: bool)
      requires Legal(Abs(), j, e) && NoDuplicates(source.snaps)
      modifies this, source
      ensures var r := Executed(old(Abs()), j, e); Abs() == r.world && ok == r.ok && trace == r.trace
    {
      var last := lastBookmark;
      trace := [];
      ok := Run(j, e);
      if e.markOk {
        lastBookmark := if ok then e.snap else last;
        lastOk := Some(ok);
      }
    }

    method Run(j: Job, e: Env) returns (ok: bool)
      requires Legal(Abs(), j, e) && NoDuplicates(source.snaps) && trace == []
      modifies this, source
      ensures var r := Ran(old(Abs()), j, e); Abs() == r.world && ok == r.ok && trace == r.trace
    {
      if !j.valid { return false; }
      trace := [Snapshot(e.snapOk)];
      if !e.snapOk { return false; }
      source.snaps := source.snaps + [e.snap];
      var incremental := lastBookmark != "";
      if !e.started {
        trace := trace + [Send(incremental, false, LongOps.Error)];
        return false;
      }
      dest := e.sent.dest;
      trace := trace + [Send(incremental, true, e.sent.status)];
      assert trace == [Snapshot(true), Send(incremental, true, e.sent.status)];
      if e.sent.status.Done? {
        ok := PostSuccess(e);
        return;
      }
      if e.sent.status.Canceled? { return false; }
      if !incremental { return false; }
      if !j.forceFull { return false; }
      ok := Retry(e);
    }

    /** The force_full branch of run. */
    method Retry(e: Env) returns (ok: bool)
      requires NoDuplicates(source.snaps)
      modifies this`bookmark, this`dest, this`trace, source
      ensures var r := Retried(old(Abs()), e, old(trace));
              Abs() == r.world && ok == r.ok && trace == r.trace
    {
      trace := trace + [DestroyDest(e.destroyOk)];
      if !e.destroyOk {
        dest := Damaged(dest, e.damage);
        return false;
      }
      dest := Absent;
      if !e.restarted {
        trace := trace + [Send(false, false, LongOps.Error)];
        return false;
      }
      dest := e.resent.dest;
      trace := trace + [Send(false, true, e.resent.status)];
      if !e.resent.status.Done? { return false; }
      ok := PostSuccess(e);
    }

    method PostSuccess(e: Env) returns (ok: bool)
      requires NoDuplicates(source.snaps)
      modifies this`bookmark, this`trace, source
      ensures var r := Succeeded(old(Abs()), e, old(trace));
              Abs() == r.world && ok == r.ok && trace == r.trace
    {
      if e.unbookmarkOk { bookmark := None; }
      trace := trace + [Bookmark(e.bookmarkOk)];
      if !e.bookmarkOk { return false; }
      bookmark := Some(e.snap);
      trace := trace + [Act.Prune];
      source.Prune(e.listOk, e.stuck);
      ok := true;
    }
  }

  // ---- waiting for the pipeline ----

  predicate IsFinal(poll: Option<Status>) {
    poll.Some? && !poll.value.Running?
  }

  /** `status` is the first final poll, None when there is none. */
  ghost predicate Awaited(polls: seq<Option<Status>>, status: Option<Status>) {
    if status.None? then forall i :: 0 <= i < |polls| ==> !IsFinal(polls[i])
    else
      IsFinal(status)
      && exists i :: 0 <= i < |polls| && polls[i] == status && forall k :: 0 <= k < i ==> !IsFinal(polls[k])
  }

  /** Get on operation `k`: its status while it is registered. */
  function Get(s: LongOps.State, k: nat): Option<Status> {
    if k in s.list && k < |s.ops| then Some(s.ops[k].status) else None
  }

  ghost predicate LegalRuns(s: LongOps.State, runs: seq<seq<LongOps.Event>>)
    requires LongOps.Inv(s)
    decreases |runs|
  {
    runs == [] || (LongOps.LegalRun(s, runs[0]) && LegalRuns(LongOps.Final(s, runs[0]), runs[1..]))
  }

  function After(s: LongOps.State, runs: seq<seq<LongOps.Event>>): (t: LongOps.State)
    requires LongOps.Inv(s) && LegalRuns(s, runs)
    ensures LongOps.Inv(t)
    decreases |runs|
  {
    if runs == [] then s else After(LongOps.Final(s, runs[0]), runs[1..])
  }

  /** What polls of operation `k` see when `runs[i]` is what happens before poll `i`. */
  function Polls(s: LongOps.State, runs: seq<seq<LongOps.Event>>, k: nat): (polls: seq<Option<Status>>)
    requires LongOps.Inv(s) && LegalRuns(s, runs)
    ensures |polls| == |runs|
    decreases |runs|
  {
    if runs == [] then []
    else
      var t := LongOps.Final(s, runs[0]);
      [Get(t, k)] + Polls(t, runs[1..], k)
  }

  /**
   The status waitOp returns is the operation's status in the end, whatever interleaves
   with the polls and follows them; while it returns nothing, every poll has met the
   operation running or dropped from the registry.
   */
  lemma {:induction false} AwaitedIsFinal(s: LongOps.State, runs: seq<seq<LongOps.Event>>, k: nat,
                                          status: Option<Status>)
    requires LongOps.Inv(s) && LegalRuns(s, runs) && k < |s.ops| && Awaited(Polls(s, runs, k), status)
    ensures k < |After(s, runs).ops|
    ensures status.Some? ==> After(s, runs).ops[k].status == status.value
    ensures status.None? && runs != [] && k in After(s, runs).list ==> After(s, runs).ops[k].status.Running?
    decreases |runs|
  {
    if runs == [] {
    } else {
      var t := LongOps.Final(s, runs[0]);
      LongOps.LeavesRunningOnce(s, runs[0], k);
      var (first, rest) := (Get(t, k), Polls(t, runs[1..], k));
      if IsFinal(first) {
        assert ([first] + rest)[0] == first;
        StatusStays(t, runs[1..], k);
      } else {
        AwaitedRest(first, rest, status);
        AwaitedIsFinal(t, runs[1..], k, status);
      }
    }
  }

  lemma AwaitedRest(first: Option<Status>, rest: seq<Option<Status>>, status: Option<Status>)
    requires Awaited([first] + rest, status) && !IsFinal(first)
    ensures Awaited(rest, status)
  {
    var polls := [first] + rest;
    if status.None? {
      forall i | 0 <= i < |rest| ensures !IsFinal(rest[i]) { assert polls[i + 1] == rest[i]; }
    } else {
      var i :| 0 <= i < |polls| && polls[i] == status && forall k :: 0 <= k < i ==> !IsFinal(polls[k]);
      forall k | 0 <= k < i - 1 ensures !IsFinal(rest[k]) { assert polls[k + 1] == rest[k]; }
      assert rest[i - 1] == status;
    }
  }

  lemma {:induction false} StatusStays(s: LongOps.State, runs: seq<seq<LongOps.Event>>, k: nat)
    requires LongOps.Inv(s) && LegalRuns(s, runs) && k < |s.ops| && !s.ops[k].status.Running?
    ensures k < |After(s, runs).ops| && After(s, runs).ops[k].status == s.ops[k].status
    decreases |runs|
  {
    if runs == [] {
    } else {
      LongOps.LeavesRunningOnce(s, runs[0], k);
      StatusStays(LongOps.Final(s, runs[0]), runs[1..], k);
    }
  }

  // ---- one execution ----

  /** The row, the bookmark and the destination all name `snap`. */
  predicate Agree(w: World, snap: string) {
    w.lastBookmark == snap && w.bookmark == Some(snap) && Newest(w.dest) == Some(snap)
  }

  /** Every replication snapshot of the source is named earlier, as increasing stamps make it. */
  predicate Latest(w: World, snap: string) {
    forall t | t in w.snaps && IsRepl(t) :: Less(t, snap)
  }

  /**
   An execution reported ok leaves row, bookmark and destination on its own snapshot, which
   the prune that follows keeps; a failed one leaves the stored bookmark alone.
   */
  lemma OutcomeIsTruthful(w: World, j: Job, e: Env)
    requires Legal(w, j, e)
    ensures var r := Executed(w, j, e);
            && (r.ok && e.markOk ==> Agree(r.world, e.snap))
            && (r.ok && Latest(w, e.snap) ==> e.snap in r.world.snaps)
            && (!r.ok ==> r.world.lastBookmark == w.lastBookmark)
            && (e.markOk ==> r.world.lastOk == Some(r.ok))
  {
    var r := Ran(w, j, e);
    if r.ok && Latest(w, e.snap) { PruneKeepsLatest(w.snaps + [e.snap], e.snap, e.stuck); }
  }

  predicate Attempted(trace: seq<Act>) {
    DestroyDest(true) in trace || DestroyDest(false) in trace
  }

  // ---- what an execution leaves on the source ----

  /** The replication snapshots of a source. */
  function Repls(snaps: seq<string>): set<string> {
    set x | x in snaps && "ezrepl-" <= x
  }

  /**
   A successful execution that can list the source removes exactly the replication snapshots
   with two newer ones that can be destroyed, and no other; its own counts as one of them.
   */
  lemma SuccessPrunes(w: World, j: Job, e: Env, x: string)
    requires Legal(w, j, e) && Executed(w, j, e).ok && x in w.snaps + [e.snap]
    ensures x !in Executed(w, j, e).world.snaps <==>
              && e.listOk && x !in e.stuck && "ezrepl-" <= x
              && |set y | y in Repls(w.snaps + [e.snap]) && Less(x, y)| >= 2
  {
    var was := w.snaps + [e.snap];
    assert NewerThan(was, x) == set y | y in Repls(was) && Less(x, y);
  }

  /**
   When nothing is stuck the newest two replication snapshots are left, or all when there
   are fewer, with every other snapshot; nothing appears but the new one.
   */
  lemma SuccessKeepsTwo(w: World, j: Job, e: Env)
    requires Legal(w, j, e) && NoDuplicates(w.snaps) && Executed(w, j, e).ok && e.listOk && e.stuck == {}
    ensures var (was, now) := (w.snaps + [e.snap], Executed(w, j, e).world.snaps);
            && (forall x :: x in now ==> x in was)
            && (forall x :: x in was && !("ezrepl-" <= x) ==> x in now)
            && |Repls(now)| == (if |Repls(was)| < 2 then |Repls(was)| else 2)
            && (forall x, y :: x in was && x !in now && y in Repls(now) ==> "ezrepl-" <= x && Less(x, y))
  {
    NothingStuck(w, j, e);
    SupersededGo(w.snaps + [e.snap]);
  }

  lemma NothingStuck(w: World, j: Job, e: Env)
    requires Legal(w, j, e) && NoDuplicates(w.snaps) && Executed(w, j, e).ok && e.listOk && e.stuck == {}
    ensures var was := w.snaps + [e.snap];
            NoDuplicates(was) && Executed(w, j, e).world.snaps == Drop(was, Superseded(was))
  {
    var was := w.snaps + [e.snap];
    assert Superseded(was) - e.stuck == Superseded(was);
  }

  lemma SupersededGo(was: seq<string>)
    requires NoDuplicates(was)
    ensures var now := Drop(was, Superseded(was));
            && (forall x :: x in now ==> x in was)
            && (forall x :: x in was && !("ezrepl-" <= x) ==> x in now)
            && |Repls(now)| == (if |Repls(was)| < 2 then |Repls(was)| else 2)
            && (forall x, y :: x in was && x !in now && y in Repls(now) ==> "ezrepl-" <= x && Less(x, y))
  {
    PruneKeepsNewestTwo(was);
    DropKeepsDistinct(was, Superseded(was));
    ReplsCount(was);
    ReplsCount(Drop(was, Superseded(was)));
  }

  lemma ReplsCount(snaps: seq<string>)
    requires NoDuplicates(snaps)
    ensures |Repls(snaps)| == |ReplNames(snaps)|
  {
    ReplNamesDistinct(snaps);
    DistinctSize(ReplNames(snaps));
    assert Repls(snaps) == set x | x in ReplNames(snaps);
  }

  /** A failed execution removes no snapshot; it leaves its own if it came to take it. */
  lemma FailureRemovesNothing(w: World, j: Job, e: Env)
    requires Legal(w, j, e) && !Executed(w, j, e).ok
    ensures Executed(w, j, e).world.snaps == if j.valid && e.snapOk then w.snaps + [e.snap] else w.snaps
  {
    assert w.snaps + [] == w.snaps;
  }

  /** Only an execution that came to set the bookmark touches it, and a refused one may have lost the old. */
  lemma BookmarkMoves(w: World, j: Job, e: Env)
    requires Legal(w, j, e)
    ensures var r := Executed(w, j, e);
            r.world.bookmark == if Bookmark(true) in r.trace then Some(e.snap)
                                else if Bookmark(false) in r.trace && e.unbookmarkOk then None
                                else w.bookmark
    ensures Bookmark(false) in Executed(w, j, e).trace ==> !Executed(w, j, e).ok
  {
  }

  /** The destination is what the last pipeline or destroy left. */
  lemma DestinationIs(w: World, j: Job, e: Env)
    requires Legal(w, j, e)
    ensures var (t, dest) := (Executed(w, j, e).trace, Executed(w, j, e).world.dest);
            dest == if |t| >= 4 && t[3].Send? then (if t[3].started then e.resent.dest else Absent)
                    else if |t| == 3 && t[2] == DestroyDest(false) then
                      (if e.damage.All? then Absent else Damaged(e.sent.dest, e.damage))
                    else if |t| >= 2 && t[1].started then e.sent.dest
                    else w.dest
  {
    assert |Ran(w, j, e).trace| >= 2 ==> Ran(w, j, e).trace[1].Send?;
  }

  /** A job that does not pass its validation touches nothing but the row. */
  lemma InvalidDoesNothing(w: World, j: Job, e: Env)
    requires !j.valid
    ensures var r := Executed(w, j, e);
            !r.ok && r.trace == [] && r.world == if e.markOk then w.(lastOk := Some(false)) else w
  {
  }

  /** What lies under a destruction of the destination. */
  predicate Justified(j: Job, trace: seq<Act>, i: nat)
    requires i < |trace|
  {
    j.forceFull && i == 2 && trace[1] == Send(true, true, LongOps.Error)
  }

  /**
   A destroy of the destination is asked for at most once in an execution, only under
   force_full and only as the next act after an incremental send that failed without
   being canceled; nothing else takes a snapshot off the destination.
   */
  lemma DestroyIsJustified(w: World, j: Job, e: Env)
    requires Legal(w, j, e)
    ensures var trace := Executed(w, j, e).trace;
            && (forall i :: 0 <= i < |trace| && trace[i].DestroyDest? ==> Justified(j, trace, i))
            && (forall i, k :: 0 <= i < k < |trace| ==> !(trace[i].DestroyDest? && trace[k].DestroyDest?))
    ensures var r := Executed(w, j, e);
            w.dest.Present? && (r.world.dest.Absent? || !(w.dest.snaps <= r.world.dest.snaps))
            ==> Attempted(r.trace)
  {
    DestroyIsThird(w, j, e);
    LossWasAttempted(w, j, e);
  }

  lemma DestroyIsThird(w: World, j: Job, e: Env)
    requires Legal(w, j, e)
    ensures var t := Ran(w, j, e).trace; forall i :: 0 <= i < |t| && t[i].DestroyDest? ==> Justified(j, t, i)
  {
    assert |Ran(w, j, e).trace| <= 6;
  }

  lemma LossWasAttempted(w: World, j: Job, e: Env)
    requires Legal(w, j, e)
    ensures var r := Ran(w, j, e);
            w.dest.Present? && (r.world.dest.Absent? || !(w.dest.snaps <= r.world.dest.snaps)) ==> Attempted(r.trace)
  {
    var t := Ran(w, j, e).trace;
    if j.valid && e.snapOk && e.started && e.sent.status.Error? && w.lastBookmark != "" && j.forceFull {
      assert t[2] == DestroyDest(e.destroyOk);
    }
  }

  // ---- recovery ----

  /** Nothing failed that zfs could have done. */
  predicate Faultless(w: World, j: Job, e: Env) {
    var incremental := w.lastBookmark != "";
    && j.valid && e.snapOk && e.started && e.restarted && e.markOk
    && !e.sent.status.Canceled? && !e.resent.status.Canceled?
    && (e.sent.status.Done? <==> CanReceive(w, incremental))
    && (e.destroyOk <==> e.sent.dest.Present?)
    && (e.resent.status.Done? <==> CanReceive(w.(dest := if e.destroyOk then Absent else e.sent.dest), false))
    && (e.unbookmarkOk <==> w.bookmark.Some?) && e.bookmarkOk
  }

  /** The states from which the job cannot get anywhere. */
  predicate Wedged(w: World, j: Job) {
    if w.lastBookmark == "" then w.dest.Present?
    else !CanReceive(w, true) && (w.dest.Absent? || !j.forceFull)
  }

  /** When no command fails needlessly, an execution succeeds exactly outside the wedged states. */
  lemma RecoversIffNotWedged(w: World, j: Job, e: Env)
    requires Legal(w, j, e) && Faultless(w, j, e)
    ensures Executed(w, j, e).ok <==> !Wedged(w, j)
  {
  }

  /** After a success the next execution is never wedged. */
  lemma SuccessIsNotWedged(w: World, j: Job, e: Env)
    requires Legal(w, j, e) && e.markOk && Executed(w, j, e).ok
    ensures !Wedged(Executed(w, j, e).world, j)
  {
    OutcomeIsTruthful(w, j, e);
    assert IsRepl(e.snap);
  }

  /**
   A destination lost in a failed execution that asked for its destruction wedges the job
   even under force_full, whichever of the destroy and the full send failed.
   */
  lemma FailedRetryWedges(w: World, j: Job, e: Env)
    requires Legal(w, j, e) && Attempted(Executed(w, j, e).trace) && !Executed(w, j, e).ok
    requires Executed(w, j, e).world.dest.Absent?
    ensures Wedged(Executed(w, j, e).world, j)
  {
    var r := Executed(w, j, e);
    OutcomeIsTruthful(w, j, e);
    assert w.lastBookmark != "" by {
      DestroyIsJustified(w, j, e);
      var i :| 0 <= i < |r.trace| && r.trace[i].DestroyDest?;
      assert Justified(j, r.trace, i);
    }
  }

  /**
   A destination left with an interrupted receive wedges the job, until somebody aborts the
   receive, unless force_full lets it start over; a first full send is never started over.
   */
  lemma PartialWedges(w: World, j: Job)
    requires w.dest.Present? && w.dest.partial
    ensures Wedged(w, j) <==> w.lastBookmark == "" || !j.forceFull
  {
  }

  /** Canceling an incremental halfway can do that to a job in perfect order. */
  lemma CancelWedges(w: World, j: Job, snap: string) returns (e: Env)
    requires j.valid && w.lastBookmark != "" && CanReceive(w, true) && IsRepl(snap) && snap !in w.snaps
    ensures Legal(w, j, e) && e.snap == snap && e.sent.status.Canceled?
    ensures !Wedged(w, j) && (Wedged(Executed(w, j, e).world, j) <==> !j.forceFull)
  {
    var stuck := Present(w.dest.snaps, true);
    e := Env(snap, true, true, Sent(LongOps.Canceled, stuck), false, Part({}, false), false, Sent(LongOps.Error, stuck),
             false, false, true, {}, true);
    PartialWedges(Executed(w, j, e).world, j);
  }

  predicate LegalRun(w: World, j: Job, es: seq<Env>)
    decreases |es|
  {
    es == [] || (Legal(w, j, es[0]) && LegalRun(Executed(w, j, es[0]).world, j, es[1..]))
  }

  function Final(w: World, j: Job, es: seq<Env>): World
    requires LegalRun(w, j, es)
    decreases |es|
  {
    if es == [] then w else Final(Executed(w, j, es[0]).world, j, es[1..])
  }

  /** From a wedged state no run of executions, however the environment answers, succeeds again. */
  lemma {:induction false} WedgedForever(w: World, j: Job, es: seq<Env>, e: Env)
    requires Wedged(w, j) && LegalRun(w, j, es) && Legal(Final(w, j, es), j, e)
    ensures Wedged(Final(w, j, es), j) && !Executed(Final(w, j, es), j, e).ok
    decreases |es|
  {
    if es == [] {
    } else {
      assert Wedged(Executed(w, j, es[0]).world, j);
      WedgedForever(Executed(w, j, es[0]).world, j, es[1..], e);
    }
  }

  // ---- whole runs ----

  /** The snapshot of the last execution reported ok, "" when there was none. */
  function LastSuccess(w: World, j: Job, es: seq<Env>, sofar: string): string
    requires LegalRun(w, j, es)
    decreases |es|
  {
    if es == [] then sofar
    else
      var r := Executed(w, j, es[0]);
      LastSuccess(r.world, j, es[1..], if r.ok then es[0].snap else sofar)
  }

  /** The bookmark, when there is one, names the stored snapshot. */
  predicate Tracked(w: World) {
    w.bookmark.Some? ==> w.bookmark.value == w.lastBookmark
  }

  /**
   Over every run whose row updates are stored: the row names the last successful
   execution's snapshot, and the bookmark names the same or is missing.
   */
  lemma {:induction false} RowTracksLastSuccess(w: World, j: Job, es: seq<Env>)
    requires LegalRun(w, j, es) && Tracked(w) && forall e | e in es :: e.markOk
    ensures Final(w, j, es).lastBookmark == LastSuccess(w, j, es, w.lastBookmark) && Tracked(Final(w, j, es))
    decreases |es|
  {
    if es == [] {
    } else {
      assert es[0] in es;
      OutcomeIsTruthful(w, j, es[0]);
      RowTracksLastSuccess(Executed(w, j, es[0]).world, j, es[1..]);
    }
  }

  lemma ExecutionKeepsDistinct(w: World, j: Job, e: Env)
    requires Legal(w, j, e) && NoDuplicates(w.snaps)
    ensures NoDuplicates(Executed(w, j, e).world.snaps)
  {
    if e.snapOk {
      var was := w.snaps + [e.snap];
      assert NoDuplicates(was);
      DropKeepsDistinct(was, Superseded(was) - e.stuck);
    }
  }

  lemma {:induction false} RunKeepsDistinct(w: World, j: Job, es: seq<Env>)
    requires LegalRun(w, j, es) && NoDuplicates(w.snaps)
    ensures NoDuplicates(Final(w, j, es).snaps)
    decreases |es|
  {
    if es == [] {
    } else {
      ExecutionKeepsDistinct(w, j, es[0]);
      RunKeepsDistinct(Executed(w, j, es[0]).world, j, es[1..]);
    }
  }

  /** After each success of a run that could list and destroy, the source holds at most two replication snapshots. */
  lemma RunKeepsTwo(w: World, j: Job, es: seq<Env>, e: Env)
    requires LegalRun(w, j, es) && NoDuplicates(w.snaps) && Legal(Final(w, j, es), j, e)
    requires Executed(Final(w, j, es), j, e).ok && e.listOk && e.stuck == {}
    ensures |Repls(Executed(Final(w, j, es), j, e).world.snaps)| <= 2
  {
    RunKeepsDistinct(w, j, es);
    SuccessKeepsTwo(Final(w, j, es), j, e);
  }

  /** Every received snapshot is a replication snapshot and they arrived in name order. */
  predicate Chronological(w: World) {
    InOrder(w.dest)
  }

  predicate InOrder(dest: Dest) {
    dest.Present? ==> Ascending(dest.snaps) && forall x | x in dest.snaps :: IsRepl(x)
  }

  /** The stamp is later than everything received before. */
  predicate Later(w: World, snap: string) {
    w.dest.Present? ==> forall x | x in w.dest.snaps :: Less(x, snap)
  }

  predicate LaterRun(w: World, j: Job, es: seq<Env>)
    requires LegalRun(w, j, es)
    decreases |es|
  {
    es == [] || (Later(w, es[0].snap) && LaterRun(Executed(w, j, es[0]).world, j, es[1..]))
  }

  lemma StaysChronological(w: World, j: Job, e: Env)
    requires Legal(w, j, e) && Later(w, e.snap) && Chronological(w)
    ensures Chronological(Executed(w, j, e).world)
  {
    var dest := Executed(w, j, e).world.dest;
    DestAfter(w, j, e);
    SendStaysInOrder(w, w.lastBookmark != "", e.snap, e.sent);
    SendStaysInOrder(w.(dest := Absent), false, e.snap, e.resent);
    DamageStaysInOrder(e.sent.dest, e.damage);
  }

  /** Where the destination of an execution comes from. */
  lemma DestAfter(w: World, j: Job, e: Env)
    requires Legal(w, j, e)
    ensures var dest := Executed(w, j, e).world.dest;
            || dest == w.dest || dest == e.sent.dest || dest == Damaged(e.sent.dest, e.damage) || dest == Absent
            || (dest == e.resent.dest && LegalSend(w.(dest := Absent), false, e.snap, e.resent))
  {
  }

  lemma SendStaysInOrder(w: World, incremental: bool, snap: string, s: Sent)
    requires InOrder(w.dest) && Later(w, snap) && IsRepl(snap)
    ensures LegalSend(w, incremental, snap, s) ==> InOrder(s.dest)
  {
  }

  lemma DamageStaysInOrder(dest: Dest, d: Damage)
    requires InOrder(dest)
    ensures InOrder(Damaged(dest, d))
  {
    if dest.Present? && d.Part? { DropAscends(dest.snaps, d.gone); }
  }

  lemma {:induction false} DropAscends(s: seq<string>, gone: set<string>)
    requires Ascending(s)
    ensures Ascending(Drop(s, gone))
  {
    if s == [] {
    } else {
      var n := |s| - 1;
      var (front, x) := (s[..n], s[n]);
      var kept := Drop(front, gone);
      DropAscends(front, gone);
      forall i | 0 <= i < |kept| ensures Less(kept[i], x) {
        assert kept[i] in front;
      }
    }
  }

  /** With increasing stamps the destination always holds replication snapshots in time order. */
  lemma {:induction false} DestinationIsChronological(w: World, j: Job, es: seq<Env>)
    requires LegalRun(w, j, es) && LaterRun(w, j, es) && Chronological(w)
    ensures Chronological(Final(w, j, es))
    decreases |es|
  {
    if es == [] {
    } else {
      StaysChronological(w, j, es[0]);
      DestinationIsChronological(Executed(w, j, es[0]).world, j, es[1..]);
    }
  }

  // ---- snapshot names ----

  /** A local time to the second, in the fields Format("20060102-150405") prints. */
  datatype Time = Time(year: nat, month: nat, day: nat, hour: nat, minute: nat, second: nat) {
    predicate Valid() {
      year < 10000 && month < 100 && day < 100 && hour < 100 && minute < 100 && second < 100
    }

    predicate Before(u: Time) {
      year < u.year || (year == u.year && (month < u.month || (month == u.month && (day < u.day || (day == u.day &&
      (hour < u.hour || (hour == u.hour && (minute < u.minute || (minute == u.minute && second < u.second)))))))))
    }

    function Name(): string {
      REPL_PREFIX + (Fixed(year, 4) + (Fixed(month, 2) + (Fixed(day, 2) + ("-" +
      (Fixed(hour, 2) + (Fixed(minute, 2) + Fixed(second, 2)))))))
    }
  }

  /** Sorting the names sorts the times: fixed-width stamps are in chronological order. */
  lemma NamesAreChronological(t: Time, u: Time)
    requires t.Valid() && u.Valid()
    ensures Less(t.Name(), u.Name()) <==> t.Before(u)
  {
    assert Pow10(2) == 100 && Pow10(4) == 10000;
    FixedOrder(t.year, u.year, 4);
    FixedOrder(t.month, u.month, 2);
    FixedOrder(t.day, u.day, 2);
    FixedOrder(t.hour, u.hour, 2);
    FixedOrder(t.minute, u.minute, 2);
    FixedOrder(t.second, u.second, 2);
    var (t1, u1) := (Fixed(t.second, 2), Fixed(u.second, 2));
    var (t2, u2) := (Fixed(t.minute, 2) + t1, Fixed(u.minute, 2) + u1);
    var (t3, u3) := (Fixed(t.hour, 2) + t2, Fixed(u.hour, 2) + u2);
    var (t4, u4) := ("-" + t3, "-" + u3);
    var (t5, u5) := (Fixed(t.day, 2) + t4, Fixed(u.day, 2) + u4);
    var (t6, u6) := (Fixed(t.month, 2) + t5, Fixed(u.month, 2) + u5);
    var (t7, u7) := (Fixed(t.year, 4) + t6, Fixed(u.year, 4) + u6);
    LessConcat(Fixed(t.minute, 2), Fixed(u.minute, 2), t1, u1);
    LessConcat(Fixed(t.hour, 2), Fixed(u.hour, 2), t2, u2);
    LessConcat("-", "-", t3, u3);
    LessConcat(Fixed(t.day, 2), Fixed(u.day, 2), t4, u4);
    LessConcat(Fixed(t.month, 2), Fixed(u.month, 2), t5, u5);
    LessConcat(Fixed(t.year, 4), Fixed(u.year, 4), t6, u6);
    LessConcat(REPL_PREFIX, REPL_PREFIX, t7, u7);
    LessTotal("-", "-");
    LessTotal(REPL_PREFIX, REPL_PREFIX);
  }
}
