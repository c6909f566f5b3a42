/**
 The two snapshot pruners: the replication runner keeps the newest two of its own
 snapshots (internal/replication/runner.go, prune), the scheduler deletes automatic
 snapshots older than a cutoff over a dataset's subtree (internal/actions/actions.go,
 SnapshotPrune).
 */
module Pruning {
  import opened Lists
  import opened Text
  import opened Order
  import Calendar

  const REPL_PREFIX := "ezrepl-"
  const AUTO_PREFIX := "easyzfs-auto-"

  predicate IsRepl(name: string) { REPL_PREFIX <= name }
  predicate IsAuto(name: string) { AUTO_PREFIX <= name }

  /** `s` without the members of `gone`, in order. */
  function Drop<T(==,!new)>(s: seq<T>, gone: set<T>): (r: seq<T>)
    ensures forall x :: x in r <==> x in s && x !in gone
  {
    if s == [] then []
    else
      var n := |s| - 1;
      assert s == s[..n] + [s[n]];
      var front := Drop(s[..n], gone);
      if s[n] in gone then front else front + [s[n]]
  }

  lemma DropSnoc<T(!new)>(s: seq<T>, x: T, gone: set<T>)
    ensures Drop(s + [x], gone) == if x in gone then Drop(s, gone) else Drop(s, gone) + [x]
  {
    assert (s + [x])[..|s|] == s;
  }

  lemma {:induction false} DropDrop<T(!new)>(s: seq<T>, a: set<T>, b: set<T>)
    ensures Drop(Drop(s, a), b) == Drop(s, a + b)
  {
    if s == [] {
    } else {
      var n := |s| - 1;
      var x := s[n];
      var front := s[..n];
      DropDrop(front, a, b);
      assert s == front + [x];
      DropSnoc(front, x, a + b);
      DropSnoc(front, x, a);
      if x !in a { DropSnoc(Drop(front, a), x, b); }
    }
  }

  lemma {:induction false} DropNothing<T(!new)>(s: seq<T>)
    ensures Drop(s, {}) == s
  {
    if s == [] {
    } else {
      DropNothing(s[..|s| - 1]);
    }
  }

  lemma {:induction false} DropKeepsDistinct<T(!new)>(s: seq<T>, gone: set<T>)
    requires NoDuplicates(s)
    ensures NoDuplicates(Drop(s, gone))
  {
    if s == [] {
    } else {
      var n := |s| - 1;
      DropKeepsDistinct(s[..n], gone);
      var front := Drop(s[..n], gone);
      forall i | 0 <= i < |front| ensures front[i] != s[n] { assert front[i] in s[..n]; }
    }
  }

  // ---- replication: keep the newest two ----

  /** The replication snapshots with a later name. */
  function NewerThan(snaps: seq<string>, name: string): set<string> {
    set t | t in snaps && IsRepl(t) && Less(name, t)
  }

  /** The replication snapshots that two or more others are newer than. */
  function Superseded(snaps: seq<string>): set<string> {
    set s | s in snaps && IsRepl(s) && |NewerThan(snaps, s)| >= 2
  }

  function ReplNames(snaps: seq<string>): (r: seq<string>)
    ensures forall x :: x in r <==> x in snaps && IsRepl(x)
  {
    if snaps == [] then []
    else
      var n := |snaps| - 1;
      assert snaps == snaps[..n] + [snaps[n]];
      var front := ReplNames(snaps[..n]);
      if IsRepl(snaps[n]) then front + [snaps[n]] else front
  }

  lemma {:induction false} ReplNamesDistinct(snaps: seq<string>)
    requires NoDuplicates(snaps)
    ensures NoDuplicates(ReplNames(snaps))
  {
    if snaps == [] {
    } else {
      var n := |snaps| - 1;
      ReplNamesDistinct(snaps[..n]);
      var front := ReplNames(snaps[..n]);
      forall i | 0 <= i < |front| ensures front[i] != snaps[n] { assert front[i] in snaps[..n]; }
    }
  }

  lemma {:induction false} DistinctCounts<T>(s: seq<T>)
    requires NoDuplicates(s)
    ensures forall x :: multiset(s)[x] <= 1
  {
    if s == [] {
    } else {
      var n := |s| - 1;
      assert s == s[..n] + [s[n]];
      DistinctCounts(s[..n]);
      assert s[n] !in s[..n];
    }
  }

  lemma CountsDistinct<T>(s: seq<T>)
    requires forall x :: multiset(s)[x] <= 1
    ensures NoDuplicates(s)
  {
    forall i, j | 0 <= i < j < |s| ensures s[i] != s[j] {
      assert s == s[..j] + s[j..] && s[..j][i] == s[i] && s[j..][0] == s[j];
      assert s[i] in multiset(s[..j]) && s[j] in multiset(s[j..]);
      assert multiset(s) == multiset(s[..j]) + multiset(s[j..]);
      assert multiset(s)[s[i]] == multiset(s[..j])[s[i]] + multiset(s[j..])[s[i]];
    }
  }

  predicate Ascending(s: seq<string>) {
    forall i, j :: 0 <= i < j < |s| ==> Less(s[i], s[j])
  }

  /** Sorted and without repetition is strictly ascending. */
  lemma SortedAscends(list: seq<string>, sorted: seq<string>)
    requires NoDuplicates(list) && multiset(sorted) == multiset(list) && SortedBy(sorted)
    ensures Ascending(sorted) && forall x :: x in sorted <==> x in list
  {
    DistinctCounts(list);
    CountsDistinct(sorted);
    forall x ensures x in sorted <==> x in list {
      assert x in sorted <==> x in multiset(sorted);
    }
    forall i, j | 0 <= i < j < |sorted| ensures Less(sorted[i], sorted[j]) {
      LessTotal(sorted[i], sorted[j]);
      assert AtMost(sorted[i], sorted[j]);
    }
  }

  /** In the sorted list, all but the last two are superseded. */
  lemma AllButLastTwo(snaps: seq<string>, sorted: seq<string>, i: nat)
    requires Ascending(sorted) && (forall x :: x in sorted <==> x in snaps && IsRepl(x)) && i < |sorted|
    ensures sorted[i] in Superseded(snaps) <==> i < |sorted| - 2
  {
    var newer := NewerThan(snaps, sorted[i]);
    var n := |sorted|;
    LessTotal(sorted[i], sorted[i]);
    if i < n - 2 {
      assert {sorted[n - 2], sorted[n - 1]} <= newer;
      LessTotal(sorted[n - 2], sorted[n - 1]);
      SubsetSize({sorted[n - 2], sorted[n - 1]}, newer);
    } else {
      forall t | t in newer ensures t == sorted[n - 1] {
        var j :| 0 <= j < n && sorted[j] == t;
        LessTotal(sorted[i], sorted[j]);
      }
      SubsetSize(newer, {sorted[n - 1]});
    }
  }

  lemma {:induction false} SubsetSize<T>(a: set<T>, b: set<T>)
    requires a <= b
    ensures |a| <= |b|
  {
    if a != {} {
      var x :| x in a;
      SubsetSize(a - {x}, b - {x});
    }
  }

  /** The pool as the pruners change it; some destroys may fail. */
  class Source {
    var snaps: seq<string>

    constructor (names: seq<string>)
      ensures snaps == names
    {
      snaps := names;
    }

    /** zfs destroy of one snapshot. */
    method Destroy(name: string, ok: bool)
      modifies this
      ensures snaps == if ok then Drop(old(snaps), {name}) else old(snaps)
    {
      if ok { snaps := Drop(snaps, {name}); }
    }

    /** prune: list, select, sort, destroy all but the last two; `stuck` cannot be destroyed. */
    method Prune(listOk: bool, stuck: set<string>)
      requires NoDuplicates(snaps)
      modifies this
      ensures snaps == if listOk then Drop(old(snaps), Superseded(old(snaps)) - stuck) else old(snaps)
    {
      if !listOk { return; }
      ghost var was := snaps;
      var sorted := Sort(ReplNames(snaps), Name);
      SortedRepl(snaps, sorted);
      var n := if |sorted| < 2 then 0 else |sorted| - 2;
      DropNothing(was);
      assert Members(sorted[..0]) - stuck == {};
      for i := 0 to n
        invariant snaps == Drop(was, Members(sorted[..i]) - stuck)
      {
        PruneStep(was, sorted, i, stuck);
        Destroy(sorted[i], sorted[i] !in stuck);
      }
      SupersededAre(was, sorted);
    }
  }

  lemma PruneStep(was: seq<string>, sorted: seq<string>, i: nat, stuck: set<string>)
    requires i < |sorted|
    ensures var before := Drop(was, Members(sorted[..i]) - stuck);
            var after := Drop(was, Members(sorted[..i + 1]) - stuck);
            after == if sorted[i] in stuck then before else Drop(before, {sorted[i]})
  {
    assert sorted[..i + 1] == sorted[..i] + [sorted[i]];
    assert Members(sorted[..i + 1]) == Members(sorted[..i]) + {sorted[i]};
    if sorted[i] in stuck {
      assert Members(sorted[..i + 1]) - stuck == Members(sorted[..i]) - stuck;
    } else {
      DropDrop(was, Members(sorted[..i]) - stuck, {sorted[i]});
      assert Members(sorted[..i + 1]) - stuck == Members(sorted[..i]) - stuck + {sorted[i]};
    }
  }

  function Name(s: string): string { s }

  function Members<T>(s: seq<T>): set<T> { set x | x in s }

  /** Sorting the replication names of a source gives them in strictly ascending order. */
  lemma SortedRepl(snaps: seq<string>, sorted: seq<string>)
    requires NoDuplicates(snaps) && multiset(sorted) == multiset(ReplNames(snaps)) && SortedBy(Keys(sorted, Name))
    ensures Ascending(sorted) && forall x :: x in sorted <==> x in snaps && IsRepl(x)
  {
    assert Keys(sorted, Name) == sorted;
    ReplNamesDistinct(snaps);
    SortedAscends(ReplNames(snaps), sorted);
  }

  /** The superseded snapshots are the sorted list but for its last two. */
  lemma SupersededAre(snaps: seq<string>, sorted: seq<string>)
    requires Ascending(sorted) && forall x :: x in sorted <==> x in snaps && IsRepl(x)
    ensures Superseded(snaps) == Members(sorted[..if |sorted| < 2 then 0 else |sorted| - 2])
  {
    var n := if |sorted| < 2 then 0 else |sorted| - 2;
    forall s ensures s in sorted[..n] <==> s in Superseded(snaps) {
      if s in Superseded(snaps) {
        var i :| 0 <= i < |sorted| && sorted[i] == s;
        AllButLastTwo(snaps, sorted, i);
        assert sorted[..n][i] == s;
      } else if s in sorted[..n] {
        var i :| 0 <= i < n && sorted[i] == s;
        AllButLastTwo(snaps, sorted, i);
        assert false;
      }
    }
  }

  /**
   When every destroy succeeds exactly the newest min(2, n) replication snapshots are left
   and every other snapshot is; a name later than all others is among those left.
   */
  lemma PruneKeepsNewestTwo(snaps: seq<string>)
    requires NoDuplicates(snaps)
    ensures var after := Drop(snaps, Superseded(snaps));
            && (forall s :: s in snaps && !IsRepl(s) ==> s in after)
            && |ReplNames(after)| == (if |ReplNames(snaps)| < 2 then |ReplNames(snaps)| else 2)
            && (forall s, t :: s in snaps && IsRepl(s) && s !in after && t in after && IsRepl(t) ==> Less(s, t))
  {
    var after := Drop(snaps, Superseded(snaps));
    SortExists(ReplNames(snaps));
    var sorted :| Ascending(sorted) && forall x :: x in sorted <==> x in ReplNames(snaps);
    SupersededAre(snaps, sorted);
    var m := if |sorted| < 2 then 0 else |sorted| - 2;
    assert sorted == sorted[..m] + sorted[m..];
    AscendingDistinct(sorted);
    AscendingDistinct(sorted[m..]);
    forall s, t | s in sorted[..m] && t in sorted[m..] ensures Less(s, t) && s != t {
      var i :| 0 <= i < m && sorted[i] == s;
      var j :| m <= j < |sorted| && sorted[j] == t;
    }
    ReplNamesDistinct(snaps);
    DropKeepsDistinct(snaps, Superseded(snaps));
    ReplNamesDistinct(after);
    SameSize(ReplNames(after), sorted[m..]);
    SameSize(ReplNames(snaps), sorted);
  }

  /** A replication snapshot named later than all others survives its prune. */
  lemma PruneKeepsLatest(snaps: seq<string>, name: string, stuck: set<string>)
    requires name in snaps && forall t | t in snaps && IsRepl(t) :: t == name || Less(t, name)
    ensures name in Drop(snaps, Superseded(snaps) - stuck)
  {
    forall t | t in NewerThan(snaps, name) ensures false { LessTotal(t, name); }
    assert NewerThan(snaps, name) == {};
  }

  lemma AscendingDistinct(s: seq<string>)
    requires Ascending(s)
    ensures NoDuplicates(s)
  {
    forall i, j | 0 <= i < j < |s| ensures s[i] != s[j] { LessTotal(s[i], s[j]); }
  }

  lemma {:induction false} SortExists(list: seq<string>)
    ensures exists s :: Ascending(s) && forall x :: x in s <==> x in list
  {
    if list == [] {
      assert Ascending(list);
    } else {
      var n := |list| - 1;
      SortExists(list[..n]);
      var s :| Ascending(s) && forall x :: x in s <==> x in list[..n];
      assert list == list[..n] + [list[n]];
      if list[n] !in s {
        var i := Position(s, list[n]);
        var t := s[..i] + [list[n]] + s[i..];
        assert s == s[..i] + s[i..];
        assert Ascending(t);
      }
    }
  }

  lemma {:induction false} Position(s: seq<string>, x: string) returns (i: nat)
    requires Ascending(s) && x !in s
    ensures i <= |s| && (forall j :: 0 <= j < i ==> Less(s[j], x)) && (forall j :: i <= j < |s| ==> Less(x, s[j]))
  {
    if s == [] {
      i := 0;
    } else {
      var n := |s| - 1;
      LessTotal(s[n], x);
      if Less(s[n], x) {
        forall j | 0 <= j < n ensures Less(s[j], x) { LessTransitive(s[j], s[n], x); }
        i := n + 1;
      } else {
        i := Position(s[..n], x);
      }
    }
  }

  lemma {:induction false} SameSize<T(!new)>(a: seq<T>, b: seq<T>)
    requires NoDuplicates(a) && NoDuplicates(b) && forall x :: x in a <==> x in b
    ensures |a| == |b|
  {
    DistinctSize(a);
    DistinctSize(b);
    assert (set x | x in a) == (set x | x in b);
  }

  lemma {:induction false} DistinctSize<T(!new)>(s: seq<T>)
    requires NoDuplicates(s)
    ensures |set x | x in s| == |s|
  {
    if s == [] {
    } else {
      var n := |s| - 1;
      DistinctSize(s[..n]);
      assert s == s[..n] + [s[n]];
      assert (set x | x in s) == (set x | x in s[..n]) + {s[n]};
    }
  }

  // ---- retention: automatic snapshots of a subtree, by age ----

  /** A line of the listing: '<dataset>@<snapshot>' and its creation time in seconds. */
  datatype Row = Row(full: string, creation: int)

  predicate InTree(ds: string, dataset: string) {
    ds == dataset || dataset + "/" <= ds
  }

  /** The scheduler's own snapshots within the subtree that are not newer than the cutoff. */
  predicate Outdated(row: Row, dataset: string, cutoff: int) {
    var name := Cut(row.full, '@');
    name.found && InTree(name.before, dataset) && IsAuto(name.after) && row.creation * Calendar.SECOND <= cutoff
  }

  /** The string test picks out exactly the datasets whose path extends the dataset's path. */
  lemma {:induction false} InTreeIsSubtree(ds: string, dataset: string)
    ensures InTree(ds, dataset) <==> SplitOn('/', dataset) <= SplitOn('/', ds)
    decreases |dataset|
  {
    var (a, b) := (Cut(dataset, '/'), Cut(ds, '/'));
    var root := a.before;
    if !a.found {
      OneComponent(ds, dataset);
    } else if b.found && b.before == root {
      InTreeIsSubtree(b.after, a.after);
      ConsPrefix(root, SplitOn('/', a.after), SplitOn('/', b.after));
      CutWhole(dataset, '/');
      CutWhole(ds, '/');
      PrefixStep(root + ['/'], a.after, b.after);
    } else {
      OtherRoot(ds, dataset);
    }
  }

  /** A text that is cut is what the cut gave, put together again. */
  lemma {:induction false} CutWhole(s: string, sep: char)
    ensures var r := Cut(s, sep);
            && sep !in r.before && (r.found ==> s == r.before + [sep] + r.after) && (!r.found ==> s == r.before)
  {
    if s != "" && s[0] != sep {
      CutWhole(s[1..], sep);
      assert s == [s[0]] + s[1..];
    }
  }

  /** Below a root dataset lies what has its name up to the first slash. */
  lemma OneComponent(ds: string, dataset: string)
    requires !Cut(dataset, '/').found
    ensures InTree(ds, dataset) <==> SplitOn('/', dataset) <= SplitOn('/', ds)
  {
    CutWhole(dataset, '/');
    CutWhole(ds, '/');
    assert SplitOn('/', dataset) == [dataset];
    assert SplitOn('/', ds)[0] == Cut(ds, '/').before;
    if dataset + "/" <= ds { CutExtends(dataset, ds); }
    if SplitOn('/', ds)[0] == dataset && Cut(ds, '/').found { assert ds[..|dataset| + 1] == dataset + "/"; }
  }

  /** A text that starts with `root/` is cut there. */
  lemma CutExtends(root: string, ds: string)
    requires '/' !in root && root + "/" <= ds
    ensures Cut(ds, '/') == CutResult(root, ds[|root| + 1..], true)
  {
    assert ds == root + ['/'] + ds[|root| + 1..];
    CutAt(root, '/', ds[|root| + 1..]);
  }

  /** Datasets under different roots lie in no tree of each other. */
  lemma OtherRoot(ds: string, dataset: string)
    requires Cut(dataset, '/').found && !(Cut(ds, '/').found && Cut(ds, '/').before == Cut(dataset, '/').before)
    ensures !InTree(ds, dataset) && !(SplitOn('/', dataset) <= SplitOn('/', ds))
  {
    var root := Cut(dataset, '/').before;
    CutWhole(dataset, '/');
    assert root + "/" <= dataset;
    if InTree(ds, dataset) {
      assert ds[..|root| + 1] == dataset[..|root| + 1] == root + "/";
      CutExtends(root, ds);
    }
    var (x, y) := (SplitOn('/', dataset), SplitOn('/', ds));
    assert |x| >= 2 && x[0] == root && y[0] == Cut(ds, '/').before;
    assert !Cut(ds, '/').found ==> |y| == 1;
  }

  lemma ConsPrefix<T>(x: T, a: seq<T>, b: seq<T>)
    ensures [x] + a <= [x] + b <==> a <= b
  {
    if [x] + a <= [x] + b { assert a == ([x] + a)[1..] <= ([x] + b)[1..] == b; }
  }

  lemma PrefixStep(root: string, x: string, y: string)
    ensures InTree(root + y, root + x) <==> InTree(y, x)
  {
    assert root + x + "/" == root + (x + "/");
    if root + x == root + y { assert x == (root + x)[|root|..] == (root + y)[|root|..] == y; }
    if root + (x + "/") <= root + y {
      var z := x + "/";
      assert (root + y)[..|root + z|] == root + z;
      assert y[..|z|] == (root + y)[|root|..|root + z|] == (root + z)[|root|..] == z;
    }
    if x + "/" <= y {
      var z := x + "/";
      assert y == z + y[|z|..];
      assert root + y == (root + z) + y[|z|..];
    }
  }

  /** No snapshot belongs to both pruners. */
  lemma PrefixesApart(name: string)
    ensures !(IsRepl(name) && IsAuto(name))
  {
    if IsRepl(name) { assert name[1] == REPL_PREFIX[1]; }
  }

  /** The rows a prune of the subtree destroys, among the listed ones. */
  function Gone(list: seq<Row>, dataset: string, cutoff: int, stuck: set<string>): set<Row> {
    Chosen(list, r => Outdated(r, dataset, cutoff) && r.full !in stuck)
  }

  function Chosen(list: seq<Row>, p: Row -> bool): set<Row> {
    set r | r in list && p(r)
  }

  lemma ChosenStep(list: seq<Row>, i: nat, p: Row -> bool)
    requires NoDuplicates(list) && i < |list|
    ensures var (before, after) := (Chosen(list[..i], p), Chosen(list[..i + 1], p));
            if p(list[i]) then |after| == |before| + 1 && Drop(list, after) == Drop(Drop(list, before), {list[i]})
            else after == before
  {
    ChosenGrows(list, i, p);
    if p(list[i]) { DropDrop(list, Chosen(list[..i], p), {list[i]}); }
  }

  lemma ChosenGrows(list: seq<Row>, i: nat, p: Row -> bool)
    requires NoDuplicates(list) && i < |list|
    ensures list[i] !in Chosen(list[..i], p)
    ensures Chosen(list[..i + 1], p) == Chosen(list[..i], p) + if p(list[i]) then {list[i]} else {}
  {
    assert list[..i + 1] == list[..i] + [list[i]];
    assert list[i] !in list[..i];
  }

  /** Retention leaves every replication snapshot and every newer or unrelated one. */
  lemma RetentionSparesOthers(list: seq<Row>, dataset: string, cutoff: int, stuck: set<string>, row: Row)
    requires row in list
    requires !InTree(Cut(row.full, '@').before, dataset) || IsRepl(Cut(row.full, '@').after)
             || row.creation * Calendar.SECOND > cutoff
    ensures row in Drop(list, Gone(list, dataset, cutoff, stuck))
  {
    PrefixesApart(Cut(row.full, '@').after);
  }

  /**
   A listed snapshot is destroyed exactly when it is an automatic one of a dataset whose path
   extends the given path, is not newer than the cutoff, and can be destroyed.
   */
  lemma RetentionExactly(list: seq<Row>, dataset: string, cutoff: int, stuck: set<string>, row: Row)
    requires row in list
    ensures var name := Cut(row.full, '@');
            row !in Drop(list, Gone(list, dataset, cutoff, stuck)) <==>
              && name.found && "easyzfs-auto-" <= name.after
              && SplitOn('/', dataset) <= SplitOn('/', name.before)
              && row.creation * 1_000_000_000 <= cutoff && row.full !in stuck
  {
    InTreeIsSubtree(Cut(row.full, '@').before, dataset);
  }

  /** As many rows are lost as are dropped. */
  lemma DropSize<T(!new)>(s: seq<T>, gone: set<T>)
    requires NoDuplicates(s) && forall x :: x in gone ==> x in s
    ensures |Drop(s, gone)| == |s| - |gone|
  {
    DropKeepsDistinct(s, gone);
    DistinctSize(s);
    DistinctSize(Drop(s, gone));
    assert Members(Drop(s, gone)) == Members(s) - gone;
    assert gone <= Members(s) && Members(s) - (Members(s) - gone) == gone;
  }

  class Pool {
    var snaps: seq<Row>

    constructor (rows: seq<Row>)
      ensures snaps == rows
    {
      snaps := rows;
    }

    /** SnapshotPrune; `stuck` are the names that cannot be destroyed, None is a failed listing. */
    method SnapshotPrune(dataset: string, cutoff: int, listOk: bool, stuck: set<string>) returns (deleted: Option<nat>)
      requires NoDuplicates(snaps)
      modifies this
      ensures !listOk ==> deleted == None && snaps == old(snaps)
      ensures listOk ==> deleted == Some(|Gone(old(snaps), dataset, cutoff, stuck)|)
                         && snaps == Drop(old(snaps), Gone(old(snaps), dataset, cutoff, stuck))
      ensures listOk ==> deleted == Some(|old(snaps)| - |snaps|)
      ensures listOk ==> forall row :: row in snaps <==>
                           var name := Cut(row.full, '@');
                           row in old(snaps)
                           && !(&& name.found && "easyzfs-auto-" <= name.after
                                && SplitOn('/', dataset) <= SplitOn('/', name.before)
                                && row.creation * 1_000_000_000 <= cutoff && row.full !in stuck)
    {
      if !listOk { return None; }
      var p := r => Outdated(r, dataset, cutoff) && r.full !in stuck;
      ghost var list := snaps;
      var n := Sweep(p);
      deleted := Some(n);
      DropSize(list, Gone(list, dataset, cutoff, stuck));
      forall row | row in list
        ensures var name := Cut(row.full, '@');
                row !in snaps <==>
                  && name.found && "easyzfs-auto-" <= name.after
                  && SplitOn('/', dataset) <= SplitOn('/', name.before)
                  && row.creation * 1_000_000_000 <= cutoff && row.full !in stuck
      {
        RetentionExactly(list, dataset, cutoff, stuck, row);
      }
    }

    /** The loop over the listing. */
    method Sweep(p: Row -> bool) returns (deleted: nat)
      requires NoDuplicates(snaps)
      modifies this
      ensures deleted == |Chosen(old(snaps), p)| && snaps == Drop(old(snaps), Chosen(old(snaps), p))
    {
      var list := snaps;
      deleted := 0;
      DropNothing(list);
      assert Chosen(list[..0], p) == {};
      for i := 0 to |list|
        invariant snaps == Drop(list, Chosen(list[..i], p)) && deleted == |Chosen(list[..i], p)|
      {
        ChosenStep(list, i, p);
        if p(list[i]) {
          snaps := Drop(snaps, {list[i]});
          deleted := deleted + 1;
        }
      }
      assert list[..|list|] == list;
    }
  }
}
