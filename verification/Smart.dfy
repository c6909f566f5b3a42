/**
 The CRC and SMART bookkeeping of the disk collector (internal/collectors/smart.go): each pass
 compares the lifetime link-error counter of a disk with the previous pass, by serial number.
 */
module Smart {
  import opened Text

  const CRC_HISTORY_WARN := 100

  /** A disk as listed and read; `counter` is None when smartctl gave none, which counts as 0. */
  datatype Reading = Reading(dev: string, serial: string, counter: Option<int>, smart: string, detail: string)

  /** What applyCrcDelta appends to the detail text. */
  datatype Note = Plain | Growing(crc: int, recent: int) | Stable(crc: int)

  datatype Disk = Disk(dev: string, serial: string, crc: int, recent: int, smart: string, detail: string, note: Note)

  function Crc(r: Reading): int {
    if r.counter.Some? then r.counter.value else 0
  }

  /** The serial number, so that a disk is followed across bays; its device name without one. */
  function KeyOf(r: Reading): string {
    if r.serial != "" then r.serial else r.dev
  }

  function Positive(x: int): int { if x > 0 then x else 0 }

  /** The growth of the counter since the last pass that listed the disk; 0 on first sight. */
  function Recent(prev: map<string, int>, r: Reading): int {
    if KeyOf(r) in prev then Positive(Crc(r) - prev[KeyOf(r)]) else 0
  }

  function Applied(prev: map<string, int>, r: Reading): Disk {
    var recent := Recent(prev, r);
    Disk(r.dev, r.serial, Crc(r), recent, if recent > 0 && r.smart == "ok" then "warn" else r.smart, r.detail,
         if recent > 0 then Growing(Crc(r), recent) else if Crc(r) >= CRC_HISTORY_WARN then Stable(Crc(r)) else Plain)
  }

  /** The loop of a pass: every disk is compared with the map as the disks before it left it. */
  function Scanned(prev: map<string, int>, rs: seq<Reading>): (r: (map<string, int>, seq<Disk>))
    ensures |r.1| == |rs|
  {
    if rs == [] then (prev, [])
    else
      var (m, ds) := Scanned(prev, rs[..|rs| - 1]);
      var last := rs[|rs| - 1];
      (m[KeyOf(last) := Crc(last)], ds + [Applied(m, last)])
  }

  function KeysOf(rs: seq<Reading>): set<string> {
    set i | 0 <= i < |rs| :: KeyOf(rs[i])
  }

  /** A whole pass: the disks shown, and the counters left after pruning what was not listed. */
  function Pass(prev: map<string, int>, rs: seq<Reading>): (map<string, int>, seq<Disk>) {
    var (m, ds) := Scanned(prev, rs);
    (map k | k in m && k in KeysOf(rs) :: m[k], ds)
  }

  // ---- the collector ----

  type Announced = (string, string, Note)

  function Announce(d: Disk): Announced { (d.smart, d.detail, d.note) }

  /** The disk.smart events of a pass, and the states remembered. */
  function Changes(prev: map<string, Announced>, ds: seq<Disk>): (map<string, Announced>, seq<Disk>) {
    if ds == [] then (prev, [])
    else
      var (m, evs) := Changes(prev, ds[..|ds| - 1]);
      var d := ds[|ds| - 1];
      (m[d.dev := Announce(d)], if d.dev in m && m[d.dev] != Announce(d) then evs + [d] else evs)
  }

  function DevsOf(ds: seq<Disk>): set<string> {
    set i | 0 <= i < |ds| :: ds[i].dev
  }

  /** A whole publication: the events, and the states remembered after pruning absent devices. */
  function Announcing(prev: map<string, Announced>, ds: seq<Disk>): (map<string, Announced>, seq<Disk>) {
    var (m, evs) := Changes(prev, ds);
    (map k | k in m && k in DevsOf(ds) :: m[k], evs)
  }

  class Collector {
    var prevCRC: map<string, int>
    var prevSmart: map<string, Announced>
    var disks: seq<Disk>

    constructor ()
      ensures prevCRC == map[] && prevSmart == map[] && disks == []
    {
      prevCRC, prevSmart, disks := map[], map[], [];
    }

    /** applyCrcDelta on a freshly read disk. */
    static method ApplyCrcDelta(r: Reading, prev: Option<int>) returns (d: Disk)
      ensures forall m: map<string, int> ::
                (if KeyOf(r) in m then prev == Some(m[KeyOf(r)]) else prev == None) ==> d == Applied(m, r)
    {
      d := Disk(r.dev, r.serial, Crc(r), 0, r.smart, r.detail, Plain);
      if prev.Some? && d.crc > prev.value { d := d.(recent := d.crc - prev.value); }
      if d.recent > 0 {
        if d.smart == "ok" { d := d.(smart := "warn"); }
        d := d.(note := Growing(d.crc, d.recent));
      } else if d.crc >= CRC_HISTORY_WARN {
        d := d.(note := Stable(d.crc));
      }
    }

    method CollectOnce(rs: seq<Reading>) returns (events: seq<Disk>)
      modifies this
      ensures (prevCRC, disks) == Pass(old(prevCRC), rs)
      ensures (prevSmart, events) == Announcing(old(prevSmart), disks)
    {
      var ds := [];
      var seen: set<string> := {};
      for i := 0 to |rs|
        invariant (prevCRC, ds) == Scanned(old(prevCRC), rs[..i]) && seen == KeysOf(rs[..i])
        invariant prevSmart == old(prevSmart)
      {
        assert rs[..i + 1][..i] == rs[..i];
        var key := KeyOf(rs[i]);
        var d := ApplyCrcDelta(rs[i], if key in prevCRC then Some(prevCRC[key]) else None);
        assert d == Applied(prevCRC, rs[i]);
        prevCRC := prevCRC[key := d.crc];
        KeysSnoc(rs, i);
        seen := seen + {key};
        ds := ds + [d];
      }
      assert rs[..|rs|] == rs;
      prevCRC := map k | k in prevCRC && k in seen :: prevCRC[k];
      disks := ds;
      events := PublishChanges();
    }

    method PublishChanges() returns (events: seq<Disk>)
      modifies this`prevSmart
      ensures (prevSmart, events) == Announcing(old(prevSmart), disks)
    {
      events := [];
      var seen: set<string> := {};
      for i := 0 to |disks|
        invariant (prevSmart, events) == Changes(old(prevSmart), disks[..i])
        invariant seen == DevsOf(disks[..i])
      {
        assert disks[..i + 1][..i] == disks[..i] && disks[..i + 1][i] == disks[i];
        var d := disks[i];
        if d.dev in prevSmart && prevSmart[d.dev] != Announce(d) { events := events + [d]; }
        prevSmart := prevSmart[d.dev := Announce(d)];
        DevsSnoc(disks, i);
        seen := seen + {d.dev};
      }
      assert disks[..|disks|] == disks;
      prevSmart := map k | k in prevSmart && k in seen :: prevSmart[k];
    }
  }

  lemma KeysSnoc(rs: seq<Reading>, i: nat)
    requires i < |rs|
    ensures KeysOf(rs[..i + 1]) == KeysOf(rs[..i]) + {KeyOf(rs[i])}
  {
    assert rs[..i + 1][i] == rs[i] && forall k :: 0 <= k < i ==> rs[..i + 1][k] == rs[..i][k];
  }

  lemma DevsSnoc(ds: seq<Disk>, i: nat)
    requires i < |ds|
    ensures DevsOf(ds[..i + 1]) == DevsOf(ds[..i]) + {ds[i].dev}
  {
    assert ds[..i + 1][i] == ds[i] && forall k :: 0 <= k < i ==> ds[..i + 1][k] == ds[..i][k];
  }

  // ---- one pass ----

  predicate DistinctKeys(rs: seq<Reading>) {
    forall i, j :: 0 <= i < j < |rs| ==> KeyOf(rs[i]) != KeyOf(rs[j])
  }

  lemma {:induction false} ScannedKeys(prev: map<string, int>, rs: seq<Reading>)
    ensures Scanned(prev, rs).0.Keys == prev.Keys + KeysOf(rs)
  {
    if rs == [] {
    } else {
      ScannedKeys(prev, rs[..|rs| - 1]);
      KeysSnoc(rs, |rs| - 1);
      assert rs[..|rs|] == rs;
    }
  }

  /** The loop leaves alone what is remembered of disks it has not met. */
  lemma {:induction false} ScannedOthers(prev: map<string, int>, rs: seq<Reading>, k: string)
    requires forall i :: 0 <= i < |rs| ==> KeyOf(rs[i]) != k
    ensures var m := Scanned(prev, rs).0; (k in m <==> k in prev) && (k in m ==> m[k] == prev[k])
  {
    if rs == [] {
    } else {
      ScannedOthers(prev, rs[..|rs| - 1], k);
    }
  }

  lemma ScannedSnoc(prev: map<string, int>, rs: seq<Reading>, n: nat)
    requires n < |rs|
    ensures var (m, ds) := Scanned(prev, rs[..n]);
            Scanned(prev, rs[..n + 1]) == (m[KeyOf(rs[n]) := Crc(rs[n])], ds + [Applied(m, rs[n])])
  {
    assert rs[..n + 1][..n] == rs[..n];
  }

  /** Disk `i` has been compared with `prev`, and its counter is remembered. */
  predicate IsScanned(prev: map<string, int>, r: (map<string, int>, seq<Disk>), rs: seq<Reading>, i: nat)
    requires i < |rs|
  {
    && KeyOf(rs[i]) in r.0 && r.0[KeyOf(rs[i])] == Crc(rs[i])
    && i < |r.1| && r.1[i] == Applied(prev, rs[i])
  }

  lemma ScannedAt(prev: map<string, int>, rs: seq<Reading>, i: nat)
    requires DistinctKeys(rs) && i < |rs|
    ensures IsScanned(prev, Scanned(prev, rs[..i + 1]), rs, i)
  {
    ScannedOthers(prev, rs[..i], KeyOf(rs[i]));
    ScannedSnoc(prev, rs, i);
  }

  lemma StaysScanned(prev: map<string, int>, rs: seq<Reading>, i: nat, n: nat)
    requires DistinctKeys(rs) && i < n < |rs| && IsScanned(prev, Scanned(prev, rs[..n]), rs, i)
    ensures IsScanned(prev, Scanned(prev, rs[..n + 1]), rs, i)
  {
    ScannedSnoc(prev, rs, n);
    assert KeyOf(rs[i]) != KeyOf(rs[n]);
  }

  lemma ScannedWhenDistinct(prev: map<string, int>, rs: seq<Reading>, i: nat)
    requires DistinctKeys(rs) && i < |rs|
    ensures IsScanned(prev, Scanned(prev, rs), rs, i)
  {
    ScannedAt(prev, rs, i);
    for n := i + 1 to |rs|
      invariant IsScanned(prev, Scanned(prev, rs[..n]), rs, i)
    {
      StaysScanned(prev, rs, i, n);
    }
    assert rs[..|rs|] == rs;
  }

  /**
   With distinct keys every disk is compared with the previous pass and nothing else, and
   exactly the disks of this pass are remembered, with their counters.
   */
  lemma PassIsDelta(prev: map<string, int>, rs: seq<Reading>)
    requires DistinctKeys(rs)
    ensures var (m, ds) := Pass(prev, rs);
            && m.Keys == KeysOf(rs)
            && forall i :: 0 <= i < |rs| ==> m[KeyOf(rs[i])] == Crc(rs[i]) && ds[i] == Applied(prev, rs[i])
  {
    ScannedKeys(prev, rs);
    forall i | 0 <= i < |rs|
      ensures KeyOf(rs[i]) in KeysOf(rs) && Scanned(prev, rs).0[KeyOf(rs[i])] == Crc(rs[i])
      ensures Scanned(prev, rs).1[i] == Applied(prev, rs[i])
    {
      ScannedWhenDistinct(prev, rs, i);
    }
  }

  /**
   What a pass shows of a disk: its counter, the growth since the previous pass knew it under
   its serial number (its device name without one), a warning only over an ok state, and the
   note that goes with them.
   */
  lemma PassShows(prev: map<string, int>, rs: seq<Reading>, i: nat)
    requires DistinctKeys(rs) && i < |rs|
    ensures var (r, d) := (rs[i], Pass(prev, rs).1[i]);
            var key := if r.serial == "" then r.dev else r.serial;
            && d.dev == r.dev && d.serial == r.serial && d.detail == r.detail
            && d.crc == (match r.counter case Some(c) => c case None => 0)
            && d.recent == (if key in prev && d.crc > prev[key] then d.crc - prev[key] else 0)
            && d.smart == (if d.recent > 0 && r.smart == "ok" then "warn" else r.smart)
            && d.note == (if d.recent > 0 then Growing(d.crc, d.recent)
                          else if d.crc >= 100 then Stable(d.crc) else Plain)
  {
    PassIsDelta(prev, rs);
    assert Pass(prev, rs).1[i] == Applied(prev, rs[i]);
  }

  /** The same disks, with serial numbers, under other device names. */
  predicate Renamed(a: seq<Reading>, b: seq<Reading>) {
    |a| == |b| && forall i :: 0 <= i < |a| ==> a[i].serial != "" && b[i] == a[i].(dev := b[i].dev)
  }

  /** Even when a disk is listed twice, device names alone change no counter remembered and no growth shown. */
  lemma {:induction false} RenamingInPlace(prev: map<string, int>, a: seq<Reading>, b: seq<Reading>)
    requires Renamed(a, b)
    ensures var (m, ds) := Pass(prev, a);
            var (n, es) := Pass(prev, b);
            m == n && SameBut(ds, es)
  {
    RenamingInLoop(prev, a, b);
    assert forall i :: 0 <= i < |a| ==> KeyOf(a[i]) == KeyOf(b[i]);
    assert KeysOf(a) == KeysOf(b);
  }

  lemma {:induction false} RenamingInLoop(prev: map<string, int>, a: seq<Reading>, b: seq<Reading>)
    requires Renamed(a, b)
    ensures Scanned(prev, a).0 == Scanned(prev, b).0 && SameBut(Scanned(prev, a).1, Scanned(prev, b).1)
  {
    if a == [] {
    } else {
      var n := |a| - 1;
      RenamingInLoop(prev, a[..n], b[..n]);
      assert b[n] == a[n].(dev := b[n].dev);
      var (m, ds) := Scanned(prev, a[..n]);
      RenamingOne(m, a[n], b[n]);
      SameButSnoc(ds, Scanned(prev, b[..n]).1, Applied(m, a[n]), Applied(m, b[n]));
      assert Scanned(prev, a) == (m[KeyOf(a[n]) := Crc(a[n])], ds + [Applied(m, a[n])]);
    }
  }

  /** The same disks but for their device names. */
  predicate SameBut(ds: seq<Disk>, es: seq<Disk>) {
    |ds| == |es| && forall i :: 0 <= i < |ds| ==> es[i] == ds[i].(dev := es[i].dev)
  }

  lemma SameButSnoc(ds: seq<Disk>, es: seq<Disk>, d: Disk, e: Disk)
    requires SameBut(ds, es) && e == d.(dev := e.dev)
    ensures SameBut(ds + [d], es + [e])
  {
  }

  lemma RenamingOne(m: map<string, int>, x: Reading, y: Reading)
    requires x.serial != "" && y == x.(dev := y.dev)
    ensures KeyOf(x) == KeyOf(y) && Crc(x) == Crc(y) && Applied(m, y) == Applied(m, x).(dev := y.dev)
  {
  }

  /** The same disk, with a serial number, under any device name. */
  predicate IsSame(x: Reading, y: Reading) {
    x.serial != "" && y == x.(dev := y.dev)
  }

  predicate Lists(rs: seq<Reading>, x: Reading) {
    exists i :: 0 <= i < |rs| && IsSame(x, rs[i])
  }

  predicate AllListed(a: seq<Reading>, b: seq<Reading>) {
    forall i {:trigger Lists(b, a[i])} :: 0 <= i < |a| ==> Lists(b, a[i])
  }

  /** The same disks, in any order and under any device names. */
  predicate SameDisks(a: seq<Reading>, b: seq<Reading>) {
    AllListed(a, b) && AllListed(b, a)
  }

  /** Swapping bays, or any other renaming and reordering, changes no counter remembered and nothing shown but names. */
  lemma RenamingDoesNotMatter(prev: map<string, int>, a: seq<Reading>, b: seq<Reading>)
    requires DistinctKeys(a) && DistinctKeys(b) && SameDisks(a, b)
    ensures Pass(prev, a).0 == Pass(prev, b).0
    ensures forall i, j :: 0 <= i < |a| && 0 <= j < |b| && IsSame(a[i], b[j]) ==>
              Pass(prev, b).1[j] == Pass(prev, a).1[i].(dev := b[j].dev)
  {
    forall i, j | 0 <= i < |a| && 0 <= j < |b| && IsSame(a[i], b[j])
      ensures Pass(prev, b).1[j] == Pass(prev, a).1[i].(dev := b[j].dev)
    {
      DiskFollowsSerial(prev, a, b, i, j);
    }
    CountersCarried(prev, a, b);
    CountersCarried(prev, b, a);
    SameMap(Pass(prev, a).0, Pass(prev, b).0);
  }

  predicate Carried(m: map<string, int>, n: map<string, int>) {
    forall k | k in m :: k in n && m[k] == n[k]
  }

  lemma SameMap(m: map<string, int>, n: map<string, int>)
    requires Carried(m, n) && Carried(n, m)
    ensures m == n
  {
  }

  lemma DiskFollowsSerial(prev: map<string, int>, a: seq<Reading>, b: seq<Reading>, i: nat, j: nat)
    requires DistinctKeys(a) && DistinctKeys(b) && i < |a| && j < |b| && IsSame(a[i], b[j])
    ensures Pass(prev, b).1[j] == Pass(prev, a).1[i].(dev := b[j].dev)
  {
    PassIsDelta(prev, a);
    PassIsDelta(prev, b);
    RenamingOne(prev, a[i], b[j]);
  }

  lemma CountersCarried(prev: map<string, int>, a: seq<Reading>, b: seq<Reading>)
    requires DistinctKeys(a) && DistinctKeys(b) && AllListed(a, b)
    ensures Carried(Pass(prev, a).0, Pass(prev, b).0)
  {
    PassIsDelta(prev, a);
    PassIsDelta(prev, b);
    RememberedCarried(a, b, Pass(prev, a).0, Pass(prev, b).0);
  }

  /** `m` holds the counters of these disks and no others. */
  predicate Remembers(m: map<string, int>, rs: seq<Reading>) {
    m.Keys == KeysOf(rs) && forall i :: 0 <= i < |rs| ==> KeyOf(rs[i]) in m && m[KeyOf(rs[i])] == Crc(rs[i])
  }

  lemma RememberedCarried(a: seq<Reading>, b: seq<Reading>, m: map<string, int>, n: map<string, int>)
    requires Remembers(m, a) && Remembers(n, b) && AllListed(a, b)
    ensures Carried(m, n)
  {
    forall k | k in m ensures k in n && m[k] == n[k] {
      var i :| 0 <= i < |a| && KeyOf(a[i]) == k;
      assert Lists(b, a[i]);
      var j :| 0 <= j < |b| && IsSame(a[i], b[j]);
    }
  }

  /** Two disks that swap device names, and so their places in the listing, are the same disks. */
  lemma SwapIsRenaming(x: Reading, y: Reading)
    requires x.serial != "" && y.serial != ""
    ensures SameDisks([x, y], [y.(dev := x.dev), x.(dev := y.dev)])
  {
    var (a, b) := ([x, y], [y.(dev := x.dev), x.(dev := y.dev)]);
    assert IsSame(a[0], b[1]) && IsSame(a[1], b[0]) && IsSame(b[0], a[1]) && IsSame(b[1], a[0]);
  }

  // ---- many passes ----

  /** `at[p]` is a position in pass `p`. */
  predicate Positions(passes: seq<seq<Reading>>, at: seq<nat>) {
    |at| == |passes| && forall p :: 0 <= p < |passes| ==> at[p] < |passes[p]|
  }

  /** Every pass lists the disk `key`, at those positions. */
  predicate Follows(passes: seq<seq<Reading>>, at: seq<nat>, key: string) {
    Positions(passes, at) && forall p :: 0 <= p < |passes| ==> DistinctKeys(passes[p]) && KeyOf(passes[p][at[p]]) == key
  }

  /** The growth shown for the disk at position `at[p]` of pass `p`, summed over the passes. */
  function TotalRecent(prev: map<string, int>, passes: seq<seq<Reading>>, at: seq<nat>): int
    requires Positions(passes, at)
    decreases |passes|
  {
    if passes == [] then 0
    else
      var (m, ds) := Pass(prev, passes[0]);
      assert |ds| == |passes[0]|;
      ds[at[0]].recent + TotalRecent(m, passes[1..], at[1..])
  }

  function Counters(passes: seq<seq<Reading>>, at: seq<nat>): seq<int>
    requires Positions(passes, at)
  {
    seq(|passes|, p requires 0 <= p < |passes| => Crc(passes[p][at[p]]))
  }

  /** The total of the falls of a list of numbers. */
  function Falls(cs: seq<int>): int {
    if |cs| < 2 then 0 else Positive(cs[0] - cs[1]) + Falls(cs[1..])
  }

  predicate NonDecreasing(cs: seq<int>) {
    forall i :: 0 <= i < |cs| - 1 ==> cs[i] <= cs[i + 1]
  }

  lemma {:induction false} FallsZero(cs: seq<int>)
    ensures Falls(cs) >= 0 && (Falls(cs) == 0 <==> NonDecreasing(cs))
  {
    if |cs| >= 2 {
      FallsZero(cs[1..]);
      if NonDecreasing(cs[1..]) && cs[0] <= cs[1] {
        forall i | 0 <= i < |cs| - 1 ensures cs[i] <= cs[i + 1] {
          if i > 0 { assert cs[1..][i - 1] <= cs[1..][i]; }
        }
      }
      if NonDecreasing(cs) {
        forall i | 0 <= i < |cs| - 2 ensures cs[1..][i] <= cs[1..][i + 1] {
          assert cs[i + 1] <= cs[i + 2];
        }
      }
    }
  }

  /** What one pass does to a disk it lists. */
  lemma PassOfDisk(prev: map<string, int>, rs: seq<Reading>, i: nat)
    requires DistinctKeys(rs) && i < |rs|
    ensures var (m, ds) := Pass(prev, rs);
            && KeyOf(rs[i]) in m && m[KeyOf(rs[i])] == Crc(rs[i]) && i < |ds| && ds[i].recent == Recent(prev, rs[i])
  {
    PassIsDelta(prev, rs);
    assert KeyOf(rs[i]) in KeysOf(rs);
  }

  lemma LaterFollows(passes: seq<seq<Reading>>, at: seq<nat>, key: string)
    requires passes != [] && Follows(passes, at, key)
    ensures Follows(passes[1..], at[1..], key)
    ensures Counters(passes, at) == [Crc(passes[0][at[0]])] + Counters(passes[1..], at[1..])
  {
  }

  lemma GrowthStep(first: int, cs: seq<int>)
    requires cs != []
    ensures var all := [first] + cs;
            Positive(cs[0] - first) + (cs[|cs| - 1] - cs[0] + Falls(cs)) == all[|all| - 1] - all[0] + Falls(all)
  {
    assert ([first] + cs)[1..] == cs;
  }

  /** From a remembered counter on, the growth shown adds up to last minus first plus every fall. */
  lemma {:induction false} GrowthFrom(prev: map<string, int>, passes: seq<seq<Reading>>, at: seq<nat>, key: string)
    requires key in prev && Follows(passes, at, key)
    ensures var cs := [prev[key]] + Counters(passes, at);
            TotalRecent(prev, passes, at) == cs[|cs| - 1] - cs[0] + Falls(cs)
    decreases |passes|
  {
    if passes == [] {
    } else {
      LaterFollows(passes, at, key);
      PassOfDisk(prev, passes[0], at[0]);
      GrowthFrom(Pass(prev, passes[0]).0, passes[1..], at[1..], key);
      GrowthStep(prev[key], Counters(passes, at));
    }
  }

  /**
   Over any passes that list a disk the growth shown adds up to last minus first exactly when
   its counter never fell.
   */
  lemma TotalGrowth(passes: seq<seq<Reading>>, at: seq<nat>, key: string)
    requires passes != [] && Follows(passes, at, key)
    ensures var cs := Counters(passes, at);
            && TotalRecent(map[], passes, at) == cs[|cs| - 1] - cs[0] + Falls(cs)
            && (TotalRecent(map[], passes, at) == cs[|cs| - 1] - cs[0] <==> NonDecreasing(cs))
  {
    LaterFollows(passes, at, key);
    PassOfDisk(map[], passes[0], at[0]);
    GrowthFrom(Pass(map[], passes[0]).0, passes[1..], at[1..], key);
    FallsZero(Counters(passes, at));
  }

  /** A pass that cannot read a disk's counter makes the next one show the whole lifetime counter as growth. */
  lemma UnreadablePassInflates(prev: map<string, int>, rs: seq<Reading>, i: nat, later: seq<Reading>, j: nat, c: nat)
    requires DistinctKeys(rs) && i < |rs| && rs[i].counter == None
    requires DistinctKeys(later) && j < |later| && KeyOf(later[j]) == KeyOf(rs[i]) && later[j].counter == Some(c)
    ensures Pass(Pass(prev, rs).0, later).1[j].recent == c
  {
    PassOfDisk(prev, rs, i);
    PassOfDisk(Pass(prev, rs).0, later, j);
  }

  // ---- events ----

  predicate DistinctDevs(ds: seq<Disk>) {
    forall i, j :: 0 <= i < j < |ds| ==> ds[i].dev != ds[j].dev
  }

  /** Every disk of a pass is announced exactly when it was known and its state differs; its state is remembered. */
  lemma ChangesAreAnnounced(prev: map<string, Announced>, ds: seq<Disk>, i: nat)
    requires DistinctDevs(ds) && i < |ds|
    ensures var (m, evs) := Announcing(prev, ds);
            && (ds[i] in evs <==>
                  ds[i].dev in prev && prev[ds[i].dev] != (ds[i].smart, ds[i].detail, ds[i].note))
            && ds[i].dev in m && m[ds[i].dev] == (ds[i].smart, ds[i].detail, ds[i].note) && m.Keys <= DevsOf(ds)
  {
    ChangesOfLoop(prev, ds, i);
    assert ds[i].dev in DevsOf(ds);
  }

  /** The disks whose state differs from the one last announced. */
  function Changed(prev: map<string, Announced>, ds: seq<Disk>): seq<Disk> {
    if ds == [] then []
    else
      var (front, d) := (Changed(prev, ds[..|ds| - 1]), ds[|ds| - 1]);
      if d.dev in prev && prev[d.dev] != (d.smart, d.detail, d.note) then front + [d] else front
  }

  /** Each changed disk is announced once, in the order of the listing. */
  lemma {:induction false} ChangesInOrder(prev: map<string, Announced>, ds: seq<Disk>)
    requires DistinctDevs(ds)
    ensures Announcing(prev, ds).1 == Changed(prev, ds)
  {
    if ds == [] {
    } else {
      var n := |ds| - 1;
      ChangesInOrder(prev, ds[..n]);
      OtherDevs(prev, ds[..n], ds[n].dev);
    }
  }

  lemma {:induction false} ChangesOfLoop(prev: map<string, Announced>, ds: seq<Disk>, i: nat)
    requires DistinctDevs(ds) && i < |ds|
    ensures ds[i] in Changes(prev, ds).1 <==> ds[i].dev in prev && prev[ds[i].dev] != Announce(ds[i])
    ensures ds[i].dev in Changes(prev, ds).0 && Changes(prev, ds).0[ds[i].dev] == Announce(ds[i])
  {
    var n := |ds| - 1;
    OtherDevs(prev, ds[..n], ds[n].dev);
    if i < n { ChangesOfLoop(prev, ds[..n], i); }
  }

  lemma {:induction false} OtherDevs(prev: map<string, Announced>, ds: seq<Disk>, dev: string)
    requires forall i :: 0 <= i < |ds| ==> ds[i].dev != dev
    ensures var (m, evs) := Changes(prev, ds);
            (dev in m <==> dev in prev) && (dev in m ==> m[dev] == prev[dev]) && forall e | e in evs :: e.dev != dev
  {
    if ds == [] {
    } else {
      OtherDevs(prev, ds[..|ds| - 1], dev);
    }
  }
}
