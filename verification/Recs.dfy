/**
 The recommendation engine, which exists twice: internal/recs/recs.go on the server and
 web/src/data/recs.ts in the browser. Both are proved to give the same list.
 */
module Recs {
  import opened Text

  datatype Pool = Pool(name: string, status: string, topo: string, scrubState: string, scrubKind: string)

  datatype Disk = Disk(dev: string, serial: string, pool: string, smart: string, realloc: int, pending: int,
                       offline: int, crc: int, crcRecent: int, nvmeWarn: int)

  datatype Level = Crit | Warn | Info

  datatype Kind = ReplaceNow | ReplaceSoon | Watch | CheckCable | CrcHistory

  /** `reason` is "" without a hold. */
  datatype Rec = Rec(level: Level, kind: Kind, dev: string, serial: string, pool: string, realloc: int, pending: int,
                     offline: int, crc: int, crcRecent: int, hold: bool, reason: string)

  const REALLOC_SOON := 100
  const CRC_WARN := 100

  function Rank(l: Level): nat {
    match l
    case Crit => 0
    case Warn => 1
    case Info => 2
  }

  // ---- the specification ----

  /** Of pools with one name the last counts. */
  function Named(pools: seq<Pool>, name: string): Option<Pool> {
    if pools == [] then None
    else if pools[|pools| - 1].name == name then Some(pools[|pools| - 1])
    else Named(pools[..|pools| - 1], name)
  }

  function HoldReason(p: Option<Pool>): string {
    if p.None? then ""
    else if p.value.scrubState == "running" && p.value.scrubKind == "resilver" then "resilver"
    else if p.value.status != "ONLINE" then "pool_degraded"
    else if p.value.topo == "stripe" then "no_redundancy"
    else ""
  }

  predicate IsReplacement(k: Kind) { k.ReplaceNow? || k.ReplaceSoon? }

  predicate IsHealth(k: Kind) { IsReplacement(k) || k.Watch? }

  function Advice(d: Disk, p: Option<Pool>, level: Level, kind: Kind): Rec {
    var reason := if IsReplacement(kind) then HoldReason(p) else "";
    Rec(level, kind, d.dev, d.serial, d.pool, d.realloc, d.pending, d.offline, d.crc, d.crcRecent, reason != "", reason)
  }

  /** The verdict on the disk itself, if any. */
  function Health(d: Disk, p: Option<Pool>): seq<Rec> {
    if d.smart == "crit" || d.pending > 0 || d.offline > 0 then [Advice(d, p, Crit, ReplaceNow)]
    else if d.realloc >= REALLOC_SOON then [Advice(d, p, Warn, ReplaceSoon)]
    else if d.realloc > 0 || d.nvmeWarn > 0 then [Advice(d, p, Info, Watch)]
    else []
  }

  /** The verdict on its link, if any. */
  function Cable(d: Disk, p: Option<Pool>): seq<Rec> {
    if d.crcRecent > 0 then [Advice(d, p, Warn, CheckCable)]
    else if d.crc >= CRC_WARN then [Advice(d, p, Info, CrcHistory)]
    else []
  }

  function OfDisk(d: Disk, p: Option<Pool>): seq<Rec> {
    Health(d, p) + Cable(d, p)
  }

  function OfDisks(disks: seq<Disk>, pools: seq<Pool>): seq<Rec> {
    if disks == [] then []
    else
      var d := disks[|disks| - 1];
      OfDisks(disks[..|disks| - 1], pools) + OfDisk(d, Named(pools, d.pool))
  }

  /** The recommendations of one level, in order. */
  function AtLevel(rs: seq<Rec>, l: Level): (r: seq<Rec>)
    ensures forall x | x in r :: x in rs && x.level == l
  {
    if rs == [] then []
    else
      var last := rs[|rs| - 1];
      var front := AtLevel(rs[..|rs| - 1], l);
      if last.level == l then front + [last] else front
  }

  /** The stable sort by severity. */
  function BySeverity(rs: seq<Rec>): seq<Rec> {
    AtLevel(rs, Crit) + AtLevel(rs, Warn) + AtLevel(rs, Info)
  }

  function Recommended(disks: seq<Disk>, pools: seq<Pool>): seq<Rec> {
    BySeverity(OfDisks(disks, pools))
  }

  // ---- stable sorting ----

  /** sort.SliceStable and Array.prototype.sort, with the order of rank. */
  method StableSort(rs: seq<Rec>) returns (out: seq<Rec>)
    ensures out == BySeverity(rs)
  {
    out := [];
    for i := 0 to |rs|
      invariant out == BySeverity(rs[..i])
    {
      var j := PlaceIn(out, rs[i].level);
      InsertionPoint(rs[..i], rs[i].level, j);
      InsertAt(rs[..i], rs[i]);
      assert rs[..i + 1] == rs[..i] + [rs[i]];
      out := out[..j] + [rs[i]] + out[j..];
    }
    assert rs[..|rs|] == rs;
  }

  /** Behind everything not ranked below the level. */
  method PlaceIn(s: seq<Rec>, l: Level) returns (j: nat)
    ensures j <= |s| && (j > 0 ==> Rank(l) >= Rank(s[j - 1].level))
    ensures forall k :: j <= k < |s| ==> Rank(l) < Rank(s[k].level)
  {
    j := |s|;
    while j > 0 && Rank(l) < Rank(s[j - 1].level)
      invariant 0 <= j <= |s|
      invariant forall k :: j <= k < |s| ==> Rank(l) < Rank(s[k].level)
    {
      j := j - 1;
    }
  }

  /** Where a new element of a level belongs: after all those not ranked below it. */
  function Place(rs: seq<Rec>, l: Level): nat {
    |AtLevel(rs, Crit)| + (if l.Crit? then 0 else |AtLevel(rs, Warn)| + if l.Warn? then 0 else |AtLevel(rs, Info)|)
  }

  lemma LevelAt(rs: seq<Rec>, k: nat)
    requires k < |BySeverity(rs)|
    ensures BySeverity(rs)[k].level ==
            if k < |AtLevel(rs, Crit)| then Crit
            else if k < |AtLevel(rs, Crit)| + |AtLevel(rs, Warn)| then Warn
            else Info
  {
    var (a, b, c) := (AtLevel(rs, Crit), AtLevel(rs, Warn), AtLevel(rs, Info));
    var x := BySeverity(rs)[k];
    if k < |a| {
      assert x == a[k] && x in a;
    } else if k < |a| + |b| {
      assert x == b[k - |a|] && x in b;
    } else {
      assert x == c[k - |a| - |b|] && x in c;
    }
  }

  lemma InsertionPoint(rs: seq<Rec>, l: Level, j: nat)
    requires var s := BySeverity(rs);
             && j <= |s| && (j > 0 ==> Rank(l) >= Rank(s[j - 1].level))
             && forall k :: j <= k < |s| ==> Rank(l) < Rank(s[k].level)
    ensures j == Place(rs, l)
  {
    var p := Place(rs, l);
    if j > 0 { LevelAt(rs, j - 1); }
    if p > 0 { LevelAt(rs, p - 1); }
    if p < |BySeverity(rs)| { LevelAt(rs, p); }
  }

  lemma InsertAt(rs: seq<Rec>, x: Rec)
    ensures var (s, p) := (BySeverity(rs), Place(rs, x.level));
            p <= |s| && BySeverity(rs + [x]) == s[..p] + [x] + s[p..]
  {
    assert (rs + [x])[..|rs|] == rs;
    var (a, b, c) := (AtLevel(rs, Crit), AtLevel(rs, Warn), AtLevel(rs, Info));
    assert AtLevel(rs + [x], Crit) == a + if x.level.Crit? then [x] else [];
    assert AtLevel(rs + [x], Warn) == b + if x.level.Warn? then [x] else [];
    assert AtLevel(rs + [x], Info) == c + if x.level.Info? then [x] else [];
  }

  // ---- the server's engine ----

  method HoldFor(d: Disk, byPool: map<string, Pool>) returns (hold: bool, reason: string)
    ensures reason == HoldReason(if d.pool in byPool then Some(byPool[d.pool]) else None) && hold == (reason != "")
  {
    if d.pool !in byPool { return false, ""; }
    var p := byPool[d.pool];
    if p.scrubState == "running" && p.scrubKind == "resilver" { return true, "resilver"; }
    if p.status != "ONLINE" { return true, "pool_degraded"; }
    if p.topo == "stripe" { return true, "no_redundancy"; }
    return false, "";
  }

  ghost predicate Indexes(byPool: map<string, Pool>, pools: seq<Pool>) {
    forall n :: Named(pools, n) == if n in byPool then Some(byPool[n]) else None
  }

  method Index(pools: seq<Pool>) returns (byPool: map<string, Pool>)
    ensures Indexes(byPool, pools)
  {
    byPool := map[];
    for i := 0 to |pools|
      invariant Indexes(byPool, pools[..i])
    {
      assert pools[..i + 1][..i] == pools[..i];
      byPool := byPool[pools[i].name := pools[i]];
    }
    assert pools[..|pools|] == pools;
  }

  /** The closure `add` of Evaluate. */
  method Add(out: seq<Rec>, d: Disk, byPool: map<string, Pool>, level: Level, kind: Kind, ghost pools: seq<Pool>)
    returns (r: seq<Rec>)
    requires Indexes(byPool, pools)
    ensures r == out + [Advice(d, Named(pools, d.pool), level, kind)]
  {
    var rec := Rec(level, kind, d.dev, d.serial, d.pool, d.realloc, d.pending, d.offline, d.crc, d.crcRecent,
                   false, "");
    if kind == ReplaceNow || kind == ReplaceSoon {
      var hold, reason := HoldFor(d, byPool);
      rec := rec.(hold := hold, reason := reason);
    }
    r := out + [rec];
  }

  /** The first switch of Evaluate's loop. */
  method AddHealth(out: seq<Rec>, d: Disk, byPool: map<string, Pool>, ghost pools: seq<Pool>) returns (r: seq<Rec>)
    requires Indexes(byPool, pools)
    ensures r == out + Health(d, Named(pools, d.pool))
  {
    r := out;
    if d.smart == "crit" {
      r := Add(r, d, byPool, Crit, ReplaceNow, pools);
    } else if d.pending > 0 || d.offline > 0 {
      r := Add(r, d, byPool, Crit, ReplaceNow, pools);
    } else if d.realloc >= REALLOC_SOON {
      r := Add(r, d, byPool, Warn, ReplaceSoon, pools);
    } else if d.realloc > 0 || d.nvmeWarn > 0 {
      r := Add(r, d, byPool, Info, Watch, pools);
    }
  }

  /** The second. */
  method AddCable(out: seq<Rec>, d: Disk, byPool: map<string, Pool>, ghost pools: seq<Pool>) returns (r: seq<Rec>)
    requires Indexes(byPool, pools)
    ensures r == out + Cable(d, Named(pools, d.pool))
  {
    r := out;
    if d.crcRecent > 0 {
      r := Add(r, d, byPool, Warn, CheckCable, pools);
    } else if d.crc >= CRC_WARN {
      r := Add(r, d, byPool, Info, CrcHistory, pools);
    }
  }

  method Evaluate(disks: seq<Disk>, pools: seq<Pool>) returns (out: seq<Rec>)
    ensures out == Recommended(disks, pools)
  {
    var byPool := Index(pools);
    out := [];
    for i := 0 to |disks|
      invariant out == OfDisks(disks[..i], pools)
    {
      assert disks[..i + 1][..i] == disks[..i];
      out := AddHealth(out, disks[i], byPool, pools);
      out := AddCable(out, disks[i], byPool, pools);
    }
    assert disks[..|disks|] == disks;
    out := StableSort(out);
  }

  // ---- the browser's engine ----

  /** A disk as the browser gets it: the server omits counters that are 0. */
  datatype WebDisk = WebDisk(dev: string, serial: string, pool: string, smart: string, realloc: Option<int>,
                             pending: Option<int>, offline: Option<int>, crc: Option<int>, crcRecent: Option<int>,
                             nvmeWarn: Option<int>)

  /** x ?? 0 */
  function OrZero(x: Option<int>): int {
    if x.Some? then x.value else 0
  }

  function Received(w: WebDisk): Disk {
    Disk(w.dev, w.serial, w.pool, w.smart, OrZero(w.realloc), OrZero(w.pending), OrZero(w.offline), OrZero(w.crc),
         OrZero(w.crcRecent), OrZero(w.nvmeWarn))
  }

  /** omitempty: any counter may be left out when it is 0. */
  predicate IsSent(d: Disk, w: WebDisk) {
    && (w.dev, w.serial, w.pool, w.smart) == (d.dev, d.serial, d.pool, d.smart)
    && Omitted(d.realloc, w.realloc) && Omitted(d.pending, w.pending) && Omitted(d.offline, w.offline)
    && Omitted(d.crc, w.crc) && Omitted(d.crcRecent, w.crcRecent) && Omitted(d.nvmeWarn, w.nvmeWarn)
  }

  predicate Omitted(x: int, o: Option<int>) {
    o == Some(x) || (x == 0 && o.None?)
  }

  function ReceivedAll(ws: seq<WebDisk>): (ds: seq<Disk>)
    ensures |ds| == |ws| && forall i :: 0 <= i < |ws| ==> ds[i] == Received(ws[i])
  {
    seq(|ws|, i requires 0 <= i < |ws| => Received(ws[i]))
  }

  /** The closure `add` of computeRecommendations. */
  method WebAdd(out: seq<Rec>, d: WebDisk, byPool: map<string, Pool>, level: Level, kind: Kind, ghost pools: seq<Pool>)
    returns (r: seq<Rec>)
    requires Indexes(byPool, pools)
    ensures r == out + [Advice(Received(d), Named(pools, d.pool), level, kind)]
  {
    var rec := Rec(level, kind, d.dev, d.serial, d.pool, OrZero(d.realloc), OrZero(d.pending), OrZero(d.offline),
                   OrZero(d.crc), OrZero(d.crcRecent), false, "");
    if kind == ReplaceNow || kind == ReplaceSoon {
      if d.pool in byPool {
        var p := byPool[d.pool];
        if p.scrubState == "running" && p.scrubKind == "resilver" {
          rec := rec.(hold := true, reason := "resilver");
        } else if p.status != "ONLINE" {
          rec := rec.(hold := true, reason := "pool_degraded");
        } else if p.topo == "stripe" {
          rec := rec.(hold := true, reason := "no_redundancy");
        }
      }
    }
    r := out + [rec];
  }

  method WebAddHealth(out: seq<Rec>, d: WebDisk, byPool: map<string, Pool>, ghost pools: seq<Pool>)
    returns (r: seq<Rec>)
    requires Indexes(byPool, pools)
    ensures r == out + Health(Received(d), Named(pools, d.pool))
  {
    r := out;
    if d.smart == "crit" {
      r := WebAdd(r, d, byPool, Crit, ReplaceNow, pools);
    } else if OrZero(d.pending) > 0 || OrZero(d.offline) > 0 {
      r := WebAdd(r, d, byPool, Crit, ReplaceNow, pools);
    } else if OrZero(d.realloc) >= REALLOC_SOON {
      r := WebAdd(r, d, byPool, Warn, ReplaceSoon, pools);
    } else if OrZero(d.realloc) > 0 || OrZero(d.nvmeWarn) > 0 {
      r := WebAdd(r, d, byPool, Info, Watch, pools);
    }
  }

  method WebAddCable(out: seq<Rec>, d: WebDisk, byPool: map<string, Pool>, ghost pools: seq<Pool>) returns (r: seq<Rec>)
    requires Indexes(byPool, pools)
    ensures r == out + Cable(Received(d), Named(pools, d.pool))
  {
    r := out;
    if OrZero(d.crcRecent) > 0 {
      r := WebAdd(r, d, byPool, Warn, CheckCable, pools);
    } else if OrZero(d.crc) >= CRC_WARN {
      r := WebAdd(r, d, byPool, Info, CrcHistory, pools);
    }
  }

  /** computeRecommendations: what Evaluate gives on the disks as received. */
  method ComputeRecommendations(disks: seq<WebDisk>, pools: seq<Pool>) returns (out: seq<Rec>)
    ensures out == Recommended(ReceivedAll(disks), pools)
  {
    var byPool := Index(pools);
    ghost var received := ReceivedAll(disks);
    out := [];
    for i := 0 to |disks|
      invariant out == OfDisks(received[..i], pools)
    {
      assert received[..i + 1][..i] == received[..i];
      out := WebAddHealth(out, disks[i], byPool, pools);
      out := WebAddCable(out, disks[i], byPool, pools);
    }
    assert received[..|disks|] == received;
    out := StableSort(out);
  }

  /** Whatever zero counters the server leaves out, the browser computes the server's own list. */
  lemma EnginesAgree(disks: seq<Disk>, sent: seq<WebDisk>, pools: seq<Pool>)
    requires |disks| == |sent| && forall i :: 0 <= i < |disks| ==> IsSent(disks[i], sent[i])
    ensures Recommended(ReceivedAll(sent), pools) == Recommended(disks, pools)
  {
    forall i | 0 <= i < |disks| ensures ReceivedAll(sent)[i] == disks[i] {
      assert IsSent(disks[i], sent[i]);
    }
    assert ReceivedAll(sent) == disks;
  }

  // ---- what the list is ----

  lemma MultisetInsert(s: seq<Rec>, p: nat, x: Rec)
    requires p <= |s|
    ensures multiset(s[..p] + [x] + s[p..]) == multiset(s + [x])
  {
    assert s == s[..p] + s[p..];
  }

  lemma {:induction false} LevelsPartition(rs: seq<Rec>)
    ensures multiset(BySeverity(rs)) == multiset(rs)
  {
    if rs == [] {
    } else {
      var (front, x) := (rs[..|rs| - 1], rs[|rs| - 1]);
      LevelsPartition(front);
      assert rs == front + [x];
      InsertAt(front, x);
      MultisetInsert(BySeverity(front), Place(front, x.level), x);
    }
  }

  lemma {:induction false} AtLevelConcat(a: seq<Rec>, b: seq<Rec>, l: Level)
    ensures AtLevel(a + b, l) == AtLevel(a, l) + AtLevel(b, l)
  {
    if b == [] {
      assert a + b == a;
    } else {
      AtLevelConcat(a, b[..|b| - 1], l);
      assert (a + b)[..|a + b| - 1] == a + b[..|b| - 1];
    }
  }

  lemma {:induction false} AtLevelAgain(rs: seq<Rec>, l: Level, m: Level)
    ensures AtLevel(AtLevel(rs, l), m) == if l == m then AtLevel(rs, l) else []
  {
    if rs == [] {
    } else {
      var (front, x) := (rs[..|rs| - 1], rs[|rs| - 1]);
      AtLevelAgain(front, l, m);
      if x.level == l { AtLevelConcat(AtLevel(front, l), [x], m); }
    }
  }

  lemma LevelsSurvive(rs: seq<Rec>, l: Level)
    ensures AtLevel(BySeverity(rs), l) == AtLevel(rs, l)
  {
    var (a, b, c) := (AtLevel(rs, Crit), AtLevel(rs, Warn), AtLevel(rs, Info));
    AtLevelConcat(a + b, c, l);
    AtLevelConcat(a, b, l);
    AtLevelAgain(rs, Crit, l);
    AtLevelAgain(rs, Warn, l);
    AtLevelAgain(rs, Info, l);
  }

  predicate Ranked(rs: seq<Rec>) {
    forall i, j :: 0 <= i < j < |rs| ==> Rank(rs[i].level) <= Rank(rs[j].level)
  }

  lemma SeverityIsRanked(rs: seq<Rec>)
    ensures Ranked(BySeverity(rs))
  {
    var s := BySeverity(rs);
    forall i, j | 0 <= i < j < |s| ensures Rank(s[i].level) <= Rank(s[j].level) {
      LevelAt(rs, i);
      LevelAt(rs, j);
    }
  }

  /**
   The list is a rearrangement of what is said of the disks, in order of severity, and
   within a level it keeps the order of the disks.
   */
  lemma IsStableSort(rs: seq<Rec>)
    ensures multiset(BySeverity(rs)) == multiset(rs)
    ensures Ranked(BySeverity(rs))
    ensures forall l :: AtLevel(BySeverity(rs), l) == AtLevel(rs, l)
  {
    LevelsPartition(rs);
    SeverityIsRanked(rs);
    forall l ensures AtLevel(BySeverity(rs), l) == AtLevel(rs, l) {
      LevelsSurvive(rs, l);
    }
  }

  predicate Fits(r: Rec, d: Disk) {
    r.dev == d.dev && (r.hold ==> IsReplacement(r.kind)) && (r.hold <==> r.reason != "")
  }

  lemma SaidOfDisk(d: Disk, p: Option<Pool>, r: Rec)
    requires r in OfDisk(d, p)
    ensures Fits(r, d)
  {
  }

  /** Every entry of the result is said of one of the disks; a hold stands only on a replacement. */
  lemma EntriesFit(disks: seq<Disk>, pools: seq<Pool>, r: Rec)
    requires r in Recommended(disks, pools)
    ensures exists i :: 0 <= i < |disks| && r in OfDisk(disks[i], Named(pools, disks[i].pool)) && Fits(r, disks[i])
  {
    LevelsPartition(OfDisks(disks, pools));
    assert r in multiset(Recommended(disks, pools)) && r in multiset(OfDisks(disks, pools));
    var i := WhoseEntry(disks, pools, r);
    SaidOfDisk(disks[i], Named(pools, disks[i].pool), r);
  }

  lemma {:induction false} WhoseEntry(disks: seq<Disk>, pools: seq<Pool>, r: Rec) returns (i: nat)
    requires r in OfDisks(disks, pools)
    ensures i < |disks| && r in OfDisk(disks[i], Named(pools, disks[i].pool))
  {
    i := |disks| - 1;
    if r !in OfDisk(disks[i], Named(pools, disks[i].pool)) {
      i := WhoseEntry(disks[..i], pools, r);
    }
  }

  /** How many health, or cable, entries a list has for a device. */
  function Entries(rs: seq<Rec>, dev: string, health: bool): nat {
    if rs == [] then 0
    else
      var r := rs[|rs| - 1];
      Entries(rs[..|rs| - 1], dev, health) + if r.dev == dev && IsHealth(r.kind) == health then 1 else 0
  }

  function DisksNamed(disks: seq<Disk>, dev: string): nat {
    if disks == [] then 0
    else DisksNamed(disks[..|disks| - 1], dev) + if disks[|disks| - 1].dev == dev then 1 else 0
  }

  lemma {:induction false} EntriesConcat(a: seq<Rec>, b: seq<Rec>, dev: string, health: bool)
    ensures Entries(a + b, dev, health) == Entries(a, dev, health) + Entries(b, dev, health)
  {
    if b == [] {
      assert a + b == a;
    } else {
      EntriesConcat(a, b[..|b| - 1], dev, health);
      assert (a + b)[..|a + b| - 1] == a + b[..|b| - 1];
    }
  }

  lemma EntriesInsert(s: seq<Rec>, p: nat, x: Rec, dev: string, health: bool)
    requires p <= |s|
    ensures Entries(s[..p] + [x] + s[p..], dev, health) == Entries(s, dev, health) + Entries([x], dev, health)
  {
    assert s == s[..p] + s[p..];
    EntriesConcat(s[..p], s[p..], dev, health);
    EntriesConcat(s[..p], [x], dev, health);
    EntriesConcat(s[..p] + [x], s[p..], dev, health);
  }

  lemma {:induction false} EntriesSorted(rs: seq<Rec>, dev: string, health: bool)
    ensures Entries(BySeverity(rs), dev, health) == Entries(rs, dev, health)
  {
    if rs == [] {
    } else {
      var (front, x) := (rs[..|rs| - 1], rs[|rs| - 1]);
      EntriesSorted(front, dev, health);
      EntriesNext(front, x, rs, dev, health);
    }
  }

  lemma EntriesNext(front: seq<Rec>, x: Rec, rs: seq<Rec>, dev: string, health: bool)
    requires rs == front + [x] && Entries(BySeverity(front), dev, health) == Entries(front, dev, health)
    ensures Entries(BySeverity(rs), dev, health) == Entries(rs, dev, health)
  {
    InsertAt(front, x);
    EntriesInsert(BySeverity(front), Place(front, x.level), x, dev, health);
    EntriesConcat(front, [x], dev, health);
  }

  /** At most one advice, on the disk, of the kind asked for. */
  predicate IsFew(rs: seq<Rec>, dev: string, health: bool) {
    |rs| <= 1 && (rs != [] ==> rs[0].dev == dev && IsHealth(rs[0].kind) == health)
  }

  lemma EntriesFew(rs: seq<Rec>, disk: string, kind: bool, dev: string, health: bool)
    requires IsFew(rs, disk, kind)
    ensures Entries(rs, dev, health) <= if disk == dev && kind == health then 1 else 0
  {
    if rs != [] { assert rs[..0] == [] && Entries(rs[..0], dev, health) == 0; }
  }

  lemma VerdictsAreFew(d: Disk, p: Option<Pool>)
    ensures IsFew(Health(d, p), d.dev, true) && IsFew(Cable(d, p), d.dev, false)
  {
  }

  lemma EntriesOfTwo(hs: seq<Rec>, cs: seq<Rec>, disk: string, dev: string, health: bool)
    requires IsFew(hs, disk, true) && IsFew(cs, disk, false)
    ensures Entries(hs + cs, dev, health) <= if disk == dev then 1 else 0
  {
    EntriesConcat(hs, cs, dev, health);
    EntriesFew(hs, disk, true, dev, health);
    EntriesFew(cs, disk, false, dev, health);
  }

  lemma OneVerdictEach(d: Disk, p: Option<Pool>, dev: string, health: bool)
    ensures Entries(OfDisk(d, p), dev, health) <= if d.dev == dev then 1 else 0
  {
    VerdictsAreFew(d, p);
    EntriesOfTwo(Health(d, p), Cable(d, p), d.dev, dev, health);
  }

  lemma {:induction false} EntriesOfDisks(disks: seq<Disk>, pools: seq<Pool>, dev: string, health: bool)
    ensures Entries(OfDisks(disks, pools), dev, health) <= DisksNamed(disks, dev)
  {
    if disks == [] {
    } else {
      var (front, d) := (disks[..|disks| - 1], disks[|disks| - 1]);
      EntriesOfDisks(front, pools, dev, health);
      EntriesConcat(OfDisks(front, pools), OfDisk(d, Named(pools, d.pool)), dev, health);
      OneVerdictEach(d, Named(pools, d.pool), dev, health);
    }
  }

  /** At most one health entry, and at most one cable entry, for each disk of a name. */
  lemma OneEntryPerDisk(disks: seq<Disk>, pools: seq<Pool>, dev: string, health: bool)
    ensures Entries(Recommended(disks, pools), dev, health) <= DisksNamed(disks, dev)
  {
    EntriesSorted(OfDisks(disks, pools), dev, health);
    EntriesOfDisks(disks, pools, dev, health);
  }

  // ---- what it says, in the fields of the disks and pools ----

  predicate Dying(d: Disk) {
    d.smart == "crit" || d.pending > 0 || d.offline > 0
  }

  /** When a disk calls for advice of a kind, and how loudly. */
  predicate Calls(d: Disk, kind: Kind, level: Level) {
    match kind
    case ReplaceNow => level.Crit? && Dying(d)
    case ReplaceSoon => level.Warn? && !Dying(d) && d.realloc >= 100
    case Watch => level.Info? && !Dying(d) && d.realloc < 100 && (d.realloc > 0 || d.nvmeWarn > 0)
    case CheckCable => level.Warn? && d.crcRecent > 0
    case CrcHistory => level.Info? && d.crcRecent <= 0 && d.crc >= 100
  }

  /** The last pool of a name, if any. */
  ghost predicate IsCurrent(pools: seq<Pool>, name: string, p: Option<Pool>) {
    if p.None? then forall i :: 0 <= i < |pools| ==> pools[i].name != name
    else exists i :: 0 <= i < |pools| && pools[i] == p.value && p.value.name == name
                     && forall k :: i < k < |pools| ==> pools[k].name != name
  }

  /** Only a replacement is held, and by the first reason its pool gives. */
  predicate IsHeld(r: Rec, p: Option<Pool>) {
    var resilver := p.Some? && p.value.scrubState == "running" && p.value.scrubKind == "resilver";
    var reason := if !r.kind.ReplaceNow? && !r.kind.ReplaceSoon? then ""
                  else if resilver then "resilver"
                  else if p.Some? && p.value.status != "ONLINE" then "pool_degraded"
                  else if p.Some? && p.value.topo == "stripe" then "no_redundancy"
                  else "";
    r.reason == reason && r.hold == (reason != "")
  }

  /** The entry is about this disk, in this pool: a kind it calls for, its own fields, its hold. */
  predicate IsEntry(r: Rec, d: Disk, p: Option<Pool>) {
    && Calls(d, r.kind, r.level)
    && r.dev == d.dev && r.serial == d.serial && r.pool == d.pool
    && r.realloc == d.realloc && r.pending == d.pending && r.offline == d.offline
    && r.crc == d.crc && r.crcRecent == d.crcRecent
    && IsHeld(r, p)
  }

  lemma HealthIs(d: Disk, p: Option<Pool>, r: Rec)
    ensures r in Health(d, p) <==> IsEntry(r, d, p) && (r.kind.ReplaceNow? || r.kind.ReplaceSoon? || r.kind.Watch?)
  {
  }

  lemma CableIs(d: Disk, p: Option<Pool>, r: Rec)
    ensures r in Cable(d, p) <==> IsEntry(r, d, p) && (r.kind.CheckCable? || r.kind.CrcHistory?)
  {
  }

  lemma VerdictIs(d: Disk, p: Option<Pool>, r: Rec)
    ensures r in OfDisk(d, p) <==> IsEntry(r, d, p)
  {
    HealthIs(d, p, r);
    CableIs(d, p, r);
  }

  lemma {:induction false} NamedAt(pools: seq<Pool>, name: string) returns (i: nat)
    ensures Named(pools, name).None? ==> forall k :: 0 <= k < |pools| ==> pools[k].name != name
    ensures Named(pools, name).Some? ==>
              && i < |pools| && pools[i] == Named(pools, name).value && pools[i].name == name
              && forall k :: i < k < |pools| ==> pools[k].name != name
  {
    if pools == [] {
      i := 0;
    } else {
      i := |pools| - 1;
      if pools[i].name != name { i := NamedAt(pools[..i], name); }
    }
  }

  lemma NamedIsCurrent(pools: seq<Pool>, name: string)
    ensures IsCurrent(pools, name, Named(pools, name))
  {
    var i := NamedAt(pools, name);
  }

  lemma CurrentIsNamed(pools: seq<Pool>, name: string, p: Option<Pool>)
    requires IsCurrent(pools, name, p)
    ensures p == Named(pools, name)
  {
    NamedIsCurrent(pools, name);
  }

  /**
   The list says exactly what the disks call for: an entry is in it if and only if it is
   about one of them, in the last pool of its pool's name.
   */
  lemma SaysExactly(disks: seq<Disk>, pools: seq<Pool>, r: Rec)
    ensures r in Recommended(disks, pools) <==>
              exists i, p :: 0 <= i < |disks| && IsCurrent(pools, disks[i].pool, p) && IsEntry(r, disks[i], p)
  {
    LevelsPartition(OfDisks(disks, pools));
    assert r in multiset(Recommended(disks, pools)) <==> r in multiset(OfDisks(disks, pools));
    if r in OfDisks(disks, pools) {
      var i := WhoseEntry(disks, pools, r);
      NamedIsCurrent(pools, disks[i].pool);
      VerdictIs(disks[i], Named(pools, disks[i].pool), r);
    }
    if i, p :| 0 <= i < |disks| && IsCurrent(pools, disks[i].pool, p) && IsEntry(r, disks[i], p) {
      CurrentIsNamed(pools, disks[i].pool, p);
      VerdictIs(disks[i], p, r);
      EntryListed(disks, pools, r, i);
    }
  }

  lemma {:induction false} EntryListed(disks: seq<Disk>, pools: seq<Pool>, r: Rec, i: nat)
    requires i < |disks| && r in OfDisk(disks[i], Named(pools, disks[i].pool))
    ensures r in OfDisks(disks, pools)
  {
    if i < |disks| - 1 { EntryListed(disks[..|disks| - 1], pools, r, i); }
  }

  // ---- how often, and in what order ----

  /** The advice of a level that a disk calls for: on itself first, then on its link. */
  function CalledBy(d: Disk, l: Level): seq<(string, Kind)> {
    (if Calls(d, ReplaceNow, l) then [(d.dev, ReplaceNow)]
     else if Calls(d, ReplaceSoon, l) then [(d.dev, ReplaceSoon)]
     else if Calls(d, Watch, l) then [(d.dev, Watch)]
     else [])
    + (if Calls(d, CheckCable, l) then [(d.dev, CheckCable)]
       else if Calls(d, CrcHistory, l) then [(d.dev, CrcHistory)]
       else [])
  }

  function Called(disks: seq<Disk>, l: Level): seq<(string, Kind)> {
    if disks == [] then [] else Called(disks[..|disks| - 1], l) + CalledBy(disks[|disks| - 1], l)
  }

  /** Device and kind of each entry. */
  function Heads(rs: seq<Rec>): (hs: seq<(string, Kind)>)
    ensures |hs| == |rs|
  {
    seq(|rs|, k requires 0 <= k < |rs| => (rs[k].dev, rs[k].kind))
  }

  lemma HeadsConcat(a: seq<Rec>, b: seq<Rec>)
    ensures Heads(a + b) == Heads(a) + Heads(b)
  {
  }

  lemma AtLevelFew(rs: seq<Rec>, l: Level)
    requires |rs| <= 1
    ensures AtLevel(rs, l) == if rs != [] && rs[0].level == l then rs else []
  {
    if rs != [] { assert rs[..0] == [] && rs == [rs[0]]; }
  }

  lemma HeadsOfHealth(d: Disk, p: Option<Pool>, l: Level)
    ensures Heads(AtLevel(Health(d, p), l)) ==
            if Calls(d, ReplaceNow, l) then [(d.dev, ReplaceNow)]
            else if Calls(d, ReplaceSoon, l) then [(d.dev, ReplaceSoon)]
            else if Calls(d, Watch, l) then [(d.dev, Watch)]
            else []
  {
    AtLevelFew(Health(d, p), l);
  }

  lemma HeadsOfCable(d: Disk, p: Option<Pool>, l: Level)
    ensures Heads(AtLevel(Cable(d, p), l)) ==
            if Calls(d, CheckCable, l) then [(d.dev, CheckCable)]
            else if Calls(d, CrcHistory, l) then [(d.dev, CrcHistory)]
            else []
  {
    AtLevelFew(Cable(d, p), l);
  }

  lemma HeadsOfDisk(d: Disk, p: Option<Pool>, l: Level)
    ensures Heads(AtLevel(OfDisk(d, p), l)) == CalledBy(d, l)
  {
    AtLevelConcat(Health(d, p), Cable(d, p), l);
    HeadsConcat(AtLevel(Health(d, p), l), AtLevel(Cable(d, p), l));
    HeadsOfHealth(d, p, l);
    HeadsOfCable(d, p, l);
  }

  lemma {:induction false} HeadsOfDisks(disks: seq<Disk>, pools: seq<Pool>, l: Level)
    ensures Heads(AtLevel(OfDisks(disks, pools), l)) == Called(disks, l)
  {
    if disks == [] {
    } else {
      var (front, d) := (disks[..|disks| - 1], disks[|disks| - 1]);
      var (said, more) := (OfDisks(front, pools), OfDisk(d, Named(pools, d.pool)));
      HeadsOfDisks(front, pools, l);
      AtLevelConcat(said, more, l);
      HeadsConcat(AtLevel(said, l), AtLevel(more, l));
      HeadsOfDisk(d, Named(pools, d.pool), l);
    }
  }

  /**
   The list in full: first what the disks call for at the critical level, in their order,
   then the warnings, then the rest; each call once.
   */
  lemma ListIs(disks: seq<Disk>, pools: seq<Pool>)
    ensures Heads(Recommended(disks, pools)) == Called(disks, Crit) + Called(disks, Warn) + Called(disks, Info)
  {
    var rs := OfDisks(disks, pools);
    HeadsOfDisks(disks, pools, Crit);
    HeadsOfDisks(disks, pools, Warn);
    HeadsOfDisks(disks, pools, Info);
    HeadsConcat(AtLevel(rs, Crit) + AtLevel(rs, Warn), AtLevel(rs, Info));
    HeadsConcat(AtLevel(rs, Crit), AtLevel(rs, Warn));
  }

  /** Not less severe. */
  predicate AtLeastAs(a: Level, b: Level) {
    a.Crit? || (a.Warn? && !b.Crit?) || b.Info?
  }

  /** A disk whose health counters are all at least as high gets advice at least as severe. */
  lemma WorseIsNotMilder(d: Disk, worse: Disk, pools: seq<Pool>, r: Rec) returns (s: Rec)
    requires r in Recommended([d], pools) && (r.kind.ReplaceNow? || r.kind.ReplaceSoon? || r.kind.Watch?)
    requires d.smart == "crit" ==> worse.smart == "crit"
    requires worse.realloc >= d.realloc && worse.pending >= d.pending && worse.offline >= d.offline
    requires worse.nvmeWarn >= d.nvmeWarn
    ensures s in Recommended([worse], pools) && (s.kind.ReplaceNow? || s.kind.ReplaceSoon? || s.kind.Watch?)
    ensures AtLeastAs(s.level, r.level)
  {
    SaysExactly([d], pools, r);
    var p := Named(pools, worse.pool);
    assert Health(worse, p) != [];
    s := Health(worse, p)[0];
    HealthIs(worse, p, s);
    NamedIsCurrent(pools, worse.pool);
    assert [worse][0] == worse;
    SaysExactly([worse], pools, s);
  }
}
