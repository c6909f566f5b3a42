/**
 Veeam backup exploration (internal/veeam/veeam.go): the backup files of a machine are
 sorted by stamp and grouped into chains of one full backup (VBK) and its increments
 (VIB); gaps are measured between increments; a scan merges snapshots with the live tree.
 */
module Veeam {
  import opened Calendar
  import opened Lists
  import opened Text
  import opened Order

  datatype Kind = VBK | VIB | VBM

  datatype File = File(name: string, kind: Kind, date: string, time: string)

  datatype Chain = Chain(vbk: Option<File>, vibs: seq<File>, broken: bool, hasGap: bool, gapDays: int)

  const GAP_THRESHOLD := 2

  function Stamp(f: File): string { f.date + f.time }

  // ---- dates ----

  /** time.Parse("2006-01-02"): the day number, None for a text that is not a date. */
  function ParseDate(s: string): Option<int> {
    if |s| == 10 && s[4] == '-' && s[7] == '-' && IsNum(s[..4]) && IsNum(s[5..7]) && IsNum(s[8..]) then
      var (y, m, d) := (Value(s[..4]), Value(s[5..7]), Value(s[8..]));
      if 1 <= m <= 12 && 1 <= d <= MonthLength(12 * y + m - 1) then Some(DateOf(12 * y + m - 1, d)) else None
    else None
  }

  lemma {:induction false} ValueOrder(a: string, b: string)
    requires |a| == |b| && (forall c | c in a :: IsDigit(c)) && forall c | c in b :: IsDigit(c)
    ensures Less(a, b) <==> Value(a) < Value(b)
    ensures a == b <==> Value(a) == Value(b)
  {
    if a == "" {
    } else {
      var n := |a| - 1;
      ValueOrder(a[..n], b[..n]);
      assert a == a[..n] + [a[n]] && b == b[..n] + [b[n]];
      LessConcat(a[..n], b[..n], [a[n]], [b[n]]);
      assert Less([a[n]], [b[n]]) <==> a[n] < b[n];
      assert IsDigit(a[n]) && IsDigit(b[n]);
    }
  }

  /** Well-formed dates sort as their days do. */
  lemma DatesSortByDay(a: string, b: string)
    requires ParseDate(a).Some? && ParseDate(b).Some?
    ensures Less(a, b) <==> ParseDate(a).value < ParseDate(b).value
  {
    var (y1, m1, d1) := (Value(a[..4]), Value(a[5..7]), Value(a[8..]));
    var (y2, m2, d2) := (Value(b[..4]), Value(b[5..7]), Value(b[8..]));
    DateTextsSort(a, b);
    ValueOrder(a[..4], b[..4]);
    ValueOrder(a[5..7], b[5..7]);
    ValueOrder(a[8..], b[8..]);
    MonthsSort(12 * y1 + m1 - 1, d1, 12 * y2 + m2 - 1, d2);
  }

  /** Texts of this shape are ordered by their years, then months, then days. */
  lemma DateTextsSort(a: string, b: string)
    requires |a| == |b| == 10 && a[4] == '-' && a[7] == '-' && b[4] == '-' && b[7] == '-'
    ensures Less(a, b) <==>
              Less(a[..4], b[..4])
              || (a[..4] == b[..4] && (Less(a[5..7], b[5..7]) || (a[5..7] == b[5..7] && Less(a[8..], b[8..]))))
  {
    SplitDate(a);
    SplitDate(b);
    LessDash(a[8..], b[8..]);
    LessConcat(a[5..7], b[5..7], "-" + a[8..], "-" + b[8..]);
    LessDash(a[5..7] + ("-" + a[8..]), b[5..7] + ("-" + b[8..]));
    LessConcat(a[..4], b[..4], "-" + (a[5..7] + ("-" + a[8..])), "-" + (b[5..7] + ("-" + b[8..])));
  }

  lemma LessDash(x: string, y: string)
    ensures Less("-" + x, "-" + y) <==> Less(x, y)
  {
    LessConcat("-", "-", x, y);
    LessTotal("-", "-");
  }

  lemma SplitDate(s: string)
    requires |s| == 10 && s[4] == '-' && s[7] == '-'
    ensures s == s[..4] + ("-" + (s[5..7] + ("-" + s[8..])))
  {
  }

  /** In stamp order the readable dates never go back. */
  lemma StampsSortByDay(f: File, g: File)
    requires AtMost(Stamp(f), Stamp(g)) && ParseDate(f.date).Some? && ParseDate(g.date).Some?
    ensures ParseDate(f.date).value <= ParseDate(g.date).value
  {
    LessConcat(g.date, f.date, g.time, f.time);
    DatesSortByDay(g.date, f.date);
  }

  /** Stamps are ordered by their dates, and on one date by their times of day. */
  lemma StampsSortByTime(f: File, g: File)
    requires |f.date| == |g.date|
    ensures AtMost(Stamp(f), Stamp(g)) <==> Less(f.date, g.date) || (f.date == g.date && AtMost(f.time, g.time))
  {
    LessConcat(g.date, f.date, g.time, f.time);
    LessTotal(f.date, g.date);
  }

  lemma MonthsSort(a: int, x: int, b: int, y: int)
    requires 1 <= x <= MonthLength(a) && 1 <= y <= MonthLength(b)
    ensures DateOf(a, x) < DateOf(b, y) <==> a < b || (a == b && x < y)
  {
    MonthStep(a);
    MonthStep(b);
    if a < b { MonthsIncrease(a + 1, b); }
    if b < a { MonthsIncrease(b + 1, a); }
  }

  // ---- gaps ----

  /** The days of the increments whose date can be read, in order. */
  function Days(vibs: seq<File>): seq<int> {
    if vibs == [] then []
    else
      var d := ParseDate(vibs[|vibs| - 1].date);
      var front := Days(vibs[..|vibs| - 1]);
      if d.Some? then front + [d.value] else front
  }

  // time.Duration saturates at 2^63 - 1 nanoseconds, which is 106751 days and a fraction.
  const MAX_SPAN := 106751

  /** int(dates[i].Sub(dates[i-1]).Hours() / 24), on days in order. */
  function Span(from: int, to: int): int {
    if to - from > MAX_SPAN then MAX_SPAN else to - from
  }

  function Spans(days: seq<int>): seq<int> {
    if |days| < 2 then [] else seq(|days| - 1, i requires 0 <= i < |days| - 1 => Span(days[i], days[i + 1]))
  }

  function TrueSpans(days: seq<int>): seq<int> {
    if |days| < 2 then [] else seq(|days| - 1, i requires 0 <= i < |days| - 1 => days[i + 1] - days[i])
  }

  /** The largest span of neighbours above the threshold, or 0. */
  predicate IsLargestGap(spans: seq<int>, hasGap: bool, gap: int) {
    && (forall i :: 0 <= i < |spans| && spans[i] > 2 ==> hasGap && spans[i] <= gap)
    && (if hasGap then gap > 2 && gap in spans else gap == 0)
  }

  /** The reported gap is the true one exactly when no two neighbours lie over 292 years apart. */
  lemma GapIsTrue(days: seq<int>, hasGap: bool, gap: int)
    requires IsLargestGap(Spans(days), hasGap, gap)
    ensures IsLargestGap(TrueSpans(days), hasGap, gap) <==> forall d | d in TrueSpans(days) :: d <= MAX_SPAN
  {
    var (s, t) := (Spans(days), TrueSpans(days));
    assert |s| == |t| && forall i :: 0 <= i < |t| ==> s[i] == if t[i] > MAX_SPAN then MAX_SPAN else t[i];
    assert hasGap ==> gap <= MAX_SPAN;
    if forall d | d in t :: d <= MAX_SPAN {
      assert forall i :: 0 <= i < |t| ==> t[i] in t;
      assert s == t;
    }
  }

  method ChainGap(vibs: seq<File>) returns (hasGap: bool, gap: int)
    ensures IsLargestGap(Spans(Days(vibs)), hasGap, gap)
  {
    var days := [];
    for i := 0 to |vibs|
      invariant days == Days(vibs[..i])
    {
      assert vibs[..i + 1][..i] == vibs[..i];
      var d := ParseDate(vibs[i].date);
      if d.Some? { days := days + [d.value]; }
    }
    assert vibs[..|vibs|] == vibs;
    hasGap, gap := LargestGap(days);
  }

  /** The second loop of chainGap. */
  method LargestGap(days: seq<int>) returns (hasGap: bool, gap: int)
    ensures IsLargestGap(Spans(days), hasGap, gap)
  {
    hasGap, gap := false, 0;
    ghost var spans := Spans(days);
    var i := 1;
    while i < |days|
      invariant 1 <= i && i - 1 <= |spans|
      invariant IsLargestGap(spans[..i - 1], hasGap, gap)
    {
      var g := Span(days[i - 1], days[i]);
      assert spans[..i] == spans[..i - 1] + [g];
      if g > GAP_THRESHOLD {
        hasGap := true;
        if g > gap { gap := g; }
      }
      i := i + 1;
    }
    assert spans[..|spans|] == spans;
  }

  lemma FourDigits(s: string)
    requires |s| == 4 && IsNum(s)
    ensures IsDigit(s[0]) && IsDigit(s[1]) && IsDigit(s[2]) && IsDigit(s[3])
    ensures Value(s) == 1000 * DigitValue(s[0]) + 100 * DigitValue(s[1]) + 10 * DigitValue(s[2]) + DigitValue(s[3])
  {
    var (t, u, v) := (s[..3], s[..2], s[..1]);
    assert t[..2] == u && u[..1] == v && v[..0] == "";
    assert Value(v) == DigitValue(s[0]);
    assert Value(u) == 10 * Value(v) + DigitValue(s[1]);
    assert Value(t) == 10 * Value(u) + DigitValue(s[2]);
  }

  lemma NewYear(s: string, y: nat)
    requires |s| == 10 && s[4] == '-' && s[7] == '-' && IsNum(s[..4]) && Value(s[..4]) == y
    requires s[5..7] == "01" && s[8..] == "01"
    ensures ParseDate(s) == Some(365 * y + LeapDays(y))
  {
    var t := "01";
    assert t[..1] == "0" && Value("0"[..0]) == 0;
    assert Value(t[..1]) == 0;
    assert Value(t) == 1 && IsNum(t);
    YearStart(y);
  }

  lemma DaysOfTwo(f: File, g: File)
    requires ParseDate(f.date).Some? && ParseDate(g.date).Some?
    ensures Days([f, g]) == [ParseDate(f.date).value, ParseDate(g.date).value]
  {
    assert [f][..0] == [] && Days([f]) == [ParseDate(f.date).value];
    assert [f, g][..1] == [f];
    assert Days([f, g]) == Days([f]) + [ParseDate(g.date).value];
  }

  lemma GapOfTwo(a: int, b: int)
    requires b - a > MAX_SPAN
    ensures IsLargestGap(Spans([a, b]), true, MAX_SPAN) && !IsLargestGap(TrueSpans([a, b]), true, MAX_SPAN)
  {
    assert Spans([a, b]) == [MAX_SPAN];
    assert TrueSpans([a, b])[0] > MAX_SPAN;
  }

  lemma TwoDates(s: string, t: string)
    requires s == "1700-01-01" && t == "2000-01-01"
    ensures ParseDate(s) == Some(620913) && ParseDate(t) == Some(730485)
  {
    FourDigits(s[..4]);
    FourDigits(t[..4]);
    NewYear(s, 1700);
    NewYear(t, 2000);
  }

  /** Increments of New Year 1700 and 2000 lie 109572 days apart; the gap reported is 106751. */
  lemma LongGapSaturates(time: string)
    ensures var vibs := [File("a.vib", VIB, "1700-01-01", time), File("b.vib", VIB, "2000-01-01", time)];
            && IsLargestGap(Spans(Days(vibs)), true, 106751) && TrueSpans(Days(vibs)) == [109572]
            && !IsLargestGap(TrueSpans(Days(vibs)), true, 106751)
  {
    var (f, g) := (File("a.vib", VIB, "1700-01-01", time), File("b.vib", VIB, "2000-01-01", time));
    TwoDates(f.date, g.date);
    DaysOfTwo(f, g);
    GapOfTwo(620913, 730485);
  }

  // ---- chains ----

  /** The full and incremental backups of a list, in order. */
  function Backups(files: seq<File>): seq<File> {
    if files == [] then []
    else
      var f := files[|files| - 1];
      var front := Backups(files[..|files| - 1]);
      if f.kind.VBM? then front else front + [f]
  }

  /** Every full and incremental backup is kept as often as it is listed. */
  lemma {:induction false} BackupsCount(files: seq<File>, f: File)
    ensures multiset(Backups(files))[f] == if f.kind.VBM? then 0 else multiset(files)[f]
  {
    if files == [] {
    } else {
      var (front, last) := (files[..|files| - 1], files[|files| - 1]);
      BackupsCount(front, f);
      assert files == front + [last];
    }
  }

  lemma {:induction false} BackupsFrom(files: seq<File>, f: File)
    requires f in Backups(files)
    ensures f in files
  {
    var (front, last) := (files[..|files| - 1], files[|files| - 1]);
    assert files == front + [last];
    if f in Backups(front) { BackupsFrom(front, f); }
  }

  /** And in the order of the stamps. */
  lemma {:induction false} BackupsSorted(files: seq<File>)
    requires SortedBy(Keys(files, Stamp))
    ensures SortedBy(Keys(Backups(files), Stamp))
  {
    if files == [] {
    } else {
      var (front, last) := (files[..|files| - 1], files[|files| - 1]);
      SortedFront(files);
      BackupsSorted(front);
      LastIsLatest(files, Backups(front));
    }
  }

  lemma SortedFront(files: seq<File>)
    requires files != [] && SortedBy(Keys(files, Stamp))
    ensures SortedBy(Keys(files[..|files| - 1], Stamp))
  {
    var keys := Keys(files[..|files| - 1], Stamp);
    forall i, j | 0 <= i < j < |keys| ensures AtMost(keys[i], keys[j]) {
      assert AtMost(Keys(files, Stamp)[i], Keys(files, Stamp)[j]);
    }
  }

  lemma LastIsLatest(files: seq<File>, kept: seq<File>)
    requires files != [] && SortedBy(Keys(files, Stamp)) && SortedBy(Keys(kept, Stamp))
    requires kept == Backups(files[..|files| - 1])
    ensures SortedBy(Keys(kept + [files[|files| - 1]], Stamp))
  {
    var (front, last) := (files[..|files| - 1], files[|files| - 1]);
    var keys := Keys(kept + [last], Stamp);
    forall i, j | 0 <= i < j < |keys| ensures AtMost(keys[i], keys[j]) {
      if j < |kept| {
        assert AtMost(Keys(kept, Stamp)[i], Keys(kept, Stamp)[j]);
      } else {
        BackupsFrom(front, kept[i]);
        var k :| 0 <= k < |front| && front[k] == kept[i];
        assert AtMost(Keys(files, Stamp)[k], Keys(files, Stamp)[|files| - 1]);
      }
    }
  }

  function Members(c: Chain): seq<File> {
    (if c.vbk.Some? then [c.vbk.value] else []) + c.vibs
  }

  function Flatten(chains: seq<Chain>): seq<File> {
    if chains == [] then [] else Flatten(chains[..|chains| - 1]) + Members(chains[|chains| - 1])
  }

  /** A chain: at most one full backup, first; increments after it; broken without it. */
  predicate IsChain(c: Chain) {
    && (c.vbk.Some? ==> c.vbk.value.kind.VBK?)
    && (forall f | f in c.vibs :: f.kind.VIB?)
    && (c.broken <==> c.vbk.None?)
    && Members(c) != []
  }

  /** Only the first chain can lack its full backup. */
  predicate AreChains(chains: seq<Chain>) {
    && (forall i :: 0 <= i < |chains| ==> IsChain(chains[i]))
    && (forall i :: 1 <= i < |chains| ==> chains[i].vbk.Some?)
  }

  predicate Measured(c: Chain) {
    IsLargestGap(Spans(Days(c.vibs)), c.hasGap, c.gapDays)
  }

  predicate GapsMeasured(chains: seq<Chain>) {
    forall i :: 0 <= i < |chains| ==> Measured(chains[i])
  }

  lemma FlattenSnoc(chains: seq<Chain>, c: Chain)
    ensures Flatten(chains + [c]) == Flatten(chains) + Members(c)
  {
    assert (chains + [c])[..|chains|] == chains;
  }

  lemma FlattenExtend(chains: seq<Chain>, c: Chain, d: Chain, f: File)
    requires chains != [] && chains[|chains| - 1] == c && Members(d) == Members(c) + [f]
    ensures Flatten(chains[|chains| - 1 := d]) == Flatten(chains) + [f]
  {
    var n := |chains| - 1;
    assert chains[n := d][..n] == chains[..n];
  }

  /** Where a file goes: a full backup opens a chain, an increment joins the last one. */
  function Placed(chains: seq<Chain>, f: File): seq<Chain> {
    if f.kind.VBM? then chains
    else if f.kind.VBK? then chains + [Chain(Some(f), [], false, false, 0)]
    else if chains == [] then [Chain(None, [f], true, false, 0)]
    else chains[|chains| - 1 := chains[|chains| - 1].(vibs := chains[|chains| - 1].vibs + [f])]
  }

  lemma PlacedFlattens(chains: seq<Chain>, f: File)
    ensures Flatten(Placed(chains, f)) == if f.kind.VBM? then Flatten(chains) else Flatten(chains) + [f]
  {
    var n := |chains| - 1;
    if f.kind.VIB? && chains != [] {
      var d := chains[n].(vibs := chains[n].vibs + [f]);
      assert Members(d) == Members(chains[n]) + [f];
      FlattenExtend(chains, chains[n], d, f);
    } else if f.kind.VIB? {
      FlattenSnoc([], Chain(None, [f], true, false, 0));
    } else if f.kind.VBK? {
      FlattenSnoc(chains, Chain(Some(f), [], false, false, 0));
    }
  }

  lemma PlacedAreChains(chains: seq<Chain>, f: File)
    requires AreChains(chains)
    ensures AreChains(Placed(chains, f))
  {
    if f.kind.VIB? && chains != [] {
      var c := chains[|chains| - 1];
      assert IsChain(c);
      assert IsChain(c.(vibs := c.vibs + [f]));
    } else if f.kind.VIB? {
      assert IsChain(Chain(None, [f], true, false, 0));
    } else if f.kind.VBK? {
      assert IsChain(Chain(Some(f), [], false, false, 0));
    }
  }

  function Grouped(list: seq<File>): seq<Chain> {
    if list == [] then [] else Placed(Grouped(list[..|list| - 1]), list[|list| - 1])
  }

  lemma {:induction false} GroupedPartitions(list: seq<File>)
    ensures AreChains(Grouped(list)) && Flatten(Grouped(list)) == Backups(list)
  {
    if list == [] {
    } else {
      var (front, f) := (list[..|list| - 1], list[|list| - 1]);
      GroupedPartitions(front);
      PlacedFlattens(Grouped(front), f);
      PlacedAreChains(Grouped(front), f);
    }
  }

  /** The grouping loop; `cur` is false while cur == nil. */
  method GroupFiles(list: seq<File>) returns (chains: seq<Chain>)
    ensures chains == Grouped(list)
  {
    chains := [];
    var cur := false;
    for i := 0 to |list|
      invariant chains == Grouped(list[..i]) && AreChains(chains)
      invariant cur <==> chains != [] && chains[|chains| - 1].vbk.Some?
    {
      assert list[..i + 1][..i] == list[..i];
      chains, cur := PlaceFile(chains, cur, list[i]);
    }
    assert list[..|list|] == list;
  }

  /** The switch of the loop: a full backup opens a chain; an orphan increment a broken one. */
  method PlaceFile(was: seq<Chain>, had: bool, f: File) returns (chains: seq<Chain>, cur: bool)
    requires AreChains(was) && (had <==> was != [] && was[|was| - 1].vbk.Some?)
    ensures chains == Placed(was, f) && AreChains(chains)
    ensures cur <==> chains != [] && chains[|chains| - 1].vbk.Some?
  {
    PlacedAreChains(was, f);
    chains, cur := was, had;
    var n := |was|;
    assert n > 0 ==> IsChain(was[n - 1]);
    match f.kind
    case VBM =>
    case VBK =>
      chains := was + [Chain(Some(f), [], false, false, 0)];
      cur := true;
    case VIB =>
      if cur || (n > 0 && was[n - 1].broken) {
        chains := was[n - 1 := was[n - 1].(vibs := was[n - 1].vibs + [f])];
      } else {
        assert was == [];
        chains := was + [Chain(None, [f], true, false, 0)];
      }
  }

  predicate Remarked(c: Chain, d: Chain) {
    d == c.(hasGap := d.hasGap, gapDays := d.gapDays)
  }

  lemma {:induction false} RemarkedFlatten(a: seq<Chain>, b: seq<Chain>)
    requires |a| == |b| && forall i :: 0 <= i < |a| ==> Remarked(a[i], b[i])
    ensures Flatten(a) == Flatten(b)
  {
    if a == [] {
    } else {
      RemarkedFlatten(a[..|a| - 1], b[..|a| - 1]);
      assert Remarked(a[|a| - 1], b[|a| - 1]);
    }
  }

  lemma RemarkedAreChains(a: seq<Chain>, b: seq<Chain>)
    requires |a| == |b| && AreChains(a) && forall i :: 0 <= i < |a| ==> Remarked(a[i], b[i])
    ensures AreChains(b)
  {
    forall i | 0 <= i < |b| ensures IsChain(b[i]) {
      assert IsChain(a[i]) && Remarked(a[i], b[i]);
    }
  }

  method MeasureGap(c: Chain) returns (d: Chain)
    ensures Measured(d) && Remarked(c, d)
  {
    var hasGap, gap := ChainGap(c.vibs);
    d := c.(hasGap := hasGap, gapDays := gap);
  }

  /** The closing loop of BuildChains. */
  method MeasureGaps(chains: seq<Chain>) returns (r: seq<Chain>)
    ensures |r| == |chains| && GapsMeasured(r) && forall i :: 0 <= i < |r| ==> Remarked(chains[i], r[i])
  {
    r := [];
    for i := 0 to |chains|
      invariant |r| == i && GapsMeasured(r) && forall j :: 0 <= j < i ==> Remarked(chains[j], r[j])
    {
      var d := MeasureGap(chains[i]);
      r := r + [d];
    }
  }

  /**
   BuildChains. The chains partition the stamp-sorted full and incremental backups: read
   one after the other they are exactly that list. `sort.Slice` leaves the order of equal
   stamps open, so `sorted` is some sorted rearrangement of the files.
   */
  method BuildChains(files: seq<File>) returns (chains: seq<Chain>, ghost sorted: seq<File>)
    ensures multiset(sorted) == multiset(files) && SortedBy(Keys(sorted, Stamp))
    ensures Flatten(chains) == Backups(sorted)
    ensures AreChains(chains) && GapsMeasured(chains)
    ensures SortedBy(Keys(Flatten(chains), Stamp))
    ensures forall f :: multiset(Flatten(chains))[f] == if f.kind.VBM? then 0 else multiset(files)[f]
  {
    var list := Sort(files, Stamp);
    sorted := list;
    var groups := GroupFiles(list);
    GroupedPartitions(list);
    chains := MeasureGaps(groups);
    RemarkedFlatten(groups, chains);
    RemarkedAreChains(groups, chains);
    BackupsSorted(list);
    forall f ensures multiset(Flatten(chains))[f] == if f.kind.VBM? then 0 else multiset(files)[f] {
      BackupsCount(list, f);
    }
  }

  /** The same files in the same chains; gap marks aside. */
  predicate SameGroups(a: seq<Chain>, b: seq<Chain>) {
    |a| == |b| && forall i :: 0 <= i < |a| ==> a[i].vbk == b[i].vbk && a[i].vibs == b[i].vibs
  }

  /** The grouping is forced: chains of this shape are determined by their flattened list. */
  lemma {:induction false} GroupingIsForced(a: seq<Chain>, b: seq<Chain>)
    requires AreChains(a) && AreChains(b) && Flatten(a) == Flatten(b)
    ensures SameGroups(a, b)
  {
    if a == [] || b == [] {
      EmptyFlatten(a);
      EmptyFlatten(b);
    } else {
      var (m, n) := (|a| - 1, |b| - 1);
      var (x, y) := (a[m], b[n]);
      var (p, q) := (Flatten(a[..m]), Flatten(b[..n]));
      var s := Flatten(a);
      assert s == p + Members(x) == q + Members(y);
      LastGroup(p, x, q, y, m == 0, n == 0);
      if |p| == |q| {
        assert p == s[..|p|] == q && Members(x) == s[|p|..] == Members(y);
        GroupingIsForced(a[..m], b[..n]);
        assert x.vbk == y.vbk && x.vibs == y.vibs by {
          if x.vbk.Some? { assert Members(x)[0] == x.vbk.value; assert x.vibs == Members(x)[1..]; }
          if y.vbk.Some? { assert Members(y)[0] == y.vbk.value; assert y.vibs == Members(y)[1..]; }
        }
        forall i | 0 <= i < |a| ensures a[i].vbk == b[i].vbk && a[i].vibs == b[i].vibs {
          if i < m { assert a[..m][i] == a[i] && b[..n][i] == b[i]; }
        }
      }
    }
  }

  lemma EmptyFlatten(a: seq<Chain>)
    requires AreChains(a)
    ensures Flatten(a) == [] <==> a == []
  {
    if a != [] { assert IsChain(a[|a| - 1]); }
  }

  /** The last chain starts where the last full backup is, or at the front. */
  lemma LastGroup(p: seq<File>, x: Chain, q: seq<File>, y: Chain, firstX: bool, firstY: bool)
    requires p + Members(x) == q + Members(y) && IsChain(x) && IsChain(y)
    requires (firstX ==> p == []) && (firstY ==> q == [])
    requires (!firstX ==> x.vbk.Some?) && (!firstY ==> y.vbk.Some?)
    ensures |p| == |q|
  {
    var s := p + Members(x);
    forall i | |p| <= i < |s| ensures s[i] == Members(x)[i - |p|] { }
    forall i | |q| <= i < |s| ensures s[i] == Members(y)[i - |q|] { }
    assert s[|q|] == Members(y)[0] && s[|p|] == Members(x)[0];
    forall i | 0 < i < |Members(x)| ensures Members(x)[i].kind.VIB? { assert Members(x)[i] in x.vibs; }
    forall i | 0 < i < |Members(y)| ensures Members(y)[i].kind.VIB? { assert Members(y)[i] in y.vibs; }
  }

  // ---- broken chains of a result ----

  datatype Machine = Machine(name: string, chains: seq<Chain>)
  datatype BrokenChain = BrokenChain(machine: string, chain: int)

  /** A report of every broken chain, by its position counted from 1. */
  function BrokenOf(name: string, chains: seq<Chain>): seq<BrokenChain> {
    if chains == [] then []
    else
      var n := |chains| - 1;
      var front := BrokenOf(name, chains[..n]);
      if chains[n].broken then front + [BrokenChain(name, n + 1)] else front
  }

  function Reports(machines: seq<Machine>): seq<BrokenChain> {
    if machines == [] then []
    else
      var m := machines[|machines| - 1];
      Reports(machines[..|machines| - 1]) + BrokenOf(m.name, m.chains)
  }

  method BrokenChains(machines: seq<Machine>) returns (out: seq<BrokenChain>)
    ensures out == Reports(machines)
  {
    out := [];
    for i := 0 to |machines|
      invariant out == Reports(machines[..i])
    {
      assert machines[..i + 1][..i] == machines[..i];
      var m := machines[i];
      ghost var before := out;
      for k := 0 to |m.chains|
        invariant out == before + BrokenOf(m.name, m.chains[..k])
      {
        assert m.chains[..k + 1][..k] == m.chains[..k];
        if m.chains[k].broken { out := out + [BrokenChain(m.name, k + 1)]; }
      }
      assert m.chains[..|m.chains|] == m.chains;
    }
    assert machines[..|machines|] == machines;
  }

  /** Of the chains that BuildChains makes only the first can be reported: when it has no full backup. */
  lemma {:induction false} OnlyFirstIsBroken(name: string, chains: seq<Chain>)
    requires AreChains(chains)
    ensures BrokenOf(name, chains) == if chains != [] && chains[0].vbk.None? then [BrokenChain(name, 1)] else []
  {
    if chains == [] {
    } else {
      var n := |chains| - 1;
      OnlyFirstIsBroken(name, chains[..n]);
      assert IsChain(chains[n]);
    }
  }

  /** Its first chain lacks its full backup. */
  predicate Headless(m: Machine) {
    m.chains != [] && m.chains[0].vbk.None?
  }

  /** `at` lists the headless machines, in order. */
  ghost predicate ListsHeadless(machines: seq<Machine>, at: seq<nat>) {
    && (forall k :: 0 <= k < |at| ==> at[k] < |machines| && Headless(machines[at[k]]))
    && (forall k, l :: 0 <= k < l < |at| ==> at[k] < at[l])
    && (forall i :: 0 <= i < |machines| && Headless(machines[i]) ==> i in at)
  }

  /** The reports are chain 1 of the machines at `at`, one for each. */
  ghost predicate ReportsThem(reports: seq<BrokenChain>, machines: seq<Machine>, at: seq<nat>) {
    && |reports| == |at|
    && (forall k :: 0 <= k < |at| ==> at[k] < |machines| && reports[k] == BrokenChain(machines[at[k]].name, 1))
  }

  /** One machine's report: its chain 1, when that is headless. */
  function ReportOf(m: Machine): seq<BrokenChain> {
    if Headless(m) then [BrokenChain(m.name, 1)] else []
  }

  predicate IsReported(m: Machine) {
    BrokenOf(m.name, m.chains) == ReportOf(m)
  }

  lemma ListsSnoc(front: seq<Machine>, m: Machine, at: seq<nat>)
    requires ListsHeadless(front, at)
    ensures ListsHeadless(front + [m], if Headless(m) then at + [|front|] else at)
  {
    var all := front + [m];
    var now := if Headless(m) then at + [|front|] else at;
    forall i | 0 <= i < |all| && Headless(all[i]) ensures i in now {
      if i < |front| {
        assert all[i] == front[i] && i in at;
      } else {
        assert now[|at|] == i;
      }
    }
  }

  lemma ReportsSnoc(reports: seq<BrokenChain>, front: seq<Machine>, m: Machine, at: seq<nat>)
    requires ReportsThem(reports, front, at)
    ensures ReportsThem(reports + ReportOf(m), front + [m], if Headless(m) then at + [|front|] else at)
  {
  }

  lemma {:induction false} ReportsListed(machines: seq<Machine>, reports: seq<BrokenChain>) returns (at: seq<nat>)
    requires (forall i :: 0 <= i < |machines| ==> IsReported(machines[i])) && reports == Reports(machines)
    ensures ListsHeadless(machines, at) && ReportsThem(reports, machines, at)
    decreases |machines|, 0
  {
    if machines == [] {
      at := [];
    } else {
      var n := |machines| - 1;
      assert IsReported(machines[n]);
      at := ListedSnoc(machines[..n], Reports(machines[..n]), machines[n], machines, reports);
    }
  }

  lemma {:induction false} ListedSnoc(front: seq<Machine>, before: seq<BrokenChain>, m: Machine,
                                      machines: seq<Machine>, reports: seq<BrokenChain>) returns (at: seq<nat>)
    requires (forall i :: 0 <= i < |front| ==> IsReported(front[i])) && before == Reports(front)
    requires machines == front + [m] && reports == before + ReportOf(m)
    ensures ListsHeadless(machines, at) && ReportsThem(reports, machines, at)
    decreases |front|, 1
  {
    at := ReportsListed(front, before);
    ListsSnoc(front, m, at);
    ReportsSnoc(before, front, m, at);
    at := if Headless(m) then at + [|front|] else at;
  }

  /** Each headless machine is reported once, as its chain 1, in order; no other machine is. */
  lemma OneReportPerMachine(machines: seq<Machine>) returns (at: seq<nat>)
    requires forall i :: 0 <= i < |machines| ==> AreChains(machines[i].chains)
    ensures ListsHeadless(machines, at) && ReportsThem(Reports(machines), machines, at)
  {
    forall i | 0 <= i < |machines| ensures IsReported(machines[i]) {
      OnlyFirstIsBroken(machines[i].name, machines[i].chains);
    }
    at := ReportsListed(machines, Reports(machines));
  }

  predicate IsTimeOf(f: File, epoch: string -> Option<int>, ts: int) {
    f.date != "" && epoch(f.date + " " + f.time) == Some(ts)
  }

  /**
   machineLastBackup: the greatest 'date time' among dated files, "" when there is none, and
   its time; `epoch` reads a stamp.
   */
  method LastBackup(files: seq<File>, epoch: string -> Option<int>) returns (best: string, ts: int)
    ensures best == "" ==> ts == 0
    ensures best != "" && epoch(best).Some? ==> ts == epoch(best).value
    ensures ts == 0 || exists f :: f in files && IsTimeOf(f, epoch, ts)
    ensures best == "" || exists f :: f in files && f.date != "" && best == f.date + " " + f.time
    ensures forall f | f in files && f.date != "" :: AtMost(f.date + " " + f.time, best)
  {
    best, ts := "", 0;
    for i := 0 to |files|
      invariant ts == 0 || exists f :: f in files && IsTimeOf(f, epoch, ts)
      invariant (best == "" ==> ts == 0) && (best != "" && epoch(best).Some? ==> ts == epoch(best).value)
      invariant best == "" || exists f :: f in files && f.date != "" && best == f.date + " " + f.time
      invariant forall k :: 0 <= k < i && files[k].date != "" ==> AtMost(files[k].date + " " + files[k].time, best)
    {
      if files[i].date == "" { continue; }
      var key := files[i].date + " " + files[i].time;
      LessTotal(best, key);
      LessTotal(key, key);
      if Less(best, key) {
        forall k | 0 <= k < i && files[k].date != "" ensures AtMost(files[k].date + " " + files[k].time, key) {
          AtMostTransitive(files[k].date + " " + files[k].time, best, key);
        }
        assert files[i] in files;
        best := key;
        if epoch(key).Some? {
          ts := epoch(key).value;
          assert IsTimeOf(files[i], epoch, ts);
        }
      }
    }
  }

  // ---- merging snapshots with the live tree ----

  /** A backup file met on the walk; `snap` is None in the live tree, which is walked last. */
  datatype Visit = Visit(rel: string, path: string, size: nat, snap: Option<string>)

  datatype Entry = Entry(path: string, size: nat, archive: bool, snap: string)

  /** The entry of a file after a visit, given the one before. */
  function Visited(was: Option<Entry>, v: Visit): Entry {
    if was.None? then Entry(v.path, v.size, v.snap.Some?, if v.snap.Some? then v.snap.value else "")
    else if v.snap.None? then was.value.(path := v.path, archive := false, snap := "")
    else was.value
  }

  function Lookup(m: map<string, Entry>, rel: string): Option<Entry> {
    if rel in m then Some(m[rel]) else None
  }

  /** The visits of one file, in order. */
  function Of(visits: seq<Visit>, rel: string): seq<Visit> {
    if visits == [] then []
    else
      var v := visits[|visits| - 1];
      var front := Of(visits[..|visits| - 1], rel);
      if v.rel == rel then front + [v] else front
  }

  /** A file is shown as it was last met live, else as the first copy met; its size is always the first copy's. */
  predicate IsEntry(e: Entry, vs: seq<Visit>)
    requires vs != []
  {
    && e.size == vs[0].size
    && (e.archive <==> forall k :: 0 <= k < |vs| ==> vs[k].snap.Some?)
    && (if e.archive then e.path == vs[0].path && vs[0].snap == Some(e.snap)
        else e.snap == "" && exists k :: 0 <= k < |vs| && vs[k].snap.None? && e.path == vs[k].path
                                         && forall l :: k < l < |vs| ==> vs[l].snap.Some?)
  }

  ghost predicate IsMerge(visits: seq<Visit>, m: map<string, Entry>) {
    forall r :: if r in m then Of(visits, r) != [] && IsEntry(m[r], Of(visits, r)) else Of(visits, r) == []
  }

  /** The closure handed to WalkDir, over all the walks of a scan. */
  method Merge(visits: seq<Visit>) returns (m: map<string, Entry>)
    ensures IsMerge(visits, m)
  {
    m := map[];
    for i := 0 to |visits|
      invariant IsMerge(visits[..i], m)
    {
      assert visits[..i + 1][..i] == visits[..i];
      var v := visits[i];
      ghost var was := m;
      if v.rel in m {
        if v.snap.None? { m := m[v.rel := m[v.rel].(path := v.path, archive := false, snap := "")]; }
      } else {
        m := m[v.rel := Entry(v.path, v.size, v.snap.Some?, if v.snap.Some? then v.snap.value else "")];
      }
      MergeStep(visits[..i], visits[..i + 1], v, was, m);
    }
    assert visits[..|visits|] == visits;
  }

  lemma MergeStep(visits: seq<Visit>, next: seq<Visit>, v: Visit, m: map<string, Entry>, t: map<string, Entry>)
    requires IsMerge(visits, m) && next != [] && next[..|next| - 1] == visits && next[|next| - 1] == v
    requires v.rel in t && forall r :: r != v.rel ==> (r in t <==> r in m) && (r in m ==> t[r] == m[r])
    requires t[v.rel] == Visited(Lookup(m, v.rel), v)
    ensures IsMerge(next, t)
  {
    forall r ensures if r in t then Of(next, r) != [] && IsEntry(t[r], Of(next, r)) else Of(next, r) == [] {
      if r == v.rel {
        VisitMerges(Of(visits, r), v, Lookup(m, r));
        assert Of(next, r) == Of(visits, r) + [v];
      } else {
        assert Of(next, r) == Of(visits, r);
      }
    }
  }

  lemma VisitMerges(before: seq<Visit>, v: Visit, was: Option<Entry>)
    requires if was.Some? then before != [] && IsEntry(was.value, before) else before == []
    ensures IsEntry(Visited(was, v), before + [v])
  {
    var vs := before + [v];
    assert vs[|before|] == v && forall k :: 0 <= k < |before| ==> vs[k] == before[k];
    if was.Some? && !was.value.archive {
      var k :| 0 <= k < |before| && before[k].snap.None? && was.value.path == before[k].path
               && forall l :: k < l < |before| ==> before[l].snap.Some?;
      assert vs[k].snap.None? && was.value.path == vs[k].path;
    }
  }

  /** A file of one byte in a snapshot and two bytes live is shown live, with one byte. */
  lemma LiveKeepsSnapshotSize(m: map<string, Entry>)
    requires IsMerge([Visit("f", "snap/f", 1, Some("s")), Visit("f", "live/f", 2, None)], m)
    ensures "f" in m && m["f"] == Entry("live/f", 1, false, "")
  {
    var (v, w) := (Visit("f", "snap/f", 1, Some("s")), Visit("f", "live/f", 2, None));
    var vs := [v, w];
    assert vs[..1] == [v] && vs[..1][..0] == [];
    assert Of(vs[..1], "f") == [v];
    assert Of(vs, "f") == [v, w];
  }

  // ---- machines and totals ----

  datatype Group = Group(files: seq<string>, total: nat)

  function Sum(files: seq<string>, size: string -> nat): nat {
    if files == [] then 0 else Sum(files[..|files| - 1], size) + size(files[|files| - 1])
  }

  /** The files of one machine, in the order met. */
  function FilesOf(files: seq<string>, machineOf: string -> string, name: string): seq<string> {
    if files == [] then []
    else
      var f := files[|files| - 1];
      var front := FilesOf(files[..|files| - 1], machineOf, name);
      if machineOf(f) == name then front + [f] else front
  }

  ghost predicate AreGroups(files: seq<string>, machineOf: string -> string, size: string -> nat,
                            m: map<string, Group>)
  {
    forall n ::
      if n in m then m[n] == Group(FilesOf(files, machineOf, n), Sum(FilesOf(files, machineOf, n), size))
      else FilesOf(files, machineOf, n) == []
  }

  function Totals(names: seq<string>, m: map<string, Group>): nat {
    if names == [] then 0
    else
      var n := names[|names| - 1];
      Totals(names[..|names| - 1], m) + if n in m then m[n].total else 0
  }

  /** `names` lists the machines of `m`, each once. */
  ghost predicate Listed(names: seq<string>, m: map<string, Group>) {
    NoDuplicates(names) && forall n :: n in names <==> n in m
  }

  lemma {:induction false} TotalsUpdate(names: seq<string>, m: map<string, Group>, n: string, g: Group)
    requires NoDuplicates(names)
    ensures Totals(names, m[n := g]) ==
            Totals(names, m) + if n in names then g.total - (if n in m then m[n].total else 0) else 0
  {
    if names == [] {
    } else {
      var k := |names| - 1;
      assert names == names[..k] + [names[k]];
      assert names[k] in names && names[k] !in names[..k];
      TotalsUpdate(names[..k], m, n, g);
    }
  }

  /** The groups after a file of `size` bytes joined machine `n`. */
  function Joined(m: map<string, Group>, n: string, f: string, size: nat): map<string, Group> {
    var g := if n in m then m[n] else Group([], 0);
    m[n := Group(g.files + [f], g.total + size)]
  }

  lemma GroupStep(files: seq<string>, next: seq<string>, machineOf: string -> string, size: string -> nat,
                  m: map<string, Group>, t: map<string, Group>)
    requires AreGroups(files, machineOf, size, m) && next != [] && next[..|next| - 1] == files
    requires var f := next[|next| - 1]; t == Joined(m, machineOf(f), f, size(f))
    ensures AreGroups(next, machineOf, size, t)
  {
    var f := next[|next| - 1];
    forall n ensures if n in t then t[n] == Group(FilesOf(next, machineOf, n), Sum(FilesOf(next, machineOf, n), size))
                     else FilesOf(next, machineOf, n) == [] {
      var mine := FilesOf(files, machineOf, n);
      assert (mine + [f])[..|mine|] == mine;
    }
  }

  lemma TotalsStep(names: seq<string>, m: map<string, Group>, n: string, f: string, size: nat)
    requires Listed(names, m)
    ensures var after := if n in m then names else names + [n];
            var t := Joined(m, n, f, size);
            Listed(after, t) && Totals(after, t) == Totals(names, m) + size
  {
    TotalsUpdate(names, m, n, Joined(m, n, f, size)[n]);
    assert (names + [n])[..|names|] == names;
  }

  function Groups(files: seq<string>, machineOf: string -> string, size: string -> nat): map<string, Group> {
    if files == [] then map[]
    else
      var f := files[|files| - 1];
      Joined(Groups(files[..|files| - 1], machineOf, size), machineOf(f), f, size(f))
  }

  /** The grouping loop of Scan. */
  method GroupByMachine(files: seq<string>, machineOf: string -> string, size: string -> nat)
    returns (m: map<string, Group>, capacity: nat)
    ensures m == Groups(files, machineOf, size) && capacity == Sum(files, size)
  {
    m, capacity := map[], 0;
    for i := 0 to |files|
      invariant m == Groups(files[..i], machineOf, size) && capacity == Sum(files[..i], size)
    {
      assert files[..i + 1][..i] == files[..i];
      var f := files[i];
      var name := machineOf(f);
      if name !in m { m := m[name := Group([], 0)]; }
      m := m[name := Group(m[name].files + [f], m[name].total + size(f))];
      capacity := capacity + size(f);
    }
    assert files[..|files|] == files;
  }

  /** Every file belongs to exactly one machine, whose total is that of its own files. */
  lemma {:induction false} GroupsPartition(files: seq<string>, machineOf: string -> string, size: string -> nat)
    ensures AreGroups(files, machineOf, size, Groups(files, machineOf, size))
  {
    if files == [] {
    } else {
      GroupsPartition(files[..|files| - 1], machineOf, size);
      GroupStep(files[..|files| - 1], files, machineOf, size,
                Groups(files[..|files| - 1], machineOf, size), Groups(files, machineOf, size));
    }
  }

  /** No byte is lost or counted twice: the machines' totals add up to the capacity. */
  lemma {:induction false} TotalsAddUp(files: seq<string>, machineOf: string -> string, size: string -> nat)
    returns (names: seq<string>)
    ensures Listed(names, Groups(files, machineOf, size))
    ensures Totals(names, Groups(files, machineOf, size)) == Sum(files, size)
  {
    names := [];
    if files == [] {
    } else {
      var (front, f) := (files[..|files| - 1], files[|files| - 1]);
      names := TotalsAddUp(front, machineOf, size);
      var m := Groups(front, machineOf, size);
      TotalsStep(names, m, machineOf(f), f, size(f));
      if machineOf(f) !in m { names := names + [machineOf(f)]; }
    }
  }
}
