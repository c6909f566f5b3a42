/**
 The pool history cache (internal/collectors/history.go): a stream of lines of any length is
 read through a ring buffer of 100 entries, so that memory stays bounded.
 */
module History {
  import opened Lists
  import opened Text

  const KEEP := 100

  /** The recognised lines, in order; `parse` stands for the line grammar. */
  function Entries<E>(lines: seq<string>, parse: string -> Option<E>): seq<E> {
    if lines == [] then []
    else
      var e := parse(lines[|lines| - 1]);
      var front := Entries(lines[..|lines| - 1], parse);
      if e.Some? then front + [e.value] else front
  }

  function Reversed<T>(s: seq<T>): (r: seq<T>)
    ensures |r| == |s| && forall i :: 0 <= i < |r| ==> r[i] == s[|s| - 1 - i]
  {
    seq(|s|, i requires 0 <= i < |s| => s[|s| - 1 - i])
  }

  /** The slot of entry `k` still holds it as long as fewer than 100 came after. */
  ghost predicate Holds<E>(ring: array<Option<E>>, all: seq<E>)
    reads ring
  {
    ring.Length == KEEP && forall k :: 0 <= k < |all| && |all| <= k + KEEP ==> ring[k % KEEP] == Some(all[k])
  }

  lemma SlotsApart(k: nat, n: nat)
    requires k < n < k + KEEP
    ensures k % KEEP != n % KEEP
  {
  }

  /** One entry written over the oldest slot. */
  method Put<E>(ring: array<Option<E>>, ghost all: seq<E>, n: nat, e: E)
    requires n == |all| && Holds(ring, all)
    modifies ring
    ensures Holds(ring, all + [e])
  {
    forall k | 0 <= k < n && n < k + KEEP ensures k % KEEP != n % KEEP {
      SlotsApart(k, n);
    }
    ring[n % KEEP] := Some(e);
  }

  /** parseHistoryStream: exactly the last min(n, 100) recognised entries, in order. */
  method ParseStream<E>(lines: seq<string>, parse: string -> Option<E>) returns (out: seq<E>)
    ensures out == LastOf(Entries(lines, parse), 100)
  {
    var ring := new Option<E>[KEEP](_ => None);
    var n := 0;
    for i := 0 to |lines|
      invariant n == |Entries(lines[..i], parse)| && Holds(ring, Entries(lines[..i], parse))
    {
      assert lines[..i + 1][..i] == lines[..i];
      var e := parse(lines[i]);
      if e.Some? {
        Put(ring, Entries(lines[..i], parse), n, e.value);
        n := n + 1;
      }
    }
    assert lines[..|lines|] == lines;
    ghost var all := Entries(lines, parse);
    out := [];
    if n == 0 { return; }
    var count := if n < KEEP then n else KEEP;
    for i := n - count to n
      invariant out == all[n - count..i]
    {
      assert ring[i % KEEP] == Some(all[i]);
      out := out + [ring[i % KEEP].value];
    }
    assert all[n - count..n] == all[n - count..];
    LastIsEnd(all, KEEP, count);
  }

  /** ZpoolCollector.History: the cached entries, most recent first; none for an unknown pool. */
  method Newest<E>(history: map<string, seq<E>>, name: string) returns (out: seq<E>)
    ensures out == Reversed(if name in history then history[name] else [])
  {
    var src := if name in history then history[name] else [];
    out := [];
    var i := |src| - 1;
    while i >= 0
      invariant -1 <= i < |src| && |out| == |src| - 1 - i
      invariant forall k :: 0 <= k < |out| ==> out[k] == src[|src| - 1 - k]
    {
      out := out + [src[i]];
      i := i - 1;
    }
  }

  lemma {:induction false} EntriesConcat<E>(a: seq<string>, b: seq<string>, parse: string -> Option<E>)
    ensures Entries(a + b, parse) == Entries(a, parse) + Entries(b, parse)
  {
    if b == [] {
      assert a + b == a;
    } else {
      EntriesConcat(a, b[..|b| - 1], parse);
      assert (a + b)[..|a + b| - 1] == a + b[..|b| - 1];
    }
  }

  /** What was read before 100 later entries leaves no trace in the result. */
  lemma OldLinesDoNotMatter<E>(old1: seq<string>, old2: seq<string>, rest: seq<string>, parse: string -> Option<E>)
    requires |Entries(rest, parse)| >= 100
    ensures LastOf(Entries(old1 + rest, parse), 100) == LastOf(Entries(old2 + rest, parse), 100)
  {
    EntriesConcat(old1, rest, parse);
    EntriesConcat(old2, rest, parse);
  }
}
