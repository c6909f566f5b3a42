/** Byte-wise order of strings, as Go's < and sort.Strings use it, and sorting by it. */
module Order {
  import opened Text

  predicate Less(a: string, b: string) {
    if b == "" then false
    else if a == "" then true
    else a[0] < b[0] || (a[0] == b[0] && Less(a[1..], b[1..]))
  }

  predicate AtMost(a: string, b: string) { !Less(b, a) }

  lemma {:induction false} LessTotal(a: string, b: string)
    ensures Less(a, b) || a == b || Less(b, a)
    ensures !(Less(a, b) && Less(b, a)) && !Less(a, a)
  {
    if a != "" && b != "" && a[0] == b[0] {
      LessTotal(a[1..], b[1..]);
      assert a == [a[0]] + a[1..] && b == [b[0]] + b[1..];
    }
    if a == "" {
    } else {
      LessTotal(a[1..], a[1..]);
    }
  }

  lemma {:induction false} LessTransitive(a: string, b: string, c: string)
    requires Less(a, b) && Less(b, c)
    ensures Less(a, c)
  {
    if a != "" && b != "" && a[0] == b[0] && b[0] == c[0] { LessTransitive(a[1..], b[1..], c[1..]); }
  }

  lemma AtMostTransitive(a: string, b: string, c: string)
    requires AtMost(a, b) && AtMost(b, c)
    ensures AtMost(a, c)
  {
    LessTotal(a, b);
    LessTotal(b, c);
    LessTotal(a, c);
    if Less(a, b) && Less(b, c) { LessTransitive(a, b, c); }
  }

  /** Strings of one length are ordered by their first half, then by their second. */
  lemma {:induction false} LessConcat(a: string, b: string, x: string, y: string)
    requires |a| == |b|
    ensures Less(a + x, b + y) <==> Less(a, b) || (a == b && Less(x, y))
  {
    if a == "" {
      assert a + x == x && b + y == y;
    } else {
      LessConcat(a[1..], b[1..], x, y);
      assert (a + x)[1..] == a[1..] + x && (b + y)[1..] == b[1..] + y;
      assert a == [a[0]] + a[1..] && b == [b[0]] + b[1..];
    }
  }

  predicate SortedBy(keys: seq<string>) {
    forall i, j :: 0 <= i < j < |keys| ==> AtMost(keys[i], keys[j])
  }

  function Keys<T>(s: seq<T>, key: T -> string): (r: seq<string>)
    ensures |r| == |s| && forall i :: 0 <= i < |s| ==> r[i] == key(s[i])
  {
    seq(|s|, i requires 0 <= i < |s| => key(s[i]))
  }

  /** sort.Slice by a string key: some sorted rearrangement; nothing is said about equal keys. */
  method Sort<T(==)>(s: seq<T>, key: T -> string) returns (r: seq<T>)
    ensures multiset(r) == multiset(s) && SortedBy(Keys(r, key))
  {
    r := [];
    for i := 0 to |s|
      invariant multiset(r) == multiset(s[..i]) && SortedBy(Keys(r, key))
    {
      assert s[..i + 1] == s[..i] + [s[i]];
      r := Insert(r, s[i], key);
    }
    assert s[..|s|] == s;
  }

  method Insert<T(==)>(s: seq<T>, x: T, key: T -> string) returns (r: seq<T>)
    requires SortedBy(Keys(s, key))
    ensures multiset(r) == multiset(s) + multiset{x} && SortedBy(Keys(r, key))
  {
    var i := 0;
    while i < |s| && AtMost(key(s[i]), key(x))
      invariant 0 <= i <= |s| && forall j :: 0 <= j < i ==> AtMost(key(s[j]), key(x))
    {
      i := i + 1;
    }
    r := s[..i] + [x] + s[i..];
    Inserted(s, x, key, i);
  }

  lemma Inserted<T>(s: seq<T>, x: T, key: T -> string, i: nat)
    requires SortedBy(Keys(s, key)) && i <= |s| && forall j :: 0 <= j < i ==> AtMost(key(s[j]), key(x))
    requires i < |s| ==> !AtMost(key(s[i]), key(x))
    ensures multiset(s[..i] + [x] + s[i..]) == multiset(s) + multiset{x}
    ensures SortedBy(Keys(s[..i] + [x] + s[i..], key))
  {
    assert s == s[..i] + s[i..];
    InsertSorted(Keys(s, key), key(x), i);
    KeysInserted(s, x, key, i);
  }

  lemma KeysInserted<T>(s: seq<T>, x: T, key: T -> string, i: nat)
    requires i <= |s|
    ensures Keys(s[..i] + [x] + s[i..], key) == Keys(s, key)[..i] + [key(x)] + Keys(s, key)[i..]
  {
  }

  lemma InsertSorted(keys: seq<string>, k: string, i: nat)
    requires SortedBy(keys) && i <= |keys|
    requires forall j :: 0 <= j < i ==> AtMost(keys[j], k)
    requires i < |keys| ==> !AtMost(keys[i], k)
    ensures SortedBy(keys[..i] + [k] + keys[i..])
  {
    forall j | i <= j < |keys| ensures AtMost(k, keys[j]) {
      LessTotal(k, keys[i]);
      if i < j { AtMostTransitive(k, keys[i], keys[j]); }
    }
  }

  // ---- fixed-width decimal stamps ----

  /** The last `w` decimal digits of `n`. */
  function Fixed(n: nat, w: nat): (s: string)
    ensures |s| == w
  {
    if w == 0 then "" else Fixed(n / 10, w - 1) + [DigitChar(n % 10)]
  }

  function Pow10(w: nat): (p: nat)
    ensures p > 0
  {
    if w == 0 then 1 else 10 * Pow10(w - 1)
  }

  /** Numbers of one width are ordered as their texts are. */
  lemma {:induction false} FixedOrder(a: nat, b: nat, w: nat)
    requires a < Pow10(w) && b < Pow10(w)
    ensures Less(Fixed(a, w), Fixed(b, w)) <==> a < b
    ensures Fixed(a, w) == Fixed(b, w) <==> a == b
  {
    if w == 0 {
    } else {
      var (x, y) := (Fixed(a / 10, w - 1), Fixed(b / 10, w - 1));
      var (c, d) := ([DigitChar(a % 10)], [DigitChar(b % 10)]);
      FixedOrder(a / 10, b / 10, w - 1);
      LessConcat(x, y, c, d);
      assert Less(c, d) <==> a % 10 < b % 10;
      assert (x + c)[..w - 1] == x && (y + d)[..w - 1] == y;
      assert (x + c)[w - 1] == c[0] && (y + d)[w - 1] == d[0];
    }
  }
}
