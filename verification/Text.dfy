/** The few string functions of Go and JavaScript that the schedule code relies on. */
module Text {

  datatype Option<+T> = None | Some(value: T)

  // ---- decimal digits ----

  predicate IsDigit(c: char) { '0' <= c <= '9' }

  function DigitValue(c: char): nat
    requires IsDigit(c)
  {
    c as int - '0' as int
  }

  function DigitChar(d: nat): char
    requires d < 10
  {
    ('0' as int + d) as char
  }

  /** JavaScript /^\d+$/. */
  predicate IsNum(s: string) {
    s != "" && forall c | c in s :: IsDigit(c)
  }

  /** The number a digit string denotes; "" denotes 0. */
  function Value(s: string): nat
    requires forall c | c in s :: IsDigit(c)
  {
    if s == "" then 0 else 10 * Value(s[..|s| - 1]) + DigitValue(s[|s| - 1])
  }

  /** Shortest decimal text of a number. */
  function Dec(n: nat): (s: string)
    ensures IsNum(s) && Value(s) == n
    ensures n < 10 ==> |s| == 1
    ensures 10 <= n < 100 ==> |s| == 2
  {
    if n < 10 then [DigitChar(n)]
    else
      var s := Dec(n / 10) + [DigitChar(n % 10)];
      assert s[..|s| - 1] == Dec(n / 10);
      s
  }

  /** padStart(2, '0'). */
  function PadStart2(s: string): string {
    if s == "" then "00" else if |s| == 1 then "0" + s else s
  }

  /** Two-digit text of a number below 100 (longer above). */
  function Pad2(n: nat): (s: string)
    ensures IsNum(s) && Value(s) == n
    ensures n < 100 ==> |s| == 2
  {
    assert n < 10 ==> var s := "0" + Dec(n); s[..1] == "0" && Value(s[..1]) == 0 by {
      assert "0"[..0] == "";
    }
    PadStart2(Dec(n))
  }

  // ---- Go: strings.Cut, strconv.Atoi ----

  datatype CutResult = CutResult(before: string, after: string, found: bool)

  /** Around the first `sep`; everything before when there is none. */
  function Cut(s: string, sep: char): (r: CutResult)
    ensures sep !in r.before
    ensures r.found ==> s == r.before + [sep] + r.after
    ensures !r.found ==> s == r.before && r.after == ""
  {
    if s == "" then CutResult("", "", false)
    else if s[0] == sep then
      assert s == "" + [sep] + s[1..];
      CutResult("", s[1..], true)
    else
      var r := Cut(s[1..], sep);
      CutResult([s[0]] + r.before, r.after, r.found)
  }

  /** The first separator is where the text before it has none. */
  lemma {:induction false} CutAt(a: string, sep: char, b: string)
    requires sep !in a
    ensures Cut(a + [sep] + b, sep) == CutResult(a, b, true)
  {
    var s := a + [sep] + b;
    if a == "" {
      assert s[1..] == b;
    } else {
      CutAt(a[1..], sep, b);
      assert s[1..] == a[1..] + [sep] + b;
    }
  }

  lemma {:induction false} CutNone(s: string, sep: char)
    requires sep !in s
    ensures Cut(s, sep) == CutResult(s, "", false)
  {
    if s == "" {
    } else {
      CutNone(s[1..], sep);
    }
  }

  const MAX_INT64: int := 0x7FFF_FFFF_FFFF_FFFF

  /** Base 10 with an optional sign; None for Go's syntax and range errors. */
  function Atoi(s: string): Option<int> {
    var negative := s != "" && s[0] == '-';
    var digits := if negative || (s != "" && s[0] == '+') then s[1..] else s;
    if !IsNum(digits) then None else
    var n: int := Value(digits);
    var v := if negative then -n else n;
    if -MAX_INT64 - 1 <= v <= MAX_INT64 then Some(v) else None
  }

  lemma AtoiDigits(s: string)
    requires IsNum(s) && Value(s) <= MAX_INT64
    ensures Atoi(s) == Some(Value(s))
  {
    assert IsDigit(s[0]);
  }

  // ---- JavaScript: parseInt, split, trim ----

  /** String.prototype.trim and \s. */
  predicate IsSpace(c: char) {
    c in {' ', '\t', '\n', '\r', '\U{000B}', '\U{000C}', '\U{00A0}', '\U{1680}', '\U{2028}',
          '\U{2029}', '\U{202F}', '\U{205F}', '\U{3000}', '\U{FEFF}'}
    || '\U{2000}' <= c <= '\U{200A}'
  }

  function DropSpace(s: string): string {
    if s != "" && IsSpace(s[0]) then DropSpace(s[1..]) else s
  }

  function DigitPrefix(s: string): (p: string)
    ensures forall c | c in p :: IsDigit(c)
  {
    if s != "" && IsDigit(s[0]) then [s[0]] + DigitPrefix(s[1..]) else ""
  }

  lemma {:induction false} DigitPrefixAll(s: string)
    requires forall c | c in s :: IsDigit(c)
    ensures DigitPrefix(s) == s
  {
    if s == "" {
    } else {
      DigitPrefixAll(s[1..]);
    }
  }

  /** parseInt(s, 10): None stands for NaN. */
  function ParseInt(s: string): Option<int> {
    var t := DropSpace(s);
    var negative := t != "" && t[0] == '-';
    var p := DigitPrefix(if negative || (t != "" && t[0] == '+') then t[1..] else t);
    var n: int := Value(p);
    if p == "" then None else Some(if negative then -n else n)
  }

  lemma ParseIntDigits(s: string)
    requires IsNum(s)
    ensures ParseInt(s) == Some(Value(s))
  {
    assert IsDigit(s[0]);
    DigitPrefixAll(s);
  }

  /** s.split(c): the pieces between every occurrence of `c`. */
  function SplitOn(c: char, s: string): (parts: seq<string>)
    ensures |parts| >= 1 && forall p | p in parts :: c !in p
    decreases |s|
  {
    var r := Cut(s, c);
    if r.found then [r.before] + SplitOn(c, r.after) else [s]
  }

  lemma SplitAt(c: char, a: string, b: string)
    requires c !in a
    ensures SplitOn(c, a + [c] + b) == [a] + SplitOn(c, b)
  {
    CutAt(a, c, b);
  }

  lemma SplitNone(c: char, s: string)
    requires c !in s
    ensures SplitOn(c, s) == [s]
  {
    CutNone(s, c);
  }

  /** The parts with one `c` between them. */
  function Join(c: char, parts: seq<string>): string
    requires parts != []
  {
    if |parts| == 1 then parts[0] else parts[0] + [c] + Join(c, parts[1..])
  }

  lemma {:induction false} SplitJoin(c: char, parts: seq<string>)
    requires parts != [] && forall p | p in parts :: c !in p
    ensures SplitOn(c, Join(c, parts)) == parts
  {
    assert parts[0] in parts;
    if |parts| == 1 {
      SplitNone(c, parts[0]);
    } else {
      SplitJoin(c, parts[1..]);
      SplitAt(c, parts[0], Join(c, parts[1..]));
    }
  }

  /** The maximal runs of characters that are not separators, in order. */
  function Tokens(separator: char -> bool, s: string): (ts: seq<string>)
    ensures forall t | t in ts :: t != "" && forall c | c in t :: !separator(c)
    decreases |s|
  {
    if s == "" then []
    else if separator(s[0]) then Tokens(separator, s[1..])
    else
      var w := Word(separator, s);
      [w] + Tokens(separator, s[|w|..])
  }

  function Word(separator: char -> bool, s: string): (w: string)
    ensures |w| <= |s| && w == s[..|w|]
    ensures forall c | c in w :: !separator(c)
    ensures s != "" && !separator(s[0]) ==> w != ""
  {
    if s == "" || separator(s[0]) then "" else [s[0]] + Word(separator, s[1..])
  }

  lemma {:induction false} WordAt(separator: char -> bool, a: string, b: string)
    requires forall c | c in a :: !separator(c)
    requires b == "" || separator(b[0])
    ensures Word(separator, a + b) == a
  {
    if a == "" {
      assert a + b == b;
    } else {
      assert (a + b)[1..] == a[1..] + b;
      WordAt(separator, a[1..], b);
    }
  }

  /** Words joined by a separator are its tokens. */
  lemma {:induction false} TokensJoin(separator: char -> bool, c: char, parts: seq<string>)
    requires parts != [] && separator(c)
    requires forall p | p in parts :: p != "" && forall x | x in p :: !separator(x)
    ensures Tokens(separator, Join(c, parts)) == parts
  {
    var a := parts[0];
    assert a in parts;
    if |parts| == 1 {
      WordAt(separator, a, "");
      assert a + "" == a && a[|a|..] == "" && parts == [a];
    } else {
      var b := Join(c, parts[1..]);
      forall p | p in parts[1..] ensures p != "" && forall x | x in p :: !separator(x) {
        assert p in parts;
      }
      TokensJoin(separator, c, parts[1..]);
      var s := a + [c] + b;
      assert s == a + ([c] + b) && s[0] == a[0] && s[|a|..] == [c] + b && ([c] + b)[1..] == b;
      WordAt(separator, a, [c] + b);
    }
  }

  /** Two separator classes that agree on a text cut it alike. */
  lemma {:induction false} TokensAgree(p: char -> bool, q: char -> bool, s: string)
    requires forall c | c in s :: p(c) == q(c)
    ensures Tokens(p, s) == Tokens(q, s)
    decreases |s|
  {
    if s == "" {
    } else {
      if p(s[0]) {
        TokensAgree(p, q, s[1..]);
      } else {
        WordAgree(p, q, s);
        TokensAgree(p, q, s[|Word(p, s)|..]);
      }
    }
  }

  lemma {:induction false} WordAgree(p: char -> bool, q: char -> bool, s: string)
    requires forall c | c in s :: p(c) == q(c)
    ensures Word(p, s) == Word(q, s)
  {
    if s != "" && !p(s[0]) { WordAgree(p, q, s[1..]); }
  }
}
