/**
 Sending one notification to one push subscription (internal/push/push.go): a bounded
 retry with exponential backoff, jitter and the service's own Retry-After.
 */
module Sending {
  import opened Calendar
  import opened Text
  import opened Schedules

  const MAX_ATTEMPTS := 3

  /** What a push service answers; `retryAfter` is the parsed header, in nanoseconds. */
  datatype Reply = NetworkError | Answer(status: int, retryAfter: int)

  datatype Outcome = Delivered | Gone | Rejected | GaveUp

  predicate Transient(r: Reply) {
    r.NetworkError? || r.status == 429 || r.status >= 500
  }

  function Final(r: Reply): Outcome
    requires !Transient(r)
  {
    if r.status == 404 || r.status == 410 then Gone else if r.status >= 400 then Rejected else Delivered
  }

  /** The outcome from attempt `i` on of the `n`-th send; `reply` answers for the services. */
  function Result(reply: (nat, nat) -> Reply, n: nat, i: nat): Outcome
    decreases MAX_ATTEMPTS - i
  {
    if !Transient(reply(n, i)) then Final(reply(n, i))
    else if i + 1 >= MAX_ATTEMPTS then GaveUp
    else Result(reply, n, i + 1)
  }

  /** `x` stands for the random number drawn. */
  function Jitter(d: nat, x: nat): (r: nat)
    ensures d / 2 <= r <= d
  {
    d / 2 + x % (d / 2 + 1)
  }

  /** Every wait between half of an even backoff and all of it can come up. */
  lemma JitterReaches(d: nat, y: nat) returns (x: nat)
    requires d % 2 == 0 && d / 2 <= y <= d
    ensures Jitter(d, x) == y
  {
    x := y - d / 2;
    assert d == 2 * (d / 2);
    assert x < d / 2 + 1;
  }

  function Backoff(i: nat): (d: nat)
    ensures d >= SECOND
  {
    if i == 0 then SECOND else 2 * Backoff(i - 1)
  }

  function Asked(r: Reply): int {
    if r.Answer? then r.retryAfter else 0
  }

  function Max(a: int, b: int): int { if a >= b then a else b }

  /** The wait after failed attempt `i`. */
  predicate IsWait(w: int, i: nat, r: Reply) {
    && Backoff(i) / 2 <= w && Asked(r) <= w
    && (w <= Backoff(i) || w == Asked(r))
  }

  /**
   sendTo. At most three attempts; only transient failures are retried, each after a wait of
   50-100% of the doubled backoff or what the service asked for, whichever is longer.
   */
  method Transmit(reply: (nat, nat) -> Reply, rand: nat -> nat, n: nat) returns (out: Outcome, waits: seq<int>)
    ensures out == Result(reply, n, 0)
    ensures |waits| < 3
    ensures forall i :: 0 <= i < |waits| ==> Transient(reply(n, i)) && IsWait(waits[i], i, reply(n, i))
    ensures Transient(reply(n, |waits|)) ==> out.GaveUp? && |waits| == 2
  {
    var attempt, backoff := 1, SECOND;
    waits := [];
    while true
      invariant 1 <= attempt <= MAX_ATTEMPTS && |waits| == attempt - 1 && backoff == Backoff(attempt - 1)
      invariant Result(reply, n, 0) == Result(reply, n, attempt - 1)
      invariant forall i :: 0 <= i < |waits| ==> Transient(reply(n, i)) && IsWait(waits[i], i, reply(n, i))
      decreases MAX_ATTEMPTS - attempt
    {
      var r := reply(n, attempt - 1);
      if r.NetworkError? {
        if attempt >= MAX_ATTEMPTS { return GaveUp, waits; }
        waits := waits + [Jitter(backoff, rand(attempt))];
      } else if r.status == 404 || r.status == 410 {
        return Gone, waits;
      } else if r.status == 429 || r.status >= 500 {
        if attempt >= MAX_ATTEMPTS { return GaveUp, waits; }
        waits := waits + [Max(Jitter(backoff, rand(attempt)), r.retryAfter)];
      } else if r.status >= 400 {
        return Rejected, waits;
      } else {
        return Delivered, waits;
      }
      backoff := backoff * 2;
      attempt := attempt + 1;
    }
  }

  predicate IsGone(r: Reply) { r.Answer? && (r.status == 404 || r.status == 410) }

  /** A subscription is reported dead exactly when a 404 or 410 follows only transient failures. */
  lemma {:induction false} GoneExactly(reply: (nat, nat) -> Reply, n: nat, i: nat)
    requires i < MAX_ATTEMPTS
    ensures Result(reply, n, i).Gone? <==>
              exists k :: i <= k < MAX_ATTEMPTS && IsGone(reply(n, k))
                          && forall j :: i <= j < k ==> Transient(reply(n, j))
    decreases MAX_ATTEMPTS - i
  {
    if Transient(reply(n, i)) && i + 1 < MAX_ATTEMPTS { GoneExactly(reply, n, i + 1); }
  }

  /** The backoff is one second, then two, then four. */
  lemma BackoffDoubles()
    ensures Backoff(0) == 1_000_000_000 && Backoff(1) == 2_000_000_000 && Backoff(2) == 4_000_000_000
  {
    assert Backoff(1) == 2 * Backoff(0);
  }

  /** The service cannot take the notification now: no answer, too many requests, or a fault of its own. */
  predicate Busy(r: Reply) {
    match r
    case NetworkError => true
    case Answer(status, _) => status == 429 || status >= 500
  }

  /** Attempt `k` is the one that counts: the first of three that met no busy service. */
  predicate Decides(reply: (nat, nat) -> Reply, n: nat, k: nat) {
    k < 3 && !Busy(reply(n, k)) && forall j :: 0 <= j < k ==> Busy(reply(n, j))
  }

  /**
   A notification is given up after three busy attempts; else the first other answer decides:
   404 and 410 are gone, other 4xx rejections, all the rest deliveries.
   */
  lemma OutcomeExactly(reply: (nat, nat) -> Reply, n: nat)
    ensures Result(reply, n, 0).GaveUp? <==> Busy(reply(n, 0)) && Busy(reply(n, 1)) && Busy(reply(n, 2))
    ensures forall k :: Decides(reply, n, k) ==>
              var status := reply(n, k).status;
              Result(reply, n, 0) == if status == 404 || status == 410 then Gone
                                     else if 400 <= status < 500 then Rejected else Delivered
  {
    assert Result(reply, n, 0) == if Transient(reply(n, 0)) then Result(reply, n, 1) else Final(reply(n, 0));
    assert Result(reply, n, 1) == if Transient(reply(n, 1)) then Result(reply, n, 2) else Final(reply(n, 1));
    assert Result(reply, n, 2) == if Transient(reply(n, 2)) then GaveUp else Final(reply(n, 2));
  }

  /** A Retry-After that is no positive number of seconds and no date to come asks for nothing. */
  lemma RetryAfterElse(h: string, date: Option<int>)
    ensures h == "" ==> ParseRetryAfter(h, date) == 0
    ensures h != "" && Atoi(h).Some? && Atoi(h).value <= 0 ==> ParseRetryAfter(h, date) == 0
    ensures h != "" && Atoi(h).None? ==>
              ParseRetryAfter(h, date) == match date case Some(left) => (if left > 0 then left else 0) case None => 0
  {
  }

  /** The Retry-After header without surrounding space; `date` is the time left to an HTTP date. */
  function ParseRetryAfter(h: string, date: Option<int>): int {
    if h == "" then 0
    else
      match Atoi(h)
      case Some(n) => if n > 0 then Wrap64(n * SECOND) else 0
      case None => if date.Some? && date.value > 0 then date.value else 0
  }

  /** A delay in seconds is honoured as a minimum exactly when it fits a Duration (292 years). */
  lemma RetryAfterHonoured(h: string, date: Option<int>, n: int, i: nat, x: nat)
    requires Atoi(h) == Some(n) && n > 0 && i + 1 < MAX_ATTEMPTS
    ensures n * SECOND <= Max(Jitter(Backoff(i), x), ParseRetryAfter(h, date)) <==> n <= 9_223_372_036
  {
    assert Backoff(1) == 2 * Backoff(0);
    WrapsSeconds(n);
    assert ParseRetryAfter(h, date) == Wrap64(n * SECOND);
  }

  /** A Retry-After one second too long, written out, is not waited for at all. */
  lemma LongRetryAfterIgnored(i: nat, x: nat) returns (h: string)
    requires i + 1 < MAX_ATTEMPTS
    ensures h == Dec(9_223_372_037) && Max(Jitter(Backoff(i), x), ParseRetryAfter(h, None)) <= 2 * SECOND
  {
    h := Dec(9_223_372_037);
    AtoiDigits(h);
    WaitsForNothing(h, i, x);
  }

  lemma WaitsForNothing(h: string, i: nat, x: nat)
    requires Atoi(h) == Some(9_223_372_037) && i + 1 < MAX_ATTEMPTS
    ensures Max(Jitter(Backoff(i), x), ParseRetryAfter(h, None)) <= 2 * SECOND
  {
    assert Backoff(1) == 2 * Backoff(0);
    assert Wrap64(9_223_372_037 * SECOND) < 0;
  }

  lemma WrapsSeconds(n: int)
    requires n > 0
    ensures if n <= 9_223_372_036 then Wrap64(n * SECOND) == n * SECOND
            else Wrap64(n * SECOND) < n * SECOND && 2 * SECOND < n * SECOND
  {
    if n <= 9_223_372_036 { SmallWraps(n * SECOND); }
  }
}
