/** The delivery retry loop of the Go client (clients/go-lib/client.go). */
module Retry {
  const MAX_DURATION: int := 0x7fff_ffff_ffff_ffff

  /** int64 arithmetic on durations. */
  function Wrap(x: int): int
    decreases if -MAX_DURATION - 1 <= x <= MAX_DURATION then 0 else if x < 0 then -x else x
  {
    if x > MAX_DURATION then Wrap(x - 2 * (MAX_DURATION + 1))
    else if x < -MAX_DURATION - 1 then Wrap(x + 2 * (MAX_DURATION + 1))
    else x
  }

  datatype Strategy = Full | Equal | Decorrelated

  datatype RetryConfig = RetryConfig(maxAttempts: int, initialBackoff: int, maxBackoff: int, maxJitter: int, strategy: Strategy)

  const MILLISECOND := 1_000_000

  function Normalize(c: RetryConfig): RetryConfig {
    RetryConfig(if c.maxAttempts <= 0 then 1 else c.maxAttempts,
                if c.initialBackoff <= 0 then 100 * MILLISECOND else c.initialBackoff,
                if c.maxBackoff <= 0 then 2000 * MILLISECOND else c.maxBackoff,
                if c.maxJitter < 0 then 0 else c.maxJitter,
                c.strategy)
  }

  /** A setting that is not positive gets its default: one attempt, 100 ms, 2 s; no jitter below zero. */
  lemma NormalizeExactly(c: RetryConfig)
    ensures var n := Normalize(c);
            && Positive(n) && n.strategy == c.strategy
            && n.maxAttempts == (if c.maxAttempts > 0 then c.maxAttempts else 1)
            && n.initialBackoff == (if c.initialBackoff > 0 then c.initialBackoff else 100_000_000)
            && n.maxBackoff == (if c.maxBackoff > 0 then c.maxBackoff else 2_000_000_000)
            && n.maxJitter == (if c.maxJitter > 0 then c.maxJitter else 0)
  {
  }

  function Max(a: int, b: int): int { if a > b then a else b }

  function Min(a: int, b: int): int { if a < b then a else b }

  /** The longest delay the settings allow. */
  function Cap(c: RetryConfig): int { Max(c.initialBackoff, c.maxBackoff) + c.maxJitter }

  /** What Normalize leaves. */
  predicate Positive(c: RetryConfig) {
    c.maxAttempts >= 1 && c.initialBackoff > 0 && c.maxBackoff > 0 && c.maxJitter >= 0
  }

  /** Doubling a base delay does not overflow. */
  predicate Doubles(c: RetryConfig) { Positive(c) && 2 * Max(c.initialBackoff, c.maxBackoff) <= MAX_DURATION }

  /** rand.Int63n(n): any value from 0 up to n, chosen by the draw.  For a bound that is not positive it
      panics, which only happens where `Panics` says. */
  function Int63n(draw: nat, n: int): int { if draw < n then draw else 0 }

  /** randomJitter adds one to the largest duration. */
  predicate Panics(c: RetryConfig) { c.strategy == Full && c.maxJitter == MAX_DURATION }

  function RandomJitter(max: int, draw: nat): int { if max <= 0 then 0 else Int63n(draw, Wrap(max + 1)) }

  function RandomDuration(min: int, max: int, draw: nat): int {
    if max <= min then min else Wrap(min + Int63n(draw, Wrap(max - min + 1)))
  }

  function ComputeRetryDelay(base: int, previousDelay: int, c: RetryConfig, draw: nat): int {
    match c.strategy
    case Full => Wrap(base + RandomJitter(c.maxJitter, draw))
    case Equal => var half := c.maxJitter / 2; Wrap(Wrap(base + half) + RandomJitter(half, draw))
    case Decorrelated =>
      var lower := c.initialBackoff;
      var upper := Wrap(previousDelay * 3);
      var upper := if upper < lower then lower else upper;
      var upper := if upper > c.maxBackoff then c.maxBackoff else upper;
      var upper := if c.maxJitter > 0 && Wrap(lower + c.maxJitter) < upper then Wrap(lower + c.maxJitter) else upper;
      RandomDuration(lower, upper, draw)
  }

  function NextBackoff(backoff: int, c: RetryConfig): int {
    var b := Wrap(backoff * 2);
    if b > c.maxBackoff then c.maxBackoff else b
  }

  /** The base delay before retry k. */
  function Backoff(c: RetryConfig, k: nat): int {
    if k <= 1 then c.initialBackoff else NextBackoff(Backoff(c, k - 1), c)
  }

  function Pow2(n: nat): nat { if n == 0 then 1 else 2 * Pow2(n - 1) }

  /** Exponential growth, capped: from the second retry on the base delay is initial * 2^(k-1) or the
      maximum; the first is the initial delay even where that exceeds the maximum. */
  lemma {:induction false} BackoffClosedForm(c: RetryConfig, k: nat)
    requires Doubles(c) && k >= 1
    ensures 0 < Backoff(c, k) <= Max(c.initialBackoff, c.maxBackoff)
    ensures Backoff(c, k) == if k == 1 then c.initialBackoff else Min(c.initialBackoff * Pow2(k - 1), c.maxBackoff)
  {
    if k > 1 {
      BackoffClosedForm(c, k - 1);
      Doubling(c.initialBackoff, k - 2);
      assert Wrap(Backoff(c, k - 1) * 2) == Backoff(c, k - 1) * 2;
    } else {
      assert Pow2(0) == 1;
    }
  }

  lemma {:induction false} Doubling(x: int, n: nat)
    requires x > 0
    ensures x * Pow2(n + 1) == 2 * (x * Pow2(n)) && x * Pow2(n) >= x
  {
    if n > 0 {
      Doubling(x, n - 1);
    }
    assert x * (2 * Pow2(n)) == 2 * (x * Pow2(n));
  }

  lemma WrapsNegative(x: int)
    requires MAX_DURATION < x <= 2 * MAX_DURATION
    ensures Wrap(x) < 0
  {
    assert Wrap(x) == Wrap(x - 2 * (MAX_DURATION + 1)) == x - 2 * (MAX_DURATION + 1);
  }

  lemma {:induction false} BackoffOverflows(c: RetryConfig, k: nat) returns (bad: nat)
    requires 0 < c.initialBackoff <= MAX_DURATION && 0 < c.maxBackoff <= MAX_DURATION
    requires 2 * c.maxBackoff > MAX_DURATION
    requires k >= 1 && 0 < Backoff(c, k) <= MAX_DURATION
    ensures bad >= 1 && Backoff(c, bad) <= 0
    decreases MAX_DURATION - Backoff(c, k)
  {
    if 2 * Backoff(c, k) > MAX_DURATION {
      WrapsNegative(2 * Backoff(c, k));
      bad := k + 1;
    } else {
      bad := BackoffOverflows(c, k + 1);
    }
  }

  /** Exactly how large the settings may be before doubling overflows int64: the base delay stays
      positive for ever if and only if twice the larger setting still fits. */
  lemma BackoffPositiveIff(c: RetryConfig)
    requires 0 < c.initialBackoff <= MAX_DURATION && 0 < c.maxBackoff <= MAX_DURATION
    ensures (forall k :: k >= 1 ==> Backoff(c, k) > 0) <==> 2 * Max(c.initialBackoff, c.maxBackoff) <= MAX_DURATION
  {
    if 2 * Max(c.initialBackoff, c.maxBackoff) > MAX_DURATION {
      if 2 * c.initialBackoff > MAX_DURATION {
        WrapsNegative(2 * c.initialBackoff);
        assert Backoff(c, 1) == c.initialBackoff;
        assert Backoff(c, 2) <= 0;
      } else {
        var bad := BackoffOverflows(c, 1);
      }
    } else {
      forall k: nat | k >= 1 ensures Backoff(c, k) > 0 {
        BackoffInRange(c, k);
      }
    }
  }

  lemma {:induction false} BackoffInRange(c: RetryConfig, k: nat)
    requires 0 < c.initialBackoff && 0 < c.maxBackoff && 2 * Max(c.initialBackoff, c.maxBackoff) <= MAX_DURATION
    ensures 0 < Backoff(c, k) <= Max(c.initialBackoff, c.maxBackoff)
  {
    if k > 1 {
      BackoffInRange(c, k - 1);
    }
  }

  lemma DecorrelatedBounded(previousDelay: int, c: RetryConfig, draw: nat)
    requires Positive(c) && Cap(c) <= MAX_DURATION && 0 <= previousDelay <= Cap(c) && c.strategy == Decorrelated
    ensures var d := ComputeRetryDelay(0, previousDelay, c, draw);
            && c.initialBackoff <= d <= Max(c.initialBackoff, Min(c.maxBackoff, Max(c.initialBackoff, previousDelay * 3)))
            && (c.maxJitter > 0 ==> d <= c.initialBackoff + c.maxJitter)
  {
  }

  /** Under every strategy and every draw a delay lies in the strategy's own range, at most the cap:
      full jitter adds up to the maximum to the base, equal jitter at least half of it, and the
      decorrelated delay runs from the initial one to three times the previous, within the limits, even
      where tripling overflows. */
  lemma DelayBounded(base: int, previousDelay: int, c: RetryConfig, draw: nat)
    requires Positive(c) && Cap(c) <= MAX_DURATION
    requires 0 < base <= Max(c.initialBackoff, c.maxBackoff) && 0 <= previousDelay <= Cap(c)
    ensures var d := ComputeRetryDelay(base, previousDelay, c, draw);
            && 0 <= d <= Cap(c)
            && (c.strategy == Full ==> base <= d <= base + c.maxJitter)
            && (c.strategy == Equal ==> base + c.maxJitter / 2 <= d <= base + c.maxJitter)
            && (c.strategy == Decorrelated ==>
                  c.initialBackoff <= d <= Max(c.initialBackoff, Min(c.maxBackoff, Max(c.initialBackoff, previousDelay * 3)))
                  && (c.maxJitter > 0 ==> d <= c.initialBackoff + c.maxJitter))
  {
    if c.strategy == Decorrelated {
      DecorrelatedBounded(previousDelay, c, draw);
    }
  }

  /** The delays between which a retry draws. */
  ghost predicate InRange(base: int, previousDelay: int, c: RetryConfig, d: int) {
    match c.strategy
    case Full => base <= d <= base + c.maxJitter
    case Equal => base + c.maxJitter / 2 <= d <= base + c.maxJitter / 2 * 2
    case Decorrelated =>
      && c.initialBackoff <= d
      && (d == c.initialBackoff ||
          (d <= c.maxBackoff && d <= Wrap(3 * previousDelay) && (c.maxJitter > 0 ==> d <= c.initialBackoff + c.maxJitter)))
  }

  /** And every one of them is drawn: the delays are exactly the range of the strategy. */
  lemma DelaysExactly(base: int, previousDelay: int, c: RetryConfig, d: int)
    requires Positive(c) && Cap(c) <= MAX_DURATION && 0 < base <= Max(c.initialBackoff, c.maxBackoff) && 0 <= previousDelay <= Cap(c)
    ensures (exists draw: nat :: ComputeRetryDelay(base, previousDelay, c, draw) == d) <==> InRange(base, previousDelay, c, d)
  {
    if InRange(base, previousDelay, c, d) {
      var draw := DrawOf(base, previousDelay, c, d);
    }
    forall draw: nat ensures InRange(base, previousDelay, c, ComputeRetryDelay(base, previousDelay, c, draw)) {
      DrawInRange(base, previousDelay, c, draw);
    }
  }

  lemma DrawInRange(base: int, previousDelay: int, c: RetryConfig, draw: nat)
    requires Positive(c) && Cap(c) <= MAX_DURATION && 0 < base <= Max(c.initialBackoff, c.maxBackoff) && 0 <= previousDelay <= Cap(c)
    ensures InRange(base, previousDelay, c, ComputeRetryDelay(base, previousDelay, c, draw))
  {
  }

  lemma DrawOf(base: int, previousDelay: int, c: RetryConfig, d: int) returns (draw: nat)
    requires Positive(c) && Cap(c) <= MAX_DURATION && 0 < base <= Max(c.initialBackoff, c.maxBackoff) && 0 <= previousDelay <= Cap(c)
    requires InRange(base, previousDelay, c, d)
    ensures ComputeRetryDelay(base, previousDelay, c, draw) == d
  {
    draw := match c.strategy
      case Full => d - base
      case Equal => d - base - c.maxJitter / 2
      case Decorrelated => d - c.initialBackoff;
  }

  /** The cap is the exact limit: with full jitter no draw gives a negative delay if and only if base
      and jitter together fit int64. */
  lemma FullJitterFitsIff(base: int, previousDelay: int, c: RetryConfig)
    requires Positive(c) && c.strategy == Full && 0 < base <= MAX_DURATION && c.maxJitter < MAX_DURATION
    ensures (forall draw: nat :: ComputeRetryDelay(base, previousDelay, c, draw) >= 0) <==> base + c.maxJitter <= MAX_DURATION
  {
    if base + c.maxJitter > MAX_DURATION {
      WrapsNegative(base + c.maxJitter);
      assert ComputeRetryDelay(base, previousDelay, c, c.maxJitter) < 0;
    }
  }

  /** The delay after attempt k, which under the decorrelated strategy depends on the one before. */
  function DelayAt(c: RetryConfig, draws: nat -> nat, k: nat): int {
    ComputeRetryDelay(Backoff(c, k), if k <= 1 then c.initialBackoff else DelayAt(c, draws, k - 1), c, draws(k))
  }

  lemma {:induction false} DelaysAgree(c: RetryConfig, draws: nat -> nat, draws': nat -> nat, k: nat)
    requires forall j: nat :: j <= k ==> draws(j) == draws'(j)
    ensures DelayAt(c, draws, k) == DelayAt(c, draws', k)
    decreases k
  {
    if k > 1 {
      DelaysAgree(c, draws, draws', k - 1);
    }
  }

  function Previous(c: RetryConfig, draws: nat -> nat, k: nat): int {
    if k <= 1 then c.initialBackoff else DelayAt(c, draws, k - 1)
  }

  lemma PreviousBounded(c: RetryConfig, draws: nat -> nat, k: nat)
    requires Doubles(c) && Cap(c) <= MAX_DURATION && k >= 1
    ensures 0 <= Previous(c, draws, k) <= Cap(c) && 0 < Backoff(c, k) <= Max(c.initialBackoff, c.maxBackoff)
  {
    BackoffInRange(c, k);
    if k > 1 {
      DelayAtBounded(c, draws, k - 1);
    }
  }

  lemma DrawnAt(c: RetryConfig, draws: nat -> nat, k: nat, draw: nat) returns (draws': nat -> nat)
    requires k >= 1
    ensures forall j: nat :: draws'(j) == if j == k then draw else draws(j)
    ensures DelayAt(c, draws', k) == ComputeRetryDelay(Backoff(c, k), Previous(c, draws, k), c, draw)
  {
    draws' := (j: nat) => if j == k then draw else draws(j);
    if k > 1 {
      DelaysAgree(c, draws, draws', k - 1);
    }
  }

  /** Each delay is drawn from the range that its base and the delay before it give, and any delay of that
      range may come next. */
  lemma NextDelay(c: RetryConfig, draws: nat -> nat, k: nat, d: int) returns (draws': nat -> nat)
    requires Doubles(c) && Cap(c) <= MAX_DURATION && k >= 1
    ensures var previous := if k == 1 then c.initialBackoff else DelayAt(c, draws, k - 1);
            && InRange(Backoff(c, k), previous, c, DelayAt(c, draws, k))
            && (InRange(Backoff(c, k), previous, c, d) ==>
                  (forall j: nat :: j != k ==> draws'(j) == draws(j)) && DelayAt(c, draws', k) == d)
  {
    var previous := Previous(c, draws, k);
    PreviousBounded(c, draws, k);
    DrawInRange(Backoff(c, k), previous, c, draws(k));
    draws' := draws;
    if InRange(Backoff(c, k), previous, c, d) {
      var draw := DrawOf(Backoff(c, k), previous, c, d);
      draws' := DrawnAt(c, draws, k, draw);
    }
  }

  function TotalDelay(c: RetryConfig, draws: nat -> nat, n: nat): int {
    if n == 0 then 0 else TotalDelay(c, draws, n - 1) + DelayAt(c, draws, n)
  }

  lemma {:induction false} DelayAtBounded(c: RetryConfig, draws: nat -> nat, k: nat)
    requires Doubles(c) && Cap(c) <= MAX_DURATION && k >= 1
    ensures 0 <= DelayAt(c, draws, k) <= Cap(c)
  {
    if k > 1 {
      DelayAtBounded(c, draws, k - 1);
    }
    BackoffClosedForm(c, k);
    DelayBounded(Backoff(c, k), if k <= 1 then c.initialBackoff else DelayAt(c, draws, k - 1), c, draws(k));
  }

  /** All waiting before attempt n + 1 takes at most n times the cap. */
  lemma {:induction false} TotalDelayBounded(c: RetryConfig, draws: nat -> nat, n: nat)
    requires Doubles(c) && Cap(c) <= MAX_DURATION
    ensures 0 <= TotalDelay(c, draws, n) <= n * Cap(c)
  {
    if n > 0 {
      TotalDelayBounded(c, draws, n - 1);
      DelayAtBounded(c, draws, n);
      assert n * Cap(c) == (n - 1) * Cap(c) + Cap(c);
    }
  }

  function Sum(s: seq<int>): int { if s == [] then 0 else Sum(s[..|s| - 1]) + s[|s| - 1] }

  function Delays(c: RetryConfig, draws: nat -> nat): nat -> int { (k: nat) => DelayAt(c, draws, k) }

  function Backoffs(c: RetryConfig): nat -> int { (k: nat) => Backoff(c, k) }

  /** The values of `f` from 1 to `n`, and what they add up to. */
  function Listed(f: nat -> int, n: nat): seq<int> { if n == 0 then [] else Listed(f, n - 1) + [f(n)] }

  function SumTo(f: nat -> int, n: nat): int { if n == 0 then 0 else SumTo(f, n - 1) + f(n) }

  lemma {:induction false} ListedAdds(f: nat -> int, n: nat)
    ensures Sum(Listed(f, n)) == SumTo(f, n)
    decreases n
  {
    if n > 0 {
      ListedAdds(f, n - 1);
      assert Listed(f, n)[..|Listed(f, n)| - 1] == Listed(f, n - 1);
    }
  }

  lemma {:induction false} TotalIsSum(c: RetryConfig, draws: nat -> nat, n: nat)
    ensures TotalDelay(c, draws, n) == SumTo(Delays(c, draws), n)
    decreases n
  {
    if n > 0 {
      TotalIsSum(c, draws, n - 1);
    }
  }

  lemma {:induction false} ListedAt(f: nat -> int, n: nat)
    ensures |Listed(f, n)| == n && forall i :: 0 <= i < n ==> Listed(f, n)[i] == f(i + 1)
    decreases n
  {
    if n > 0 {
      ListedAt(f, n - 1);
    }
  }

  // ----- The loop -----

  /** What one request meets. */
  datatype Reply = NoReply | Status(code: int, parses: bool)

  predicate ShouldRetryStatus(code: int) { code == 429 || code >= 500 }

  /** The loop ends with this reply: success, an unreadable success, or an error not worth retrying. */
  predicate Final(r: Reply) { r.Status? && (r.code < 300 || !ShouldRetryStatus(r.code)) }

  predicate Succeeds(r: Reply) { r.Status? && r.code < 300 && r.parses }

  /** The bounds that a delay draws from are positive, unless it panics. */
  lemma BoundsPositiveIff(c: RetryConfig, upper: int)
    requires Positive(c) && c.initialBackoff < upper <= MAX_DURATION && 0 < c.maxJitter <= MAX_DURATION
    ensures c.strategy == Full ==> (Wrap(c.maxJitter + 1) > 0 <==> !Panics(c))
    ensures Wrap(c.maxJitter / 2 + 1) > 0 && Wrap(upper - c.initialBackoff + 1) > 0
  {
    if c.maxJitter == MAX_DURATION {
      WrapsNegative(c.maxJitter + 1);
    }
  }

  /** Attempt i meets reply(i); cancelled(i) says that the context ends during the delay after it.
      Requests are sent until one is final, the delay is cancelled or the attempts are used up, with
      the specified delay, reported to the caller, after each but the last; where drawing a delay panics, the first delay does. */
  method WriteLog(config: RetryConfig, reply: nat -> Reply, draws: nat -> nat, cancelled: nat -> bool)
      returns (ok: bool, sent: nat, delays: nat, slept: int, panicked: bool, reported: seq<int>)
    ensures var c := Normalize(config);
            && 1 <= sent <= c.maxAttempts
            && (forall i :: 1 <= i < sent ==> !Final(reply(i)) && !cancelled(i))
            && (panicked <==> Panics(c) && c.maxAttempts > 1 && !Final(reply(1)))
            && (panicked ==> sent == 1 && delays == 0)
            && (panicked || sent == c.maxAttempts || Final(reply(sent)) || cancelled(sent))
            && delays == (if !panicked && sent < c.maxAttempts && !Final(reply(sent)) then sent else sent - 1)
            && slept == TotalDelay(c, draws, delays)
            && reported == Listed(Delays(c, draws), delays) && slept == Sum(reported)
    ensures ok <==> Succeeds(reply(sent))
    ensures 1 <= sent && (sent > 1 ==> sent <= config.maxAttempts)
    ensures forall i :: 1 <= i < sent ==> reply(i).NoReply? || reply(i).code == 429 || reply(i).code >= 500
    ensures !panicked && !cancelled(sent) && sent < config.maxAttempts ==>
              reply(sent).Status? && reply(sent).code != 429 && reply(sent).code < 500
    ensures ok <==> reply(sent).Status? && reply(sent).code < 300 && reply(sent).parses
  {
    ok, sent, delays, slept, panicked, reported := Attempt(Normalize(config), reply, draws, cancelled);
    ListedAdds(Delays(Normalize(config), draws), delays);
    TotalIsSum(Normalize(config), draws, delays);
  }

  /** The delay after attempt `k`, and the base delay of the next. */
  method NextWait(c: RetryConfig, draws: nat -> nat, k: nat, backoff: int, previousDelay: int) returns (delay: int, next: int)
    requires k >= 1 && backoff == Backoffs(c)(k)
    requires previousDelay == if k == 1 then c.initialBackoff else Delays(c, draws)(k - 1)
    ensures delay == Delays(c, draws)(k) && next == Backoffs(c)(k + 1)
  {
    delay := ComputeRetryDelay(backoff, previousDelay, c, draws(k));
    next := NextBackoff(backoff, c);
  }

  method Attempt(c: RetryConfig, reply: nat -> Reply, draws: nat -> nat, cancelled: nat -> bool)
      returns (ok: bool, sent: nat, delays: nat, slept: int, panicked: bool, reported: seq<int>)
    requires c.maxAttempts >= 1
    ensures 1 <= sent <= c.maxAttempts
    ensures forall i :: 1 <= i < sent ==> !Final(reply(i)) && !cancelled(i)
    ensures panicked <==> Panics(c) && c.maxAttempts > 1 && !Final(reply(1))
    ensures panicked ==> sent == 1 && delays == 0
    ensures panicked || sent == c.maxAttempts || Final(reply(sent)) || cancelled(sent)
    ensures delays == if !panicked && sent < c.maxAttempts && !Final(reply(sent)) then sent else sent - 1
    ensures reported == Listed(Delays(c, draws), delays) && slept == SumTo(Delays(c, draws), delays)
    ensures ok <==> Succeeds(reply(sent))
  {
    var backoff, previousDelay := c.initialBackoff, c.initialBackoff;
    ok, sent, delays, slept, panicked, reported := false, 0, 0, 0, false, [];
    while true
      invariant 0 <= sent == delays < c.maxAttempts
      invariant forall i :: 1 <= i <= sent ==> !Final(reply(i)) && !cancelled(i)
      invariant sent > 0 ==> !Panics(c)
      invariant backoff == Backoffs(c)(sent + 1)
      invariant previousDelay == if sent == 0 then c.initialBackoff else Delays(c, draws)(sent)
      invariant reported == Listed(Delays(c, draws), sent) && slept == SumTo(Delays(c, draws), sent)
      decreases c.maxAttempts - sent
    {
      sent := sent + 1;
      if Final(reply(sent)) {
        return Succeeds(reply(sent)), sent, delays, slept, false, reported;
      }
      if sent == c.maxAttempts {
        return false, sent, delays, slept, false, reported;
      }
      if Panics(c) {
        return false, sent, delays, slept, true, reported;
      }
      var delay;
      delay, backoff := NextWait(c, draws, sent, backoff, previousDelay);
      slept, delays, reported := slept + delay, sent, reported + [delay];
      if cancelled(sent) {
        return false, sent, delays, slept, false, reported;
      }
      previousDelay := delay;
    }
  }
}
