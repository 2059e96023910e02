// Retry budget and exponential backoff of the queue topology. Durations are
// nanoseconds held in a signed 64-bit integer.
module Backoff {

  const DEFAULT_MAX_RETRY_ATTEMPTS := 3
  const DEFAULT_RETRY_BASE_DELAY := 2_000_000_000
  const NANOS_PER_MILLI := 1_000_000
  const TWO_TO_63 := 0x8000_0000_0000_0000
  const TWO_TO_64 := 0x1_0000_0000_0000_0000

  // The two settings of the RabbitMQ configuration that shape retries.
  datatype Config = Config(maxRetryAttempts: int, retryBaseDelay: int)

  function MaxAttempts(cfg: Config): (n: int)
    ensures n >= 1
    ensures n == cfg.maxRetryAttempts || (cfg.maxRetryAttempts <= 0 && n == 3)
  {
    if cfg.maxRetryAttempts > 0 then cfg.maxRetryAttempts else DEFAULT_MAX_RETRY_ATTEMPTS
  }

  function BaseDelay(cfg: Config): (d: int)
    ensures d >= 1
    ensures d == cfg.retryBaseDelay || (cfg.retryBaseDelay <= 0 && d == 2_000_000_000)
  {
    if cfg.retryBaseDelay > 0 then cfg.retryBaseDelay else DEFAULT_RETRY_BASE_DELAY
  }

  function Pow2(n: nat): (p: nat)
    ensures p >= 1
    ensures n == 0 ==> p == 1
  {
    if n == 0 then 1 else 2 * Pow2(n - 1)
  }

  // Signed 64-bit wrap-around.
  function Wrap64(x: int): (r: int)
    ensures -TWO_TO_63 <= r < TWO_TO_63
    ensures -TWO_TO_63 <= x < TWO_TO_63 ==> r == x
  {
    (x + TWO_TO_63) % TWO_TO_64 - TWO_TO_63
  }

  lemma {:induction false} Pow2Monotone(m: nat, n: nat)
    requires m <= n
    ensures Pow2(m) <= Pow2(n)
    decreases n
  {
    if m < n {
      Pow2Monotone(m, n - 1);
    }
  }

  // The exact delay before retry number n, without any machine arithmetic.
  function ExactDelay(base: int, n: int): int {
    if n <= 1 then base else base * Pow2(n - 1)
  }

  lemma DoublingStep(base: int, i: int)
    requires i >= 1
    ensures ExactDelay(base, i + 1) == 2 * ExactDelay(base, i)
  {
    assert Pow2(i) == 2 * Pow2(i - 1);
    if i > 1 {
      assert base * Pow2(i) == 2 * (base * Pow2(i - 1));
    } else {
      assert Pow2(0) == 1;
    }
  }

  lemma DelayMonotone(base: int, m: int, n: int)
    requires base >= 1 && m <= n
    ensures ExactDelay(base, m) <= ExactDelay(base, n)
    ensures ExactDelay(base, m) >= 1
  {
    var a, b := if m <= 1 then 0 else m - 1, if n <= 1 then 0 else n - 1;
    Pow2Monotone(a, b);
    assert ExactDelay(base, m) == base * Pow2(a);
    assert ExactDelay(base, n) == base * Pow2(b);
    assert base * Pow2(a) <= base * Pow2(b);
    assert base * Pow2(a) >= 1;
  }

  // The doubling loop. Every doubling wraps like the machine integer does, and
  // the result is the exact delay precisely when that delay fits.
  method RetryDelayForAttempt(cfg: Config, attempt: int) returns (delay: int)
    requires BaseDelay(cfg) < TWO_TO_63
    ensures -TWO_TO_63 <= delay < TWO_TO_63
    ensures delay == ExactDelay(BaseDelay(cfg), attempt) <==> ExactDelay(BaseDelay(cfg), attempt) < TWO_TO_63
  {
    delay := BaseDelay(cfg);
    if attempt <= 1 {
      return;
    }
    var i := 1;
    while i < attempt
      invariant 1 <= i <= attempt
      invariant -TWO_TO_63 <= delay < TWO_TO_63
      invariant ExactDelay(BaseDelay(cfg), i) < TWO_TO_63 ==> delay == ExactDelay(BaseDelay(cfg), i)
    {
      DoublingStep(BaseDelay(cfg), i);
      DelayMonotone(BaseDelay(cfg), i, i + 1);
      delay := Wrap64(delay * 2);
      i := i + 1;
    }
  }

  // The retry budget and the base delay fit their machine types: the retry
  // count is published as a signed 32-bit header, and the longest delay is a
  // signed 64-bit duration.
  predicate ValidConfig(cfg: Config) {
    && MaxAttempts(cfg) < 0x8000_0000
    && ExactDelay(BaseDelay(cfg), MaxAttempts(cfg)) < TWO_TO_63
  }

  // Under a valid configuration no attempt that is ever scheduled overflows.
  lemma ScheduledDelaysFit(cfg: Config, attempt: int)
    requires ValidConfig(cfg) && 1 <= attempt <= MaxAttempts(cfg)
    ensures 1 <= ExactDelay(BaseDelay(cfg), attempt) < TWO_TO_63
    ensures BaseDelay(cfg) < TWO_TO_63
  {
    DelayMonotone(BaseDelay(cfg), attempt, MaxAttempts(cfg));
    DelayMonotone(BaseDelay(cfg), 1, attempt);
  }

  // What the broker honours: the Expiration property is in whole milliseconds.
  function ExpirationNanos(cfg: Config, attempt: int): (d: nat) {
    var d := ExactDelay(BaseDelay(cfg), attempt);
    if d < 0 then 0 else d / NANOS_PER_MILLI * NANOS_PER_MILLI
  }

  // The expiration of attempt n is base times 2 to the n - 1, cut to whole
  // milliseconds.
  lemma ExpirationExactly(cfg: Config, n: nat)
    requires n >= 1
    ensures ExpirationNanos(cfg, n) == BaseDelay(cfg) * Pow2(n - 1) - BaseDelay(cfg) * Pow2(n - 1) % 1_000_000
  {
    ExactIsProduct(BaseDelay(cfg), n);
    CutToMillis(BaseDelay(cfg) * Pow2(n - 1));
  }

  lemma CutToMillis(d: nat)
    ensures d / NANOS_PER_MILLI * NANOS_PER_MILLI == d - d % 1_000_000
  {
  }

  // Total time spent in the retry queue by a message on its n-th retry.
  function TotalBackoff(cfg: Config, n: nat): nat {
    if n == 0 then 0 else TotalBackoff(cfg, n - 1) + ExpirationNanos(cfg, n)
  }

  // One more doubling: b, 2b, 4b, ... add up to one b less than the next term.
  lemma SumStep(b: nat, p: nat)
    requires p >= 1
    ensures b * (2 * p - 1) == b * (p - 1) + b * p
  {
  }

  lemma NextSum(b: nat, n: nat)
    requires n >= 1
    ensures b * (Pow2(n) - 1) == b * (Pow2(n - 1) - 1) + b * Pow2(n - 1)
  {
    SumStep(b, Pow2(n - 1));
  }

  lemma Rounding(d: nat)
    ensures d - NANOS_PER_MILLI < d / NANOS_PER_MILLI * NANOS_PER_MILLI <= d
  {
  }

  // What rounding to milliseconds leaves of the n-th delay.
  lemma ExpirationBounds(cfg: Config, n: nat)
    requires n >= 1
    ensures
      var exact := BaseDelay(cfg) * Pow2(n - 1);
      && exact - NANOS_PER_MILLI < ExpirationNanos(cfg, n) <= exact
      && (BaseDelay(cfg) % NANOS_PER_MILLI == 0 ==> ExpirationNanos(cfg, n) == exact)
  {
    var b, p := BaseDelay(cfg), Pow2(n - 1);
    var exact := ExactDelay(b, n);
    ExactIsProduct(b, n);
    Rounding(exact);
    if b % NANOS_PER_MILLI == 0 {
      WholeMillis(b, p);
    }
  }

  lemma ExactIsProduct(b: nat, n: nat)
    requires n >= 1
    ensures ExactDelay(b, n) == b * Pow2(n - 1) && b * Pow2(n - 1) >= 0
  {
  }

  lemma WholeMillis(b: nat, k: nat)
    requires b % NANOS_PER_MILLI == 0
    ensures (b * k) / NANOS_PER_MILLI * NANOS_PER_MILLI == b * k
  {
    var q := b / NANOS_PER_MILLI;
    assert b * k == (q * k) * NANOS_PER_MILLI;
  }

  // For a base of whole milliseconds the sum has its closed form.
  lemma {:induction false} TotalBackoffClosedForm(cfg: Config, n: nat)
    requires BaseDelay(cfg) % NANOS_PER_MILLI == 0
    ensures TotalBackoff(cfg, n) == BaseDelay(cfg) * (Pow2(n) - 1)
  {
    if n > 0 {
      TotalBackoffClosedForm(cfg, n - 1);
      ExpirationBounds(cfg, n);
      NextSum(BaseDelay(cfg), n);
    }
  }

  // In general the rounding loses less than one millisecond per retry.
  lemma {:induction false} TotalBackoffBounds(cfg: Config, n: nat)
    ensures TotalBackoff(cfg, n) <= BaseDelay(cfg) * (Pow2(n) - 1)
    ensures BaseDelay(cfg) * (Pow2(n) - 1) - n * NANOS_PER_MILLI <= TotalBackoff(cfg, n)
  {
    if n > 0 {
      TotalBackoffBounds(cfg, n - 1);
      ExpirationBounds(cfg, n);
      NextSum(BaseDelay(cfg), n);
    }
  }
}
