/** The reconnect backoff of one connection actor. Times are nanoseconds. */
module Backoff {
  import opened Wrappers

  const MILLISECOND: nat := 1_000_000

  /** Duration::MAX. */
  const DURATION_MAX: nat := 0xFFFF_FFFF_FFFF_FFFF * 1_000_000_000 + 999_999_999

  datatype Retry = Retry(initial: nat, max: nat, delay: nat, retryAt: Option<nat>)

  function Min(a: nat, b: nat): nat {
    if a <= b then a else b
  }

  function AfterFailure(r: Retry, now: nat): Retry {
    var delay := if r.delay == 0 then r.initial else Min(Min(r.delay * 2, DURATION_MAX), r.max);
    r.(delay := delay, retryAt := Some(now + delay))
  }

  function AfterReset(r: Retry): Retry {
    r.(delay := 0, retryAt := None)
  }

  /** Whole milliseconds until the cooldown is over, rounded up and then cut to 64 bits. */
  function RetryAfterMs(r: Retry, now: nat): nat {
    match r.retryAt
    case None => 0
    case Some(at) => ((if at > now then at - now else 0) + MILLISECOND - 1) / MILLISECOND % 0x1_0000_0000_0000_0000
  }

  class ReconnectBackoff {
    const initial: nat
    const max: nat
    var delay: nat
    var retryAt: Option<nat>

    function View(): Retry
      reads this
    {
      Retry(initial, max, delay, retryAt)
    }

    constructor (initial: nat, max: nat)
      ensures View() == Retry(initial, max, 0, None)
    {
      this.initial, this.max, delay, retryAt := initial, max, 0, None;
    }

    method Failed(now: nat)
      modifies this
      ensures View() == AfterFailure(old(View()), now)
    {
      if delay == 0 {
        delay := initial;
      } else {
        delay := Min(Min(delay * 2, DURATION_MAX), max);
      }
      retryAt := Some(now + delay);
    }

    method Reset()
      modifies this
      ensures View() == AfterReset(old(View()))
    {
      delay := 0;
      retryAt := None;
    }
  }

  // What connect accepts: both bounds fit in 32 bits of milliseconds, and initial is at most max.
  predicate Configured(r: Retry) {
    r.initial <= r.max <= 0xFFFF_FFFF * MILLISECOND
  }

  /** The advertised wait is the least number of whole milliseconds after which the cooldown is over. */
  lemma AdvertisesLeastWait(r: Retry, now: nat, ms: nat)
    requires r.retryAt.Some? && r.retryAt.value <= now + 0xFFFF_FFFF * MILLISECOND
    ensures r.retryAt.value <= now + ms * MILLISECOND <==> RetryAfterMs(r, now) <= ms
  {
    var left := if r.retryAt.value > now then r.retryAt.value - now else 0;
    var waits := (left + MILLISECOND - 1) / MILLISECOND;
    assert waits <= 0x1_0000_0000;
    assert RetryAfterMs(r, now) == waits;
  }

  function Pow2(n: nat): (p: nat)
    ensures p >= 1
  {
    if n == 0 then 1 else 2 * Pow2(n - 1)
  }

  /** The delay set by the k-th consecutive failure. */
  function DelayOf(initial: nat, max: nat, k: nat): nat
    requires k > 0
  {
    Min(initial * Pow2(k - 1), max)
  }

  function Failures(r: Retry, times: seq<nat>): Retry {
    if times == [] then r else AfterFailure(Failures(r, times[..|times| - 1]), times[|times| - 1])
  }

  lemma OnceMore(initial: nat, k: nat)
    requires k > 0
    ensures initial * Pow2(k) == 2 * (initial * Pow2(k - 1)) && initial * Pow2(k - 1) >= initial
  {
    TimesAtLeast(initial, Pow2(k - 1));
    assert Pow2(k) == 2 * Pow2(k - 1);
  }

  lemma TimesAtLeast(a: nat, p: nat)
    requires p >= 1
    ensures a * p >= a && a * (2 * p) == 2 * (a * p)
  {
    assert a * p == a + a * (p - 1);
  }

  /** Doubling until the cap: each failure sets the delay to the initial one doubled so often, or to the cap. */
  lemma {:induction false} DelaysDouble(r: Retry, k: nat, now: nat)
    requires Configured(r) && (if k == 0 then r.delay == 0 else r.delay == DelayOf(r.initial, r.max, k))
    ensures AfterFailure(r, now) == r.(delay := DelayOf(r.initial, r.max, k + 1), retryAt := Some(now + DelayOf(r.initial, r.max, k + 1)))
  {
    if k > 0 {
      OnceMore(r.initial, k);
    }
  }

  lemma {:induction false} OutageDelays(r: Retry, times: seq<nat>)
    requires Configured(r) && r.delay == 0 && times != []
    ensures Failures(r, times) ==
      r.(delay := DelayOf(r.initial, r.max, |times|), retryAt := Some(times[|times| - 1] + DelayOf(r.initial, r.max, |times|)))
  {
    var before := times[..|times| - 1];
    if before != [] {
      OutageDelays(r, before);
    }
    DelaysDouble(Failures(r, before), |before|, times[|times| - 1]);
  }
}
