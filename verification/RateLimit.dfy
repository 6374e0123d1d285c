/** Fixed-window rate limits per tenant, actor and action (`HostedRateLimiter`). */
module RateLimit {
  /** Tenant, actor and action. */
  type Key = (string, string, string)

  datatype Policy = Policy(requests: nat, window: nat)

  /** `hosted_rate_windows`: request counts by key and window start. */
  type Counts = map<(Key, int), nat>

  datatype Decision = Decision(allowed: bool, remaining: int, retryAfter: int)

  datatype Call = Call(key: Key, now: int)

  predicate ValidPolicy(p: Policy) {
    p.requests >= 1 && p.window >= 1
  }

  function WindowStart(p: Policy, now: int): int
    requires ValidPolicy(p)
  {
    now - now % p.window
  }

  function CountOf(counts: Counts, key: Key, start: int): nat {
    if (key, start) in counts then counts[(key, start)] else 0
  }

  function Consume(p: Policy, counts: Counts, c: Call): (Counts, Decision)
    requires ValidPolicy(p)
  {
    var start := WindowStart(p, c.now);
    var current := CountOf(counts, c.key, start);
    if current >= p.requests then
      (counts, Decision(false, 0, if start + p.window - c.now > 1 then start + p.window - c.now else 1))
    else
      (counts[(c.key, start) := current + 1], Decision(true, p.requests - (current + 1), 0))
  }

  class RateLimiter {
    const policy: Policy
    var counts: Counts

    constructor (policy: Policy)
      requires ValidPolicy(policy)
      ensures this.policy == policy && counts == map[]
    {
      this.policy := policy;
      counts := map[];
    }

    /** One call; a refusal changes nothing. */
    method ConsumeOne(key: Key, now: int) returns (d: Decision)
      requires ValidPolicy(policy)
      modifies this
      ensures (counts, d) == Consume(policy, old(counts), Call(key, now))
    {
      var start := now - now % policy.window;
      var current := if (key, start) in counts then counts[(key, start)] else 0;
      if current >= policy.requests {
        var wait := start + policy.window - now;
        return Decision(false, 0, if wait > 1 then wait else 1);
      }
      counts := counts[(key, start) := current + 1];
      d := Decision(true, policy.requests - (current + 1), 0);
    }
  }

  // ---------------------------------------------------------------------
  // Runs of calls, in any order of clock readings
  // ---------------------------------------------------------------------

  function After(p: Policy, calls: seq<Call>): Counts
    requires ValidPolicy(p)
  {
    if calls == [] then map[] else Consume(p, After(p, calls[..|calls| - 1]), calls[|calls| - 1]).0
  }

  /** The decision on a call made after `calls`. */
  function DecisionAfter(p: Policy, calls: seq<Call>, c: Call): Decision
    requires ValidPolicy(p)
  {
    Consume(p, After(p, calls), c).1
  }

  /** Allowed calls of a key with lo <= now < hi. */
  function AllowedIn(p: Policy, calls: seq<Call>, key: Key, lo: int, hi: int): nat
    requires ValidPolicy(p)
  {
    if calls == [] then 0
    else
      var front, c := calls[..|calls| - 1], calls[|calls| - 1];
      AllowedIn(p, front, key, lo, hi)
      + (if c.key == key && lo <= c.now < hi && DecisionAfter(p, front, c).allowed then 1 else 0)
  }

  lemma {:induction false} Multiple(k: int, w: int)
    requires w >= 1
    ensures k >= 1 ==> k * w >= w
    ensures k <= -1 ==> k * w <= -w
    decreases if k >= 0 then k else -k
  {
    if k > 1 {
      Multiple(k - 1, w);
      assert k * w == (k - 1) * w + w;
    } else if k < -1 {
      Multiple(k + 1, w);
      assert k * w == (k + 1) * w - w;
    }
  }

  /** Division by a window is unique. */
  lemma {:induction false} Divided(x: int, w: int, q: int, r: int)
    requires w >= 1 && x == q * w + r && 0 <= r < w
    ensures x % w == r && x - x % w == q * w
  {
    assert x == (x / w) * w + x % w;
    assert (x / w - q) * w == (x / w) * w - q * w;
    Multiple(x / w - q, w);
  }

  lemma {:induction false} WindowOf(p: Policy, now: int, start: int)
    requires ValidPolicy(p) && start % p.window == 0
    ensures start <= now < start + p.window <==> WindowStart(p, now) == start
  {
    var w := p.window;
    assert start == (start / w) * w;
    if start <= now < start + w {
      Divided(now, w, start / w, now - start);
    }
  }

  /** The stored count of a window is the number of calls allowed in it, and never more
      than the limit. */
  lemma {:induction false} WindowCountExact(p: Policy, calls: seq<Call>, key: Key, start: int)
    requires ValidPolicy(p) && start % p.window == 0
    ensures CountOf(After(p, calls), key, start) == AllowedIn(p, calls, key, start, start + p.window) <= p.requests
  {
    if calls != [] {
      WindowCountExact(p, calls[..|calls| - 1], key, start);
      WindowOf(p, calls[|calls| - 1].now, start);
    }
  }

  /** A call is refused exactly when its window already holds the limit. */
  lemma {:induction false} RefusedIffFull(p: Policy, calls: seq<Call>, c: Call)
    requires ValidPolicy(p)
    ensures var start := WindowStart(p, c.now);
      DecisionAfter(p, calls, c).allowed <==> AllowedIn(p, calls, c.key, start, start + p.window) < p.requests
  {
    StartAligned(p, c.now);
    WindowCountExact(p, calls, c.key, WindowStart(p, c.now));
  }

  lemma {:induction false} StartAligned(p: Policy, now: int)
    requires ValidPolicy(p)
    ensures WindowStart(p, now) % p.window == 0 && WindowStart(p, now) <= now < WindowStart(p, now) + p.window
  {
    var w := p.window;
    assert now == (now / w) * w + now % w;
    MultipleAligned(now / w, w);
  }

  lemma {:induction false} MultipleAligned(k: int, w: nat)
    requires w >= 1
    ensures (k * w) % w == 0
  {
    Divided(k * w, w, k, 0);
  }

  lemma {:induction false} AllowedSplit(p: Policy, calls: seq<Call>, key: Key, lo: int, mid: int, hi: int)
    requires ValidPolicy(p) && lo <= mid <= hi
    ensures AllowedIn(p, calls, key, lo, hi) == AllowedIn(p, calls, key, lo, mid) + AllowedIn(p, calls, key, mid, hi)
  {
    if calls != [] {
      AllowedSplit(p, calls[..|calls| - 1], key, lo, mid, hi);
    }
  }

  /** Any stretch of one window's length, aligned or not, sees at most twice the limit. */
  lemma {:induction false} AnyIntervalTwiceLimit(p: Policy, calls: seq<Call>, key: Key, lo: int, hi: int)
    requires ValidPolicy(p) && lo <= hi <= lo + p.window
    ensures AllowedIn(p, calls, key, lo, hi) <= 2 * p.requests
  {
    var start := WindowStart(p, lo);
    var next := start + p.window;
    StartAligned(p, lo);
    MultipleAligned(lo / p.window + 1, p.window);
    assert next == (lo / p.window + 1) * p.window;
    WindowCountExact(p, calls, key, start);
    WindowCountExact(p, calls, key, next);
    AllowedSplit(p, calls, key, start, next, next + p.window);
    AllowedSplit(p, calls, key, start, lo, next + p.window);
    AllowedSplit(p, calls, key, lo, hi, next + p.window);
  }

  function Repeated(base: seq<Call>, c: Call, n: nat): seq<Call> {
    if n == 0 then base else Repeated(base, c, n - 1) + [c]
  }

  lemma {:induction false} OneMoreAllowed(p: Policy, calls: seq<Call>, c: Call, start: int, lo: int, hi: int)
    requires ValidPolicy(p) && WindowStart(p, c.now) == start && lo <= c.now < hi
    requires CountOf(After(p, calls), c.key, start) < p.requests
    ensures AllowedIn(p, calls + [c], c.key, lo, hi) == AllowedIn(p, calls, c.key, lo, hi) + 1
    ensures CountOf(After(p, calls + [c]), c.key, start) == CountOf(After(p, calls), c.key, start) + 1
    ensures forall other :: other != start ==> CountOf(After(p, calls + [c]), c.key, other) == CountOf(After(p, calls), c.key, other)
  {
    assert (calls + [c])[..|calls|] == calls;
  }

  /** Repeating a call that the window has room for is allowed every time. */
  lemma {:induction false} RepeatedAllowed(p: Policy, base: seq<Call>, c: Call, start: int, n: nat, lo: int, hi: int)
    requires ValidPolicy(p) && WindowStart(p, c.now) == start && lo <= c.now < hi
    requires CountOf(After(p, base), c.key, start) + n <= p.requests
    ensures var calls := Repeated(base, c, n);
      && AllowedIn(p, calls, c.key, lo, hi) == AllowedIn(p, base, c.key, lo, hi) + n
      && CountOf(After(p, calls), c.key, start) == CountOf(After(p, base), c.key, start) + n
      && forall other :: other != start ==> CountOf(After(p, calls), c.key, other) == CountOf(After(p, base), c.key, other)
  {
    if n > 0 {
      RepeatedAllowed(p, base, c, start, n - 1, lo, hi);
      OneMoreAllowed(p, Repeated(base, c, n - 1), c, start, lo, hi);
    }
  }

  /** The bound is reached: a full burst at the end of a window and one at the start of
      the next are all allowed within two seconds, which is one window or less unless a
      window is a single second. */
  lemma {:induction false} TwiceLimitReached(p: Policy, key: Key)
    requires ValidPolicy(p) && p.window >= 2
    ensures var early := Repeated([], Call(key, p.window - 1), p.requests);
      AllowedIn(p, Repeated(early, Call(key, p.window), p.requests), key, p.window - 1, p.window + 1) == 2 * p.requests
  {
    var w := p.window;
    Divided(w - 1, w, 0, w - 1);
    Divided(w, w, 1, 0);
    RepeatedAllowed(p, [], Call(key, w - 1), 0, p.requests, w - 1, w + 1);
    RepeatedAllowed(p, Repeated([], Call(key, w - 1), p.requests), Call(key, w), w, p.requests, w - 1, w + 1);
  }

  /** With windows of a single second any stretch of that length is a window, and the limit
      itself is the bound. */
  lemma {:induction false} OneSecondWindows(p: Policy, calls: seq<Call>, key: Key, lo: int, hi: int)
    requires ValidPolicy(p) && p.window == 1 && lo <= hi <= lo + 1
    ensures AllowedIn(p, calls, key, lo, hi) <= p.requests
  {
    Divided(lo, 1, lo, 0);
    WindowCountExact(p, calls, key, lo);
    AllowedSplit(p, calls, key, lo, hi, lo + 1);
  }

  /** A refusal's wait is one to a window long and ends exactly where the next window
      starts; a call there is allowed unless others already filled that window. */
  lemma {:induction false} RetryAfterExact(p: Policy, calls: seq<Call>, c: Call, between: seq<Call>)
    requires ValidPolicy(p) && !DecisionAfter(p, calls, c).allowed
    ensures var retry := DecisionAfter(p, calls, c).retryAfter;
      var next := c.now + retry;
      && 1 <= retry <= p.window
      && next == WindowStart(p, c.now) + p.window == WindowStart(p, next)
      && (DecisionAfter(p, calls + [c] + between, Call(c.key, next)).allowed <==>
            AllowedIn(p, calls + [c] + between, c.key, next, next + p.window) < p.requests)
  {
    StartAligned(p, c.now);
    var next := WindowStart(p, c.now) + p.window;
    MultipleAligned(c.now / p.window + 1, p.window);
    assert next == (c.now / p.window + 1) * p.window;
    WindowOf(p, next, next);
    RefusedIffFull(p, calls + [c] + between, Call(c.key, next));
  }

  /** What an answer says besides: how many calls the window has left, and nothing to wait for,
      when the call is allowed; nothing left when it is refused. */
  lemma {:induction false} AnswerExact(p: Policy, calls: seq<Call>, c: Call)
    requires ValidPolicy(p)
    ensures var d, start := DecisionAfter(p, calls, c), c.now - c.now % p.window;
      && (d.allowed ==> d.remaining == p.requests - AllowedIn(p, calls + [c], c.key, start, start + p.window) && d.retryAfter == 0)
      && (!d.allowed ==> d.remaining == 0)
  {
    StartAligned(p, c.now);
    var start := WindowStart(p, c.now);
    WindowCountExact(p, calls, c.key, start);
    assert (calls + [c])[..|calls|] == calls;
  }
}
