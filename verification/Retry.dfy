/** Retrying an operation with exponential backoff. */
module Retry {

  datatype ErrorKind =
    | Identity | KeyStore | KeyRotation | Crypto | Handshake | KeyDerivation | Connection | Transport | Timeout
    | Address | NoRoute | Routing | Discovery | Service | Config | Storage | ProtocolMismatch | InvalidPacket
    | Io | Serialization | Internal
  {
    predicate IsRetryable() { Connection? || Timeout? || Transport? || Discovery? || Io? }
  }

  datatype Outcome<+T> = Ok(value: T) | Err(kind: ErrorKind) {
    /** A transient failure: a connection, timeout, transport, discovery or input/output error. */
    predicate Transient() { Err? && kind in {Connection, Timeout, Transport, Discovery, Io} }
  }

  /** Intervals in seconds. */
  datatype RetryPolicy = RetryPolicy(maxRetries: nat, initialInterval: real, maxInterval: real, multiplier: real) {
    predicate Valid() { initialInterval >= 0.0 && maxInterval >= 0.0 && multiplier >= 0.0 }
  }

  function Min(a: real, b: real): (r: real) { if a < b then a else b }

  /** The wait after a wait of `x`. */
  function Next(p: RetryPolicy, x: real): (r: real) { Min(x * p.multiplier, p.maxInterval) }

  /** The k-th wait; the first one is not capped. */
  function Interval(p: RetryPolicy, k: nat): (r: real) {
    if k == 0 then p.initialInterval else Next(p, Interval(p, k - 1))
  }

  /** `x` is the smaller of the two. */
  predicate IsSmaller(x: real, a: real, b: real) {
    x <= a && x <= b && (x == a || x == b)
  }

  /** The first wait is the initial interval; each later one is the one before times the multiplier, capped. */
  ghost predicate BacksOff(p: RetryPolicy, waits: seq<real>) {
    && (waits != [] ==> waits[0] == p.initialInterval)
    && forall i, j {:trigger waits[i], waits[j]} | 0 <= i < |waits| && j == i + 1 < |waits| ::
         IsSmaller(waits[j], waits[i] * p.multiplier, p.maxInterval)
  }

  /** `op(i)` is the outcome of the i-th run of the operation. */
  method RetryAsync<T>(p: RetryPolicy, op: nat -> Outcome<T>) returns (r: Outcome<T>, runs: nat, waits: seq<real>)
    ensures 1 <= runs <= p.maxRetries + 1 && r == op(runs - 1)
    ensures forall i | 0 <= i < runs - 1 :: op(i).Transient()
    ensures op(runs - 1).Transient() ==> runs == p.maxRetries + 1
    ensures BacksOff(p, waits)
    ensures |waits| == runs - 1 && forall k {:trigger waits[k]} | 0 <= k < |waits| :: waits[k] == Interval(p, k)
  {
    waits := [];
    if p.maxRetries == 0 {
      return op(0), 1, waits;
    }
    var attempts := 0;
    var currentInterval := p.initialInterval;
    while true
      invariant 0 <= attempts <= p.maxRetries && |waits| == attempts
      invariant currentInterval == Interval(p, attempts)
      invariant forall i | 0 <= i < attempts :: op(i).Transient()
      invariant BacksOff(p, waits) && (waits != [] ==> currentInterval == Next(p, waits[|waits| - 1]))
      invariant forall k {:trigger waits[k]} | 0 <= k < |waits| :: waits[k] == Interval(p, k)
      decreases p.maxRetries - attempts
    {
      r := op(attempts);
      if r.Ok? {
        return r, attempts + 1, waits;
      } else if r.kind.IsRetryable() && attempts < p.maxRetries {
        attempts := attempts + 1;
        OneMoreWait(p, waits, currentInterval);
        waits := waits + [currentInterval];
        currentInterval := Next(p, currentInterval);
      } else {
        return r, attempts + 1, waits;
      }
    }
  }

  lemma OneMoreWait(p: RetryPolicy, waits: seq<real>, x: real)
    requires BacksOff(p, waits)
    requires if waits == [] then x == p.initialInterval else x == Next(p, waits[|waits| - 1])
    ensures BacksOff(p, waits + [x])
  {
  }

  // ----- How long it waits

  function Power(x: real, k: nat): (r: real) {
    if k == 0 then 1.0 else x * Power(x, k - 1)
  }

  function Uncapped(p: RetryPolicy, k: nat): (r: real) {
    p.initialInterval * Power(p.multiplier, k)
  }

  /** The textbook backoff: uncapped growth, capped once. */
  function Textbook(p: RetryPolicy, k: nat): (r: real) {
    Min(Uncapped(p, k), p.maxInterval)
  }

  lemma UncappedStep(p: RetryPolicy, k: nat)
    ensures Uncapped(p, 0) == p.initialInterval
    ensures Uncapped(p, k + 1) == Uncapped(p, k) * p.multiplier
  {
    var i, m, q := p.initialInterval, p.multiplier, Power(p.multiplier, k);
    assert i * (m * q) == i * q * m;
  }

  lemma {:induction false} UncappedNonNegative(p: RetryPolicy, k: nat)
    requires p.Valid()
    ensures Uncapped(p, k) >= 0.0
    decreases k
  {
    if k == 0 {
      UncappedStep(p, 0);
    } else {
      UncappedNonNegative(p, k - 1);
      UncappedStep(p, k - 1);
    }
  }

  /** Capping before and after a growing step is capping after it. */
  lemma NextOfCapped(p: RetryPolicy, x: real)
    requires p.Valid() && p.multiplier >= 1.0 && x >= 0.0
    ensures Next(p, Min(x, p.maxInterval)) == Next(p, x)
  {
    var c, m := p.maxInterval, p.multiplier;
    if x >= c {
      ProductNonNegative(c, m - 1.0);
      ProductNonNegative(x, m - 1.0);
    }
  }

  /** A shrinking step from below the cap stays below it. */
  lemma NextOfSmall(p: RetryPolicy, x: real)
    requires p.Valid() && p.multiplier < 1.0 && 0.0 <= x <= p.maxInterval
    ensures Next(p, x) == x * p.multiplier <= p.maxInterval
  {
    ProductNonNegative(x, 1.0 - p.multiplier);
  }

  lemma ProductNonNegative(a: real, b: real)
    requires a >= 0.0 && b >= 0.0
    ensures a * b >= 0.0
  {
  }

  /** One growing step, with `x` and `x'` uncapped and `y` and `y'` capped. */
  lemma GrowingStep(p: RetryPolicy, x: real, x': real, y: real, y': real)
    requires p.Valid() && p.multiplier >= 1.0 && x >= 0.0
    requires x' == x * p.multiplier && y == Min(x, p.maxInterval) && y' == Next(p, y)
    ensures y' == Min(x', p.maxInterval)
  {
    NextOfCapped(p, x);
  }

  /** With a multiplier of at least one, capping at every step is capping once. */
  lemma {:induction false} GrowingBackoff(p: RetryPolicy, k: nat)
    requires p.Valid() && p.multiplier >= 1.0 && k > 0
    ensures Interval(p, k) == Textbook(p, k)
    decreases k
  {
    UncappedStep(p, k - 1);
    if k > 1 {
      GrowingBackoff(p, k - 1);
      UncappedNonNegative(p, k - 1);
      GrowingStep(p, Uncapped(p, k - 1), Uncapped(p, k), Interval(p, k - 1), Interval(p, k));
    }
  }

  /** With a smaller multiplier the cap never bites once the first step is below it. */
  lemma {:induction false} ShrinkingBackoff(p: RetryPolicy, k: nat)
    requires p.Valid() && p.multiplier < 1.0 && p.initialInterval * p.multiplier <= p.maxInterval && k > 0
    ensures Interval(p, k) == Uncapped(p, k) <= p.maxInterval
    decreases k
  {
    UncappedStep(p, k - 1);
    if k > 1 {
      ShrinkingBackoff(p, k - 1);
      UncappedNonNegative(p, k - 1);
      NextOfSmall(p, Uncapped(p, k - 1));
      assert Interval(p, k) == Next(p, Uncapped(p, k - 1));
    }
  }

  lemma ZeroCap(p: RetryPolicy, k: nat)
    requires p.Valid() && p.maxInterval == 0.0 && k > 0
    ensures Interval(p, k) == Textbook(p, k)
  {
    UncappedNonNegative(p, k);
    IntervalNonNegative(p, k - 1);
    assert Interval(p, k - 1) * p.multiplier >= 0.0;
  }

  lemma {:induction false} IntervalNonNegative(p: RetryPolicy, k: nat)
    requires p.Valid()
    ensures Interval(p, k) >= 0.0
    decreases k
  {
    if k > 0 {
      IntervalNonNegative(p, k - 1);
      assert Interval(p, k - 1) * p.multiplier >= 0.0;
    }
  }

  /** A first step above the cap with a shrinking multiplier: the second wait is too short. */
  lemma CappedTooEarly(p: RetryPolicy)
    requires p.Valid() && p.multiplier < 1.0 && p.initialInterval * p.multiplier > p.maxInterval > 0.0
    ensures Interval(p, 2) < Textbook(p, 2)
  {
    var m, c, x := p.multiplier, p.maxInterval, Uncapped(p, 1);
    UncappedStep(p, 0);
    UncappedStep(p, 1);
    assert Interval(p, 1) == Next(p, Interval(p, 0)) == c;
    assert m > 0.0;
    assert c * (1.0 - m) > 0.0;
    assert (x - c) * m > 0.0;
    assert Interval(p, 2) == Next(p, c) == c * m;
  }

  /**
   * Every wait after the first is `min(initial * multiplier^k, max)` exactly when the intervals grow,
   * or the first step already stays below the cap, or the cap is zero.
   */
  lemma BackoffIsTextbookIff(p: RetryPolicy)
    requires p.Valid()
    ensures (forall k: nat | k > 0 :: Interval(p, k) == Textbook(p, k)) <==>
            (p.multiplier >= 1.0 || p.initialInterval * p.multiplier <= p.maxInterval || p.maxInterval == 0.0)
  {
    if p.multiplier >= 1.0 || p.initialInterval * p.multiplier <= p.maxInterval || p.maxInterval == 0.0 {
      forall k: nat | k > 0 ensures Interval(p, k) == Textbook(p, k) {
        if p.multiplier >= 1.0 {
          GrowingBackoff(p, k);
        } else if p.maxInterval == 0.0 {
          ZeroCap(p, k);
        } else {
          ShrinkingBackoff(p, k);
        }
      }
    } else {
      CappedTooEarly(p);
      assert Interval(p, 2) != Textbook(p, 2);
    }
  }

  function Total(waits: seq<real>): (r: real) {
    if waits == [] then 0.0 else Total(waits[..|waits| - 1]) + waits[|waits| - 1]
  }

  lemma LaterWaitsAreCapped(p: RetryPolicy, k: nat)
    requires k > 0
    ensures Interval(p, k) <= p.maxInterval
  {
  }

  ghost predicate Capped(waits: seq<real>, first: real, cap: real) {
    waits != [] && waits[0] <= first && forall k {:trigger waits[k]} | 0 < k < |waits| :: waits[k] <= cap
  }

  lemma {:induction false} SumIsBounded(waits: seq<real>, first: real, cap: real, later: nat)
    requires Capped(waits, first, cap) && cap >= 0.0 && |waits| <= later + 1
    ensures Total(waits) <= first + later as real * cap
    decreases |waits|
  {
    var n := |waits|;
    if n == 1 {
      assert waits[..0] == [];
      ProductNonNegative(later as real, cap);
    } else {
      SumIsBounded(waits[..n - 1], first, cap, later - 1);
      OneMore(later - 1, cap);
    }
  }

  lemma OneMore(n: nat, c: real)
    ensures (n + 1) as real * c == n as real * c + c
  {
  }

  lemma WaitsAreCapped(p: RetryPolicy, waits: seq<real>)
    requires waits != [] && forall k {:trigger waits[k]} | 0 <= k < |waits| :: waits[k] == Interval(p, k)
    ensures Capped(waits, p.initialInterval, p.maxInterval)
  {
    forall k | 0 < k < |waits| ensures waits[k] <= p.maxInterval {
      LaterWaitsAreCapped(p, k);
    }
  }

  /** Total waiting is at most the first interval plus the cap for each later retry the policy allows. */
  lemma TotalWaitIsBounded(p: RetryPolicy, waits: seq<real>)
    requires p.Valid() && 1 <= |waits| <= p.maxRetries
    requires forall k {:trigger waits[k]} | 0 <= k < |waits| :: waits[k] == Interval(p, k)
    ensures Total(waits) <= p.initialInterval + (p.maxRetries - 1) as real * p.maxInterval
  {
    assert Capped(waits, p.initialInterval, p.maxInterval) by { WaitsAreCapped(p, waits); }
    SumIsBounded(waits, p.initialInterval, p.maxInterval, p.maxRetries - 1);
  }
}
