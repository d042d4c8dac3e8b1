/**
 * Sample-rate arithmetic of `configure()` for the 48 MHz timer clock, on exact
 * rationals, and the time `Session::end()` waits for a run.
 */
module Rate {
  import opened Wrappers

  const CLOCK: nat := 48_000_000
  const MIN_PERIOD: nat := 240
  const MAX_PERIOD: nat := 24_000
  /** BUFFER_TIME (20 ms) in clock cycles. */
  const BUFFER_CYCLES: nat := 960_000

  /** `round(a / b)`, halves up. */
  function RoundDiv(a: nat, b: nat): nat
    requires b > 0
  {
    (2 * a + b) / (2 * b)
  }

  /** The clock period before it is clamped: rounded, then halved by an integer conversion. */
  function RawPeriod(rate: nat): nat
    requires rate > 0
  {
    RoundDiv(CLOCK, rate) / 2
  }

  function Period(rate: nat): (m: nat)
    requires rate > 0
    ensures MIN_PERIOD <= m <= MAX_PERIOD
  {
    if RawPeriod(rate) < MIN_PERIOD then MIN_PERIOD
    else if RawPeriod(rate) > MAX_PERIOD then MAX_PERIOD
    else RawPeriod(rate)
  }

  /** The rate reported for a period. */
  function RateOf(m: nat): nat
    requires m > 0
  {
    RoundDiv(CLOCK, 2 * m)
  }

  /** Packets per transfer: half the buffer time, rounded up. */
  function Packets(m: nat): nat
    requires m > 0
  {
    CeilDiv(BUFFER_CYCLES, 2 * CHUNK * m)
  }

  class RateSettings {
    var samPer: nat
    var packets: nat
    var samples: nat

    constructor ()
      ensures samPer == 0 && packets == 0 && samples == 0
    {
      samPer, packets, samples := 0, 0, 0;
    }

    /** The arithmetic of `configure()`; allocation of transfers is not part of this model. */
    method Configure(sampleRate: nat) returns (rateSet: nat)
      requires sampleRate > 0
      modifies this
      ensures samPer == Period(sampleRate) && rateSet == RateOf(samPer)
      ensures packets == Packets(samPer) && samples == CHUNK * packets
    {
      samPer := RoundDiv(CLOCK, sampleRate) / 2;
      if samPer < MIN_PERIOD {
        samPer := MIN_PERIOD;
      } else if samPer > MAX_PERIOD {
        samPer := MAX_PERIOD;
      }
      rateSet := RoundDiv(CLOCK, 2 * samPer);
      packets := CeilDiv(BUFFER_CYCLES, 2 * CHUNK * samPer);
      samples := packets * CHUNK;
    }
  }

  // ---- Rounding ----

  /** `q` is `a / b` rounded: no further from it than a half. */
  predicate Rounded(a: nat, b: nat, q: nat) {
    2 * (q * b) <= 2 * a + b < 2 * (q * b) + 2 * b
  }

  lemma RoundDivRounds(a: nat, b: nat)
    requires b > 0
    ensures Rounded(a, b, RoundDiv(a, b))
  {
    var n, d := 2 * a + b, 2 * b;
    assert n == d * (n / d) + n % d;
    assert d * (n / d) == 2 * ((n / d) * b);
  }

  lemma MulMono(x: int, y: int, z: nat)
    ensures x <= y ==> x * z <= y * z
  {
  }

  lemma RoundedUnique(a: nat, b: nat, p: nat, q: nat)
    requires Rounded(a, b, p) && Rounded(a, b, q)
    ensures p == q
  {
    MulMono(p + 1, q, b);
    MulMono(q + 1, p, b);
    assert (p + 1) * b == p * b + b && (q + 1) * b == q * b + b;
  }

  lemma RoundDivUnique(a: nat, b: nat, q: nat)
    requires b > 0 && Rounded(a, b, q)
    ensures RoundDiv(a, b) == q
  {
    RoundDivRounds(a, b);
    RoundedUnique(a, b, RoundDiv(a, b), q);
  }

  /** A larger divisor never gives a larger rounded quotient. */
  lemma RoundedAntitone(a: nat, b: nat, c: nat, p: nat, q: nat)
    requires Rounded(a, b, p) && Rounded(a, c, q) && 0 < b <= c
    ensures q <= p
  {
    MulMono(p + 1, q, c);
    MulMono(b, c, p);
    assert (p + 1) * c == p * c + c && p * b == b * p && p * c == c * p;
  }

  lemma RoundDivAntitone(a: nat, b: nat, c: nat)
    requires 0 < b <= c
    ensures RoundDiv(a, c) <= RoundDiv(a, b)
  {
    RoundDivRounds(a, b);
    RoundDivRounds(a, c);
    RoundedAntitone(a, b, c, RoundDiv(a, b), RoundDiv(a, c));
  }

  // ---- Rate error ----

  /** In the documented range the clamp is never used. */
  lemma ClampInactive(rate: nat)
    requires 1000 <= rate <= 100_000
    ensures Period(rate) == RawPeriod(rate)
  {
    RoundDivAntitone(CLOCK, rate, 100_000);
    RoundDivAntitone(CLOCK, 1000, rate);
  }

  /**
   * Rate error.  For every requested rate r in 1000..100000 with period m the
   * rate set is off by at most 3r/(4m) + 1/2, hence never by more than 313
   * samples per second.
   */
  lemma RateError(rate: nat)
    requires 1000 <= rate <= 100_000
    ensures var m, off := Period(rate), Off(rate, RateOf(Period(rate)));
            4 * (m * off) <= 3 * rate + 2 * m && off <= 313
  {
    ClampInactive(rate);
    var k := RoundDiv(CLOCK, rate);
    RoundDivRounds(CLOCK, rate);
    RoundDivRounds(CLOCK, 2 * (k / 2));
    ErrorBound(rate, k, k / 2, RateOf(k / 2));
  }

  function Off(rate: nat, rateSet: nat): nat {
    if rateSet >= rate then rateSet - rate else rate - rateSet
  }

  /** The two roundings, in units of half a sample times the period. */
  lemma OffByRounding(rate: nat, k: nat, m: nat, rateSet: nat)
    requires k == 2 * m || k == 2 * m + 1
    requires Rounded(CLOCK, rate, k) && Rounded(CLOCK, 2 * m, rateSet)
    ensures 4 * (m * Off(rate, rateSet)) <= 3 * rate + 2 * m
  {
    var want, got := m * rate, m * rateSet;
    assert k == 2 * m ==> k * rate == 2 * want;
    assert k == 2 * m + 1 ==> k * rate == 2 * want + rate;
    assert rateSet * (2 * m) == 2 * got;
    LinearOff(rate, m, want, got, k * rate);
    Distributes(rateSet, rate, m);
    Distributes(rate, rateSet, m);
    Commutes(Off(rate, rateSet), m);
    Commutes(rate, m);
    Commutes(rateSet, m);
  }

  lemma LinearOff(rate: nat, m: nat, want: nat, got: nat, rounded: nat)
    requires rounded == 2 * want || rounded == 2 * want + rate
    requires 2 * rounded <= 2 * CLOCK + rate < 2 * rounded + 2 * rate
    requires 4 * got <= 2 * CLOCK + 2 * m < 4 * got + 4 * m
    ensures 4 * (got - want) <= 3 * rate + 2 * m && 4 * (want - got) <= 3 * rate + 2 * m
  {
  }

  lemma ErrorBound(rate: nat, k: nat, m: nat, rateSet: nat)
    requires 0 < rate <= 100_000 && m >= MIN_PERIOD && (k == 2 * m || k == 2 * m + 1)
    requires Rounded(CLOCK, rate, k) && Rounded(CLOCK, 2 * m, rateSet)
    ensures 4 * (m * Off(rate, rateSet)) <= 3 * rate + 2 * m && Off(rate, rateSet) <= 313
  {
    OffByRounding(rate, k, m, rateSet);
    MulMono(314, Off(rate, rateSet), m);
    Commutes(Off(rate, rateSet), m);
  }

  lemma Commutes(a: int, b: int)
    ensures a * b == b * a
  {
  }

  /** Asking for more never sets less. */
  lemma RateMonotone(r: nat, s: nat)
    requires 0 < r <= s
    ensures RateOf(Period(r)) <= RateOf(Period(s))
  {
    RoundDivAntitone(CLOCK, r, s);
    RoundDivAntitone(CLOCK, 2 * Period(s), 2 * Period(r));
  }

  /** Fixed point: a rate set above twice its period is configured to itself. */
  lemma RateFixedPoint(m: nat)
    requires MIN_PERIOD <= m <= MAX_PERIOD && RateOf(m) > 2 * m
    ensures Period(RateOf(m)) == m
  {
    var s := RateOf(m);
    RoundDivRounds(CLOCK, 2 * m);
    assert s * (2 * m) == (2 * m) * s;
    RoundDivUnique(CLOCK, s, 2 * m);
  }

  /**
   * Exactly when a rate is configured to itself: the set rate s of a period m
   * gives m again just when (4m - 1)s <= 2 * CLOCK < (4m + 3)s.
   */
  lemma RateFixedExactly(m: nat)
    requires MIN_PERIOD <= m <= MAX_PERIOD
    ensures var s := RateOf(m);
            Period(s) == m <==> 4 * (m * s) - s <= 2 * CLOCK < 4 * (m * s) + 3 * s
  {
    var s := RateOf(m);
    TransferWithinSecond(m);
    Ends();
    RoundDivRounds(CLOCK, s);
    HalvesTo(m, s, RoundDiv(CLOCK, s));
  }

  lemma HalvesTo(m: nat, s: nat, k: nat)
    requires m > 0 && s > 0 && Rounded(CLOCK, s, k)
    ensures k / 2 == m <==> 4 * (m * s) - s <= 2 * CLOCK < 4 * (m * s) + 3 * s
  {
    Multiples(m, k, s);
    LinearHalves(m, k, s, m * s, k * s);
  }

  lemma LinearHalves(m: nat, k: nat, s: nat, target: nat, rounded: nat)
    requires s > 0 && 2 * rounded <= 2 * CLOCK + s < 2 * rounded + 2 * s
    requires k < 2 * m ==> rounded <= 2 * target - s
    requires k >= 2 * m ==> rounded >= 2 * target
    requires k <= 2 * m + 1 ==> rounded <= 2 * target + s
    requires k >= 2 * m + 2 ==> rounded >= 2 * target + 2 * s
    ensures k / 2 == m <==> 4 * target - s <= 2 * CLOCK < 4 * target + 3 * s
  {
    assert k / 2 == m <==> 2 * m <= k <= 2 * m + 1;
  }

  /** Where a multiple of `s` lies among the multiples around `2m`. */
  lemma Multiples(m: nat, k: nat, s: nat)
    ensures k < 2 * m ==> k * s <= 2 * (m * s) - s
    ensures k >= 2 * m ==> k * s >= 2 * (m * s)
    ensures k <= 2 * m + 1 ==> k * s <= 2 * (m * s) + s
    ensures k >= 2 * m + 2 ==> k * s >= 2 * (m * s) + 2 * s
  {
    MulMono(k, 2 * m - 1, s);
    MulMono(2 * m, k, s);
    MulMono(k, 2 * m + 1, s);
    MulMono(2 * m + 2, k, s);
    Distributes(2 * m, 1, s);
    Distributes(2 * m, -1, s);
    Distributes(2 * m, -2, s);
    assert (2 * m) * s == 2 * (m * s);
  }

  /** At both ends of the range the rate is exact. */
  lemma Ends()
    ensures RateOf(MIN_PERIOD) == 100_000 && RawPeriod(100_000) == MIN_PERIOD
    ensures RateOf(MAX_PERIOD) == 1000 && RawPeriod(1000) == MAX_PERIOD
  {
  }

  /** Slow rates can drift: asking for 6902 sets 6903, and asking for 6903 sets 6904. */
  lemma SlowRateDrifts()
    ensures RateOf(Period(6902)) == 6903 && RateOf(Period(6903)) == 6904
  {
    RoundDivUnique(CLOCK, 6902, 6955);
    RoundDivUnique(CLOCK, 2 * 3477, 6903);
    RoundDivUnique(CLOCK, 6903, 6953);
    RoundDivUnique(CLOCK, 2 * 3476, 6904);
  }

  // ---- Waiting for a run ----

  /** A transfer never holds more than one second of samples. */
  lemma TransferWithinSecond(m: nat)
    requires MIN_PERIOD <= m <= MAX_PERIOD
    ensures 0 < CHUNK * Packets(m) <= RateOf(m) <= 100_000
  {
    CeilDivCovers(BUFFER_CYCLES, 2 * CHUNK * m);
    RoundDivRounds(CLOCK, 2 * m);
    WithinSecond(m, Packets(m), RateOf(m));
  }

  /**
   * Two transfers hold the buffer time, at one clock period per sample as the
   * code counts it, and with any fewer packets they would not.  A sample takes
   * two periods at the reported rate, so one transfer alone holds it.
   */
  lemma TransfersHoldBuffer(m: nat, packets: nat)
    requires m > 0
    ensures packets < Packets(m) <==> 2 * (CHUNK * packets * m) < BUFFER_CYCLES
  {
    var block := 2 * CHUNK * m;
    CeilDivCovers(BUFFER_CYCLES, block);
    assert 2 * (CHUNK * packets * m) == packets * block;
    assert block * Packets(m) == Packets(m) * block;
    MulMono(packets + 1, Packets(m), block);
    MulMono(Packets(m), packets, block);
    assert (packets + 1) * block == packets * block + block;
  }

  lemma WithinSecond(m: nat, p: nat, rate: nat)
    requires MIN_PERIOD <= m <= MAX_PERIOD && Rounded(CLOCK, 2 * m, rate)
    requires BUFFER_CYCLES <= (2 * CHUNK * m) * p < BUFFER_CYCLES + 2 * CHUNK * m
    ensures 0 < CHUNK * p <= rate <= 100_000
  {
    assert (2 * CHUNK * m) * p == 2 * (CHUNK * p * m) && rate * (2 * m) == 2 * (rate * m);
    MulMono(rate + 1, CHUNK * p, m);
    assert (rate + 1) * m == rate * m + m;
    MulMono(100_001, rate, m);
  }

  /** Samples sent in a run of `n`, padding included. */
  function PaddedRun(n: nat, m: nat): nat
    requires MIN_PERIOD <= m <= MAX_PERIOD
  {
    TransferWithinSecond(m);
    CHUNK * Packets(m) * CeilDiv(n, CHUNK * Packets(m))
  }

  /** Seconds `end()` waits; the sample count is kept in 32 bits. */
  function WaitSeconds(n: nat, rate: nat): nat {
    if rate == 0 then 0 else n % WRAP / rate + 2
  }

  lemma DivBounds(n: nat, d: nat)
    requires d > 0
    ensures d * (n / d) <= n < d * (n / d) + d
  {
  }

  /**
   * The wait covers the padded run.  At every configurable rate R the samples
   * of a run of N, padding included, take strictly less time at R samples per
   * second than `end()` waits, if and only if N fits in 32 bits.
   */
  lemma WaitCoversRun(n: nat, m: nat)
    requires MIN_PERIOD <= m <= MAX_PERIOD
    ensures PaddedRun(n, m) < RateOf(m) * WaitSeconds(n, RateOf(m)) <==> n < WRAP
  {
    TransferWithinSecond(m);
    var rate, size := RateOf(m), CHUNK * Packets(m);
    CeilDivCovers(n, size);
    var low := n % WRAP;
    DivBounds(low, rate);
    assert rate * (low / rate + 2) == rate * (low / rate) + 2 * rate;
    if n < WRAP {
      assert low == n;
    } else {
      DivBounds(n, WRAP);
      assert n - low >= WRAP;
    }
  }

  // ---- Waiting, measured by the clock ----

  /** Clock cycles by which a second at the reported rate exceeds a real one; negative for rates rounded down. */
  function Excess(m: nat): int
    requires MIN_PERIOD <= m <= MAX_PERIOD
  {
    RateOf(m) * (2 * m) - CLOCK
  }

  /** Samples by which the wait exceeds the padded run, at the reported rate. */
  function Slack(n: nat, m: nat): int
    requires MIN_PERIOD <= m <= MAX_PERIOD
  {
    TransferWithinSecond(m);
    2 * RateOf(m) - n % RateOf(m) - (PaddedRun(n, m) - n)
  }

  /** The device streams CLOCK / (2m) samples per second; the padded run ends before the wait does. */
  predicate TrulyCovered(n: nat, m: nat)
    requires MIN_PERIOD <= m <= MAX_PERIOD
  {
    2 * m * PaddedRun(n, m) < CLOCK * WaitSeconds(n, RateOf(m))
  }

  /** The slack is at least two samples and at most two seconds. */
  lemma SlackBounds(n: nat, m: nat)
    requires MIN_PERIOD <= m <= MAX_PERIOD
    ensures 2 <= RateOf(m) - CHUNK * Packets(m) + 2 <= Slack(n, m) <= 2 * RateOf(m)
  {
    TransferWithinSecond(m);
    CeilDivCovers(n, CHUNK * Packets(m));
  }

  lemma SlackIsWait(n: nat, m: nat)
    requires MIN_PERIOD <= m <= MAX_PERIOD && n < WRAP
    ensures RateOf(m) * WaitSeconds(n, RateOf(m)) == PaddedRun(n, m) + Slack(n, m)
  {
    TransferWithinSecond(m);
    WholeSeconds(n, RateOf(m));
  }

  lemma WholeSeconds(n: nat, rate: nat)
    requires rate > 0
    ensures rate * (n / rate + 2) == n - n % rate + 2 * rate
  {
    DivBounds(n, rate);
    assert n == rate * (n / rate) + n % rate;
  }

  lemma TwoPeriods(m: nat, rate: nat, wait: nat, run: nat, slack: int)
    requires rate * wait == run + slack
    ensures 2 * m * run == (rate * (2 * m)) * wait - 2 * m * slack
  {
    assert (rate * (2 * m)) * wait == 2 * m * (rate * wait) == 2 * m * run + 2 * m * slack;
  }

  lemma Distributes(a: int, b: int, w: int)
    ensures (a - b) * w == a * w - b * w
  {
  }

  /**
   * Exactly when the wait is long enough by the clock: the run fits in 32 bits,
   * and the excess of the reported rate, gathered over the seconds waited, is
   * less than the time of the slack.
   */
  lemma TrueWaitExactly(n: nat, m: nat)
    requires MIN_PERIOD <= m <= MAX_PERIOD
    ensures TrulyCovered(n, m)
            <==> n < WRAP && Excess(m) * WaitSeconds(n, RateOf(m)) < 2 * m * Slack(n, m)
  {
    TransferWithinSecond(m);
    var rate, wait := RateOf(m), WaitSeconds(n, RateOf(m));
    if n < WRAP {
      SlackIsWait(n, m);
      TwoPeriods(m, rate, wait, PaddedRun(n, m), Slack(n, m));
      Distributes(rate * (2 * m), CLOCK, wait);
      assert CLOCK * wait == rate * (2 * m) * wait - Excess(m) * wait;
    } else {
      TooLong(n, m);
    }
  }

  /** A count that was narrowed always leaves too short a wait. */
  lemma TooLong(n: nat, m: nat)
    requires MIN_PERIOD <= m <= MAX_PERIOD && n >= WRAP
    ensures !TrulyCovered(n, m)
  {
    var rate, low := RateOf(m), n % WRAP;
    RoundDivRounds(CLOCK, 2 * m);
    PaddedCovers(n, m);
    LowPart(n);
    DivBounds(low, rate);
    Narrow(n, low, m, rate, low / rate);
    MulMono(n, PaddedRun(n, m), 2 * m);
    Swap(PaddedRun(n, m), m);
  }

  lemma PaddedCovers(n: nat, m: nat)
    requires MIN_PERIOD <= m <= MAX_PERIOD
    ensures n <= PaddedRun(n, m) && 0 < RateOf(m) <= 100_000
  {
    TransferWithinSecond(m);
    CeilDivCovers(n, CHUNK * Packets(m));
  }

  lemma LowPart(n: nat)
    requires n >= WRAP
    ensures n % WRAP + WRAP <= n
  {
    DivBounds(n, WRAP);
  }

  lemma Swap(x: int, m: int)
    ensures x * (2 * m) == 2 * m * x
  {
  }

  lemma Narrow(n: nat, low: nat, m: nat, rate: nat, seconds: nat)
    requires MIN_PERIOD <= m <= MAX_PERIOD && Rounded(CLOCK, 2 * m, rate) && 0 < rate <= 100_000
    requires low < WRAP && low + WRAP <= n && rate * seconds <= low
    ensures CLOCK * (seconds + 2) <= n * (2 * m)
  {
    var wait := seconds + 2;
    assert CLOCK <= rate * (2 * m) + m by {
      assert 2 * (rate * (2 * m)) + 2 * (2 * m) > 2 * CLOCK + 2 * m;
    }
    MulMono(CLOCK, rate * (2 * m) + m, wait);
    assert (rate * (2 * m) + m) * wait == (rate * wait) * (2 * m) + wait * m;
    assert rate * wait == rate * seconds + 2 * rate;
    assert seconds <= low by {
      MulMono(1, rate, seconds);
    }
    MulMono(2 * (rate * wait) + wait, 2 * n, m);
    assert (2 * (rate * wait) + wait) * m == (rate * wait) * (2 * m) + wait * m;
    assert (2 * n) * m == n * (2 * m);
  }

  /**
   * So a rate that is exact or rounded down never leaves too short a wait, and
   * a rate rounded up does not while the excess stays below the least slack.
   */
  lemma TrueWaitCovers(n: nat, m: nat)
    requires MIN_PERIOD <= m <= MAX_PERIOD && n < WRAP
    requires Excess(m) <= 0
      || Excess(m) * WaitSeconds(n, RateOf(m)) < 2 * m * (RateOf(m) - CHUNK * Packets(m) + 2)
    ensures TrulyCovered(n, m)
  {
    TransferWithinSecond(m);
    SlackBounds(n, m);
    TrueWaitExactly(n, m);
    LeastSlack(m, Excess(m), WaitSeconds(n, RateOf(m)), RateOf(m) - CHUNK * Packets(m) + 2, Slack(n, m));
  }

  lemma LeastSlack(m: nat, excess: int, wait: nat, least: int, slack: int)
    requires m > 0 && 2 <= least <= slack && (excess <= 0 || excess * wait < 2 * m * least)
    ensures excess * wait < 2 * m * slack
  {
    MulMono(least, slack, 2 * m);
    MulMono(excess, 0, wait);
    MulMono(1, slack, 2 * m);
    Commutes(2 * m, least);
    Commutes(2 * m, slack);
  }

  /** Conversely it is too short from the length on at which the excess reaches two seconds of samples. */
  lemma TrueWaitMisses(n: nat, m: nat)
    requires MIN_PERIOD <= m <= MAX_PERIOD
    requires Excess(m) * WaitSeconds(n, RateOf(m)) >= 4 * m * RateOf(m)
    ensures !TrulyCovered(n, m)
  {
    SlackBounds(n, m);
    TrueWaitExactly(n, m);
    MulMono(Slack(n, m), 2 * RateOf(m), 2 * m);
    assert (2 * RateOf(m)) * (2 * m) == 4 * m * RateOf(m);
  }

  /** Such a run: at period 23988 (1001 samples/s) 2^22 samples are enough. */
  lemma WaitMissesTrueRate()
    ensures RateOf(23_988) == 1001 && !TrulyCovered(4_194_304, 23_988)
  {
    RoundDivUnique(CLOCK, 2 * 23_988, 1001);
    assert 4_194_304 / 1001 == 4190 && 4_194_304 % WRAP == 4_194_304;
    assert WaitSeconds(4_194_304, 1001) == 4192 && Excess(23_988) == 23_976;
    TrueWaitMisses(4_194_304, 23_988);
  }
}
