/**
 Choosing the watchdog's period: the shortest of the 70 the hardware can express that is no
 shorter than asked, though the comparison is made in whole microseconds.
*/
module WdtTiming {
  import opened LogFormat

  const PCLKB_HZ: nat := 24_000_000
  const CYCLES: seq<nat> := [128, 512, 1024, 2048, 4096, 8192, 16384]
  const DIVISORS: seq<nat> := [1, 4, 16, 32, 64, 128, 256, 512, 2048, 8192]

  /** One setting's period, in cycles of the peripheral clock. */
  function Period(t: nat, d: nat): nat
    requires t < |CYCLES| && d < |DIVISORS|
  {
    CYCLES[t] * DIVISORS[d]
  }

  /** The period, floored to microseconds as the code compares it. */
  function PeriodUs(t: nat, d: nat): nat
    requires t < |CYCLES| && d < |DIVISORS|
  {
    Period(t, d) * 1_000_000 / PCLKB_HZ
  }

  /** The true period, as a rational number of milliseconds, is at least the request. */
  predicate LongEnough(t: nat, d: nat, requestedMs: nat)
    requires t < |CYCLES| && d < |DIVISORS|
  {
    Period(t, d) as real * 1000.0 / PCLKB_HZ as real >= requestedMs as real
  }

  lemma FloorsDecideTheRequest(t: nat, d: nat, requestedMs: nat)
    requires t < |CYCLES| && d < |DIVISORS|
    ensures PeriodUs(t, d) >= requestedMs * 1000 <==> LongEnough(t, d, requestedMs)
  {
    var period := Period(t, d);
    assert PeriodUs(t, d) == period / 24;
    assert LongEnough(t, d, requestedMs) <==> period as real >= requestedMs as real * 24000.0;
    assert requestedMs as real * 24000.0 == (requestedMs * 24000) as real;
  }

  lemma PeriodsAreMultiples(t: nat, d: nat)
    requires t < |CYCLES| && d < |DIVISORS|
    ensures Period(t, d) == 128 * (CYCLES[t] / 128 * DIVISORS[d])
    ensures Period(t, d) <= 16384 * 8192
  {
    assert CYCLES[t] == 128 * (CYCLES[t] / 128);
    assert CYCLES[t] <= 16384 && DIVISORS[d] <= 8192;
    Products(CYCLES[t], DIVISORS[d], 16384, 8192);
  }

  lemma Products(a: nat, b: nat, c: nat, d: nat)
    requires a <= c && b <= d
    ensures a * b <= c * d
  {
    assert a * b <= c * b <= c * d;
  }

  /** Distinct periods are far enough apart that flooring never makes them tie. */
  lemma FloorsKeepTheOrder(t: nat, d: nat, u: nat, e: nat)
    requires t < |CYCLES| && d < |DIVISORS| && u < |CYCLES| && e < |DIVISORS|
    ensures PeriodUs(t, d) <= PeriodUs(u, e) <==> Period(t, d) <= Period(u, e)
  {
    PeriodsAreMultiples(t, d);
    PeriodsAreMultiples(u, e);
    var (a, b) := (CYCLES[t] / 128 * DIVISORS[d], CYCLES[u] / 128 * DIVISORS[e]);
    assert PeriodUs(t, d) == 128 * a / 24 && PeriodUs(u, e) == 128 * b / 24;
    FloorsOfMultiples(a, b);
  }

  lemma FloorsOfMultiples(a: nat, b: nat)
    ensures 128 * a / 24 <= 128 * b / 24 <==> a <= b
  {
  }

  predicate Shortest(t: nat, d: nat, requestedMs: nat)
    requires t < |CYCLES| && d < |DIVISORS|
  {
    && LongEnough(t, d, requestedMs)
    && forall u: nat, e: nat | u < |CYCLES| && e < |DIVISORS| && LongEnough(u, e, requestedMs) ::
         Period(t, d) <= Period(u, e)
  }

  /** No setting found is the build mistake the assertion halts on: a request over the ceiling. */
  method SelectWdtTiming(requestedMs: u32) returns (found: bool, timeoutOut: nat, divisionOut: nat)
    ensures found <==> requestedMs <= 5592
    ensures found ==>
      timeoutOut < |CYCLES| && divisionOut < |DIVISORS| && Shortest(timeoutOut, divisionOut, requestedMs)
  {
    var bestPeriodUs: nat := 0;
    found, timeoutOut, divisionOut := false, 0, 0;
    for t := 0 to |CYCLES|
      invariant found ==> Chosen(timeoutOut, divisionOut, requestedMs, bestPeriodUs)
      invariant forall u: nat, e: nat | u < t && e < |DIVISORS| && PeriodUs(u, e) >= requestedMs * 1000 ::
        found && bestPeriodUs <= PeriodUs(u, e)
    {
      for d := 0 to |DIVISORS|
        invariant found ==> Chosen(timeoutOut, divisionOut, requestedMs, bestPeriodUs)
        invariant forall u: nat, e: nat | u < t && e < |DIVISORS| && PeriodUs(u, e) >= requestedMs * 1000 ::
          found && bestPeriodUs <= PeriodUs(u, e)
        invariant forall e: nat | e < d && PeriodUs(t, e) >= requestedMs * 1000 ::
          found && bestPeriodUs <= PeriodUs(t, e)
      {
        var periodUs := CYCLES[t] * DIVISORS[d] * 1_000_000 / PCLKB_HZ;
        assert periodUs == PeriodUs(t, d);
        if periodUs >= requestedMs * 1000 && (!found || periodUs < bestPeriodUs) {
          found := true;
          bestPeriodUs := periodUs;
          timeoutOut, divisionOut := t, d;
        }
      }
    }
    Ceiling(requestedMs);
    if found {
      FloorsDecideTheRequest(timeoutOut, divisionOut, requestedMs);
      forall u: nat, e: nat | u < |CYCLES| && e < |DIVISORS| && LongEnough(u, e, requestedMs)
        ensures Period(timeoutOut, divisionOut) <= Period(u, e)
      {
        FloorsDecideTheRequest(u, e, requestedMs);
        FloorsKeepTheOrder(timeoutOut, divisionOut, u, e);
      }
    }
  }

  predicate Chosen(t: nat, d: nat, requestedMs: nat, periodUs: nat) {
    t < |CYCLES| && d < |DIVISORS| && periodUs == PeriodUs(t, d) && periodUs >= requestedMs * 1000
  }

  lemma Ceiling(requestedMs: nat)
    ensures PeriodUs(6, 9) >= requestedMs * 1000 <==> requestedMs <= 5592
    ensures forall t: nat, d: nat | t < |CYCLES| && d < |DIVISORS| :: PeriodUs(t, d) <= PeriodUs(6, 9)
  {
    forall t: nat, d: nat | t < |CYCLES| && d < |DIVISORS|
      ensures PeriodUs(t, d) <= PeriodUs(6, 9)
    {
      PeriodsAreMultiples(t, d);
      FloorsKeepTheOrder(t, d, 6, 9);
    }
  }
}
