/** The retry delay: what it is for every attempt a validated job can reach, and where it breaks. */
module RetryDelay {
  import opened Tickets
  import opened QueueMachine
  import opened AtomicTickets

  /** The largest retry count a job may ask for. */
  const MAX_RETRIES: int := 10

  function Delay(attempt: nat): int { (if Pow2(attempt) < 300 then Pow2(attempt) else 300) * NS }

  lemma {:induction false} Pow2Grows(a: nat, b: nat)
    requires a <= b
    ensures 1 <= Pow2(a) <= Pow2(b)
    decreases b
  {
    if a < b {
      Pow2Grows(a, b - 1);
    } else if a > 0 {
      Pow2Grows(a - 1, b - 1);
    }
  }

  /** `2^(a+b)` from its halves, for concrete exponents. */
  lemma {:induction false} Pow2Sum(a: nat, b: nat)
    ensures Pow2(a + b) == Pow2(a) * Pow2(b)
  {
    if b > 0 { Pow2Sum(a, b - 1); }
  }

  lemma Pow2Values()
    ensures Pow2(8) == 256 && Pow2(9) == 512 && Pow2(33) == 8589934592 && Pow2(34) == 17179869184
  {
    assert Pow2(4) == 16;
    Pow2Sum(4, 4);
    Pow2Sum(8, 8);
    Pow2Sum(16, 16);
  }

  /** Up to attempt 33 nothing overflows: the delay is the power of two, capped at five minutes. */
  lemma BackoffExact(attempt: nat, now: int)
    requires attempt <= 33
    ensures Backoff(attempt, now) == now + Delay(attempt)
  {
    Pow2Values();
    Pow2Grows(attempt, 33);
  }

  /** At attempt 34 the 64-bit product wraps to a negative delay: the retry time lies in the past. */
  lemma BackoffWrapsAt34(now: int)
    ensures Backoff(34, now) < now
  {
    Pow2Values();
  }

  lemma DelayMonotone(a: nat, b: nat)
    requires a <= b
    ensures NS <= Delay(a) <= Delay(b) <= MAX_BACKOFF
  {
    Pow2Grows(a, b);
  }

  /** The delays, one by one: 2 seconds before the first retry, then twice as long each time, and never above 300. */
  lemma DelaySeconds(attempt: nat)
    ensures Delay(1) == 2_000_000_000 && Delay(2) == 4_000_000_000
    ensures 1 <= attempt <= 8 ==> Delay(attempt) == 2 * Delay(attempt - 1) <= 256_000_000_000
    ensures attempt >= 9 ==> Delay(attempt) == 300_000_000_000
  {
    Pow2Values();
    if attempt <= 8 { Pow2Grows(attempt, 8); } else { Pow2Grows(9, attempt); }
  }

  /**
   A requeue leaves the ticket queued with its retry time at the delay from the finish, rounded
   down to the second, for every retry count a job may have.
   */
  lemma RequeueWaits(sys: Sys, id: nat, out: bool, code: int, now: int)
    requires Inv(sys) && id in sys.execs
    requires Label(sys, FinishFailure(id, out, code, now), StampOf(sys.execs[id].ticket)).Retry?
    requires sys.execs[id].ticket.maxRetries <= MAX_RETRIES
    ensures
      var t := sys.execs[id].ticket;
      var sys' := Apply(sys, FinishFailure(id, out, code, now));
      && Inv(sys') && PhaseOf(sys', StampOf(t)).Queued?
      && var p := PhaseOf(sys', StampOf(t)).t;
      && 1 <= t.attempt <= MAX_RETRIES
      && p.notBefore.Some?
      && p.notBefore.value * NS <= now + Delay(t.attempt) < (p.notBefore.value + 1) * NS
      && (forall scan: int | Ready(p, scan) :: now + Delay(t.attempt) - NS < scan)
  {
    var t := sys.execs[id].ticket;
    StepRefines(sys, FinishFailure(id, out, code, now), StampOf(t));
    BackoffExact(t.attempt, now);
  }
}
