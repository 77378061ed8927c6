/** A failed run and the polls that come after it: when the ticket is there to be taken again. */
module Retries {
  import opened AtomicTickets
  import opened QueueCode
  import opened QueueEffects
  import opened QueueInvariant
  import opened QueueMachine
  import opened RetryDelay
  import opened Tickets

  /** The run's node owns its claim, and its ticket has a retry left. */
  predicate MayRetry(sys: Sys, id: nat) {
    && id in sys.execs
    && var e := sys.execs[id];
      OwnedBy(sys.store.kv, StampOf(e.ticket), e.node) && e.ticket.attempt <= e.ticket.maxRetries
  }

  /** What the failure leaves in the store: the ticket with its retry time, and neither claim nor lock. */
  lemma RequeuedIn(sys: Sys, id: nat, out: bool, code: int, now: int)
    requires Inv(sys) && MayRetry(sys, id) && sys.execs[id].ticket.maxRetries <= 10
    ensures
      var t, kv := sys.execs[id].ticket, Apply(sys, FinishFailure(id, out, code, now)).store.kv;
      && t.attempt >= 1 && Pending(StampOf(t)) in kv
      && kv[Pending(StampOf(t))].value ==
           VTicket(t.(notBefore := Some((now + Delay(t.attempt)) / 1_000_000_000)))
      && Claimed(StampOf(t)) !in kv && (t.noOverlap ==> Overlap(t.job) !in kv)
  {
    var e := sys.execs[id];
    BackoffExact(e.ticket.attempt, now);
    FinishFailureEffect(sys.store, e.node, e.ticket, RunResult(e, Fault(out), code), now);
  }

  /**
   A retry that was not touched since the failure at `now` is free for a poll at `scan`, its lock being free, if and
   only if the delay has passed, counted from `now` and rounded down to the second.
   */
  lemma RetryIsFreeIff(sys: Sys, id: nat, out: bool, code: int, now: int, st: QStore, scan: int)
    requires Inv(sys) && MayRetry(sys, id) && sys.execs[id].ticket.maxRetries <= 10
    requires
      var t, failed := sys.execs[id].ticket, Apply(sys, FinishFailure(id, out, code, now));
      && Pending(StampOf(t)) in st.kv && Pending(StampOf(t)) in failed.store.kv
      && st.kv[Pending(StampOf(t))] == failed.store.kv[Pending(StampOf(t))]
      && Claimed(StampOf(t)) !in st.kv && (t.noOverlap ==> Overlap(t.job) !in st.kv)
    ensures
      var t := sys.execs[id].ticket;
      && t.attempt >= 1
      && (AnyFree(st, [Read(StampOf(t), st.kv[Pending(StampOf(t))])], scan) <==>
            (now + Delay(t.attempt)) / 1_000_000_000 * 1_000_000_000 <= scan)
  {
    RequeuedIn(sys, id, out, code, now);
    var t := sys.execs[id].ticket;
    var o := Read(StampOf(t), st.kv[Pending(StampOf(t))]);
    assert [o][0] == o;
  }

  /** A poll that may take one ticket of its window by itself may take a ticket of the window. */
  lemma FreeAmong(st: QStore, window: seq<Read>, i: nat, scan: int)
    requires i < |window| && AnyFree(st, [window[i]], scan)
    ensures AnyFree(st, window, scan)
  {
    assert [window[i]][0] == window[i];
  }

  /** What the poll takes is free, and comes before every other free ticket of its window. */
  lemma TakesTheFirst(st: QStore, mid: QStore, st': QStore, window: seq<Read>, n: nat, scan: int, won: Step, i: nat)
    requires TakesAt(st, mid, st', window, n, scan, won) && i < |window| && AnyFree(st, [window[i]], scan)
    ensures n <= i && AnyFree(st, [window[n]], scan)
  {
    assert [window[i]][0] == window[i] && [window[n]][0] == window[n];
    assert Takeable(st, window[i], scan);
  }

  /**
   From the delay on, an undisturbed poll that finds the retry in its window, its lock being free, returns a ticket
   (`QueueCode.Queue.ClaimNext` does exactly when `AnyFree`): this one, or one that comes before it.
   */
  lemma RetryIsTaken(sys: Sys, id: nat, out: bool, code: int, now: int, st: QStore, scan: int, window: seq<Read>,
                     i: nat)
    requires Inv(sys) && MayRetry(sys, id) && sys.execs[id].ticket.maxRetries <= 10
    requires
      var s, failed := StampOf(sys.execs[id].ticket), Apply(sys, FinishFailure(id, out, code, now));
      && i < |window| && window[i].key == s && Pending(s) in failed.store.kv
      && Pending(s) in st.kv && st.kv[Pending(s)] == window[i].entry == failed.store.kv[Pending(s)]
      && Claimed(s) !in st.kv && (sys.execs[id].ticket.noOverlap ==> Overlap(s.job) !in st.kv)
    requires sys.execs[id].ticket.attempt >= 0 && now + Delay(sys.execs[id].ticket.attempt) <= scan
    ensures AnyFree(st, window, scan)
    ensures forall mid, st', n: nat, won | TakesAt(st, mid, st', window, n, scan, won) :: n <= i
  {
    RetryIsFreeIff(sys, id, out, code, now, st, scan);
    FreeAmong(st, window, i, scan);
    forall mid, st', n: nat, won | TakesAt(st, mid, st', window, n, scan, won) ensures n <= i {
      TakesTheFirst(st, mid, st', window, n, scan, won, i);
    }
  }
}
