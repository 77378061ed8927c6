/** The ticket queue's records, its keys in the store, and the transactions it commits. */
module Tickets {
  import opened Etcd

  datatype Option<+T> = None | Some(value: T)

  datatype NodeId = Node(id: nat)

  /** When a ticket is for: a scheduled fire (whole seconds), or a unique manual stamp. */
  datatype Sched = Fire(at: int) | Manual(tag: nat)

  datatype Stamp = Stamp(job: int, sched: Sched)

  datatype Ticket = Ticket(
    job: int, sched: Sched, name: string, command: string, timeoutSec: int, maxRetries: int,
    noOverlap: bool, attempt: nat, notBefore: Option<int>, manual: bool)

  datatype Status = Blank | Success | Failed | Timeout | FailedPermanent | Skipped | Abandoned

  datatype Result = Result(job: int, sched: Sched, attempt: int, node: NodeId, status: Status, exitCode: int)

  datatype Key =
    | Pending(stamp: Stamp)
    | Claimed(stamp: Stamp)
    | Overlap(job: int)
    | Watermark(job: int)
    | ResultAt(stamp: Stamp, attempt: int)

  datatype Value =
    | VTicket(ticket: Ticket)
    | VNode(node: NodeId)
    | VTime(at: int)
    | VResult(result: Result)

  type QStore = Store<Key, Value>
  type QEntry = Entry<Value>
  type QTxn = Txn<Key, Value>

  function StampOf(t: Ticket): Stamp { Stamp(t.job, t.sched) }

  /** The watermark of a job, when there is one that reads as a time. */
  function WatermarkOf(s: QStore, job: int): Option<int> {
    if Watermark(job) in s.kv && s.kv[Watermark(job)].value.VTime? then Some(s.kv[Watermark(job)].value.at) else None
  }

  /** What a ticket keeps for its whole life: everything but the retry bookkeeping. */
  function Static(t: Ticket): Ticket { t.(attempt := 0, notBefore := None) }

  /** No attempt will follow a result with such a status. */
  predicate Terminal(s: Status) {
    s in {Success, FailedPermanent, Skipped, Abandoned}
  }

  // ------------------------------------------------------------------ transactions

  function OverlapRelease(t: Ticket): seq<Op<Key, Value>> {
    if t.noOverlap then [Delete(Overlap(t.job))] else []
  }

  function EnqueueTxn(t: Ticket): QTxn {
    Txn([VersionIs(Pending(StampOf(t)), 0)], [Put(Pending(StampOf(t)), VTicket(t), NO_LEASE)], [])
  }

  function EnqueueFireTxn(t: Ticket, wm: int): QTxn {
    Txn([VersionIs(Pending(StampOf(t)), 0)],
        [Put(Pending(StampOf(t)), VTicket(t), NO_LEASE), Put(Watermark(t.job), VTime(wm), NO_LEASE)],
        [])
  }

  function AdvanceTxn(job: int, wm: int): QTxn {
    Txn([], [Put(Watermark(job), VTime(wm), NO_LEASE)], [])
  }

  /** `t` is the ticket read under `s` at mod revision `rev`, its attempt already raised. */
  function ClaimTxn(node: NodeId, s: Stamp, rev: nat, t: Ticket, lease: nat, overlapLease: nat): QTxn {
    Txn([VersionIs(Claimed(s), 0), ModRevIs(Pending(s), rev)]
        + (if t.noOverlap then [VersionIs(Overlap(t.job), 0)] else []),
        [Put(Claimed(s), VNode(node), lease), Put(Pending(s), VTicket(t), NO_LEASE)]
        + (if t.noOverlap then [Put(Overlap(t.job), VNode(node), overlapLease)] else []),
        [])
  }

  function SkipTxn(node: NodeId, s: Stamp, rev: nat, t: Ticket): QTxn {
    Txn([ModRevIs(Pending(s), rev)],
        [Delete(Pending(s)),
         Put(ResultAt(StampOf(t), t.attempt),
             VResult(Result(t.job, t.sched, t.attempt, node, Skipped, 0)), NO_LEASE)],
        [])
  }

  function Publish(t: Ticket, res: Result): Op<Key, Value> {
    Put(ResultAt(StampOf(t), t.attempt), VResult(res), NO_LEASE)
  }

  function FinishSuccessTxn(node: NodeId, t: Ticket, res: Result): QTxn {
    var s := StampOf(t);
    Txn([ValueIs(Claimed(s), VNode(node))],
        [Delete(Pending(s)), Delete(Claimed(s)), Publish(t, res)] + OverlapRelease(t),
        [Publish(t, res)])
  }

  predicate GivesUp(t: Ticket) { t.attempt > t.maxRetries }

  function FailureResult(t: Ticket, res: Result): Result {
    res.(status := if GivesUp(t) then FailedPermanent else if res.status.Blank? then Failed else res.status)
  }

  function Retried(t: Ticket, now: int): Ticket { t.(notBefore := Some(Seconds(Backoff(t.attempt, now)))) }

  function FinishFailureTxn(node: NodeId, t: Ticket, res: Result, now: int): QTxn {
    var s := StampOf(t);
    var pub := Publish(t, FailureResult(t, res));
    Txn([ValueIs(Claimed(s), VNode(node))],
        [if GivesUp(t) then Delete(Pending(s)) else Put(Pending(s), VTicket(Retried(t, now)), NO_LEASE),
         Delete(Claimed(s)), pub] + OverlapRelease(t),
        [pub])
  }

  function AbandonTxn(node: NodeId, t: Ticket): QTxn {
    Txn([VersionIs(Claimed(StampOf(t)), 0)],
        [Delete(Pending(StampOf(t))),
         Put(ResultAt(StampOf(t), t.attempt),
             VResult(Result(t.job, t.sched, t.attempt, node, Abandoned, 0)), NO_LEASE)],
        [])
  }

  // ------------------------------------------------------------------ backoff

  const NS: int := 1_000_000_000
  const MAX_BACKOFF: int := 300 * NS
  const TWO63: int := 0x8000_0000_0000_0000
  const TWO64: int := 0x1_0000_0000_0000_0000

  /** Two's-complement wrap to 64 bits. */
  function Wrap64(x: int): int { (x + TWO63) % TWO64 - TWO63 }

  function Pow2(n: nat): nat { if n == 0 then 1 else 2 * Pow2(n - 1) }

  /** `1 << uint(n)` on a 64-bit integer: a negative count turns into a huge one. */
  function ShiftOne(n: int): int { if 0 <= n < 64 then Wrap64(Pow2(n)) else 0 }

  /** Instants in nanoseconds; a duration is a 64-bit count of nanoseconds. */
  function Backoff(attempt: int, now: int): int {
    var d := Wrap64(ShiftOne(attempt) * NS);
    now + (if d > MAX_BACKOFF then MAX_BACKOFF else d)
  }

  /** The timestamp text keeps whole seconds only. */
  function Seconds(t: int): int { t / NS }

  /** The scan passes over a ticket whose retry time is still ahead of `now`. */
  predicate Ready(t: Ticket, now: int) { t.notBefore.None? || t.notBefore.value * NS <= now }
}
