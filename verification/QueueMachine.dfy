/**
 The ticket queue as a state machine.  A step is one store call of one node, one lease
 event, or the loss of one execution; between any two steps every other node may act.

 A node may act on anything it has read at any earlier time: `seen` collects every pending
 entry ever returned by a read, so a step that needs a read may use an arbitrarily old one.
 `books` counts, per ticket, what happened to it; no step looks at the counts.
 */
module QueueMachine {
  import opened Etcd
  import opened Tickets

  /** One key-value pair of a pending scan. */
  datatype Read = Read(key: Stamp, entry: QEntry)

  /** A run in progress: the node's own copy of the ticket, as its claim wrote it. */
  datatype Exec = Exec(node: NodeId, ticket: Ticket)

  datatype Book = Book(template: Ticket, enqueues: nat, claims: nat, requeues: nat, expiries: nat, finals: nat)

  datatype Sys = Sys(store: QStore, seen: set<Read>, execs: map<nat, Exec>, nextExec: nat, books: map<Stamp, Book>)

  datatype Step =
    | Enqueue(t: Ticket)
    | EnqueueFire(t: Ticket, wm: int)
    | AdvanceWatermark(job: int, wm: int)
    | DropWatermark(job: int)
    | Observe(s: Stamp)
    | Claim(node: NodeId, o: Read, lease: nat, overlapLease: nat)
    | Skip(node: NodeId, o: Read)
    | FinishSuccess(id: nat, exitCode: int)
    | FinishFailure(id: nat, timedOut: bool, exitCode: int, now: int)
    | Lose(id: nat)
    | Abandon(node: NodeId, t: Ticket)
    | Collect(s: Stamp, attempt: int)
    | Grant(lease: nat)
    | Expire(lease: nat)

  const START: Sys := Sys(Store(0, map[], {}), {}, map[], 0, map[])

  // ------------------------------------------------------------------ books

  function NoteEnqueue(books: map<Stamp, Book>, t: Ticket): map<Stamp, Book> {
    var s := StampOf(t);
    books[s := if s in books then books[s].(enqueues := books[s].enqueues + 1) else Book(Static(t), 1, 0, 0, 0, 0)]
  }

  function NoteClaim(books: map<Stamp, Book>, s: Stamp): map<Stamp, Book> {
    if s in books then books[s := books[s].(claims := books[s].claims + 1)] else books
  }

  function NoteRequeue(books: map<Stamp, Book>, s: Stamp): map<Stamp, Book> {
    if s in books then books[s := books[s].(requeues := books[s].requeues + 1)] else books
  }

  function NoteFinal(books: map<Stamp, Book>, s: Stamp): map<Stamp, Book> {
    if s in books then books[s := books[s].(finals := books[s].finals + 1)] else books
  }

  function NoteExpiry(books: map<Stamp, Book>, store: QStore, l: nat): map<Stamp, Book> {
    map s | s in books ::
      if l in store.leases && Claimed(s) in store.kv && store.kv[Claimed(s)].lease == l
      then books[s].(expiries := books[s].expiries + 1) else books[s]
  }

  // ------------------------------------------------------------------ steps

  /** No attempt made and no retry time set, as in every ticket the scheduler and the manual trigger make. */
  predicate Fresh(t: Ticket) { t.attempt == 0 && t.notBefore.None? }

  /** The claim raises the attempt on the ticket it read; the skip that may follow reuses it. */
  function Bumped(o: Read): Ticket
    requires o.entry.value.VTicket?
  {
    o.entry.value.ticket.(attempt := o.entry.value.ticket.attempt + 1)
  }

  predicate CanUse(sys: Sys, o: Read) { o in sys.seen && o.entry.value.VTicket? }

  function DoEnqueue(sys: Sys, t: Ticket): Sys {
    var txn := EnqueueTxn(t);
    sys.(store := After(sys.store, txn),
         books := if Wins(sys.store, txn) then NoteEnqueue(sys.books, t) else sys.books)
  }

  function DoEnqueueFire(sys: Sys, t: Ticket, wm: int): Sys {
    var txn := EnqueueFireTxn(t, wm);
    sys.(store := After(sys.store, txn),
         books := if Wins(sys.store, txn) then NoteEnqueue(sys.books, t) else sys.books)
  }

  function DoObserve(sys: Sys, s: Stamp): Sys {
    if Pending(s) !in sys.store.kv then sys
    else sys.(seen := sys.seen + {Read(s, sys.store.kv[Pending(s)])})
  }

  function ClaimTxnOf(node: NodeId, o: Read, lease: nat, overlapLease: nat): QTxn
    requires o.entry.value.VTicket?
  {
    ClaimTxn(node, o.key, o.entry.modRev, Bumped(o), lease, overlapLease)
  }

  function DoClaim(sys: Sys, node: NodeId, o: Read, lease: nat, overlapLease: nat): Sys {
    if !CanUse(sys, o) then sys
    else
      var txn := ClaimTxnOf(node, o, lease, overlapLease);
      if !Wins(sys.store, txn) then sys.(store := After(sys.store, txn))
      else sys.(store := After(sys.store, txn),
                execs := sys.execs[sys.nextExec := Exec(node, Bumped(o))],
                nextExec := sys.nextExec + 1,
                books := NoteClaim(sys.books, o.key))
  }

  function DoSkip(sys: Sys, node: NodeId, o: Read): Sys {
    if !CanUse(sys, o) || !o.entry.value.ticket.noOverlap then sys
    else sys.(store := After(sys.store, SkipTxn(node, o.key, o.entry.modRev, Bumped(o))))
  }

  /** The record the worker makes of a run. */
  function RunResult(e: Exec, status: Status, exitCode: int): Result {
    Result(e.ticket.job, e.ticket.sched, e.ticket.attempt, e.node, status, exitCode)
  }

  function Fault(timedOut: bool): Status { if timedOut then Timeout else Failed }

  function DoFinishSuccess(sys: Sys, id: nat, exitCode: int): Sys {
    if id !in sys.execs then sys
    else
      var e := sys.execs[id];
      var txn := FinishSuccessTxn(e.node, e.ticket, RunResult(e, Success, exitCode));
      sys.(store := After(sys.store, txn),
           execs := sys.execs - {id},
           books := if Wins(sys.store, txn) then NoteFinal(sys.books, StampOf(e.ticket)) else sys.books)
  }

  function DoFinishFailure(sys: Sys, id: nat, timedOut: bool, exitCode: int, now: int): Sys {
    if id !in sys.execs then sys
    else
      var e := sys.execs[id];
      var s := StampOf(e.ticket);
      var txn := FinishFailureTxn(e.node, e.ticket, RunResult(e, Fault(timedOut), exitCode), now);
      sys.(store := After(sys.store, txn),
           execs := sys.execs - {id},
           books := if !Wins(sys.store, txn) then sys.books
                    else if GivesUp(e.ticket) then NoteFinal(sys.books, s) else NoteRequeue(sys.books, s))
  }

  /** The sweep abandons a ticket by value: any ticket some earlier read returned. */
  function DoAbandon(sys: Sys, node: NodeId, t: Ticket): Sys {
    if exists o | o in sys.seen :: o.entry.value == VTicket(t)
    then sys.(store := After(sys.store, AbandonTxn(node, t))) else sys
  }

  function Apply(sys: Sys, step: Step): Sys {
    match step
    case Enqueue(t) => DoEnqueue(sys, t)
    case EnqueueFire(t, wm) => DoEnqueueFire(sys, t, wm)
    case AdvanceWatermark(j, wm) => sys.(store := After(sys.store, AdvanceTxn(j, wm)))
    case DropWatermark(j) => sys.(store := After(sys.store, Txn([], [Delete(Watermark(j))], [])))
    case Observe(s) => DoObserve(sys, s)
    case Claim(n, o, l, ol) => DoClaim(sys, n, o, l, ol)
    case Skip(n, o) => DoSkip(sys, n, o)
    case FinishSuccess(id, code) => DoFinishSuccess(sys, id, code)
    case FinishFailure(id, out, code, now) => DoFinishFailure(sys, id, out, code, now)
    case Lose(id) => sys.(execs := sys.execs - {id})
    case Abandon(n, t) => DoAbandon(sys, n, t)
    case Collect(s, a) => sys.(store := After(sys.store, Txn([], [Delete(ResultAt(s, a))], [])))
    case Grant(l) => sys.(store := Etcd.Grant(sys.store, l))
    case Expire(l) => sys.(store := Etcd.Expire(sys.store, l), books := NoteExpiry(sys.books, sys.store, l))
  }

  function Run(sys: Sys, steps: seq<Step>): Sys
    decreases |steps|
  {
    if steps == [] then sys else Run(Apply(sys, steps[0]), steps[1..])
  }

  // ------------------------------------------------------------------ what every step keeps

  ghost predicate TypedPut(k: Key, v: Value, lease: nat) {
    match k
    case Pending(s) => v.VTicket? && StampOf(v.ticket) == s && lease == NO_LEASE
    case Claimed(_) => v.VNode?
    case Overlap(_) => v.VNode?
    case Watermark(_) => v.VTime? && lease == NO_LEASE
    case ResultAt(_, _) => v.VResult? && lease == NO_LEASE
  }

  ghost predicate Typed(kv: map<Key, QEntry>) {
    forall k | k in kv :: TypedPut(k, kv[k].value, kv[k].lease)
  }

  /** Optimistic concurrency: an old read whose mod revision still matches is still current. */
  ghost predicate SeenOk(sys: Sys) {
    forall o | o in sys.seen ::
      && o.entry.value.VTicket?
      && StampOf(o.entry.value.ticket) == o.key
      && 0 < o.entry.modRev <= sys.store.rev
      && o.key in sys.books
      && (Pending(o.key) in sys.store.kv && sys.store.kv[Pending(o.key)].modRev == o.entry.modRev
          ==> sys.store.kv[Pending(o.key)] == o.entry)
  }

  ghost predicate ExecsOk(sys: Sys) {
    forall id | id in sys.execs ::
      && id < sys.nextExec
      && StampOf(sys.execs[id].ticket) in sys.books
      && sys.execs[id].ticket.attempt >= 1
  }

  function Busy(kv: map<Key, QEntry>, s: Stamp): nat { if Claimed(s) in kv then 1 else 0 }

  /** Every claim ends at most once: by a requeue, an expiry or a final finish. */
  ghost predicate BooksOk(kv: map<Key, QEntry>, books: map<Stamp, Book>) {
    && (forall s | Pending(s) in kv :: s in books)
    && (forall s | Claimed(s) in kv :: s in books)
    && (forall s | s in books ::
          var b := books[s];
          && StampOf(b.template) == s && b.template == Static(b.template)
          && 0 < b.enqueues
          && b.claims == b.requeues + b.expiries + b.finals + Busy(kv, s))
  }

  ghost predicate Inv(sys: Sys) {
    && Valid(sys.store)
    && Typed(sys.store.kv)
    && SeenOk(sys)
    && ExecsOk(sys)
    && BooksOk(sys.store.kv, sys.books)
  }
}
