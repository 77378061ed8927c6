/** The invariant that every step of the queue keeps, in every interleaving. */
module QueueInvariant {
  import opened Etcd
  import opened Tickets
  import opened QueueMachine
  import opened QueueEffects

  ghost predicate TypedOps(ops: seq<Op<Key, Value>>) {
    forall i | 0 <= i < |ops| && ops[i].Put? :: TypedPut(ops[i].key, ops[i].value, ops[i].lease)
  }

  /** Whatever a well-typed transaction does, the store stays sound and old reads stay sound. */
  lemma TxnKeeps(sys: Sys, txn: QTxn, sys': Sys)
    requires Inv(sys)
    requires TypedOps(txn.thens) && TypedOps(txn.elses)
    requires sys'.store == After(sys.store, txn) && sys'.seen == sys.seen
    requires sys.books.Keys <= sys'.books.Keys
    ensures Valid(sys'.store) && Typed(sys'.store.kv) && SeenOk(sys')
    ensures Extends(sys.store, sys'.store)
  {
    var s, t := sys.store, sys'.store;
    CommitKeeps(s, txn);
    var ops := if AllHold(s, txn.cmps) then txn.thens else txn.elses;
    forall k | k in t.kv ensures TypedPut(k, t.kv[k].value, t.kv[k].lease) {
      if LeasesLive(s, ops) && Changes(s.kv, ops) {
        ApplyOpsAt(s.kv, ops, s.rev + 1, k);
      }
    }
  }

  /** Store and reads are sound: what a well-typed transaction keeps by itself. */
  ghost predicate Sound(sys: Sys) { Valid(sys.store) && Typed(sys.store.kv) && SeenOk(sys) }

  lemma EnqueueSound(sys: Sys, t: Ticket, wm: int)
    requires Inv(sys)
    ensures Sound(DoEnqueue(sys, t)) && Sound(DoEnqueueFire(sys, t, wm))
  {
    TxnKeeps(sys, EnqueueTxn(t), DoEnqueue(sys, t));
    TxnKeeps(sys, EnqueueFireTxn(t, wm), DoEnqueueFire(sys, t, wm));
  }

  /** A ticket that becomes pending has its enqueue noted. */
  lemma BooksNoted(kv: map<Key, QEntry>, kv': map<Key, QEntry>, books: map<Stamp, Book>, t: Ticket)
    requires BooksOk(kv, books)
    requires forall k :: (Claimed(k) in kv' <==> Claimed(k) in kv)
    requires forall k :: Pending(k) in kv' ==> Pending(k) in kv || k == StampOf(t)
    ensures BooksOk(kv', NoteEnqueue(books, t))
  {
  }

  lemma EnqueueKeeps(sys: Sys, t: Ticket)
    requires Inv(sys)
    ensures Inv(DoEnqueue(sys, t))
  {
    var sys' := DoEnqueue(sys, t);
    EnqueueSound(sys, t, 0);
    EnqueueEffect(sys.store, t);
    if Wins(sys.store, EnqueueTxn(t)) { BooksNoted(sys.store.kv, sys'.store.kv, sys.books, t); }
  }

  lemma EnqueueFireKeeps(sys: Sys, t: Ticket, wm: int)
    requires Inv(sys)
    ensures Inv(DoEnqueueFire(sys, t, wm))
  {
    var sys' := DoEnqueueFire(sys, t, wm);
    EnqueueSound(sys, t, wm);
    EnqueueFireEffect(sys.store, t, wm);
    if Wins(sys.store, EnqueueFireTxn(t, wm)) { BooksNoted(sys.store.kv, sys'.store.kv, sys.books, t); }
  }

  /** A step that touches one ticket only has to balance that ticket's book. */
  lemma BooksMove(kv: map<Key, QEntry>, kv': map<Key, QEntry>, books: map<Stamp, Book>, books': map<Stamp, Book>,
          s: Stamp)
    requires BooksOk(kv, books) && s in books && s in books'
    requires books' == books[s := books'[s]]
    requires forall k: Stamp | k != s :: (Claimed(k) in kv' <==> Claimed(k) in kv) &&
              (Pending(k) in kv' ==> Pending(k) in kv)
    requires books'[s].template == books[s].template && books'[s].enqueues == books[s].enqueues
    requires var b := books'[s]; b.claims == b.requeues + b.expiries + b.finals + Busy(kv', s)
    ensures BooksOk(kv', books')
  {
  }

  lemma ClaimSound(sys: Sys, node: NodeId, o: Read, lease: nat, overlapLease: nat)
    requires Inv(sys) && CanUse(sys, o)
    ensures Sound(DoClaim(sys, node, o, lease, overlapLease))
  {
    TxnKeeps(sys, ClaimTxnOf(node, o, lease, overlapLease), DoClaim(sys, node, o, lease, overlapLease));
  }

  lemma ClaimKeeps(sys: Sys, node: NodeId, o: Read, lease: nat, overlapLease: nat)
    requires Inv(sys)
    ensures Inv(DoClaim(sys, node, o, lease, overlapLease))
  {
    if CanUse(sys, o) {
      var sys' := DoClaim(sys, node, o, lease, overlapLease);
      ClaimSound(sys, node, o, lease, overlapLease);
      ClaimEffect(sys.store, node, o.key, o.entry.modRev, Bumped(o), lease, overlapLease);
      if Wins(sys.store, ClaimTxnOf(node, o, lease, overlapLease)) {
        BooksMove(sys.store.kv, sys'.store.kv, sys.books, sys'.books, o.key);
      }
    }
  }

  lemma SkipSound(sys: Sys, node: NodeId, o: Read)
    requires Inv(sys)
    ensures Sound(DoSkip(sys, node, o))
  {
    if CanUse(sys, o) && o.entry.value.ticket.noOverlap {
      TxnKeeps(sys, SkipTxn(node, o.key, o.entry.modRev, Bumped(o)), DoSkip(sys, node, o));
    }
  }

  lemma SkipKeeps(sys: Sys, node: NodeId, o: Read)
    requires Inv(sys)
    ensures Inv(DoSkip(sys, node, o))
  {
    SkipSound(sys, node, o);
    if CanUse(sys, o) {
      SkipEffect(sys.store, node, o.key, o.entry.modRev, Bumped(o));
    }
  }

  lemma FinishSuccessSound(sys: Sys, id: nat, exitCode: int)
    requires Inv(sys) && id in sys.execs
    ensures Sound(DoFinishSuccess(sys, id, exitCode))
  {
    var e := sys.execs[id];
    var txn := FinishSuccessTxn(e.node, e.ticket, RunResult(e, Success, exitCode));
    TxnKeeps(sys, txn, DoFinishSuccess(sys, id, exitCode));
  }

  lemma FinishSuccessKeeps(sys: Sys, id: nat, exitCode: int)
    requires Inv(sys)
    ensures Inv(DoFinishSuccess(sys, id, exitCode))
  {
    if id in sys.execs {
      var e := sys.execs[id];
      var sys' := DoFinishSuccess(sys, id, exitCode);
      FinishSuccessSound(sys, id, exitCode);
      FinishSuccessEffect(sys.store, e.node, e.ticket, RunResult(e, Success, exitCode));
      if OwnedBy(sys.store.kv, StampOf(e.ticket), e.node) {
        BooksMove(sys.store.kv, sys'.store.kv, sys.books, sys'.books, StampOf(e.ticket));
      }
    }
  }

  lemma FinishFailureSound(sys: Sys, id: nat, timedOut: bool, exitCode: int, now: int)
    requires Inv(sys) && id in sys.execs
    ensures Sound(DoFinishFailure(sys, id, timedOut, exitCode, now))
  {
    var e := sys.execs[id];
    var txn := FinishFailureTxn(e.node, e.ticket, RunResult(e, Fault(timedOut), exitCode), now);
    TxnKeeps(sys, txn, DoFinishFailure(sys, id, timedOut, exitCode, now));
  }

  lemma FinishFailureKeeps(sys: Sys, id: nat, timedOut: bool, exitCode: int, now: int)
    requires Inv(sys)
    ensures Inv(DoFinishFailure(sys, id, timedOut, exitCode, now))
  {
    if id in sys.execs {
      var e := sys.execs[id];
      var sys' := DoFinishFailure(sys, id, timedOut, exitCode, now);
      FinishFailureSound(sys, id, timedOut, exitCode, now);
      FinishFailureEffect(sys.store, e.node, e.ticket, RunResult(e, Fault(timedOut), exitCode), now);
      if OwnedBy(sys.store.kv, StampOf(e.ticket), e.node) {
        BooksMove(sys.store.kv, sys'.store.kv, sys.books, sys'.books, StampOf(e.ticket));
      }
    }
  }

  lemma AbandonSound(sys: Sys, node: NodeId, t: Ticket)
    requires Inv(sys)
    ensures Sound(DoAbandon(sys, node, t))
  {
    if exists o | o in sys.seen :: o.entry.value == VTicket(t) {
      TxnKeeps(sys, AbandonTxn(node, t), DoAbandon(sys, node, t));
    }
  }

  lemma AbandonKeeps(sys: Sys, node: NodeId, t: Ticket)
    requires Inv(sys)
    ensures Inv(DoAbandon(sys, node, t))
  {
    AbandonSound(sys, node, t);
    AbandonEffect(sys.store, node, t);
  }

  lemma PlainTxnKeeps(sys: Sys, k: Key, at: int)
    requires Inv(sys)
    ensures k.Watermark? ==> Inv(sys.(store := After(sys.store, AdvanceTxn(k.job, at))))
    ensures k.Watermark? || k.ResultAt? ==> Inv(sys.(store := After(sys.store, Txn([], [Delete(k)], []))))
  {
    if k.Watermark? {
      TxnKeeps(sys, AdvanceTxn(k.job, at), sys.(store := After(sys.store, AdvanceTxn(k.job, at))));
      AdvanceEffect(sys.store, k.job, at);
    }
    TxnKeeps(sys, Txn([], [Delete(k)], []), sys.(store := After(sys.store, Txn([], [Delete(k)], []))));
    DeleteEffect(sys.store, k);
  }

  lemma ExpireSound(sys: Sys, l: nat)
    requires Inv(sys)
    ensures Sound(Apply(sys, Expire(l)))
  {
    LeaseStepKeeps(sys.store, l);
    assert Apply(sys, Expire(l)).books.Keys == sys.books.Keys;
  }

  lemma ExpireKeeps(sys: Sys, l: nat)
    requires Inv(sys)
    ensures Inv(Apply(sys, Expire(l)))
  {
    ExpireSound(sys, l);
  }

  /** A read, a lost run and a new lease. */
  lemma QuietKeeps(sys: Sys, step: Step)
    requires Inv(sys) && (step.Observe? || step.Lose? || step.Grant?)
    ensures Inv(Apply(sys, step))
  {
    if step.Grant? { LeaseStepKeeps(sys.store, step.lease); }
  }

  lemma InvStep(sys: Sys, step: Step)
    requires Inv(sys)
    ensures Inv(Apply(sys, step))
  {
    match step
    case Enqueue(t) => EnqueueKeeps(sys, t);
    case EnqueueFire(t, wm) => EnqueueFireKeeps(sys, t, wm);
    case AdvanceWatermark(j, wm) => PlainTxnKeeps(sys, Watermark(j), wm);
    case DropWatermark(j) => PlainTxnKeeps(sys, Watermark(j), 0);
    case Claim(n, o, l, ol) => ClaimKeeps(sys, n, o, l, ol);
    case Skip(n, o) => SkipKeeps(sys, n, o);
    case FinishSuccess(id, code) => FinishSuccessKeeps(sys, id, code);
    case FinishFailure(id, out, code, now) => FinishFailureKeeps(sys, id, out, code, now);
    case Abandon(n, t) => AbandonKeeps(sys, n, t);
    case Collect(s, a) => PlainTxnKeeps(sys, ResultAt(s, a), 0);
    case Expire(l) => ExpireKeeps(sys, l);
    case _ => QuietKeeps(sys, step);
  }

  /** The invariant holds in every state of every run. */
  lemma {:induction false} InvRun(sys: Sys, steps: seq<Step>)
    requires Inv(sys)
    ensures Inv(Run(sys, steps))
    decreases |steps|
  {
    if steps != [] {
      InvStep(sys, steps[0]);
      InvRun(Apply(sys, steps[0]), steps[1..]);
    }
  }

  // ------------------------------------------------------------------ reads however far apart

  lemma StepExtends(sys: Sys, step: Step)
    requires Valid(sys.store)
    ensures Extends(sys.store, Apply(sys, step).store)
  {
    var st := sys.store;
    match step
    case Enqueue(t) => CommitKeeps(st, EnqueueTxn(t));
    case EnqueueFire(t, wm) => CommitKeeps(st, EnqueueFireTxn(t, wm));
    case AdvanceWatermark(j, wm) => CommitKeeps(st, AdvanceTxn(j, wm));
    case DropWatermark(j) => CommitKeeps(st, Txn([], [Delete(Watermark(j))], []));
    case Claim(n, o, l, ol) => if CanUse(sys, o) { CommitKeeps(st, ClaimTxnOf(n, o, l, ol)); }
    case Skip(n, o) => if CanUse(sys, o) { CommitKeeps(st, SkipTxn(n, o.key, o.entry.modRev, Bumped(o))); }
    case FinishSuccess(id, code) => if id in sys.execs { FinishExtends(sys, step); }
    case FinishFailure(id, _, _, _) => if id in sys.execs { FinishExtends(sys, step); }
    case Abandon(n, t) => CommitKeeps(st, AbandonTxn(n, t));
    case Collect(s, a) => CommitKeeps(st, Txn([], [Delete(ResultAt(s, a))], []));
    case Grant(l) => LeaseStepKeeps(st, l);
    case Expire(l) => LeaseStepKeeps(st, l);
    case _ =>
  }

  lemma FinishExtends(sys: Sys, step: Step)
    requires Valid(sys.store) && (step.FinishSuccess? || step.FinishFailure?) && step.id in sys.execs
    ensures Extends(sys.store, Apply(sys, step).store)
  {
    var e := sys.execs[step.id];
    if step.FinishSuccess? {
      CommitKeeps(sys.store, FinishSuccessTxn(e.node, e.ticket, RunResult(e, Success, step.exitCode)));
    } else {
      CommitKeeps(sys.store,
        FinishFailureTxn(e.node, e.ticket, RunResult(e, Fault(step.timedOut), step.exitCode), step.now));
    }
  }

  /** Whatever happens in between, every entry not written since is still the entry it was. */
  lemma {:induction false} RunExtends(sys: Sys, steps: seq<Step>)
    requires Inv(sys)
    ensures Extends(sys.store, Run(sys, steps).store)
    decreases |steps|
  {
    if steps != [] {
      StepExtends(sys, steps[0]);
      InvStep(sys, steps[0]);
      RunExtends(Apply(sys, steps[0]), steps[1..]);
      ExtendsTransitive(sys.store, Apply(sys, steps[0]).store, Run(sys, steps).store);
    }
  }

  /** Optimistic concurrency: two reads of a key, any run apart, that show one mod revision show one entry. */
  lemma SameModRevSameRead(sys: Sys, steps: seq<Step>, k: Key)
    requires Inv(sys) && k in sys.store.kv && k in Run(sys, steps).store.kv
    requires sys.store.kv[k].modRev == Run(sys, steps).store.kv[k].modRev
    ensures sys.store.kv[k] == Run(sys, steps).store.kv[k]
  {
    RunExtends(sys, steps);
    SameModRevSameEntry(sys.store, Run(sys, steps).store, k);
  }

  lemma InvStart()
    ensures Inv(START)
  {
  }

  lemma Appended<T>(a: seq<T>, b: seq<T>, c: seq<T>)
    ensures (a + b) + c == a + (b + c)
  {
  }

  lemma {:induction false} RunSplit(sys: Sys, a: seq<Step>, b: seq<Step>)
    ensures Run(sys, a + b) == Run(Run(sys, a), b)
    decreases |a|
  {
    if a == [] {
      assert a + b == b;
    } else {
      assert (a + b)[0] == a[0] && (a + b)[1..] == a[1..] + b;
      RunSplit(Apply(sys, a[0]), a[1..], b);
    }
  }
}
