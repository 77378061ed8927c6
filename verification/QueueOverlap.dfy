/** The overlap lock: at most one run of a no-overlap job, and the lock says exactly which. */
module QueueOverlap {
  import opened Etcd
  import opened Tickets
  import opened QueueMachine
  import opened QueueEffects
  import opened AtomicTickets
  import opened QueueSafety
  import QueueInvariant

  /** A won claim of a no-overlap ticket of job `j` attaches its two keys to different leases. */
  predicate SplitsLease(sys: Sys, step: Step, j: int) {
    && step.Claim? && step.o.key.job == j && CanUse(sys, step.o) && Bumped(step.o).noOverlap
    && Label(sys, step, step.o.key).Take? && step.lease != step.overlapLease
  }

  predicate FlipsFlag(sys: Sys, step: Step, j: int) {
    (step.Enqueue? || step.EnqueueFire?) && step.t.job == j && Alters(Flag, sys, step, StampOf(step.t))
  }

  /** No ticket of job `j` is enqueued again with the other flag, and no claim of one splits its lease. */
  ghost function Guard(j: int): (Sys, Step) -> bool {
    (sys, step) => !FlipsFlag(sys, step, j) && !SplitsLease(sys, step, j)
  }

  /** `s` is a claimed no-overlap ticket of job `j`. */
  predicate Runs(sys: Sys, j: int, s: Stamp) {
    s.job == j && Claimed(s) in sys.store.kv && NoOverlapTicket(sys, s)
  }

  /** The lock of `j` carries the owner and the lease of the claim on `s`. */
  predicate LockFor(kv: map<Key, QEntry>, s: Stamp) {
    && Overlap(s.job) in kv && Claimed(s) in kv
    && kv[Overlap(s.job)].value == kv[Claimed(s)].value
    && kv[Overlap(s.job)].lease == kv[Claimed(s)].lease
  }

  ghost predicate Exclusive(sys: Sys, j: int) {
    && (forall s | Runs(sys, j, s) :: LockFor(sys.store.kv, s))
    && (Overlap(j) in sys.store.kv ==> exists s :: Runs(sys, j, s))
    && (forall s: Stamp, s': Stamp :: Runs(sys, j, s) && Runs(sys, j, s') ==> s == s')
  }

  /** No copy of a ticket of job `j` has lost or gained the flag. */
  ghost predicate FlagsKept(sys: Sys, j: int)
    requires Inv(sys)
  {
    forall s: Stamp | s.job == j :: Unaltered(Flag, sys, s)
  }

  ghost predicate SameLocks(kv: map<Key, QEntry>, kv': map<Key, QEntry>) {
    && (forall s :: Claimed(s) in kv <==> Claimed(s) in kv')
    && (forall s | Claimed(s) in kv :: kv[Claimed(s)] == kv'[Claimed(s)])
    && (forall j :: Overlap(j) in kv <==> Overlap(j) in kv')
    && (forall j | Overlap(j) in kv :: kv[Overlap(j)] == kv'[Overlap(j)])
  }

  /** The claims and the lock of job `j` are as they were. */
  ghost predicate JobLocks(kv: map<Key, QEntry>, kv': map<Key, QEntry>, j: int) {
    && (forall s: Stamp | s.job == j :: Claimed(s) in kv <==> Claimed(s) in kv')
    && (forall s: Stamp | s.job == j && Claimed(s) in kv :: kv[Claimed(s)] == kv'[Claimed(s)])
    && (Overlap(j) in kv <==> Overlap(j) in kv')
    && (Overlap(j) in kv ==> kv[Overlap(j)] == kv'[Overlap(j)])
  }

  ghost predicate BooksGrow(sys: Sys, sys': Sys) {
    forall s | s in sys.books :: s in sys'.books && sys'.books[s].template == sys.books[s].template
  }

  lemma BooksAlwaysGrow(sys: Sys, step: Step)
    ensures BooksGrow(sys, Apply(sys, step))
  {
    forall s | s in sys.books
      ensures s in Apply(sys, step).books && Apply(sys, step).books[s].template == sys.books[s].template
    {
      TemplatesKept(sys, step, s);
    }
  }

  lemma ClaimElsewhere(sys: Sys, step: Step, j: int)
    requires Valid(sys.store) && SeenOk(sys) && step.Claim?
    requires step.o.key.job != j || !Label(sys, step, step.o.key).Take?
    ensures JobLocks(sys.store.kv, Apply(sys, step).store.kv, j)
  {
    var o := step.o;
    if CanUse(sys, o) {
      ClaimEffect(sys.store, step.node, o.key, o.entry.modRev, Bumped(o), step.lease, step.overlapLease);
    }
  }

  predicate Ends(sys: Sys, step: Step, j: int) {
    && (step.FinishSuccess? || step.FinishFailure?) && step.id in sys.execs
    && sys.execs[step.id].ticket.job == j
    && OwnedBy(sys.store.kv, StampOf(sys.execs[step.id].ticket), sys.execs[step.id].node)
  }

  lemma FinishElsewhere(sys: Sys, step: Step, j: int)
    requires (step.FinishSuccess? || step.FinishFailure?) && !Ends(sys, step, j)
    ensures JobLocks(sys.store.kv, Apply(sys, step).store.kv, j)
  {
    if step.id in sys.execs {
      var e := sys.execs[step.id];
      if step.FinishSuccess? {
        FinishSuccessEffect(sys.store, e.node, e.ticket, RunResult(e, Success, step.exitCode));
      } else {
        FinishFailureEffect(sys.store, e.node, e.ticket, RunResult(e, Fault(step.timedOut), step.exitCode), step.now);
      }
    }
  }

  /** No other transaction has anything to do with claims or locks. */
  lemma OthersTouchNoLock(sys: Sys, step: Step, j: int)
    requires Valid(sys.store) && SeenOk(sys)
    requires !step.Claim? && !step.FinishSuccess? && !step.FinishFailure? && !step.Expire?
    ensures JobLocks(sys.store.kv, Apply(sys, step).store.kv, j)
  {
    var st := sys.store;
    match step
    case Enqueue(t) => EnqueueEffect(st, t);
    case EnqueueFire(t, wm) => EnqueueFireEffect(st, t, wm);
    case AdvanceWatermark(k, wm) => AdvanceEffect(st, k, wm);
    case DropWatermark(k) => DeleteEffect(st, Watermark(k));
    case Skip(n, o) => if CanUse(sys, o) { SkipEffect(st, n, o.key, o.entry.modRev, Bumped(o)); }
    case Abandon(n, t) => AbandonEffect(st, n, t);
    case Collect(s, a) => DeleteEffect(st, ResultAt(s, a));
    case _ =>
  }

  lemma UntouchedKeeps(sys: Sys, sys': Sys, j: int)
    requires Exclusive(sys, j) && BooksOk(sys.store.kv, sys.books)
    requires JobLocks(sys.store.kv, sys'.store.kv, j) && BooksGrow(sys, sys')
    ensures Exclusive(sys', j)
  {
    forall s | Runs(sys', j, s) ensures Runs(sys, j, s) && LockFor(sys'.store.kv, s) {
      assert Runs(sys, j, s) && LockFor(sys.store.kv, s);
    }
    if Overlap(j) in sys'.store.kv {
      var s :| Runs(sys, j, s);
      assert Runs(sys', j, s);
    }
  }

  /** A won claim of a no-overlap ticket takes the lock with it; any other claim leaves locks alone. */
  lemma ClaimedKeeps(sys: Sys, sys': Sys, k: Stamp, c: QEntry, flag: bool)
    requires Exclusive(sys, k.job) && k in sys.books && flag == sys.books[k].template.noOverlap
    requires flag ==> Overlap(k.job) !in sys.store.kv && LockFor(sys'.store.kv, k)
    requires JobLocks(sys.store.kv[Claimed(k) := c],
                      if flag then sys'.store.kv - {Overlap(k.job)} else sys'.store.kv, k.job)
    requires BooksOk(sys.store.kv, sys.books) && BooksGrow(sys, sys')
    ensures Exclusive(sys', k.job)
  {
    forall s | Runs(sys', k.job, s)
      ensures LockFor(sys'.store.kv, s)
      ensures s != k ==> Runs(sys, k.job, s) && LockFor(sys.store.kv, s)
    {
      if s != k { assert Runs(sys, k.job, s); }
    }
    if Overlap(k.job) in sys'.store.kv {
      if flag {
        assert Runs(sys', k.job, k);
      } else {
        var s :| Runs(sys, k.job, s);
        assert Runs(sys', k.job, s);
      }
    }
  }

  lemma ClaimExclusive(sys: Sys, step: Step)
    requires Inv(sys) && step.Claim? && Label(sys, step, step.o.key).Take?
    requires Unaltered(Flag, sys, step.o.key) && Exclusive(sys, step.o.key.job)
    requires !SplitsLease(sys, step, step.o.key.job)
    ensures Exclusive(Apply(sys, step), step.o.key.job)
  {
    var o, l, ol := step.o, step.lease, step.overlapLease;
    ClaimEffect(sys.store, step.node, o.key, o.entry.modRev, Bumped(o), l, ol);
    BooksAlwaysGrow(sys, step);
    ClaimedKeeps(sys, Apply(sys, step), o.key, PutEntry(sys.store, Claimed(o.key), VNode(step.node), l),
      Bumped(o).noOverlap);
  }

  /** Ending the claim on `t` releases its lock, and no other. */
  lemma FinishExclusive(sys: Sys, sys': Sys, kv1: map<Key, QEntry>, t: Ticket, r: QEntry)
    requires Exclusive(sys, t.job) && NoOverlapTicket(sys, StampOf(t)) == t.noOverlap &&
              Claimed(StampOf(t)) in sys.store.kv
    requires SameLocks(sys.store.kv, kv1) && sys'.store.kv == Settled(kv1, t, r)
    requires BooksOk(sys.store.kv, sys.books) && BooksGrow(sys, sys')
    ensures Exclusive(sys', t.job)
  {
    var k, j := StampOf(t), t.job;
    forall s | Runs(sys', j, s)
      ensures LockFor(sys'.store.kv, s)
      ensures s != k && Runs(sys, j, s)
    {
      assert Runs(sys, j, s);
      assert t.noOverlap ==> Runs(sys, j, k);
    }
    if Overlap(j) in sys'.store.kv {
      var s :| Runs(sys, j, s);
      assert s != k;
      assert Runs(sys', j, s);
    }
  }

  lemma ExpireExclusive(sys: Sys, l: nat, j: int)
    requires Inv(sys) && Exclusive(sys, j)
    ensures Exclusive(Apply(sys, Expire(l)), j)
  {
    var sys' := Apply(sys, Expire(l));
    forall s | Runs(sys', j, s) ensures LockFor(sys'.store.kv, s) && Runs(sys, j, s) {
      assert Runs(sys, j, s);
      assert LockFor(sys.store.kv, s);
    }
    if Overlap(j) in sys'.store.kv {
      var s :| Runs(sys, j, s);
      assert LockFor(sys.store.kv, s);
      assert Runs(sys', j, s);
    }
  }

  lemma EndExclusive(sys: Sys, step: Step)
    requires Inv(sys) && (step.FinishSuccess? || step.FinishFailure?) && step.id in sys.execs
    requires Ends(sys, step, sys.execs[step.id].ticket.job)
    requires Unaltered(Flag, sys, StampOf(sys.execs[step.id].ticket)) && Exclusive(sys, sys.execs[step.id].ticket.job)
    ensures Exclusive(Apply(sys, step), sys.execs[step.id].ticket.job)
  {
    BooksAlwaysGrow(sys, step);
    assert Sight(Flag, sys.execs[step.id].ticket) ==
      Sight(Flag, sys.books[StampOf(sys.execs[step.id].ticket)].template);
    if step.FinishSuccess? {
      SuccessExclusive(sys, step.id, step.exitCode);
    } else {
      FailureExclusive(sys, step.id, step.timedOut, step.exitCode, step.now);
    }
  }

  lemma SuccessExclusive(sys: Sys, id: nat, code: int)
    requires id in sys.execs && Exclusive(sys, sys.execs[id].ticket.job) && BooksOk(sys.store.kv, sys.books)
    requires NoOverlapTicket(sys, StampOf(sys.execs[id].ticket)) == sys.execs[id].ticket.noOverlap
    requires OwnedBy(sys.store.kv, StampOf(sys.execs[id].ticket), sys.execs[id].node)
    requires BooksGrow(sys, Apply(sys, FinishSuccess(id, code)))
    ensures Exclusive(Apply(sys, FinishSuccess(id, code)), sys.execs[id].ticket.job)
  {
    var st, e := sys.store, sys.execs[id];
    var res := RunResult(e, Success, code);
    FinishSuccessEffect(st, e.node, e.ticket, res);
    FinishExclusive(sys, Apply(sys, FinishSuccess(id, code)), st.kv - {Pending(StampOf(e.ticket))}, e.ticket,
                    PutEntry(st, ResultAt(StampOf(e.ticket), e.ticket.attempt), VResult(res), NO_LEASE));
  }

  lemma FailureExclusive(sys: Sys, id: nat, out: bool, code: int, now: int)
    requires id in sys.execs && Exclusive(sys, sys.execs[id].ticket.job) && BooksOk(sys.store.kv, sys.books)
    requires NoOverlapTicket(sys, StampOf(sys.execs[id].ticket)) == sys.execs[id].ticket.noOverlap
    requires OwnedBy(sys.store.kv, StampOf(sys.execs[id].ticket), sys.execs[id].node)
    requires BooksGrow(sys, Apply(sys, FinishFailure(id, out, code, now)))
    ensures Exclusive(Apply(sys, FinishFailure(id, out, code, now)), sys.execs[id].ticket.job)
  {
    var st, e := sys.store, sys.execs[id];
    var p := Pending(StampOf(e.ticket));
    var res := RunResult(e, Fault(out), code);
    FinishFailureEffect(st, e.node, e.ticket, res, now);
    var r := PutEntry(st, ResultAt(StampOf(e.ticket), e.ticket.attempt), VResult(FailureResult(e.ticket, res)),
      NO_LEASE);
    var kv1 := if GivesUp(e.ticket) then st.kv - {p}
      else st.kv[p := PutEntry(st, p, VTicket(Retried(e.ticket, now)), NO_LEASE)];
    FinishExclusive(sys, Apply(sys, FinishFailure(id, out, code, now)), kv1, e.ticket, r);
  }

  lemma ExclusiveStep(sys: Sys, step: Step, j: int)
    requires Inv(sys) && FlagsKept(sys, j) && Exclusive(sys, j) && Guard(j)(sys, step)
    ensures Exclusive(Apply(sys, step), j)
  {
    if step.Expire? {
      ExpireExclusive(sys, step.lease, j);
    } else if step.Claim? && step.o.key.job == j && Label(sys, step, step.o.key).Take? {
      ClaimExclusive(sys, step);
    } else if Ends(sys, step, j) {
      EndExclusive(sys, step);
    } else {
      if step.Claim? {
        ClaimElsewhere(sys, step, j);
      } else if step.FinishSuccess? || step.FinishFailure? {
        FinishElsewhere(sys, step, j);
      } else {
        OthersTouchNoLock(sys, step, j);
      }
      BooksAlwaysGrow(sys, step);
      UntouchedKeeps(sys, Apply(sys, step), j);
    }
  }

  lemma FlagsStep(sys: Sys, step: Step, j: int)
    requires Inv(sys) && FlagsKept(sys, j) && !FlipsFlag(sys, step, j)
    ensures Inv(Apply(sys, step)) && FlagsKept(Apply(sys, step), j)
  {
    QueueInvariant.InvStep(sys, step);
    forall s: Stamp | s.job == j ensures Unaltered(Flag, Apply(sys, step), s) {
      UnalteredStep(Flag, sys, step, s);
    }
  }

  /** However the nodes interleave, the lock of job `j` names the one claimed no-overlap ticket of the job, if any. */
  lemma {:induction false} ExclusiveRun(sys: Sys, steps: seq<Step>, j: int)
    requires Inv(sys) && FlagsKept(sys, j) && Exclusive(sys, j) && Throughout(Guard(j), sys, steps)
    ensures Inv(Run(sys, steps)) && FlagsKept(Run(sys, steps), j) && Exclusive(Run(sys, steps), j)
    decreases |steps|
  {
    if steps != [] {
      ExclusiveStep(sys, steps[0], j);
      FlagsStep(sys, steps[0], j);
      ExclusiveRun(Apply(sys, steps[0]), steps[1..], j);
    }
  }

  /**
   The lock is held exactly when some no-overlap ticket of the job is claimed, and then by the same node and
   lease.
   */
  lemma LockIsHeldByTheRunner(steps: seq<Step>, j: int)
    requires Throughout(Guard(j), START, steps)
    ensures var sys := Run(START, steps);
      && (Overlap(j) in sys.store.kv <==> exists s :: Runs(sys, j, s))
      && (forall s, s' :: Runs(sys, j, s) && Runs(sys, j, s') ==> s == s')
      && (forall s | Runs(sys, j, s) :: LockFor(sys.store.kv, s))
  {
    ExclusiveRun(START, steps, j);
  }

  /** The claim of `s` and the lock of its job are both there or both gone. */
  predicate Together(kv: map<Key, QEntry>, s: Stamp) { Claimed(s) in kv <==> Overlap(s.job) in kv }

  /**
   One lease for both keys is just what it takes: with it, and only with it, no expiry parts the lock from
   the claim.
   */
  lemma TogetherIffOneLease(sys: Sys, step: Step)
    requires Inv(sys) && step.Claim? && Label(sys, step, step.o.key).Take? && Bumped(step.o).noOverlap
    ensures var sys' := Apply(sys, step);
      step.lease == step.overlapLease <==> forall x :: Together(Apply(sys', Expire(x)).store.kv, step.o.key)
  {
    var o, sys' := step.o, Apply(sys, step);
    ClaimEffect(sys.store, step.node, o.key, o.entry.modRev, Bumped(o), step.lease, step.overlapLease);
    if step.lease != step.overlapLease {
      var x := if step.lease == NO_LEASE then step.overlapLease else step.lease;
      assert !Together(Apply(sys', Expire(x)).store.kv, o.key);
    }
  }
}
