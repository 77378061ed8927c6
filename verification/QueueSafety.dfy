/**
 No ticket is lost, no ticket is altered, and a ticket without the no-overlap flag can never
 be claimed without being pending.
 */
module QueueSafety {
  import opened Etcd
  import opened Tickets
  import opened QueueMachine
  import opened QueueEffects
  import opened QueueInvariant
  import opened AtomicTickets

  predicate IsPending(sys: Sys, s: Stamp) { Pending(s) in sys.store.kv }

  // ------------------------------------------------------------------ no ticket is lost

  /** The revision that made `sys'` wrote a terminal result of ticket `s`. */
  ghost predicate TerminalResultAt(sys': Sys, s: Stamp, attempt: int) {
    var k := ResultAt(s, attempt);
    && k in sys'.store.kv
    && sys'.store.kv[k].modRev == sys'.store.rev
    && sys'.store.kv[k].value.VResult?
    && Terminal(sys'.store.kv[k].value.result.status)
  }

  /** The step took `s` out of pending and published its terminal result in the same revision. */
  ghost predicate Removes(sys: Sys, step: Step, s: Stamp) {
    var sys' := Apply(sys, step);
    && IsPending(sys, s) && !IsPending(sys', s)
    && sys'.store.rev == sys.store.rev + 1
    && exists a :: TerminalResultAt(sys', s, a)
  }

  lemma SkipRemoves(sys: Sys, n: NodeId, o: Read)
    requires Valid(sys.store) && SeenOk(sys)
    requires IsPending(sys, o.key) && !IsPending(Apply(sys, Skip(n, o)), o.key)
    ensures Removes(sys, Skip(n, o), o.key)
  {
    SkipEffect(sys.store, n, o.key, o.entry.modRev, Bumped(o));
    assert TerminalResultAt(Apply(sys, Skip(n, o)), o.key, Bumped(o).attempt);
  }

  lemma SuccessRemoves(sys: Sys, id: nat, code: int, s: Stamp)
    requires id in sys.execs && s == StampOf(sys.execs[id].ticket)
    requires IsPending(sys, s) && !IsPending(Apply(sys, FinishSuccess(id, code)), s)
    ensures Removes(sys, FinishSuccess(id, code), s)
  {
    var e := sys.execs[id];
    FinishSuccessEffect(sys.store, e.node, e.ticket, RunResult(e, Success, code));
    assert TerminalResultAt(Apply(sys, FinishSuccess(id, code)), s, e.ticket.attempt);
  }

  lemma GiveUpRemoves(sys: Sys, id: nat, out: bool, code: int, now: int, s: Stamp)
    requires id in sys.execs && s == StampOf(sys.execs[id].ticket) && GivesUp(sys.execs[id].ticket)
    requires IsPending(sys, s) && !IsPending(Apply(sys, FinishFailure(id, out, code, now)), s)
    ensures Removes(sys, FinishFailure(id, out, code, now), s)
  {
    var e := sys.execs[id];
    FinishFailureEffect(sys.store, e.node, e.ticket, RunResult(e, Fault(out), code), now);
    assert TerminalResultAt(Apply(sys, FinishFailure(id, out, code, now)), s, e.ticket.attempt);
  }

  lemma AbandonRemoves(sys: Sys, n: NodeId, t: Ticket)
    requires Valid(sys.store)
    requires IsPending(sys, StampOf(t)) && !IsPending(Apply(sys, Abandon(n, t)), StampOf(t))
    ensures Removes(sys, Abandon(n, t), StampOf(t))
  {
    AbandonEffect(sys.store, n, t);
    assert TerminalResultAt(Apply(sys, Abandon(n, t)), StampOf(t), t.attempt);
  }

  /** The only way out of pending is a transaction that publishes a terminal result. */
  lemma RemovalPublishes(sys: Sys, step: Step, s: Stamp)
    requires Inv(sys) && IsPending(sys, s) && !IsPending(Apply(sys, step), s)
    ensures Removes(sys, step, s)
  {
    StepRefines(sys, step, s);
    match Label(sys, step, s) {
      case Withdraw =>
        SkipRemoves(sys, step.node, step.o);
      case Cancel =>
        AbandonRemoves(sys, step.node, step.t);
      case Complete(_) =>
        match step {
          case FinishSuccess(id, code) => SuccessRemoves(sys, id, code, s);
          case FinishFailure(id, out, code, now) => GiveUpRemoves(sys, id, out, code, now, s);
        }
      case _ =>
    }
  }

  /** The revision that made `sys'` wrote a result of ticket `s` with that status. */
  ghost predicate WroteStatus(sys': Sys, s: Stamp, attempt: int, status: Status) {
    var k := ResultAt(s, attempt);
    && k in sys'.store.kv && sys'.store.kv[k].modRev == sys'.store.rev
    && sys'.store.kv[k].value.VResult? && sys'.store.kv[k].value.result.status == status
  }

  /** Who takes a ticket out of pending, and what the result then says of it. */
  lemma RemovalStatus(sys: Sys, step: Step, s: Stamp)
    requires Inv(sys) && IsPending(sys, s) && !IsPending(Apply(sys, step), s)
    ensures
      || (step.FinishSuccess? && exists a :: WroteStatus(Apply(sys, step), s, a, Success))
      || (step.FinishFailure? && exists a :: WroteStatus(Apply(sys, step), s, a, FailedPermanent))
      || (step.Skip? && exists a :: WroteStatus(Apply(sys, step), s, a, Skipped))
      || (step.Abandon? && exists a :: WroteStatus(Apply(sys, step), s, a, Abandoned))
  {
    StepRefines(sys, step, s);
    match step
    case FinishSuccess(id, code) => SuccessStatus(sys, id, code);
    case FinishFailure(id, out, code, now) => GiveUpStatus(sys, id, out, code, now);
    case Skip(n, o) => SkipStatus(sys, n, o);
    case Abandon(n, t) => AbandonStatus(sys, n, t);
    case _ =>
  }

  lemma SuccessStatus(sys: Sys, id: nat, code: int)
    requires id in sys.execs
    ensures var t := sys.execs[id].ticket;
      WroteStatus(Apply(sys, FinishSuccess(id, code)), StampOf(t), t.attempt, Success)
  {
    var e := sys.execs[id];
    FinishSuccessEffect(sys.store, e.node, e.ticket, RunResult(e, Success, code));
  }

  lemma GiveUpStatus(sys: Sys, id: nat, out: bool, code: int, now: int)
    requires id in sys.execs
    requires var s := StampOf(sys.execs[id].ticket);
      IsPending(sys, s) && !IsPending(Apply(sys, FinishFailure(id, out, code, now)), s)
    ensures var t := sys.execs[id].ticket;
      WroteStatus(Apply(sys, FinishFailure(id, out, code, now)), StampOf(t), t.attempt, FailedPermanent)
  {
    var e := sys.execs[id];
    FinishFailureEffect(sys.store, e.node, e.ticket, RunResult(e, Fault(out), code), now);
  }

  lemma SkipStatus(sys: Sys, n: NodeId, o: Read)
    requires Valid(sys.store) && SeenOk(sys) && IsPending(sys, o.key) && !IsPending(Apply(sys, Skip(n, o)), o.key)
    ensures CanUse(sys, o) && WroteStatus(Apply(sys, Skip(n, o)), o.key, Bumped(o).attempt, Skipped)
  {
    SkipEffect(sys.store, n, o.key, o.entry.modRev, Bumped(o));
  }

  lemma AbandonStatus(sys: Sys, n: NodeId, t: Ticket)
    requires Valid(sys.store) && IsPending(sys, StampOf(t)) && !IsPending(Apply(sys, Abandon(n, t)), StampOf(t))
    ensures WroteStatus(Apply(sys, Abandon(n, t)), StampOf(t), t.attempt, Abandoned)
  {
    AbandonEffect(sys.store, n, t);
  }

  /** A finish by the owner publishes a terminal status if and only if it takes the ticket out of pending. */
  lemma TerminalIffGone(sys: Sys, step: Step, id: nat)
    requires id in sys.execs && (step.FinishSuccess? || step.FinishFailure?) && step.id == id
    requires OwnedBy(sys.store.kv, StampOf(sys.execs[id].ticket), sys.execs[id].node)
    ensures
      var t, sys' := sys.execs[id].ticket, Apply(sys, step);
      var k := ResultAt(StampOf(t), t.attempt);
      && k in sys'.store.kv && sys'.store.kv[k].value.VResult?
      && var status := sys'.store.kv[k].value.result.status;
        && (IsPending(sys', StampOf(t)) <==> status == Failed || status == Timeout)
        && (IsPending(sys', StampOf(t)) <==> !Terminal(status))
  {
    var e := sys.execs[id];
    match step
    case FinishSuccess(_, code) => FinishSuccessEffect(sys.store, e.node, e.ticket, RunResult(e, Success, code));
    case FinishFailure(_, out, code, now) =>
      FailureOutcome(sys.store, e.node, e.ticket, RunResult(e, Fault(out), code), now);
  }

  /** Some step of the run removes ticket `s` with a terminal result. */
  ghost predicate RemovedIn(sys: Sys, steps: seq<Step>, s: Stamp) {
    exists i | 0 <= i < |steps| :: Removes(Run(sys, steps[..i]), steps[i], s)
  }

  lemma RemovedLonger(sys: Sys, steps: seq<Step>, n: nat, s: Stamp)
    requires n <= |steps| && RemovedIn(sys, steps[..n], s)
    ensures RemovedIn(sys, steps, s)
  {
    var i :| 0 <= i < n && Removes(Run(sys, steps[..n][..i]), steps[..n][i], s);
    assert steps[..n][..i] == steps[..i];
  }

  /** The last step of a run, and the state it starts from. */
  lemma LastStep(sys: Sys, steps: seq<Step>)
    requires Inv(sys) && steps != []
    ensures var n := |steps| - 1; Inv(Run(sys, steps[..n])) && Run(sys, steps) == Apply(Run(sys, steps[..n]), steps[n])
  {
    var n := |steps| - 1;
    assert steps[..n + 1] == steps;
    RunSnoc(sys, steps, n);
    InvRun(sys, steps[..n]);
  }

  lemma LastRemoves(sys: Sys, steps: seq<Step>, s: Stamp)
    requires Inv(sys) && steps != [] && IsPending(Run(sys, steps[..|steps| - 1]), s) && !IsPending(Run(sys, steps), s)
    ensures RemovedIn(sys, steps, s)
  {
    var n := |steps| - 1;
    LastStep(sys, steps);
    RemovalPublishes(Run(sys, steps[..n]), steps[n], s);
  }

  /** No ticket is lost: between being pending and not being pending, some step removed it with a result. */
  lemma {:induction false} NoTicketLost(sys: Sys, steps: seq<Step>, s: Stamp)
    requires Inv(sys) && IsPending(sys, s) && !IsPending(Run(sys, steps), s)
    ensures RemovedIn(sys, steps, s)
    decreases |steps|
  {
    var n := |steps| - 1;
    if IsPending(Run(sys, steps[..n]), s) {
      LastRemoves(sys, steps, s);
    } else {
      NoTicketLost(sys, steps[..n], s);
      RemovedLonger(sys, steps, n, s);
    }
  }

  /** From an empty store: every ticket ever enqueued is pending, or was removed with a terminal result. */
  lemma {:induction false} EveryTicketAccountedFor(steps: seq<Step>, s: Stamp)
    requires s in Run(START, steps).books
    ensures IsPending(Run(START, steps), s) || RemovedIn(START, steps, s)
    decreases |steps|
  {
    if |steps| > 0 {
      var n := |steps| - 1;
      var before := Run(START, steps[..n]);
      LastStep(START, steps);
      if s !in before.books {
        BookMeansPending(before, steps[n], s);
      } else {
        EveryTicketAccountedFor(steps[..n], s);
        if !IsPending(before, s) {
          RemovedLonger(START, steps, n, s);
        } else if !IsPending(Run(START, steps), s) {
          LastRemoves(START, steps, s);
        }
      }
    }
  }

  /** A book is opened by the enqueue that makes the ticket pending. */
  lemma BookMeansPending(sys: Sys, step: Step, s: Stamp)
    requires Inv(sys) && s !in sys.books && s in Apply(sys, step).books
    ensures IsPending(Apply(sys, step), s)
    ensures (step.Enqueue? || step.EnqueueFire?) && StampOf(step.t) == s
    ensures Apply(sys, step).books[s] == Book(Static(step.t), 1, 0, 0, 0, 0)
  {
    match step
    case Enqueue(t) => EnqueueEffect(sys.store, t);
    case EnqueueFire(t, wm) => EnqueueFireEffect(sys.store, t, wm);
    case _ =>
  }

  // ------------------------------------------------------------------ no ticket is altered

  /** A guard that some class of runs respects at every step. */
  ghost predicate Throughout(guard: (Sys, Step) -> bool, sys: Sys, steps: seq<Step>)
    decreases |steps|
  {
    steps == [] || (guard(sys, steps[0]) && Throughout(guard, Apply(sys, steps[0]), steps[1..]))
  }

  /** How much of a ticket is compared: all it keeps for its life, or the no-overlap flag alone. */
  datatype View = Whole | Flag

  const BLANK_TICKET: Ticket := Ticket(0, Manual(0), "", "", 0, 0, false, 0, None, false)

  function Sight(v: View, t: Ticket): Ticket {
    match v
    case Whole => Static(t)
    case Flag => BLANK_TICKET.(noOverlap := t.noOverlap)
  }

  /** The step enqueues ticket `s` once more, successfully, with something else in view than the first time. */
  predicate Alters(v: View, sys: Sys, step: Step, s: Stamp) {
    && Label(sys, step, s).Create? && s in sys.books
    && Sight(v, Label(sys, step, s).t) != Sight(v, sys.books[s].template)
  }

  ghost function Same(v: View, s: Stamp): (Sys, Step) -> bool { (sys, step) => !Alters(v, sys, step, s) }

  ghost predicate Carries(v: View, p: Phase, t: Ticket) { (p.Queued? || p.Running?) ==> Sight(v, p.t) == Sight(v, t) }

  /** Every read of `s` and every run of it shows what `t` shows. */
  ghost predicate CopiesShow(v: View, sys: Sys, s: Stamp, t: Ticket) {
    && (forall o | o in sys.seen && o.key == s ::
          o.entry.value.VTicket? && Sight(v, o.entry.value.ticket) == Sight(v, t))
    && (forall id | id in sys.execs && StampOf(sys.execs[id].ticket) == s ::
          Sight(v, sys.execs[id].ticket) == Sight(v, t))
  }

  /** Every copy of ticket `s`, wherever it is, shows what the enqueued one showed. */
  ghost predicate Unaltered(v: View, sys: Sys, s: Stamp)
    requires Inv(sys)
  {
    s in sys.books ==>
      Carries(v, PhaseOf(sys, s), sys.books[s].template) && CopiesShow(v, sys, s, sys.books[s].template)
  }

  lemma WholeShowsFlag(sys: Sys, s: Stamp)
    requires Inv(sys) && Unaltered(Whole, sys, s)
    ensures Unaltered(Flag, sys, s)
  {
  }

  lemma TemplatesKept(sys: Sys, step: Step, s: Stamp)
    requires s in sys.books
    ensures s in Apply(sys, step).books && Apply(sys, step).books[s].template == sys.books[s].template
  {
  }

  lemma NewPhaseUnaltered(v: View, sys: Sys, step: Step, s: Stamp)
    requires Inv(sys) && Inv(Apply(sys, step)) && s in Apply(sys, step).books && s !in sys.books
    ensures Carries(v, PhaseOf(Apply(sys, step), s), Apply(sys, step).books[s].template)
  {
    StepRefines(sys, step, s);
    BookMeansPending(sys, step, s);
  }

  /** What a step does to a ticket shows what the ticket showed. */
  predicate ActionShows(v: View, a: Action, t: Ticket) { a.Create? || a.Retry? ==> Sight(v, a.t) == Sight(v, t) }

  lemma ActionUnaltered(v: View, sys: Sys, step: Step, s: Stamp)
    requires s in sys.books && CopiesShow(v, sys, s, sys.books[s].template) && !Alters(v, sys, step, s)
    ensures ActionShows(v, Label(sys, step, s), sys.books[s].template)
  {
  }

  lemma PhaseCarries(v: View, p: Phase, a: Action, q: Phase, t: Ticket)
    requires Does(p, a, q) && Carries(v, p, t) && ActionShows(v, a, t)
    ensures Carries(v, q, t)
  {
  }

  lemma PhaseUnaltered(v: View, sys: Sys, step: Step, s: Stamp)
    requires Inv(sys) && Unaltered(v, sys, s) && !Alters(v, sys, step, s) && s in sys.books
    ensures Inv(Apply(sys, step)) && Carries(v, PhaseOf(Apply(sys, step), s), sys.books[s].template)
  {
    StepRefines(sys, step, s);
    ActionUnaltered(v, sys, step, s);
    PhaseCarries(v, PhaseOf(sys, s), Label(sys, step, s), PhaseOf(Apply(sys, step), s), sys.books[s].template);
  }

  lemma OldUnaltered(v: View, sys: Sys, step: Step, s: Stamp)
    requires Inv(sys) && Unaltered(v, sys, s) && !Alters(v, sys, step, s) && s in sys.books
    ensures Inv(Apply(sys, step)) && Unaltered(v, Apply(sys, step), s)
  {
    PhaseUnaltered(v, sys, step, s);
    TemplatesKept(sys, step, s);
    CopiesUnaltered(v, sys, step, s);
  }

  lemma UnalteredStep(v: View, sys: Sys, step: Step, s: Stamp)
    requires Inv(sys) && Unaltered(v, sys, s) && !Alters(v, sys, step, s)
    ensures Inv(Apply(sys, step)) && Unaltered(v, Apply(sys, step), s)
  {
    if s in sys.books {
      OldUnaltered(v, sys, step, s);
    } else {
      InvStep(sys, step);
      if s in Apply(sys, step).books {
        NewPhaseUnaltered(v, sys, step, s);
        NoCopiesYet(sys, step, s);
      }
    }
  }

  lemma NoCopiesYet(sys: Sys, step: Step, s: Stamp)
    requires Inv(sys) && s !in sys.books && s in Apply(sys, step).books
    ensures forall o | o in Apply(sys, step).seen :: o.key != s
    ensures forall id | id in Apply(sys, step).execs :: StampOf(Apply(sys, step).execs[id].ticket) != s
  {
    BookMeansPending(sys, step, s);
  }

  /** Only a read adds a read: of the pending entry as it stands. */
  lemma NewReadIsObserved(sys: Sys, step: Step, o: Read)
    requires o in Apply(sys, step).seen && o !in sys.seen
    ensures IsPending(sys, o.key) && o.entry == sys.store.kv[Pending(o.key)]
  {
  }

  lemma ReadUnaltered(v: View, sys: Sys, step: Step, s: Stamp, o: Read)
    requires Inv(sys) && Unaltered(v, sys, s) && s in sys.books && o in Apply(sys, step).seen && o.key == s
    ensures o.entry.value.VTicket? && Sight(v, o.entry.value.ticket) == Sight(v, sys.books[s].template)
  {
    if o !in sys.seen {
      NewReadIsObserved(sys, step, o);
      assert Carries(v, PhaseOf(sys, s), sys.books[s].template);
    }
  }

  /** Only a claim starts a run. */
  lemma NewRunIsClaimed(sys: Sys, step: Step, id: nat)
    requires id in Apply(sys, step).execs && !(id in sys.execs && Apply(sys, step).execs[id] == sys.execs[id])
    ensures step.Claim? && CanUse(sys, step.o) && id == sys.nextExec
    ensures Wins(sys.store, ClaimTxnOf(step.node, step.o, step.lease, step.overlapLease))
    ensures Apply(sys, step).execs[id] == Exec(step.node, Bumped(step.o))
  {
  }

  lemma RunUnaltered(v: View, sys: Sys, step: Step, s: Stamp, id: nat)
    requires Inv(sys) && Unaltered(v, sys, s) && s in sys.books
    requires id in Apply(sys, step).execs && StampOf(Apply(sys, step).execs[id].ticket) == s
    ensures Sight(v, Apply(sys, step).execs[id].ticket) == Sight(v, sys.books[s].template)
  {
    if !(id in sys.execs && Apply(sys, step).execs[id] == sys.execs[id]) { NewRunIsClaimed(sys, step, id); }
  }

  lemma CopiesUnaltered(v: View, sys: Sys, step: Step, s: Stamp)
    requires Inv(sys) && Unaltered(v, sys, s) && s in sys.books
    ensures CopiesShow(v, Apply(sys, step), s, sys.books[s].template)
  {
    var sys', t := Apply(sys, step), sys.books[s].template;
    forall o | o in sys'.seen && o.key == s
      ensures o.entry.value.VTicket? && Sight(v, o.entry.value.ticket) == Sight(v, t)
    {
      ReadUnaltered(v, sys, step, s, o);
    }
    forall id | id in sys'.execs && StampOf(sys'.execs[id].ticket) == s
      ensures Sight(v, sys'.execs[id].ticket) == Sight(v, t)
    {
      RunUnaltered(v, sys, step, s, id);
    }
  }

  // ------------------------------------------------------------------ claimed means pending

  predicate NoOverlapTicket(sys: Sys, s: Stamp) { s in sys.books && sys.books[s].template.noOverlap }

  /** Only as a no-overlap ticket can `s` be claimed without being pending. */
  ghost predicate ClaimedIsPending(sys: Sys, s: Stamp) {
    Claimed(s) in sys.store.kv && !NoOverlapTicket(sys, s) ==> IsPending(sys, s)
  }

  lemma ClaimedIsPendingStep(sys: Sys, step: Step, s: Stamp)
    requires Inv(sys) && Unaltered(Flag, sys, s) && ClaimedIsPending(sys, s)
    ensures ClaimedIsPending(Apply(sys, step), s)
  {
    StepRefines(sys, step, s);
    if s in sys.books {
      TemplatesKept(sys, step, s);
    } else if s in Apply(sys, step).books {
      BookMeansPending(sys, step, s);
    }
  }

  /**
   As long as ticket `s` is not enqueued again as another: every copy of it shows what was enqueued,
   and, if it is not a no-overlap ticket, its claim implies that it is pending.
   */
  lemma {:induction false} SafeRun(v: View, sys: Sys, steps: seq<Step>, s: Stamp)
    requires Inv(sys) && Unaltered(v, sys, s) && ClaimedIsPending(sys, s) && Throughout(Same(v, s), sys, steps)
    ensures Inv(Run(sys, steps)) && Unaltered(v, Run(sys, steps), s) && ClaimedIsPending(Run(sys, steps), s)
    decreases |steps|
  {
    if steps != [] {
      if v == Whole { WholeShowsFlag(sys, s); }
      ClaimedIsPendingStep(sys, steps[0], s);
      UnalteredStep(v, sys, steps[0], s);
      SafeRun(v, Apply(sys, steps[0]), steps[1..], s);
    }
  }

  lemma {:induction false} TemplateStays(sys: Sys, steps: seq<Step>, s: Stamp)
    requires s in sys.books
    ensures s in Run(sys, steps).books && Run(sys, steps).books[s].template == sys.books[s].template
    decreases |steps|
  {
    if steps != [] {
      TemplatesKept(sys, steps[0], s);
      TemplateStays(Apply(sys, steps[0]), steps[1..], s);
    }
  }

  /** The same work: whatever a retry may change is left out. */
  predicate SameWork(t: Ticket, u: Ticket) {
    && t.job == u.job && t.sched == u.sched && t.name == u.name && t.command == u.command && t.manual == u.manual
    && t.timeoutSec == u.timeoutSec && t.maxRetries == u.maxRetries && t.noOverlap == u.noOverlap
  }

  /** What is run is what was enqueued: every later run of the ticket, and the ticket while it is pending. */
  lemma RunsWhatWasEnqueued(sys: Sys, step: Step, later: seq<Step>, s: Stamp)
    requires Inv(sys) && s !in sys.books && (step.Enqueue? || step.EnqueueFire?) && StampOf(step.t) == s
    requires Throughout(Same(Whole, s), Apply(sys, step), later)
    ensures var end := Run(Apply(sys, step), later);
      && (forall id | id in end.execs && StampOf(end.execs[id].ticket) == s :: SameWork(end.execs[id].ticket, step.t))
      && (IsPending(end, s) ==>
            end.store.kv[Pending(s)].value.VTicket? && SameWork(end.store.kv[Pending(s)].value.ticket, step.t))
  {
    var mid := Apply(sys, step);
    EnqueuedAsSuch(sys, step, s);
    SafeRun(Whole, mid, later, s);
    TemplateStays(mid, later, s);
    CopiesAreSame(Run(mid, later), step.t, s);
  }

  lemma EnqueuedAsSuch(sys: Sys, step: Step, s: Stamp)
    requires Inv(sys) && s !in sys.books && (step.Enqueue? || step.EnqueueFire?) && StampOf(step.t) == s
    ensures var mid := Apply(sys, step);
      && Inv(mid) && Unaltered(Whole, mid, s) && ClaimedIsPending(mid, s)
      && s in mid.books && mid.books[s].template == Static(step.t)
  {
    assert Pending(s) !in sys.store.kv && Claimed(s) !in sys.store.kv;
    UnalteredStep(Whole, sys, step, s);
    ClaimedIsPendingStep(sys, step, s);
    if step.Enqueue? { EnqueueEffect(sys.store, step.t); } else { EnqueueFireEffect(sys.store, step.t, step.wm); }
  }

  lemma CopiesAreSame(sys: Sys, t: Ticket, s: Stamp)
    requires Inv(sys) && Unaltered(Whole, sys, s) && s in sys.books && sys.books[s].template == Static(t)
    ensures forall id | id in sys.execs && StampOf(sys.execs[id].ticket) == s :: SameWork(sys.execs[id].ticket, t)
    ensures IsPending(sys, s) ==>
              sys.store.kv[Pending(s)].value.VTicket? && SameWork(sys.store.kv[Pending(s)].value.ticket, t)
  {
    forall id | id in sys.execs && StampOf(sys.execs[id].ticket) == s ensures SameWork(sys.execs[id].ticket, t) {
      assert Sight(Whole, sys.execs[id].ticket) == Sight(Whole, sys.books[s].template);
    }
    assert Carries(Whole, PhaseOf(sys, s), sys.books[s].template);
  }

  /** A ticket without the flag that lost its claim, by whatever expiry, is still there to be claimed. */
  lemma ExpiryLeavesClaimable(sys: Sys, l: nat, s: Stamp)
    requires Inv(sys) && ClaimedIsPending(sys, s) && !NoOverlapTicket(sys, s)
    requires l in sys.store.leases && Claimed(s) in sys.store.kv && sys.store.kv[Claimed(s)].lease == l
    ensures
      && PhaseOf(sys, s).Running?
      && Inv(Apply(sys, Expire(l)))
      && PhaseOf(Apply(sys, Expire(l)), s) == Queued(PhaseOf(sys, s).t)
  {
    StepRefines(sys, Expire(l), s);
  }

  /** Once gone, a ticket that is not claimed stays gone until it is enqueued again. */
  lemma GoneStaysGone(sys: Sys, step: Step, s: Stamp)
    requires Inv(sys) && PhaseOf(sys, s).Idle?
    requires !((step.Enqueue? || step.EnqueueFire?) && StampOf(step.t) == s)
    ensures Inv(Apply(sys, step)) && PhaseOf(Apply(sys, step), s).Idle?
  {
    StepRefines(sys, step, s);
  }
}
