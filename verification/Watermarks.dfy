/**
 The watermark discipline, job by job: as long as no other leader moves a job's watermark between
 a leader's calls and the job is not deleted, its watermark only moves forward, none of its fires is
 ever enqueued twice, and no enqueue of a fire ever finds its key taken.
 */
module Watermarks {
  import opened Etcd
  import opened Tickets
  import opened QueueMachine
  import opened QueueEffects
  import opened QueueInvariant
  import opened AtomicTickets
  import opened QueueSafety
  import opened QueueAccounting
  import QueueOverlap

  /** No move of a scheduler on job `j`: any other node may do it between two of a leader's calls. */
  predicate Inert(step: Step, j: int) {
    match step
    case Enqueue(t) => t.job == j ==> t.sched.Manual?
    case EnqueueFire(t, _) => t.job != j
    case AdvanceWatermark(k, _) => k != j
    case DropWatermark(k) => k != j
    case _ => true
  }

  /** Inert on job `j`, or a move a leader makes when no other leader moved the job's watermark since it read it. */
  predicate Disciplined(sys: Sys, step: Step, j: int) {
    match step
    case EnqueueFire(t, wm) =>
      t.job == j ==>
        && t.sched.Fire? && WatermarkOf(sys.store, j).Some?
        && WatermarkOf(sys.store, j).value < t.sched.at <= wm
    case AdvanceWatermark(k, wm) =>
      k == j && WatermarkOf(sys.store, j).Some? ==> WatermarkOf(sys.store, j).value <= wm
    case _ => Inert(step, j)
  }

  ghost function For(j: int): (Sys, Step) -> bool { (sys, step) => Disciplined(sys, step, j) }

  /** Every scheduled fire of job `j` ever enqueued lies at or before the job's watermark. */
  ghost predicate BehindWatermark(sys: Sys, j: int) {
    forall s | s in sys.books && s.sched.Fire? && s.job == j ::
      WatermarkOf(sys.store, j).Some? && s.sched.at <= WatermarkOf(sys.store, j).value
  }

  /** The watermark of a job is what the last arming, advance or won fire of the job put, until the job is deleted. */
  lemma WatermarkStep(sys: Sys, step: Step, j: int)
    requires Inv(sys)
    ensures WatermarkOf(Apply(sys, step).store, j) ==
            if step.AdvanceWatermark? && step.job == j then Some(step.wm)
            else if step.EnqueueFire? && step.t.job == j && !IsPending(sys, StampOf(step.t)) then Some(step.wm)
            else if step.DropWatermark? && step.job == j then None
            else WatermarkOf(sys.store, j)
  {
    match step
    case EnqueueFire(t, wm) => EnqueueFireEffect(sys.store, t, wm);
    case AdvanceWatermark(k, wm) => AdvanceEffect(sys.store, k, wm);
    case DropWatermark(k) => DeleteEffect(sys.store, Watermark(k));
    case _ => OthersKeepWatermark(sys, step, j);
  }

  lemma SuccessKeepsWatermark(sys: Sys, id: nat, code: int, j: int)
    requires Valid(sys.store) && Typed(sys.store.kv)
    ensures WatermarkOf(Apply(sys, FinishSuccess(id, code)).store, j) == WatermarkOf(sys.store, j)
  {
    if id in sys.execs {
      var e := sys.execs[id];
      FinishSuccessEffect(sys.store, e.node, e.ticket, RunResult(e, Success, code));
    }
  }

  lemma FailureKeepsWatermark(sys: Sys, id: nat, out: bool, code: int, now: int, j: int)
    requires Valid(sys.store) && Typed(sys.store.kv)
    ensures WatermarkOf(Apply(sys, FinishFailure(id, out, code, now)).store, j) == WatermarkOf(sys.store, j)
  {
    if id in sys.execs {
      var e := sys.execs[id];
      FinishFailureEffect(sys.store, e.node, e.ticket, RunResult(e, Fault(out), code), now);
    }
  }

  lemma ClaimKeepsWatermark(sys: Sys, step: Step, j: int)
    requires Valid(sys.store) && Typed(sys.store.kv) && SeenOk(sys) && (step.Claim? || step.Skip?)
    ensures WatermarkOf(Apply(sys, step).store, j) == WatermarkOf(sys.store, j)
  {
    var o := step.o;
    if CanUse(sys, o) {
      match step
      case Claim(n, _, l, ol) => ClaimEffect(sys.store, n, o.key, o.entry.modRev, Bumped(o), l, ol);
      case Skip(n, _) => SkipEffect(sys.store, n, o.key, o.entry.modRev, Bumped(o));
    }
  }

  lemma OthersKeepWatermark(sys: Sys, step: Step, j: int)
    requires Valid(sys.store) && Typed(sys.store.kv) && SeenOk(sys) && !step.EnqueueFire? && !step.AdvanceWatermark?
    requires step.DropWatermark? ==> step.job != j
    ensures WatermarkOf(Apply(sys, step).store, j) == WatermarkOf(sys.store, j)
  {
    match step
    case Enqueue(t) => EnqueueEffect(sys.store, t);
    case DropWatermark(k) => DeleteEffect(sys.store, Watermark(k));
    case Claim(_, _, _, _) => ClaimKeepsWatermark(sys, step, j);
    case Skip(_, _) => ClaimKeepsWatermark(sys, step, j);
    case FinishSuccess(id, code) => SuccessKeepsWatermark(sys, id, code, j);
    case FinishFailure(id, out, code, now) => FailureKeepsWatermark(sys, id, out, code, now, j);
    case Abandon(n, t) => AbandonEffect(sys.store, n, t);
    case Collect(s, a) => DeleteEffect(sys.store, ResultAt(s, a));
    case _ =>
  }

  /** One disciplined step: the mark only moves forward, and an enqueued fire is a new one. */
  lemma DisciplinedStep(sys: Sys, step: Step, j: int)
    requires Inv(sys) && BehindWatermark(sys, j) && Disciplined(sys, step, j)
    ensures Inv(Apply(sys, step)) && BehindWatermark(Apply(sys, step), j)
    ensures WatermarkOf(sys.store, j).Some? ==>
              && WatermarkOf(Apply(sys, step).store, j).Some?
              && WatermarkOf(sys.store, j).value <= WatermarkOf(Apply(sys, step).store, j).value
    ensures step.EnqueueFire? && step.t.job == j ==>
              && StampOf(step.t) !in sys.books && !IsPending(sys, StampOf(step.t))
              && WatermarkOf(Apply(sys, step).store, j) == Some(step.wm)
  {
    InvStep(sys, step);
    WatermarkStep(sys, step, j);
    var sys' := Apply(sys, step);
    forall s | s in sys'.books && s.sched.Fire? && s.job == j
      ensures WatermarkOf(sys'.store, j).Some? && s.sched.at <= WatermarkOf(sys'.store, j).value
    {
      if s !in sys.books { BookMeansPending(sys, step, s); }
    }
  }

  lemma {:induction false} DisciplinedRun(sys: Sys, steps: seq<Step>, j: int)
    requires Inv(sys) && BehindWatermark(sys, j) && Throughout(For(j), sys, steps)
    ensures Inv(Run(sys, steps)) && BehindWatermark(Run(sys, steps), j)
    ensures WatermarkOf(sys.store, j).Some? ==>
              && WatermarkOf(Run(sys, steps).store, j).Some?
              && WatermarkOf(sys.store, j).value <= WatermarkOf(Run(sys, steps).store, j).value
    decreases |steps|
  {
    if steps != [] {
      DisciplinedStep(sys, steps[0], j);
      DisciplinedRun(Apply(sys, steps[0]), steps[1..], j);
    }
  }

  /**
   Disciplined on the job of `s`; a manual stamp is drawn afresh; only tickets no attempt was made
   at are enqueued; and no node has two live runs of `s`.
   */
  ghost function Calm(s: Stamp): (Sys, Step) -> bool {
    (sys, step) =>
      && Disciplined(sys, step, s.job) && NoTwins(Apply(sys, step), s)
      && (Label(sys, step, s).Create? ==> Fresh(Label(sys, step, s).t) && (s.sched.Manual? ==> s !in sys.books))
  }

  lemma CalmIsOnce(sys: Sys, step: Step, s: Stamp)
    requires Inv(sys) && BehindWatermark(sys, s.job) && Calm(s)(sys, step)
    ensures Guard(s)(sys, step)
  {
    DisciplinedStep(sys, step, s.job);
  }

  /** Serialized ticks discharge the enqueue-once condition of the retry accounting. */
  lemma {:induction false} CalmRunsAreAccounted(sys: Sys, steps: seq<Step>, s: Stamp)
    requires Inv(sys) && BehindWatermark(sys, s.job) && Throughout(Calm(s), sys, steps)
    ensures Throughout(Guard(s), sys, steps)
    decreases |steps|
  {
    if steps != [] {
      CalmIsOnce(sys, steps[0], s);
      DisciplinedStep(sys, steps[0], s.job);
      CalmRunsAreAccounted(Apply(sys, steps[0]), steps[1..], s);
    }
  }

  /** Disciplined on the job of `s`; if `s` is a manual stamp, it is drawn afresh. */
  ghost function Anew(s: Stamp): (Sys, Step) -> bool {
    (sys, step) =>
      Disciplined(sys, step, s.job) && (s.sched.Manual? && Label(sys, step, s).Create? ==> s !in sys.books)
  }

  /** A fire needs nothing but the discipline. */
  lemma {:induction false} FireIsAnew(sys: Sys, steps: seq<Step>, s: Stamp)
    requires s.sched.Fire?
    ensures Throughout(Anew(s), sys, steps) <==> Throughout(For(s.job), sys, steps)
    decreases |steps|
  {
    if steps != [] { FireIsAnew(Apply(sys, steps[0]), steps[1..], s); }
  }

  /** A ticket is enqueued once, and never again, whatever becomes of it, of its runs and of other jobs. */
  lemma {:induction false} EnqueuedOnce(sys: Sys, steps: seq<Step>, s: Stamp)
    requires Inv(sys) && BehindWatermark(sys, s.job) && Throughout(Anew(s), sys, steps)
    requires s in sys.books ==> sys.books[s].enqueues == 1
    ensures s in Run(sys, steps).books ==> Run(sys, steps).books[s].enqueues == 1
    decreases |steps|
  {
    if steps != [] {
      DisciplinedStep(sys, steps[0], s.job);
      if s in sys.books {
        BookFollows(sys, steps[0], s);
      } else if s in Apply(sys, steps[0]).books {
        BookMeansPending(sys, steps[0], s);
      }
      EnqueuedOnce(Apply(sys, steps[0]), steps[1..], s);
    }
  }

  /** Disciplined on job `j`, its manual stamps drawn afresh, and no claim of it with two leases. */
  ghost function OneLease(j: int): (Sys, Step) -> bool {
    (sys, step) =>
      && Disciplined(sys, step, j) && !QueueOverlap.SplitsLease(sys, step, j)
      && (step.Enqueue? && step.t.job == j && !IsPending(sys, StampOf(step.t)) ==> StampOf(step.t) !in sys.books)
  }

  lemma OneLeaseGuards(sys: Sys, step: Step, j: int)
    requires Inv(sys) && BehindWatermark(sys, j) && OneLease(j)(sys, step)
    ensures QueueOverlap.Guard(j)(sys, step)
  {
    DisciplinedStep(sys, step, j);
  }

  lemma {:induction false} OneLeaseRunsAreGuarded(sys: Sys, steps: seq<Step>, j: int)
    requires Inv(sys) && BehindWatermark(sys, j) && Throughout(OneLease(j), sys, steps)
    ensures Throughout(QueueOverlap.Guard(j), sys, steps)
    decreases |steps|
  {
    if steps != [] {
      OneLeaseGuards(sys, steps[0], j);
      DisciplinedStep(sys, steps[0], j);
      OneLeaseRunsAreGuarded(Apply(sys, steps[0]), steps[1..], j);
    }
  }

  /** With serialized ticks one lease for each claim is all that exclusion takes. */
  lemma OneRunAtATime(steps: seq<Step>, j: int)
    requires Throughout(OneLease(j), START, steps)
    ensures var sys := Run(START, steps);
      && (Overlap(j) in sys.store.kv <==> exists s :: QueueOverlap.Runs(sys, j, s))
      && (forall s, s' :: QueueOverlap.Runs(sys, j, s) && QueueOverlap.Runs(sys, j, s') ==> s == s')
  {
    OneLeaseRunsAreGuarded(START, steps, j);
    QueueOverlap.LockIsHeldByTheRunner(steps, j);
  }

  /**
   Over a whole run from the empty store, even after the ticket finishes, and whatever becomes of other
   jobs: the ticket is enqueued once.  If moreover it starts afresh and no node has two live runs of it,
   it runs within its bounds.
   */
  lemma OnceAndBounded(steps: seq<Step>, s: Stamp)
    requires Throughout(Anew(s), START, steps) && s in Run(START, steps).books
    ensures var b := Run(START, steps).books[s];
      && b.enqueues == 1
      && (Throughout(Calm(s), START, steps) && b.template.maxRetries >= 0 ==>
            b.claims <= b.template.maxRetries + 1 + b.expiries)
  {
    EnqueuedOnce(START, steps, s);
    if Throughout(Calm(s), START, steps) && Run(START, steps).books[s].template.maxRetries >= 0 {
      CalmRunsAreAccounted(START, steps, s);
      RetryBounds(steps, s);
    }
  }
}
