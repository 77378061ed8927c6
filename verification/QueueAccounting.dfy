/**
 Retry accounting, ticket by ticket.  As long as a ticket is enqueued once and no node has two live
 runs of it, its attempt number is the number of its claims, and the number of its runs is bounded
 by the retries allowed plus the claims that expired.
 */
module QueueAccounting {
  import opened Etcd
  import opened Tickets
  import opened QueueMachine
  import opened QueueEffects
  import opened QueueInvariant
  import opened AtomicTickets
  import opened QueueSafety

  /** The step enqueues `s`, successfully, for a second time, or not as a ticket no attempt was made at. */
  predicate Reopens(sys: Sys, step: Step, s: Stamp) {
    Label(sys, step, s).Create? && (s in sys.books || !Fresh(Label(sys, step, s).t))
  }

  /** No node has two live runs of ticket `s`. */
  ghost predicate NoTwins(sys: Sys, s: Stamp) {
    forall i, k | i in sys.execs && k in sys.execs && i != k && RunsOf(sys, i, s) && RunsOf(sys, k, s) ::
      sys.execs[i].node != sys.execs[k].node
  }

  predicate RunsOf(sys: Sys, id: nat, s: Stamp) { id in sys.execs && StampOf(sys.execs[id].ticket) == s }

  ghost function Guard(s: Stamp): (Sys, Step) -> bool {
    (sys, step) => !Reopens(sys, step, s) && NoTwins(Apply(sys, step), s)
  }

  /** How the book of a ticket follows the ticket's atomic actions. */
  function Follow(b: Book, a: Action): Book {
    match a
    case Create(_) => b.(enqueues := b.enqueues + 1)
    case Take(_, _) => b.(claims := b.claims + 1)
    case Complete(_) => b.(finals := b.finals + 1)
    case Retry(_, _) => b.(requeues := b.requeues + 1)
    case Lapse(_) => b.(expiries := b.expiries + 1)
    case _ => b
  }

  lemma ClaimFollows(sys: Sys, step: Step, s: Stamp)
    requires Valid(sys.store) && SeenOk(sys) && s in sys.books && step.Claim?
    ensures s in Apply(sys, step).books && Apply(sys, step).books[s] == Follow(sys.books[s], Label(sys, step, s))
  {
    var o := step.o;
    if CanUse(sys, o) {
      ClaimEffect(sys.store, step.node, o.key, o.entry.modRev, Bumped(o), step.lease, step.overlapLease);
    }
  }

  lemma FinishFollows(sys: Sys, step: Step, s: Stamp)
    requires s in sys.books && (step.FinishSuccess? || step.FinishFailure?)
    ensures s in Apply(sys, step).books && Apply(sys, step).books[s] == Follow(sys.books[s], Label(sys, step, s))
  {
    if step.id in sys.execs {
      var e := sys.execs[step.id];
      if step.FinishSuccess? {
        FinishSuccessEffect(sys.store, e.node, e.ticket, RunResult(e, Success, step.exitCode));
      } else {
        FinishFailureEffect(sys.store, e.node, e.ticket, RunResult(e, Fault(step.timedOut), step.exitCode), step.now);
      }
    }
  }

  lemma EnqueueFollows(sys: Sys, step: Step, s: Stamp)
    requires Inv(sys) && s in sys.books && (step.Enqueue? || step.EnqueueFire?)
    ensures s in Apply(sys, step).books && Apply(sys, step).books[s] == Follow(sys.books[s], Label(sys, step, s))
  {
    if step.Enqueue? { EnqueueEffect(sys.store, step.t); } else { EnqueueFireEffect(sys.store, step.t, step.wm); }
  }

  lemma ExpiryFollows(sys: Sys, step: Step, s: Stamp)
    requires s in sys.books && step.Expire?
    ensures s in Apply(sys, step).books && Apply(sys, step).books[s] == Follow(sys.books[s], Label(sys, step, s))
  {
  }

  /** The other steps touch no book, and none is counted. */
  lemma QuietFollows(sys: Sys, step: Step, s: Stamp)
    requires s in sys.books && !step.Enqueue? && !step.EnqueueFire? && !step.Claim? && !step.Expire?
    requires !step.FinishSuccess? && !step.FinishFailure?
    ensures s in Apply(sys, step).books && Apply(sys, step).books[s] == Follow(sys.books[s], Label(sys, step, s))
  {
  }

  lemma BookFollows(sys: Sys, step: Step, s: Stamp)
    requires Inv(sys) && s in sys.books
    ensures s in Apply(sys, step).books && Apply(sys, step).books[s] == Follow(sys.books[s], Label(sys, step, s))
  {
    match step
    case Enqueue(_) => EnqueueFollows(sys, step, s);
    case EnqueueFire(_, _) => EnqueueFollows(sys, step, s);
    case Claim(_, _, _, _) => ClaimFollows(sys, step, s);
    case FinishSuccess(_, _) => FinishFollows(sys, step, s);
    case FinishFailure(_, _, _, _) => FinishFollows(sys, step, s);
    case Expire(_) => ExpiryFollows(sys, step, s);
    case _ => QuietFollows(sys, step, s);
  }

  /** What the count says of one ticket, given its phase and its book. */
  ghost predicate Counted(p: Phase, b: Book) {
    && ((p.Queued? || p.Running?) ==> p.t.attempt == b.claims)
    && b.finals <= 1
    && (b.finals == 1 ==> p.Idle?)
    && (b.template.maxRetries >= 0 ==> b.requeues <= b.template.maxRetries)
  }

  /** What the count says of one run: the run of the owner has the latest number. */
  predicate RunOf(e: Exec, p: Phase, b: Book) {
    && e.ticket.attempt <= b.claims
    && (Held(p) && p.owner == e.node ==> e.ticket.attempt == b.claims)
  }

  ghost predicate RunCounted(sys: Sys, id: nat, s: Stamp)
    requires Inv(sys) && RunsOf(sys, id, s)
  {
    RunOf(sys.execs[id], PhaseOf(sys, s), sys.books[s])
  }

  ghost predicate Accounted(sys: Sys, s: Stamp)
    requires Inv(sys)
  {
    && NoTwins(sys, s)
    && (s in sys.books ==> Counted(PhaseOf(sys, s), sys.books[s]))
    && (forall id | RunsOf(sys, id, s) :: RunCounted(sys, id, s))
  }

  /** A won claim starts a run under an attempt number no run had before. */
  lemma TakeNumbers(sys: Sys, step: Step)
    requires Inv(sys) && step.Claim? && Label(sys, step, step.o.key).Take? && Accounted(sys, step.o.key)
    ensures Apply(sys, step).execs == sys.execs[sys.nextExec := Exec(step.node, Bumped(step.o))]
    ensures PhaseOf(sys, step.o.key) == Queued(step.o.entry.value.ticket)
    ensures Bumped(step.o).attempt == sys.books[step.o.key].claims + 1
  {
    var o := step.o;
    ClaimEffect(sys.store, step.node, o.key, o.entry.modRev, Bumped(o), step.lease, step.overlapLease);
  }

  lemma CountedFollows(p: Phase, a: Action, q: Phase, b: Book)
    requires Does(p, a, q) && Counted(p, b) && !a.Create? && !a.Retry?
    ensures Counted(q, Follow(b, a))
  {
  }

  lemma StepFollows(sys: Sys, step: Step, s: Stamp)
    requires Inv(sys) && s in sys.books
    ensures Inv(Apply(sys, step)) && s in Apply(sys, step).books
    ensures Does(PhaseOf(sys, s), Label(sys, step, s), PhaseOf(Apply(sys, step), s))
    ensures Apply(sys, step).books[s] == Follow(sys.books[s], Label(sys, step, s))
  {
    StepRefines(sys, step, s);
    BookFollows(sys, step, s);
  }

  lemma CountedAgain(p: Phase, a: Action, q: Phase, b: Book)
    requires Does(p, a, q) && Counted(p, b) && a.Retry? && a.t.attempt == b.claims && b.finals == 0
    requires b.template.maxRetries >= 0 ==> b.requeues < b.template.maxRetries
    ensures Counted(q, Follow(b, a))
  {
  }

  lemma RetryCounted(sys: Sys, step: Step, s: Stamp)
    requires Inv(sys) && Unaltered(Whole, sys, s) && Accounted(sys, s) && s in sys.books
    requires Label(sys, step, s).Retry?
    ensures Inv(Apply(sys, step)) && s in Apply(sys, step).books
    ensures Counted(PhaseOf(Apply(sys, step), s), Apply(sys, step).books[s])
  {
    StepFollows(sys, step, s);
    RetriedRun(sys, step, s);
    CountedAgain(PhaseOf(sys, s), Label(sys, step, s), PhaseOf(Apply(sys, step), s), sys.books[s]);
  }

  /** The run that requeues its ticket carries the count, and has a retry left. */
  lemma RetriedRun(sys: Sys, step: Step, s: Stamp)
    requires Inv(sys) && Unaltered(Whole, sys, s) && Accounted(sys, s) && s in sys.books
    requires Label(sys, step, s).Retry?
    ensures var t, b := Label(sys, step, s).t, sys.books[s];
      t.attempt == b.claims && (b.template.maxRetries >= 0 ==> t.attempt <= b.template.maxRetries)
  {
    var e := sys.execs[step.id];
    assert RunCounted(sys, step.id, s);
    assert Sight(Whole, e.ticket) == Sight(Whole, sys.books[s].template);
    assert e.ticket.maxRetries == sys.books[s].template.maxRetries;
  }

  lemma CountedStep(sys: Sys, step: Step, s: Stamp)
    requires Inv(sys) && Unaltered(Whole, sys, s) && Accounted(sys, s) && !Reopens(sys, step, s)
    requires Inv(Apply(sys, step)) && s in Apply(sys, step).books
    ensures Counted(PhaseOf(Apply(sys, step), s), Apply(sys, step).books[s])
  {
    if s !in sys.books {
      StepRefines(sys, step, s);
      BookMeansPending(sys, step, s);
    } else if Label(sys, step, s).Retry? {
      RetryCounted(sys, step, s);
    } else {
      StepFollows(sys, step, s);
      CountedFollows(PhaseOf(sys, s), Label(sys, step, s), PhaseOf(Apply(sys, step), s), sys.books[s]);
    }
  }

  lemma RunFollows(e: Exec, p: Phase, a: Action, q: Phase, b: Book)
    requires Does(p, a, q) && RunOf(e, p, b) && (a.Take? ==> a.owner != e.node)
    ensures RunOf(e, q, Follow(b, a))
  {
  }

  lemma NotTwins(sys: Sys, i: nat, k: nat, s: Stamp)
    requires NoTwins(sys, s) && i != k && RunsOf(sys, i, s) && RunsOf(sys, k, s)
    ensures sys.execs[i].node != sys.execs[k].node
  {
  }

  lemma KeptRunCounted(sys: Sys, step: Step, id: nat, s: Stamp)
    requires Inv(sys) && Accounted(sys, s) && NoTwins(Apply(sys, step), s)
    requires RunsOf(sys, id, s) && id in Apply(sys, step).execs && Apply(sys, step).execs[id] == sys.execs[id]
    ensures Inv(Apply(sys, step)) && RunsOf(Apply(sys, step), id, s) && RunCounted(Apply(sys, step), id, s)
  {
    StepFollows(sys, step, s);
    assert RunCounted(sys, id, s);
    if Label(sys, step, s).Take? {
      TakeNumbers(sys, step);
      NotTwins(Apply(sys, step), sys.nextExec, id, s);
    }
    RunFollows(sys.execs[id], PhaseOf(sys, s), Label(sys, step, s), PhaseOf(Apply(sys, step), s), sys.books[s]);
  }

  lemma RunCountedStep(sys: Sys, step: Step, id: nat, s: Stamp)
    requires Inv(sys) && Accounted(sys, s) && NoTwins(Apply(sys, step), s)
    requires Inv(Apply(sys, step)) && RunsOf(Apply(sys, step), id, s)
    ensures RunCounted(Apply(sys, step), id, s)
  {
    if id in sys.execs && sys.execs[id] == Apply(sys, step).execs[id] {
      KeptRunCounted(sys, step, id, s);
    } else {
      NewRunIsATake(sys, step, id);
      TakeNumbers(sys, step);
      StepFollows(sys, step, s);
    }
  }

  lemma NewRunIsATake(sys: Sys, step: Step, id: nat)
    requires Inv(sys) && id in Apply(sys, step).execs
    requires !(id in sys.execs && sys.execs[id] == Apply(sys, step).execs[id])
    ensures step.Claim? && Label(sys, step, step.o.key).Take? && id == sys.nextExec
    ensures Apply(sys, step).execs[id] == Exec(step.node, Bumped(step.o)) && StampOf(Bumped(step.o)) == step.o.key
  {
    NewRunIsClaimed(sys, step, id);
    ClaimEffect(sys.store, step.node, step.o.key, step.o.entry.modRev, Bumped(step.o), step.lease, step.overlapLease);
  }

  lemma AccountedStep(sys: Sys, step: Step, s: Stamp)
    requires Inv(sys) && Unaltered(Whole, sys, s) && Accounted(sys, s) && Guard(s)(sys, step)
    ensures Inv(Apply(sys, step)) && Unaltered(Whole, Apply(sys, step), s) && Accounted(Apply(sys, step), s)
  {
    UnalteredStep(Whole, sys, step, s);
    if s in Apply(sys, step).books { CountedStep(sys, step, s); }
    forall id | RunsOf(Apply(sys, step), id, s) ensures RunCounted(Apply(sys, step), id, s) {
      RunCountedStep(sys, step, id, s);
    }
  }

  lemma {:induction false} AccountedRun(sys: Sys, steps: seq<Step>, s: Stamp)
    requires Inv(sys) && Unaltered(Whole, sys, s) && Accounted(sys, s) && Throughout(Guard(s), sys, steps)
    ensures Inv(Run(sys, steps)) && Unaltered(Whole, Run(sys, steps), s) && Accounted(Run(sys, steps), s)
    decreases |steps|
  {
    if steps != [] {
      AccountedStep(sys, steps[0], s);
      AccountedRun(Apply(sys, steps[0]), steps[1..], s);
    }
  }

  /** The bounds a job's owner can rely on, after any run in which the ticket is enqueued once and has no twin runs. */
  lemma RetryBounds(steps: seq<Step>, s: Stamp)
    requires Throughout(Guard(s), START, steps) && s in Run(START, steps).books
    requires Run(START, steps).books[s].template.maxRetries >= 0
    ensures var sys := Run(START, steps); var b := sys.books[s];
      && (IsPending(sys, s) ==>
            sys.store.kv[Pending(s)].value.VTicket? && sys.store.kv[Pending(s)].value.ticket.attempt == b.claims)
      && b.requeues <= b.template.maxRetries
      && b.claims <= b.template.maxRetries + 1 + b.expiries
  {
    AccountedRun(START, steps, s);
  }

  /** A run that owns the claim of its ticket carries the count of its claims, and no final finish came before it. */
  lemma OwnerCounts(sys: Sys, id: nat, s: Stamp)
    requires Inv(sys) && Unaltered(Whole, sys, s) && Accounted(sys, s) && RunsOf(sys, id, s)
    requires OwnedBy(sys.store.kv, s, sys.execs[id].node)
    ensures s in sys.books && sys.books[s].finals == 0
    ensures sys.execs[id].ticket.attempt == sys.books[s].claims
    ensures sys.execs[id].ticket.maxRetries == sys.books[s].template.maxRetries
    ensures sys.books[s].claims == sys.books[s].requeues + sys.books[s].expiries + 1
  {
    assert RunCounted(sys, id, s);
    assert Sight(Whole, sys.execs[id].ticket) == Sight(Whole, sys.books[s].template);
  }

  lemma FailedStays(sys: Sys, id: nat, out: bool, code: int, now: int)
    requires id in sys.execs && OwnedBy(sys.store.kv, StampOf(sys.execs[id].ticket), sys.execs[id].node)
    ensures var t := sys.execs[id].ticket;
      IsPending(Apply(sys, FinishFailure(id, out, code, now)), StampOf(t)) <==> t.attempt <= t.maxRetries
  {
    var e := sys.execs[id];
    FailureOutcome(sys.store, e.node, e.ticket, RunResult(e, Fault(out), code), now);
  }

  /** All retries allowed were made, and each claim beyond the first and those retries is one that expired. */
  predicate Spent(b: Book) {
    && b.template.maxRetries + 1 <= b.claims <= b.template.maxRetries + 1 + b.expiries
    && (b.expiries == 0 ==> b.claims == b.template.maxRetries + 1 && b.requeues == b.template.maxRetries)
  }

  /**
   When a failed run gives its ticket up, after every run in which the ticket is enqueued once and has no twin
   runs: the ticket stays pending exactly while its claims are not more than the retries allowed.
   */
  lemma GivenUpWhenSpent(steps: seq<Step>, id: nat, out: bool, code: int, now: int, s: Stamp)
    requires Throughout(Guard(s), START, steps) && RunsOf(Run(START, steps), id, s)
    requires OwnedBy(Run(START, steps).store.kv, s, Run(START, steps).execs[id].node)
    ensures s in Run(START, steps).books
    ensures
      var b, after := Run(START, steps).books[s], Apply(Run(START, steps), FinishFailure(id, out, code, now));
      && (IsPending(after, s) <==> b.claims <= b.template.maxRetries)
      && (!IsPending(after, s) && b.template.maxRetries >= 0 ==> Spent(b))
  {
    var sys := Run(START, steps);
    AccountedRun(START, steps, s);
    OwnerCounts(sys, id, s);
    FailedStays(sys, id, out, code, now);
    if sys.books[s].template.maxRetries >= 0 { RetryBounds(steps, s); }
  }

  // ------------------------------------------------------------------ claims along a run

  /** Step `i` of the run is a won claim of `s`. */
  ghost predicate WinsAt(sys: Sys, steps: seq<Step>, i: nat, s: Stamp)
    requires Inv(sys) && i < |steps|
  {
    && Inv(Run(sys, steps[..i])) && steps[i].Claim? && steps[i].o.key == s
    && Label(Run(sys, steps[..i]), steps[i], s).Take?
  }

  lemma {:induction false} ThroughoutSplit(guard: (Sys, Step) -> bool, sys: Sys, a: seq<Step>, b: seq<Step>)
    requires Throughout(guard, sys, a + b)
    ensures Throughout(guard, sys, a) && Throughout(guard, Run(sys, a), b)
    decreases |a|
  {
    if a == [] {
      assert a + b == b;
    } else {
      assert (a + b)[0] == a[0] && (a + b)[1..] == a[1..] + b;
      ThroughoutSplit(guard, Apply(sys, a[0]), a[1..], b);
    }
  }

  /** Some claim of `s` is won along the steps. */
  predicate ClaimWon(sys: Sys, steps: seq<Step>, s: Stamp)
    decreases |steps|
  {
    steps != [] && (Label(sys, steps[0], s).Take? || ClaimWon(Apply(sys, steps[0]), steps[1..], s))
  }

  /** The claim count of a ticket never falls, and it rises exactly by won claims. */
  lemma {:induction false} ClaimsGrow(sys: Sys, steps: seq<Step>, s: Stamp)
    requires Inv(sys) && s in sys.books
    ensures s in Run(sys, steps).books && Run(sys, steps).books[s].claims >= sys.books[s].claims
    ensures Run(sys, steps).books[s].claims > sys.books[s].claims <==> ClaimWon(sys, steps, s)
    decreases |steps|
  {
    if steps != [] {
      BookFollows(sys, steps[0], s);
      InvStep(sys, steps[0]);
      ClaimsGrow(Apply(sys, steps[0]), steps[1..], s);
    }
  }

  lemma AccountedTo(steps: seq<Step>, i: nat, s: Stamp)
    requires Throughout(Guard(s), START, steps) && i <= |steps|
    ensures Inv(Run(START, steps[..i])) && Accounted(Run(START, steps[..i]), s)
  {
    assert steps == steps[..i] + steps[i..];
    ThroughoutSplit(Guard(s), START, steps[..i], steps[i..]);
    AccountedRun(START, steps[..i], s);
  }

  /** The run a won claim starts is numbered one above all claims before it. */
  lemma ClaimNumber(steps: seq<Step>, i: nat, s: Stamp)
    requires Throughout(Guard(s), START, steps) && i < |steps| && WinsAt(START, steps, i, s)
    ensures s in Run(START, steps[..i]).books && s in Run(START, steps[..i + 1]).books
    ensures Bumped(steps[i].o).attempt == Run(START, steps[..i]).books[s].claims + 1
    ensures Run(START, steps[..i + 1]).books[s].claims == Run(START, steps[..i]).books[s].claims + 1
  {
    AccountedTo(steps, i, s);
    RunSnoc(START, steps, i);
    ClaimNumberAt(Run(START, steps[..i]), steps[i], s);
  }

  lemma ClaimNumberAt(sys: Sys, step: Step, s: Stamp)
    requires Inv(sys) && Accounted(sys, s) && step.Claim? && step.o.key == s && Label(sys, step, s).Take?
    ensures s in sys.books && s in Apply(sys, step).books
    ensures Bumped(step.o).attempt == sys.books[s].claims + 1 == Apply(sys, step).books[s].claims
  {
    TakeNumbers(sys, step);
    BookFollows(sys, step, s);
  }

  lemma ClaimsBetween(steps: seq<Step>, i: nat, j: nat, s: Stamp)
    requires i <= j <= |steps| && s in Run(START, steps[..i]).books
    ensures s in Run(START, steps[..j]).books
    ensures Run(START, steps[..i]).books[s].claims <= Run(START, steps[..j]).books[s].claims
  {
    assert steps[..j] == steps[..i] + steps[i..j];
    RunSplit(START, steps[..i], steps[i..j]);
    InvRun(START, steps[..i]);
    ClaimsGrow(Run(START, steps[..i]), steps[i..j], s);
  }

  /** No two claims of one ticket ever have the same attempt number: the later has the larger. */
  lemma AttemptsDistinct(steps: seq<Step>, i: nat, j: nat, s: Stamp)
    requires Throughout(Guard(s), START, steps) && i < j < |steps|
    requires WinsAt(START, steps, i, s) && WinsAt(START, steps, j, s)
    ensures Bumped(steps[i].o).attempt < Bumped(steps[j].o).attempt
  {
    ClaimNumber(steps, i, s);
    ClaimNumber(steps, j, s);
    ClaimsBetween(steps, i + 1, j, s);
  }

  // ------------------------------------------------------------------ without the condition on twin runs

  /** A run in progress stays what its claim made it. */
  lemma RunKept(sys: Sys, step: Step, id: nat)
    requires id < sys.nextExec && id in Apply(sys, step).execs
    ensures id in sys.execs && Apply(sys, step).execs[id] == sys.execs[id] && id < Apply(sys, step).nextExec
  {
  }

  lemma {:induction false} RunStays(sys: Sys, steps: seq<Step>, id: nat)
    requires id < sys.nextExec && id in Run(sys, steps).execs
    ensures id in sys.execs && Run(sys, steps).execs[id] == sys.execs[id]
    decreases |steps|
  {
    if steps != [] {
      NextRunGrows(sys, steps[0]);
      RunStays(Apply(sys, steps[0]), steps[1..], id);
      RunKept(sys, steps[0], id);
    }
  }

  lemma NextRunGrows(sys: Sys, step: Step)
    ensures sys.nextExec <= Apply(sys, step).nextExec
  {
  }

  lemma TakeStarts(sys: Sys, step: Step)
    requires Inv(sys) && step.Claim? && Label(sys, step, step.o.key).Take?
    ensures Apply(sys, step).nextExec == sys.nextExec + 1 && step.o.key in sys.books
    ensures Apply(sys, step).execs == sys.execs[sys.nextExec := Exec(step.node, Bumped(step.o))]
    ensures StampOf(Bumped(step.o)) == step.o.key
  {
    var o := step.o;
    ClaimEffect(sys.store, step.node, o.key, o.entry.modRev, Bumped(o), step.lease, step.overlapLease);
  }

  /** The claim raises an attempt that was the ticket's claim count. */
  predicate CountedClaim(sys: Sys, step: Step) {
    && step.Claim? && Label(sys, step, step.o.key).Take? && step.o.key in sys.books
    && step.o.entry.value.VTicket? && Bumped(step.o).attempt == sys.books[step.o.key].claims + 1
  }

  /** What is left of the run a counted claim started, however many steps later. */
  lemma ClaimedRun(sys: Sys, claim: Step, late: seq<Step>)
    requires Inv(sys) && CountedClaim(sys, claim) && sys.nextExec in Run(Apply(sys, claim), late).execs
    ensures var end, s := Run(Apply(sys, claim), late), claim.o.key;
      && Inv(end) && s in end.books && end.execs[sys.nextExec] == Exec(claim.node, Bumped(claim.o))
      && StampOf(Bumped(claim.o)) == s
      && (end.books[s].claims == Bumped(claim.o).attempt <==> !ClaimWon(Apply(sys, claim), late, s))
  {
    InvStep(sys, claim);
    BookFollows(sys, claim, claim.o.key);
    TakeStarts(sys, claim);
    InvRun(Apply(sys, claim), late);
    ClaimsGrow(Apply(sys, claim), late, claim.o.key);
    RunStays(Apply(sys, claim), late, sys.nextExec);
  }

  /**
   With no condition on twin runs: when a run finishes and requeues its ticket, the ticket's attempt
   is its claim count if and only if no claim of the ticket was won after the one that started the run.
   */
  lemma RequeueKeepsCountIff(sys: Sys, claim: Step, late: seq<Step>, out: bool, code: int, now: int)
    requires Inv(sys) && CountedClaim(sys, claim) && sys.nextExec in Run(Apply(sys, claim), late).execs
    requires OwnedBy(Run(Apply(sys, claim), late).store.kv, claim.o.key, claim.node) && !GivesUp(Bumped(claim.o))
    ensures var end, s := Run(Apply(sys, claim), late), claim.o.key;
      var end' := Apply(end, FinishFailure(sys.nextExec, out, code, now));
      && Inv(end') && PhaseOf(end', s).Queued? && s in end'.books
      && (PhaseOf(end', s).t.attempt == end'.books[s].claims <==> !ClaimWon(Apply(sys, claim), late, s))
  {
    ClaimedRun(sys, claim, late);
    RequeueCounts(Run(Apply(sys, claim), late), sys.nextExec, out, code, now);
  }

  lemma RequeueCounts(sys: Sys, id: nat, out: bool, code: int, now: int)
    requires Inv(sys) && id in sys.execs && !GivesUp(sys.execs[id].ticket)
    requires OwnedBy(sys.store.kv, StampOf(sys.execs[id].ticket), sys.execs[id].node)
    ensures var s, sys' := StampOf(sys.execs[id].ticket), Apply(sys, FinishFailure(id, out, code, now));
      && Inv(sys') && PhaseOf(sys', s).Queued? && PhaseOf(sys', s).t.attempt == sys.execs[id].ticket.attempt
      && s in sys.books && s in sys'.books && sys'.books[s].claims == sys.books[s].claims
  {
    StepFollows(sys, FinishFailure(id, out, code, now), StampOf(sys.execs[id].ticket));
  }

  // ------------------------------------------------------------------ which claim a finish ends

  /** Only a won claim of the ticket writes its claim key. */
  lemma ClaimKeyStep(sys: Sys, step: Step, s: Stamp)
    requires Inv(sys) && Claimed(s) in Apply(sys, step).store.kv
    ensures
      var e := Apply(sys, step).store.kv[Claimed(s)];
      if Label(sys, step, s).Take? then sys.store.rev < e.modRev
      else Claimed(s) in sys.store.kv && e == sys.store.kv[Claimed(s)]
  {
    match step
    case Claim(_, _, _, _) => ClaimKeyClaim(sys, step, s);
    case Skip(_, _) => ClaimKeyClaim(sys, step, s);
    case FinishSuccess(_, _) => ClaimKeyFinish(sys, step, s);
    case FinishFailure(_, _, _, _) => ClaimKeyFinish(sys, step, s);
    case _ => ClaimKeyOther(sys, step, s);
  }

  lemma ClaimKeyOther(sys: Sys, step: Step, s: Stamp)
    requires Valid(sys.store) && !step.Claim? && !step.Skip? && !step.FinishSuccess? && !step.FinishFailure?
    requires Claimed(s) in Apply(sys, step).store.kv
    ensures !Label(sys, step, s).Take?
    ensures Claimed(s) in sys.store.kv && Apply(sys, step).store.kv[Claimed(s)] == sys.store.kv[Claimed(s)]
  {
    match step
    case Enqueue(t) => EnqueueEffect(sys.store, t);
    case EnqueueFire(t, wm) => EnqueueFireEffect(sys.store, t, wm);
    case AdvanceWatermark(j, wm) => AdvanceEffect(sys.store, j, wm);
    case DropWatermark(j) => DeleteEffect(sys.store, Watermark(j));
    case Collect(k, a) => DeleteEffect(sys.store, ResultAt(k, a));
    case Abandon(n, t) => AbandonEffect(sys.store, n, t);
    case _ =>
  }

  lemma ClaimKeyClaim(sys: Sys, step: Step, s: Stamp)
    requires Valid(sys.store) && SeenOk(sys) && (step.Claim? || step.Skip?) && Claimed(s) in Apply(sys, step).store.kv
    ensures
      var e := Apply(sys, step).store.kv[Claimed(s)];
      if Label(sys, step, s).Take? then sys.store.rev < e.modRev
      else Claimed(s) in sys.store.kv && e == sys.store.kv[Claimed(s)]
  {
    var o := step.o;
    if CanUse(sys, o) {
      match step
      case Claim(n, _, l, ol) => ClaimEffect(sys.store, n, o.key, o.entry.modRev, Bumped(o), l, ol);
      case Skip(n, _) => SkipEffect(sys.store, n, o.key, o.entry.modRev, Bumped(o));
    }
  }

  lemma ClaimKeyFinish(sys: Sys, step: Step, s: Stamp)
    requires (step.FinishSuccess? || step.FinishFailure?) && Claimed(s) in Apply(sys, step).store.kv
    ensures Claimed(s) in sys.store.kv && Apply(sys, step).store.kv[Claimed(s)] == sys.store.kv[Claimed(s)]
  {
    if step.id in sys.execs {
      var e := sys.execs[step.id];
      match step
      case FinishSuccess(_, code) => FinishSuccessEffect(sys.store, e.node, e.ticket, RunResult(e, Success, code));
      case FinishFailure(_, out, code, now) =>
        FinishFailureEffect(sys.store, e.node, e.ticket, RunResult(e, Fault(out), code), now);
    }
  }

  /** A claim key standing at the end of a run is a later one exactly when a claim was won along the run. */
  lemma {:induction false} ClaimIsLaterIff(sys: Sys, steps: seq<Step>, s: Stamp)
    requires Inv(sys) && Claimed(s) in Run(sys, steps).store.kv
    ensures ClaimWon(sys, steps, s) <==> sys.store.rev < Run(sys, steps).store.kv[Claimed(s)].modRev
    decreases |steps|
  {
    if steps != [] {
      var sys', rest := Apply(sys, steps[0]), steps[1..];
      InvStep(sys, steps[0]);
      StepExtends(sys, steps[0]);
      RunExtends(sys', rest);
      ClaimIsLaterIff(sys', rest, s);
      if Claimed(s) in sys'.store.kv { ClaimKeyStep(sys, steps[0], s); }
    }
  }

  /** The claim that stands after a run is the very one that stood before it if and only if none was won in between. */
  lemma ClaimStandsIff(sys: Sys, steps: seq<Step>, s: Stamp)
    requires Inv(sys) && Claimed(s) in Run(sys, steps).store.kv
    ensures (Claimed(s) in sys.store.kv && Run(sys, steps).store.kv[Claimed(s)] == sys.store.kv[Claimed(s)])
            <==> !ClaimWon(sys, steps, s)
  {
    ClaimIsLaterIff(sys, steps, s);
    RunExtends(sys, steps);
  }

  /** Step `step` ends run `id` of a ticket of stamp `s`, taking the claim key with it. */
  predicate EndsClaim(sys: Sys, step: Step, id: nat, s: Stamp) {
    && (step.FinishSuccess? || step.FinishFailure?) && step.id == id && id in sys.execs
    && Claimed(s) in sys.store.kv && Claimed(s) !in Apply(sys, step).store.kv
  }

  /** A finish takes the claim key if and only if the key names the run's node, whichever run put it there. */
  lemma EndsClaimIff(sys: Sys, step: Step, id: nat)
    requires Inv(sys) && (step.FinishSuccess? || step.FinishFailure?) && step.id == id && id in sys.execs
    ensures var e := sys.execs[id];
      && (EndsClaim(sys, step, id, StampOf(e.ticket)) <==> OwnedBy(sys.store.kv, StampOf(e.ticket), e.node))
      && (EndsClaim(sys, step, id, StampOf(e.ticket)) ==>
            (IsPending(Apply(sys, step), StampOf(e.ticket)) <==> step.FinishFailure? && !GivesUp(e.ticket)))
  {
    var e := sys.execs[id];
    match step
    case FinishSuccess(_, code) => FinishSuccessEffect(sys.store, e.node, e.ticket, RunResult(e, Success, code));
    case FinishFailure(_, out, code, now) =>
      FinishFailureEffect(sys.store, e.node, e.ticket, RunResult(e, Fault(out), code), now);
  }

  /**
   With no condition on twin runs, and for success, requeue and giving up alike: when a run ends a claim,
   it ends the claim that started it if and only if no claim of the ticket was won since.  Otherwise it ends
   the claim of a replacement, and takes the ticket out of pending too unless it requeues it.
   */
  lemma FinishEndsOwnClaimIff(sys: Sys, claim: Step, late: seq<Step>, finish: Step)
    requires Inv(sys) && claim.Claim? && Label(sys, claim, claim.o.key).Take?
    requires EndsClaim(Run(Apply(sys, claim), late), finish, sys.nextExec, claim.o.key)
    ensures var mid, end, s := Apply(sys, claim), Run(Apply(sys, claim), late), claim.o.key;
      && end.execs[sys.nextExec] == Exec(claim.node, Bumped(claim.o))
      && Claimed(s) in mid.store.kv
      && (end.store.kv[Claimed(s)] == mid.store.kv[Claimed(s)] <==> !ClaimWon(mid, late, s))
      && (IsPending(Apply(end, finish), s) <==> finish.FinishFailure? && !GivesUp(Bumped(claim.o)))
  {
    var mid, o := Apply(sys, claim), claim.o;
    InvStep(sys, claim);
    ClaimEffect(sys.store, claim.node, o.key, o.entry.modRev, Bumped(o), claim.lease, claim.overlapLease);
    TakeStarts(sys, claim);
    RunStays(mid, late, sys.nextExec);
    ClaimStandsIff(mid, late, o.key);
    InvRun(mid, late);
    EndsClaimIff(Run(mid, late), finish, sys.nextExec);
  }
}
