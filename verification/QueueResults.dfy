/**
 The results of attempts.  A result key is written by whoever ends an attempt, and nothing looks at
 what is there already: these lemmas say which steps write which key, what stands under it after a
 run, and when a result written later replaces an earlier one.
 */
module QueueResults {
  import opened AtomicTickets
  import opened QueueEffects
  import opened QueueInvariant
  import opened QueueMachine
  import opened QueueSafety
  import opened Tickets

  function ResultOf(store: QStore, s: Stamp, a: int): Option<Result> {
    var k := ResultAt(s, a);
    if k in store.kv && store.kv[k].value.VResult? then Some(store.kv[k].value.result) else None
  }

  predicate Numbered(t: Ticket, s: Stamp, a: int) { StampOf(t) == s && t.attempt == a }

  predicate WasRead(sys: Sys, t: Ticket) { exists o | o in sys.seen :: o.entry.value == VTicket(t) }

  predicate IsCurrent(sys: Sys, o: Read) {
    Pending(o.key) in sys.store.kv && sys.store.kv[Pending(o.key)].modRev == o.entry.modRev
  }

  /**
   What a step writes as the result of attempt `a` of ticket `s`: a finished run always something, even
   when it no longer owns the claim; a skip if its read is current; an abandon if there is no claim.
   */
  function Publishes(sys: Sys, step: Step, s: Stamp, a: int): Option<Result> {
    match step
    case Skip(n, o) =>
      if CanUse(sys, o) && o.entry.value.ticket.noOverlap && IsCurrent(sys, o) && Numbered(Bumped(o), s, a)
      then Some(Result(s.job, s.sched, a, n, Skipped, 0)) else None
    case FinishSuccess(id, code) =>
      if id in sys.execs && Numbered(sys.execs[id].ticket, s, a)
      then Some(Result(s.job, s.sched, a, sys.execs[id].node, Success, code)) else None
    case FinishFailure(id, out, code, _) =>
      if id in sys.execs && Numbered(sys.execs[id].ticket, s, a)
      then
        var e := sys.execs[id];
        Some(Result(s.job, s.sched, a, e.node, if GivesUp(e.ticket) then FailedPermanent else Fault(out), code))
      else None
    case Abandon(n, t) =>
      if WasRead(sys, t) && Claimed(s) !in sys.store.kv && Numbered(t, s, a)
      then Some(Result(s.job, s.sched, a, n, Abandoned, 0)) else None
    case _ => None
  }

  function Then(before: Option<Result>, step: Step, p: Option<Result>, s: Stamp, a: int): Option<Result> {
    if p.Some? then p else if step == Collect(s, a) then None else before
  }

  lemma SuccessStep(sys: Sys, id: nat, code: int, s: Stamp, a: int)
    requires Inv(sys)
    ensures var step := FinishSuccess(id, code);
      ResultOf(Apply(sys, step).store, s, a) == Then(ResultOf(sys.store, s, a), step, Publishes(sys, step, s, a), s, a)
  {
    if id in sys.execs {
      var e := sys.execs[id];
      FinishSuccessEffect(sys.store, e.node, e.ticket, RunResult(e, Success, code));
    }
  }

  lemma FailureStep(sys: Sys, id: nat, out: bool, code: int, now: int, s: Stamp, a: int)
    requires Inv(sys)
    ensures var step := FinishFailure(id, out, code, now);
      ResultOf(Apply(sys, step).store, s, a) == Then(ResultOf(sys.store, s, a), step, Publishes(sys, step, s, a), s, a)
  {
    if id in sys.execs {
      FailurePuts(sys, id, out, code, now);
      var t := sys.execs[id].ticket;
      if !Numbered(t, s, a) { assert ResultAt(s, a) != ResultAt(StampOf(t), t.attempt); }
    }
  }

  /** A failed run writes its own result key and no other. */
  lemma FailurePuts(sys: Sys, id: nat, out: bool, code: int, now: int)
    requires id in sys.execs
    ensures
      var e, kv := sys.execs[id], Apply(sys, FinishFailure(id, out, code, now)).store.kv;
      var r := ResultAt(StampOf(e.ticket), e.ticket.attempt);
      && r in kv && kv[r].value == VResult(FailureResult(e.ticket, RunResult(e, Fault(out), code)))
      && forall k: Key | k.ResultAt? && k != r ::
           (k in kv <==> k in sys.store.kv) && (k in kv ==> kv[k] == sys.store.kv[k])
  {
    var e := sys.execs[id];
    FinishFailureEffect(sys.store, e.node, e.ticket, RunResult(e, Fault(out), code), now);
  }

  lemma ClaimStep(sys: Sys, n: NodeId, o: Read, l: nat, ol: nat, s: Stamp, a: int)
    requires Inv(sys)
    ensures ResultOf(Apply(sys, Claim(n, o, l, ol)).store, s, a) == ResultOf(sys.store, s, a)
  {
    if CanUse(sys, o) { ClaimEffect(sys.store, n, o.key, o.entry.modRev, Bumped(o), l, ol); }
  }

  lemma SkipStep(sys: Sys, n: NodeId, o: Read, s: Stamp, a: int)
    requires Inv(sys)
    ensures ResultOf(Apply(sys, Skip(n, o)).store, s, a) ==
              Then(ResultOf(sys.store, s, a), Skip(n, o), Publishes(sys, Skip(n, o), s, a), s, a)
  {
    if CanUse(sys, o) { SkipEffect(sys.store, n, o.key, o.entry.modRev, Bumped(o)); }
  }

  lemma OtherStep(sys: Sys, step: Step, s: Stamp, a: int)
    requires Inv(sys) && !step.Claim? && !step.Skip? && !step.FinishSuccess?
    requires !step.FinishFailure? && !step.Abandon? && !step.Collect?
    ensures ResultOf(Apply(sys, step).store, s, a) == ResultOf(sys.store, s, a)
  {
    match step
    case Enqueue(t) => EnqueueEffect(sys.store, t);
    case EnqueueFire(t, wm) => EnqueueFireEffect(sys.store, t, wm);
    case AdvanceWatermark(j, wm) => AdvanceEffect(sys.store, j, wm);
    case DropWatermark(j) => DeleteEffect(sys.store, Watermark(j));
    case _ =>
  }

  /** One step: what it publishes stands, a collected result is gone, and any other is as it was. */
  lemma ResultStep(sys: Sys, step: Step, s: Stamp, a: int)
    requires Inv(sys)
    ensures ResultOf(Apply(sys, step).store, s, a) ==
              Then(ResultOf(sys.store, s, a), step, Publishes(sys, step, s, a), s, a)
  {
    match step
    case Claim(n, o, l, ol) => ClaimStep(sys, n, o, l, ol, s, a);
    case Skip(n, o) => SkipStep(sys, n, o, s, a);
    case FinishSuccess(id, code) => SuccessStep(sys, id, code, s, a);
    case FinishFailure(id, out, code, now) => FailureStep(sys, id, out, code, now, s, a);
    case Abandon(n, t) => AbandonEffect(sys.store, n, t);
    case Collect(s', a') => DeleteEffect(sys.store, ResultAt(s', a'));
    case _ => OtherStep(sys, step, s, a);
  }

  /** What step `i` of the run from the empty store publishes. */
  function PublishedAt(steps: seq<Step>, i: nat, s: Stamp, a: int): Option<Result>
    requires i < |steps|
  {
    Publishes(Run(START, steps[..i]), steps[i], s, a)
  }

  /** Step `i` published `r`, and nobody collected or published the result of that attempt since. */
  ghost predicate Stands(steps: seq<Step>, i: nat, s: Stamp, a: int, r: Result) {
    && i < |steps| && PublishedAt(steps, i, s, a) == Some(r)
    && forall k | i < k < |steps| :: steps[k] != Collect(s, a) && PublishedAt(steps, k, s, a).None?
  }

  lemma StandsLonger(steps: seq<Step>, step: Step, s: Stamp, a: int, r: Result)
    ensures var more := steps + [step];
      (exists i :: Stands(more, i, s, a, r)) <==>
        || PublishedAt(more, |steps|, s, a) == Some(r)
        || (PublishedAt(more, |steps|, s, a).None? && step != Collect(s, a) && exists i :: Stands(steps, i, s, a, r))
  {
    var more, n := steps + [step], |steps|;
    forall i: nat | i < n ensures more[i] == steps[i] && PublishedAt(more, i, s, a) == PublishedAt(steps, i, s, a) {
      assert more[..i] == steps[..i];
    }
    if PublishedAt(more, n, s, a) == Some(r) { assert Stands(more, n, s, a, r); }
    if exists i :: Stands(more, i, s, a, r) {
      var i: nat :| Stands(more, i, s, a, r);
      if i < n { assert Stands(steps, i, s, a, r); }
    }
    if PublishedAt(more, n, s, a).None? && step != Collect(s, a) && exists i :: Stands(steps, i, s, a, r) {
      var i: nat :| Stands(steps, i, s, a, r);
      assert Stands(more, i, s, a, r);
    }
  }

  /** The result of an attempt is what the last step to publish one published, unless it was collected since. */
  lemma {:induction false} ResultIs(steps: seq<Step>, s: Stamp, a: int, r: Result)
    ensures ResultOf(Run(START, steps).store, s, a) == Some(r) <==> exists i :: Stands(steps, i, s, a, r)
    decreases |steps|
  {
    if steps != [] {
      var n := |steps| - 1;
      var before := steps[..n];
      assert steps == before + [steps[n]] && steps[..n + 1] == steps;
      ResultIs(before, s, a, r);
      InvStart();
      InvRun(START, before);
      RunSnoc(START, steps, n);
      ResultStep(Run(START, before), steps[n], s, a);
      StandsLonger(before, steps[n], s, a, r);
    }
  }

  /** Some step published a result of the attempt that nobody collected since. */
  ghost predicate Uncollected(steps: seq<Step>, s: Stamp, a: int) { exists i, r :: Stands(steps, i, s, a, r) }

  /**
   The exact condition: whatever publishes a result after the run replaces an earlier one if and only if
   an earlier step published for the same attempt and that was not collected since.
   */
  lemma OverwritesIff(steps: seq<Step>, step: Step, s: Stamp, a: int)
    requires Publishes(Run(START, steps), step, s, a).Some?
    ensures ResultOf(Run(START, steps + [step]).store, s, a) == Publishes(Run(START, steps), step, s, a)
    ensures ResultOf(Run(START, steps).store, s, a).Some? <==> Uncollected(steps, s, a)
  {
    var sys := Run(START, steps);
    InvStart();
    InvRun(START, steps);
    ResultStep(sys, step, s, a);
    RunSplit(START, steps, [step]);
    assert Run(sys, [step]) == Run(Apply(sys, step), [step][1..]);
    if ResultOf(sys.store, s, a).Some? { ResultIs(steps, s, a, ResultOf(sys.store, s, a).value); }
    if Uncollected(steps, s, a) {
      var i: nat, r :| Stands(steps, i, s, a, r);
      ResultIs(steps, s, a, r);
    }
  }

  // ------------------------------------------------------------------ a sweep that comes late

  /** The node still owns the claim of the ticket it runs, and the ticket is as its claim wrote it. */
  predicate InProgress(sys: Sys, id: nat) {
    && id in sys.execs
    && var e := sys.execs[id];
      && OwnedBy(sys.store.kv, StampOf(e.ticket), e.node)
      && Pending(StampOf(e.ticket)) in sys.store.kv
      && sys.store.kv[Pending(StampOf(e.ticket))].value == VTicket(e.ticket)
  }

  /** The sweep ends an unclaimed ticket it has read, whatever became of the ticket since. */
  lemma SweepPublishes(sys: Sys, n: NodeId, t: Ticket)
    requires Inv(sys) && WasRead(sys, t) && Claimed(StampOf(t)) !in sys.store.kv
    ensures var swept := Apply(sys, Abandon(n, t));
      && ResultOf(swept.store, StampOf(t), t.attempt) == Some(Result(t.job, t.sched, t.attempt, n, Abandoned, 0))
      && !IsPending(swept, StampOf(t))
  {
    ResultStep(sys, Abandon(n, t), StampOf(t), t.attempt);
    AbandonEffect(sys.store, n, t);
  }

  lemma ReadIsRead(sys: Sys, t: Ticket)
    requires IsPending(sys, StampOf(t)) && sys.store.kv[Pending(StampOf(t))].value == VTicket(t)
    ensures WasRead(Apply(sys, Observe(StampOf(t))), t)
  {
    var s := StampOf(t);
    assert Read(s, sys.store.kv[Pending(s)]) in Apply(sys, Observe(s)).seen;
  }

  lemma SuccessPublishes(sys: Sys, id: nat, code: int)
    requires Inv(sys) && InProgress(sys, id)
    ensures
      var t, done := sys.execs[id].ticket, Apply(sys, FinishSuccess(id, code));
      && ResultOf(done.store, StampOf(t), t.attempt) ==
           Some(Result(t.job, t.sched, t.attempt, sys.execs[id].node, Success, code))
      && done.seen == sys.seen && !IsPending(done, StampOf(t)) && Claimed(StampOf(t)) !in done.store.kv
  {
    var e := sys.execs[id];
    ResultStep(sys, FinishSuccess(id, code), StampOf(e.ticket), e.ticket.attempt);
    FinishSuccessEffect(sys.store, e.node, e.ticket, RunResult(e, Success, code));
  }

  lemma FailurePublishes(sys: Sys, id: nat, out: bool, code: int, now: int)
    requires Inv(sys) && InProgress(sys, id) && !GivesUp(sys.execs[id].ticket)
    ensures
      var t, done := sys.execs[id].ticket, Apply(sys, FinishFailure(id, out, code, now));
      && ResultOf(done.store, StampOf(t), t.attempt) ==
           Some(Result(t.job, t.sched, t.attempt, sys.execs[id].node, Fault(out), code))
      && IsPending(done, StampOf(t)) && Claimed(StampOf(t)) !in done.store.kv
      && done.store.kv[Pending(StampOf(t))].value == VTicket(Retried(t, now))
  {
    var e := sys.execs[id];
    ResultStep(sys, FinishFailure(id, out, code, now), StampOf(e.ticket), e.ticket.attempt);
    FinishFailureEffect(sys.store, e.node, e.ticket, RunResult(e, Fault(out), code), now);
  }

  /** A sweep that read a ticket while it ran, and abandons it once it has succeeded, overwrites the success. */
  lemma LateSweepHidesSuccess(sys: Sys, id: nat, code: int, n: NodeId)
    requires Inv(sys) && InProgress(sys, id)
    ensures
      var t := sys.execs[id].ticket;
      var s := StampOf(t);
      var done := Apply(Apply(sys, Observe(s)), FinishSuccess(id, code));
      var swept := Apply(done, Abandon(n, t));
      && ResultOf(done.store, s, t.attempt) ==
        Some(Result(t.job, t.sched, t.attempt, sys.execs[id].node, Success, code))
      && ResultOf(swept.store, s, t.attempt) == Some(Result(t.job, t.sched, t.attempt, n, Abandoned, 0))
      && !IsPending(done, s) && !IsPending(swept, s)
  {
    var t := sys.execs[id].ticket;
    var seen := Apply(sys, Observe(StampOf(t)));
    InvStep(sys, Observe(StampOf(t)));
    ReadIsRead(sys, t);
    SuccessPublishes(seen, id, code);
    InvStep(seen, FinishSuccess(id, code));
    SweepPublishes(Apply(seen, FinishSuccess(id, code)), n, t);
  }

  /** A ticket that failed and waits for its retry, if swept, has the result of the failed attempt replaced. */
  lemma SweepHidesFailure(sys: Sys, id: nat, out: bool, code: int, now: int, n: NodeId)
    requires Inv(sys) && InProgress(sys, id) && !GivesUp(sys.execs[id].ticket)
    ensures
      var t := sys.execs[id].ticket;
      var s := StampOf(t);
      var failed := Apply(Apply(sys, FinishFailure(id, out, code, now)), Observe(s));
      var swept := Apply(failed, Abandon(n, Retried(t, now)));
      && ResultOf(failed.store, s, t.attempt) ==
           Some(Result(t.job, t.sched, t.attempt, sys.execs[id].node, Fault(out), code))
      && ResultOf(swept.store, s, t.attempt) == Some(Result(t.job, t.sched, t.attempt, n, Abandoned, 0))
      && IsPending(failed, s) && !IsPending(swept, s)
  {
    var t := sys.execs[id].ticket;
    var failed := Apply(sys, FinishFailure(id, out, code, now));
    FailurePublishes(sys, id, out, code, now);
    InvStep(sys, FinishFailure(id, out, code, now));
    ReadIsRead(failed, Retried(t, now));
    InvStep(failed, Observe(StampOf(t)));
    SweepPublishes(Apply(failed, Observe(StampOf(t))), n, Retried(t, now));
  }
}
