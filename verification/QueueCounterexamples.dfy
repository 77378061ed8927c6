/**
 Where the queue promises less than its description says: each lemma gives a legal
 interleaving from the empty store.  The theorems elsewhere carry exactly the guards that
 these runs break.
 */
module QueueCounterexamples {
  import opened Etcd
  import opened Tickets
  import opened QueueMachine
  import opened QueueEffects
  import opened QueueInvariant
  import opened AtomicTickets
  import opened QueueSafety
  import opened QueueAccounting
  import opened QueueResults

  const A: NodeId := Node(1)
  const B: NodeId := Node(2)

  function Sample(noOverlap: bool, at: int): Ticket {
    Ticket(7, Fire(at), "sample", "true", 60, 3, noOverlap, 0, None, false)
  }

  lemma RunThen(sys: Sys, steps: seq<Step>, step: Step)
    ensures Run(sys, steps + [step]) == Apply(Run(sys, steps), step)
  {
    assert (steps + [step])[..|steps|] == steps && (steps + [step])[..|steps| + 1] == steps + [step];
    RunSnoc(sys, steps + [step], |steps|);
  }

  predicate Locked(sys: Sys, j: int) { Overlap(j) in sys.store.kv }

  function CurrentRead(sys: Sys, s: Stamp): Read
    requires IsPending(sys, s)
  {
    Read(s, sys.store.kv[Pending(s)])
  }

  /** Enqueueing an absent ticket queues it and opens or continues its book. */
  lemma EnqueueQueues(sys: Sys, t: Ticket)
    requires Inv(sys) && PhaseOf(sys, StampOf(t)).Idle?
    ensures var s, sys' := StampOf(t), Apply(sys, Enqueue(t));
      && Inv(sys') && PhaseOf(sys', s) == Queued(t)
      && sys'.store.leases == sys.store.leases && sys'.execs == sys.execs && sys'.nextExec == sys.nextExec
      && sys'.books.Keys == sys.books.Keys + {s} && (s !in sys.books ==> sys'.books[s].claims == 0)
      && (Locked(sys', t.job) <==> Locked(sys, t.job))
      && IsPending(sys', s) && sys'.store.kv[Pending(s)] == Entry(VTicket(t), sys.store.rev + 1, 1, NO_LEASE)
  {
    StepRefines(sys, Enqueue(t), StampOf(t));
    EnqueueEffect(sys.store, t);
  }

  /** A claim on a read that is still current succeeds on any queued ticket whose lock is free. */
  lemma CurrentClaim(sys: Sys, s: Stamp, o: Read, n: NodeId, l: nat, ol: nat)
    requires Inv(sys) && PhaseOf(sys, s).Queued? && LiveOrNone(sys.store, l) && LiveOrNone(sys.store, ol)
    requires PhaseOf(sys, s).t.noOverlap ==> !Locked(sys, s.job)
    requires o in sys.seen && o == CurrentRead(sys, s)
    ensures var sys' := Apply(sys, Claim(n, o, l, ol));
      && Inv(sys') && PhaseOf(sys', s) == Running(Bumped(o), n, l)
      && sys'.execs == sys.execs[sys.nextExec := Exec(n, Bumped(o))] && sys'.nextExec == sys.nextExec + 1
      && sys'.store.leases == sys.store.leases && sys'.books.Keys == sys.books.Keys
      && s in sys.books && sys'.books[s].claims == sys.books[s].claims + 1
      && (Bumped(o).noOverlap ==> Locked(sys', s.job) && sys'.store.kv[Overlap(s.job)].lease == ol)
  {
    StepRefines(sys, Claim(n, o, l, ol), s);
    ClaimEffect(sys.store, n, s, o.entry.modRev, Bumped(o), l, ol);
  }

  /** So a read followed at once by a claim succeeds. */
  lemma ReadThenClaim(sys: Sys, s: Stamp, n: NodeId, l: nat, ol: nat)
    requires Inv(sys) && PhaseOf(sys, s).Queued? && LiveOrNone(sys.store, l) && LiveOrNone(sys.store, ol)
    requires PhaseOf(sys, s).t.noOverlap ==> !Locked(sys, s.job)
    ensures IsPending(sys, s) && CurrentRead(sys, s).entry.value.VTicket?
    ensures
      var o := CurrentRead(sys, s);
      var sys' := Apply(Apply(sys, Observe(s)), Claim(n, o, l, ol));
      && Inv(sys') && PhaseOf(sys', s) == Running(Bumped(o), n, l)
      && Bumped(o) == PhaseOf(sys, s).t.(attempt := PhaseOf(sys, s).t.attempt + 1)
      && sys'.execs == sys.execs[sys.nextExec := Exec(n, Bumped(o))] && sys'.nextExec == sys.nextExec + 1
      && sys'.store.leases == sys.store.leases && sys'.books.Keys == sys.books.Keys
      && s in sys.books && sys'.books[s].claims == sys.books[s].claims + 1
      && (Bumped(o).noOverlap ==> Locked(sys', s.job) && sys'.store.kv[Overlap(s.job)].lease == ol)
  {
    InvStep(sys, Observe(s));
    CurrentClaim(Apply(sys, Observe(s)), s, CurrentRead(sys, s), n, l, ol);
  }

  /** Any running no-overlap ticket can be taken out of pending: no check in the skip says it is not running. */
  lemma SkipOfRunning(sys: Sys, s: Stamp, n: NodeId)
    requires Inv(sys) && PhaseOf(sys, s).Running? && PhaseOf(sys, s).t.noOverlap
    ensures IsPending(sys, s)
    ensures
      var p := PhaseOf(sys, s);
      var sys' := Apply(Apply(sys, Observe(s)), Skip(n, CurrentRead(sys, s)));
      Inv(sys') && PhaseOf(sys', s) == Detached(p.owner, p.lease)
  {
    var o := CurrentRead(sys, s);
    InvStep(sys, Observe(s));
    StepRefines(Apply(sys, Observe(s)), Skip(n, o), s);
  }

  function FirstRead(t: Ticket, rev: nat): Read { Read(StampOf(t), Entry(VTicket(t), rev, 1, NO_LEASE)) }

  /** Enqueue, read, claim: the shortest way to a run. */
  function StartSteps(t: Ticket, rev: nat, n: NodeId, l: nat, ol: nat): seq<Step> {
    [Enqueue(t)] + [Observe(StampOf(t))] + [Claim(n, FirstRead(t, rev), l, ol)]
  }

  function Started3(sys: Sys, t: Ticket, o: Read, n: NodeId, l: nat, ol: nat): Sys {
    Apply(Apply(Apply(sys, Enqueue(t)), Observe(StampOf(t))), Claim(n, o, l, ol))
  }

  lemma StartRuns(sys: Sys, t: Ticket, n: NodeId, l: nat, ol: nat)
    requires Inv(sys) && Fresh(t) && StampOf(t) !in sys.books && !Locked(sys, t.job)
    requires LiveOrNone(sys.store, l) && LiveOrNone(sys.store, ol)
    ensures
      var s := StampOf(t);
      var sys' := Started3(sys, t, FirstRead(t, sys.store.rev + 1), n, l, ol);
      && Inv(sys') && PhaseOf(sys', s) == Running(t.(attempt := 1), n, l)
      && sys'.execs == sys.execs[sys.nextExec := Exec(n, t.(attempt := 1))] && sys'.nextExec == sys.nextExec + 1
      && sys'.store.leases == sys.store.leases && sys'.books.Keys == sys.books.Keys + {s}
      && sys'.books[s].claims == 1
      && (t.noOverlap ==> Locked(sys', t.job) && sys'.store.kv[Overlap(t.job)].lease == ol)
  {
    EnqueueQueues(sys, t);
    assert CurrentRead(Apply(sys, Enqueue(t)), StampOf(t)) == FirstRead(t, sys.store.rev + 1);
    ReadThenClaim(Apply(sys, Enqueue(t)), StampOf(t), n, l, ol);
  }

  lemma StartStepsRun(sys: Sys, t: Ticket, o: Read, n: NodeId, l: nat, ol: nat)
    ensures Run(sys, [Enqueue(t)] + [Observe(StampOf(t))] + [Claim(n, o, l, ol)])
            == Started3(sys, t, o, n, l, ol)
  {
    assert Run(sys, []) == sys && [] + [Enqueue(t)] == [Enqueue(t)];
    RunThen(sys, [], Enqueue(t));
    RunThen(sys, [Enqueue(t)], Observe(StampOf(t)));
    RunThen(sys, [Enqueue(t)] + [Observe(StampOf(t))], Claim(n, o, l, ol));
  }

  /** Starting one ticket leaves every other ticket where it was. */
  lemma StartLeavesOthers(sys: Sys, t: Ticket, o: Read, n: NodeId, l: nat, ol: nat, s: Stamp)
    requires Inv(sys) && s != StampOf(t) && s != o.key
    ensures var sys' := Run(sys, [Enqueue(t)] + [Observe(StampOf(t))] + [Claim(n, o, l, ol)]);
      Inv(sys') && PhaseOf(sys', s) == PhaseOf(sys, s)
  {
    var sys1 := Apply(sys, Enqueue(t));
    StepRefines(sys, Enqueue(t), s);
    StepRefines(sys1, Observe(StampOf(t)), s);
    StepRefines(Apply(sys1, Observe(StampOf(t))), Claim(n, o, l, ol), s);
    StartStepsRun(sys, t, o, n, l, ol);
  }

  /** From the empty store to a running ticket, its lock under lease `ol`. */
  lemma Started(t: Ticket, ol: nat) returns (steps: seq<Step>, sys: Sys)
    requires Fresh(t) && (ol == 1 || ol == 2)
    ensures sys == Run(START, steps) && Inv(sys)
    ensures PhaseOf(sys, StampOf(t)) == Running(t.(attempt := 1), A, 1)
    ensures sys.books.Keys == {StampOf(t)}
    ensures sys.store.leases == {1, 2, 3}
    ensures t.noOverlap ==> Locked(sys, t.job) && sys.store.kv[Overlap(t.job)].lease == ol
    ensures sys.nextExec == 1 && sys.execs == map[0 := Exec(A, t.(attempt := 1))]
    ensures sys.books[StampOf(t)].claims == 1
  {
    var leased := [Grant(1), Grant(2), Grant(3)];
    InvStart();
    GrantThree();
    InvRun(START, leased);
    StartRuns(Run(START, leased), t, A, 1, ol);
    StartStepsRun(Run(START, leased), t, FirstRead(t, 1), A, 1, ol);
    RunSplit(START, leased, StartSteps(t, 1, A, 1, ol));
    steps := leased + StartSteps(t, 1, A, 1, ol);
    sys := Run(START, steps);
  }

  lemma GrantThree()
    ensures Run(START, [Grant(1), Grant(2), Grant(3)]) == Sys(Store(0, map[], {1, 2, 3}), {}, map[], 0, map[])
  {
    var s1 := Apply(START, Grant(1));
    var s2 := Apply(s1, Grant(2));
    assert [Grant(1), Grant(2), Grant(3)][1..] == [Grant(2), Grant(3)];
    assert [Grant(2), Grant(3)][1..] == [Grant(3)];
    assert [Grant(3)][1..] == [];
    assert Run(s2, [Grant(3)]) == Run(Apply(s2, Grant(3)), []);
    assert Run(s1, [Grant(2), Grant(3)]) == Run(s2, [Grant(3)]);
  }

  /** A running no-overlap ticket is skipped by another node's scan: its own lock is the one that scan sees held. */
  lemma SkippedWhileRunning() returns (steps: seq<Step>, s: Stamp)
    ensures var sys := Run(START, steps);
      && Inv(sys) && PhaseOf(sys, s) == Detached(A, 1)
      && |steps| >= 1 && steps[|steps| - 1].Skip? && Locked(Run(START, steps[..|steps| - 1]), s.job)
  {
    var t := Sample(true, 100);
    s := StampOf(t);
    var sys;
    steps, sys := Started(t, 1);
    SkipOfRunning(sys, s, B);
    var o := CurrentRead(sys, s);
    RunThen(START, steps, Observe(s));
    RunThen(START, steps + [Observe(s)], Skip(B, o));
    steps := steps + [Observe(s)] + [Skip(B, o)];
    assert steps[..|steps| - 1] + [Skip(B, o)] == steps;
  }

  /** A node whose claim expired re-claims the ticket; the old run finishes the new claim and turns the attempt back. */
  lemma AttemptTurnedBack() returns (steps: seq<Step>, s: Stamp)
    ensures var sys := Run(START, steps);
      && Inv(sys) && s in sys.books
      && PhaseOf(sys, s).Queued? && PhaseOf(sys, s).t.attempt == 1 && sys.books[s].claims == 2
  {
    var t := Sample(false, 100);
    s := StampOf(t);
    var sys;
    steps, sys := Started(t, 1);
    StepRefines(sys, Expire(1), s);
    BookFollows(sys, Expire(1), s);
    RunThen(START, steps, Expire(1));
    steps, sys := steps + [Expire(1)], Apply(sys, Expire(1));
    ReadThenClaim(sys, s, A, 2, 2);
    var o := CurrentRead(sys, s);
    RunThen(START, steps, Observe(s));
    RunThen(START, steps + [Observe(s)], Claim(A, o, 2, 2));
    steps, sys := steps + [Observe(s)] + [Claim(A, o, 2, 2)], Apply(Apply(sys, Observe(s)), Claim(A, o, 2, 2));
    OldRunFinishes(sys, s);
    RunThen(START, steps, FinishFailure(0, false, 1, 0));
    steps := steps + [FinishFailure(0, false, 1, 0)];
  }

  lemma OldRunFinishes(sys: Sys, s: Stamp)
    requires Inv(sys) && PhaseOf(sys, s).Running? && PhaseOf(sys, s).owner == A
    requires 0 in sys.execs && sys.execs[0] == Exec(A, Sample(false, 100).(attempt := 1))
    requires s == StampOf(sys.execs[0].ticket)
    requires s in sys.books && sys.books[s].claims == 2
    ensures var sys' := Apply(sys, FinishFailure(0, false, 1, 0));
      && Inv(sys') && s in sys'.books && sys'.books[s].claims == 2
      && PhaseOf(sys', s).Queued? && PhaseOf(sys', s).t.attempt == 1
  {
    StepRefines(sys, FinishFailure(0, false, 1, 0), s);
    BookFollows(sys, FinishFailure(0, false, 1, 0), s);
  }

  /** With two different leases in one claim, the lock can expire under a live claim and a second run start. */
  lemma TwoLeasesTwoRuns() returns (steps: seq<Step>, s: Stamp, s': Stamp)
    ensures s != s' && s.job == s'.job
    ensures var sys := Run(START, steps);
      && Inv(sys)
      && PhaseOf(sys, s).Running? && PhaseOf(sys, s).t.noOverlap
      && PhaseOf(sys, s').Running? && PhaseOf(sys, s').t.noOverlap
  {
    var t, t' := Sample(true, 100), Sample(true, 200);
    s, s' := StampOf(t), StampOf(t');
    var sys;
    steps, sys := Started(t, 2);
    StepRefines(sys, Expire(2), s);
    RunThen(START, steps, Expire(2));
    steps, sys := steps + [Expire(2)], Apply(sys, Expire(2));
    assert !Locked(sys, 7) && sys.books.Keys == {s};
    StartRuns(sys, t', B, 3, 3);
    StartStepsRun(sys, t', FirstRead(t', sys.store.rev + 1), B, 3, 3);
    StartLeavesOthers(sys, t', FirstRead(t', sys.store.rev + 1), B, 3, 3, s);
    var more := StartSteps(t', sys.store.rev + 1, B, 3, 3);
    RunSplit(START, steps, more);
    steps := steps + more;
  }

  /** A run that succeeds, and a sweep that read the ticket while it ran: the success ends up as abandoned. */
  lemma SweptAfterSuccess() returns (steps: seq<Step>, s: Stamp)
    ensures |steps| >= 1
    ensures
      var before, after := Run(START, steps[..|steps| - 1]), Run(START, steps);
      && ResultOf(before.store, s, 1) == Some(Result(s.job, s.sched, 1, A, Success, 0))
      && ResultOf(after.store, s, 1) == Some(Result(s.job, s.sched, 1, B, Abandoned, 0))
  {
    var t := Sample(false, 100);
    s := StampOf(t);
    var sys;
    steps, sys := Started(t, 1);
    var t' := t.(attempt := 1);
    LateSweepHidesSuccess(sys, 0, 0, B);
    RunThen(START, steps, Observe(s));
    RunThen(START, steps + [Observe(s)], FinishSuccess(0, 0));
    steps := steps + [Observe(s)] + [FinishSuccess(0, 0)];
    RunThen(START, steps, Abandon(B, t'));
    assert (steps + [Abandon(B, t')])[..|steps|] == steps;
    steps := steps + [Abandon(B, t')];
  }
}
