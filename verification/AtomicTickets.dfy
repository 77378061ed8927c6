/**
 One ticket as a reader of the documentation would draw it: queued, running under an owner,
 or gone.  The queue's read-then-transact protocol is shown to refine this machine, ticket by
 ticket, in every interleaving of nodes, crashes and lease expiries.
 */
module AtomicTickets {
  import opened Etcd
  import opened Tickets
  import opened QueueMachine
  import opened QueueEffects
  import opened QueueInvariant

  datatype Phase =
    | Idle
    | Queued(t: Ticket)
    | Running(t: Ticket, owner: NodeId, lease: nat)
    | Detached(owner: NodeId, lease: nat)  // claimed, but no longer pending

  datatype Action =
    | Stutter
    | Create(t: Ticket)
    | Take(owner: NodeId, lease: nat)
    | Complete(owner: NodeId)
    | Retry(owner: NodeId, t: Ticket)
    | Lapse(lease: nat)
    | Withdraw
    | Cancel

  predicate Held(p: Phase) { p.Running? || p.Detached? }

  /** The atomic machine: `p` may do `a` and become `q`. */
  predicate Does(p: Phase, a: Action, q: Phase) {
    match a
    case Stutter => q == p
    case Create(t) =>
      (p.Idle? && q == Queued(t)) || (p.Detached? && q == Running(t, p.owner, p.lease))
    case Take(owner, lease) =>
      p.Queued? && q == Running(p.t.(attempt := p.t.attempt + 1), owner, lease)
    case Complete(owner) => Held(p) && p.owner == owner && q == Idle
    case Retry(owner, t) => Held(p) && p.owner == owner && q == Queued(t)
    case Lapse(lease) =>
      Held(p) && p.lease == lease && q == if p.Running? then Queued(p.t) else Idle
    case Withdraw =>
      (p.Queued? && p.t.noOverlap && q == Idle) ||
      (p.Running? && p.t.noOverlap && q == Detached(p.owner, p.lease))
    case Cancel => !Held(p) && q == Idle
  }

  function PhaseIn(kv: map<Key, QEntry>, s: Stamp): Phase
    requires Typed(kv)
  {
    if Claimed(s) in kv then
      var c := kv[Claimed(s)];
      if Pending(s) in kv then Running(kv[Pending(s)].value.ticket, c.value.node, c.lease)
      else Detached(c.value.node, c.lease)
    else if Pending(s) in kv then Queued(kv[Pending(s)].value.ticket)
    else Idle
  }

  function PhaseOf(sys: Sys, s: Stamp): Phase
    requires Inv(sys)
  {
    PhaseIn(sys.store.kv, s)
  }

  /** Which atomic action a step is for ticket `s`: a step that loses its comparison is none. */
  function Label(sys: Sys, step: Step, s: Stamp): Action {
    match step
    case Enqueue(t) =>
      if StampOf(t) == s && Pending(s) !in sys.store.kv then Create(t) else Stutter
    case EnqueueFire(t, _) =>
      if StampOf(t) == s && Pending(s) !in sys.store.kv then Create(t) else Stutter
    case Claim(n, o, l, ol) =>
      if CanUse(sys, o) && o.key == s && CanClaim(sys.store, s, o.entry.modRev, Bumped(o), l, ol)
      then Take(n, l) else Stutter
    case Skip(_, o) =>
      if CanUse(sys, o) && o.key == s && o.entry.value.ticket.noOverlap
         && Pending(s) in sys.store.kv && sys.store.kv[Pending(s)].modRev == o.entry.modRev
      then Withdraw else Stutter
    case FinishSuccess(id, _) =>
      if id in sys.execs && StampOf(sys.execs[id].ticket) == s && OwnedBy(sys.store.kv, s, sys.execs[id].node)
      then Complete(sys.execs[id].node) else Stutter
    case FinishFailure(id, _, _, now) =>
      if id in sys.execs && StampOf(sys.execs[id].ticket) == s && OwnedBy(sys.store.kv, s, sys.execs[id].node) then
        var e := sys.execs[id];
        if GivesUp(e.ticket) then Complete(e.node) else Retry(e.node, Retried(e.ticket, now))
      else Stutter
    case Abandon(_, t) =>
      if StampOf(t) == s && Claimed(s) !in sys.store.kv && exists o | o in sys.seen :: o.entry.value == VTicket(t)
      then Cancel else Stutter
    case Expire(l) =>
      if l in sys.store.leases && Claimed(s) in sys.store.kv && sys.store.kv[Claimed(s)].lease == l
      then Lapse(l) else Stutter
    case _ => Stutter
  }

  /** Two stores that agree on a ticket's two keys show it in the same phase. */
  lemma SamePhase(kv: map<Key, QEntry>, kv': map<Key, QEntry>, s: Stamp)
    requires Typed(kv) && Typed(kv')
    requires Pending(s) in kv <==> Pending(s) in kv'
    requires Claimed(s) in kv <==> Claimed(s) in kv'
    requires Pending(s) in kv ==> kv[Pending(s)] == kv'[Pending(s)]
    requires Claimed(s) in kv ==> kv[Claimed(s)] == kv'[Claimed(s)]
    ensures PhaseIn(kv, s) == PhaseIn(kv', s)
  {
  }

  lemma EnqueueRefines(sys: Sys, t: Ticket, s: Stamp)
    requires Valid(sys.store) && Typed(sys.store.kv) && Typed(Apply(sys, Enqueue(t)).store.kv)
    ensures Does(PhaseIn(sys.store.kv, s), Label(sys, Enqueue(t), s), PhaseIn(Apply(sys, Enqueue(t)).store.kv, s))
  {
    EnqueueEffect(sys.store, t);
  }

  lemma EnqueueFireRefines(sys: Sys, t: Ticket, wm: int, s: Stamp)
    requires Valid(sys.store) && Typed(sys.store.kv) && Typed(Apply(sys, EnqueueFire(t, wm)).store.kv)
    ensures Does(PhaseIn(sys.store.kv, s), Label(sys, EnqueueFire(t, wm), s),
              PhaseIn(Apply(sys, EnqueueFire(t, wm)).store.kv, s))
  {
    EnqueueFireEffect(sys.store, t, wm);
  }

  lemma ClaimRefines(sys: Sys, n: NodeId, o: Read, l: nat, ol: nat, s: Stamp)
    requires Valid(sys.store) && SeenOk(sys) && Typed(sys.store.kv) && Typed(Apply(sys, Claim(n, o, l, ol)).store.kv)
    ensures Does(PhaseIn(sys.store.kv, s), Label(sys, Claim(n, o, l, ol), s),
              PhaseIn(Apply(sys, Claim(n, o, l, ol)).store.kv, s))
  {
    if CanUse(sys, o) {
      ClaimEffect(sys.store, n, o.key, o.entry.modRev, Bumped(o), l, ol);
      if o.key != s || !CanClaim(sys.store, s, o.entry.modRev, Bumped(o), l, ol) {
        SamePhase(sys.store.kv, Apply(sys, Claim(n, o, l, ol)).store.kv, s);
      }
    }
  }

  lemma SkipRefines(sys: Sys, n: NodeId, o: Read, s: Stamp)
    requires Valid(sys.store) && SeenOk(sys) && Typed(sys.store.kv) && Typed(Apply(sys, Skip(n, o)).store.kv)
    ensures Does(PhaseIn(sys.store.kv, s), Label(sys, Skip(n, o), s), PhaseIn(Apply(sys, Skip(n, o)).store.kv, s))
  {
    if CanUse(sys, o) {
      SkipEffect(sys.store, n, o.key, o.entry.modRev, Bumped(o));
    }
  }

  /** A finish that owns the claim ends it; what becomes of the pending key is up to `kv1`. */
  lemma SettledPhase(kv: map<Key, QEntry>, kv1: map<Key, QEntry>, t: Ticket, r: QEntry, s: Stamp)
    requires Typed(kv) && Typed(kv1) && Typed(Settled(kv1, t, r))
    requires Claimed(s) in kv <==> Claimed(s) in kv1
    requires Claimed(s) in kv ==> kv[Claimed(s)] == kv1[Claimed(s)]
    requires s != StampOf(t) ==> (Pending(s) in kv <==> Pending(s) in kv1)
    requires s != StampOf(t) && Pending(s) in kv ==> kv[Pending(s)] == kv1[Pending(s)]
    ensures s != StampOf(t) ==> PhaseIn(Settled(kv1, t, r), s) == PhaseIn(kv, s)
    ensures s == StampOf(t) ==>
              PhaseIn(Settled(kv1, t, r), s)
              == (if Pending(s) in kv1 then Queued(kv1[Pending(s)].value.ticket) else Idle)
  {
    var kv' := Settled(kv1, t, r);
    assert Pending(s) in kv' <==> Pending(s) in kv1;
    assert Claimed(s) in kv' <==> Claimed(s) in kv1 && s != StampOf(t);
  }

  lemma FinishSuccessRefines(sys: Sys, id: nat, code: int, s: Stamp)
    requires Valid(sys.store) && Typed(sys.store.kv) && id in sys.execs &&
              Typed(Apply(sys, FinishSuccess(id, code)).store.kv)
    ensures Does(PhaseIn(sys.store.kv, s), Label(sys, FinishSuccess(id, code), s),
              PhaseIn(Apply(sys, FinishSuccess(id, code)).store.kv, s))
  {
    var e := sys.execs[id];
    var st := sys.store;
    var res := RunResult(e, Success, code);
    var k := ResultAt(StampOf(e.ticket), e.ticket.attempt);
    var r := PutEntry(st, k, VResult(res), NO_LEASE);
    FinishSuccessEffect(st, e.node, e.ticket, res);
    if OwnedBy(st.kv, StampOf(e.ticket), e.node) {
      SettledPhase(st.kv, st.kv - {Pending(StampOf(e.ticket))}, e.ticket, r, s);
    } else {
      SamePhase(st.kv, st.kv[k := r], s);
    }
  }

  lemma FinishFailureRefines(sys: Sys, id: nat, timedOut: bool, code: int, now: int, s: Stamp)
    requires Valid(sys.store) && Typed(sys.store.kv) && id in sys.execs && sys.execs[id].ticket.attempt >= 0 &&
              Typed(Apply(sys, FinishFailure(id, timedOut, code, now)).store.kv)
    ensures Does(PhaseIn(sys.store.kv, s), Label(sys, FinishFailure(id, timedOut, code, now), s),
                 PhaseIn(Apply(sys, FinishFailure(id, timedOut, code, now)).store.kv, s))
  {
    var e := sys.execs[id];
    var st := sys.store;
    var p := Pending(StampOf(e.ticket));
    var res := RunResult(e, Fault(timedOut), code);
    var k := ResultAt(StampOf(e.ticket), e.ticket.attempt);
    var r := PutEntry(st, k, VResult(FailureResult(e.ticket, res)), NO_LEASE);
    FinishFailureEffect(st, e.node, e.ticket, res, now);
    if !OwnedBy(st.kv, StampOf(e.ticket), e.node) {
      SamePhase(st.kv, st.kv[k := r], s);
    } else if GivesUp(e.ticket) {
      SettledPhase(st.kv, st.kv - {p}, e.ticket, r, s);
    } else {
      SettledPhase(st.kv, st.kv[p := PutEntry(st, p, VTicket(Retried(e.ticket, now)), NO_LEASE)], e.ticket, r, s);
    }
  }

  lemma AbandonRefines(sys: Sys, n: NodeId, t: Ticket, s: Stamp)
    requires Valid(sys.store) && Typed(sys.store.kv) && Typed(Apply(sys, Abandon(n, t)).store.kv)
    ensures Does(PhaseIn(sys.store.kv, s), Label(sys, Abandon(n, t), s), PhaseIn(Apply(sys, Abandon(n, t)).store.kv, s))
  {
    AbandonEffect(sys.store, n, t);
  }

  lemma MarksRefine(sys: Sys, step: Step, s: Stamp)
    requires Inv(sys) && Inv(Apply(sys, step)) && (step.AdvanceWatermark? || step.DropWatermark? || step.Collect?)
    ensures PhaseOf(Apply(sys, step), s) == PhaseOf(sys, s)
  {
    match step
    case AdvanceWatermark(j, wm) => AdvanceEffect(sys.store, j, wm);
    case DropWatermark(j) => DeleteEffect(sys.store, Watermark(j));
    case Collect(k, a) => DeleteEffect(sys.store, ResultAt(k, a));
  }

  lemma ExpireRefines(sys: Sys, l: nat, s: Stamp)
    requires Inv(sys) && Inv(Apply(sys, Expire(l)))
    ensures Does(PhaseOf(sys, s), Label(sys, Expire(l), s), PhaseOf(Apply(sys, Expire(l)), s))
  {
  }

  /** Refinement, one step: whatever the step, every ticket makes one atomic action. */
  lemma StepRefines(sys: Sys, step: Step, s: Stamp)
    requires Inv(sys)
    ensures Inv(Apply(sys, step))
    ensures Does(PhaseOf(sys, s), Label(sys, step, s), PhaseOf(Apply(sys, step), s))
  {
    InvStep(sys, step);
    match step
    case Enqueue(t) => EnqueueRefines(sys, t, s);
    case EnqueueFire(t, wm) => EnqueueFireRefines(sys, t, wm, s);
    case Claim(n, o, l, ol) => ClaimRefines(sys, n, o, l, ol, s);
    case Skip(n, o) => SkipRefines(sys, n, o, s);
    case FinishSuccess(id, code) => if id in sys.execs { FinishSuccessRefines(sys, id, code, s); }
    case FinishFailure(id, out, code, now) => if id in sys.execs { FinishFailureRefines(sys, id, out, code, now, s); }
    case Abandon(n, t) => AbandonRefines(sys, n, t, s);
    case Expire(l) => ExpireRefines(sys, l, s);
    case AdvanceWatermark(_, _) => MarksRefine(sys, step, s);
    case DropWatermark(_) => MarksRefine(sys, step, s);
    case Collect(_, _) => MarksRefine(sys, step, s);
    case _ =>
  }

  /** Refinement of every run: the phases of a ticket along a run are a run of the atomic machine. */
  lemma RunRefines(sys: Sys, steps: seq<Step>, i: nat, s: Stamp)
    requires Inv(sys) && i < |steps|
    ensures Inv(Run(sys, steps[..i])) && Inv(Run(sys, steps[..i + 1]))
    ensures Does(PhaseOf(Run(sys, steps[..i]), s),
                 Label(Run(sys, steps[..i]), steps[i], s),
                 PhaseOf(Run(sys, steps[..i + 1]), s))
  {
    InvRun(sys, steps[..i]);
    RunSnoc(sys, steps, i);
    StepRefines(Run(sys, steps[..i]), steps[i], s);
  }

  lemma RunSnoc(sys: Sys, steps: seq<Step>, i: nat)
    requires i < |steps|
    ensures Run(sys, steps[..i + 1]) == Apply(Run(sys, steps[..i]), steps[i])
  {
    assert steps[..i + 1] == steps[..i] + [steps[i]];
    RunSplit(sys, steps[..i], [steps[i]]);
    var sys' := Run(sys, steps[..i]);
    assert [steps[i]][1..] == [];
    assert Run(sys', [steps[i]]) == Run(Apply(sys', steps[i]), []);
  }
}
