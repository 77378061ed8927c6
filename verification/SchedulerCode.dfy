/**
 The leader's tick, in its own shape.  Leadership may be lost between any two calls, any store
 write may fail, and other nodes act before every call.  What is said of a job below holds for every
 such course in which no other leader moves that job's watermark in between and nobody deletes it.
 */
module SchedulerCode {
  import opened Etcd
  import opened Tickets
  import opened QueueMachine
  import opened QueueInvariant
  import opened QueueSafety
  import opened QueueCode
  import opened Watermarks
  import opened CatchUp
  import opened QueueEffects
  import QueueOverlap

  datatype Policy = RunLatest | RunAll | SkipMissed

  datatype Job = Job(id: int, name: string, command: string, timeoutSec: int, maxRetries: int, noOverlap: bool,
                     policy: Policy, enabled: bool)

  /** The zero time, in whole seconds: a watermark that reads as it counts as none. */
  const ZERO_TIME: int := -62135596800

  /** It is the midnight that began the year 1, with leap years as the Gregorian calendar has them. */
  lemma ZeroTimeIsYearOne()
    ensures ZERO_TIME == -(1969 * 365 + 1969 / 4 - 1969 / 100 + 1969 / 400) * 86400
  {
  }

  /** From `a` to `b` along `steps`, disciplined on job `j` throughout, the job had exactly the fires `log` enqueued. */
  ghost predicate Went(a: Sys, steps: seq<Step>, b: Sys, j: int, log: seq<int>) {
    && b == Run(a, steps) && Inv(b) && BehindWatermark(b, j)
    && Throughout(For(j), a, steps)
    && FiredLog(a, steps, j) == log
  }

  lemma WentOn(a: Sys, x: seq<Step>, b: Sys, y: seq<Step>, c: Sys, j: int, l: seq<int>, m: seq<int>)
    requires Went(a, x, b, j, l) && Went(b, y, c, j, m)
    ensures Went(a, x + y, c, j, l + m)
  {
    RunSplit(a, x, y);
    FiredLogSplit(a, x, y, j);
    ThroughoutJoin(For(j), a, x, y);
  }

  lemma {:induction false} ThroughoutJoin(guard: (Sys, Step) -> bool, sys: Sys, a: seq<Step>, b: seq<Step>)
    requires Throughout(guard, sys, a) && Throughout(guard, Run(sys, a), b)
    ensures Throughout(guard, sys, a + b)
    decreases |a|
  {
    if a == [] {
      assert a + b == b;
    } else {
      assert (a + b)[0] == a[0] && (a + b)[1..] == a[1..] + b;
      ThroughoutJoin(guard, Apply(sys, a[0]), a[1..], b);
    }
  }

  predicate AllInert(steps: seq<Step>, j: int) { forall i | 0 <= i < |steps| :: Inert(steps[i], j) }

  /** No scheduler moves job `j` in any of the gaps between the leader's calls, and nobody deletes the job. */
  ghost predicate GapsInert(gaps: seq<seq<Step>>, j: int) { forall i | 0 <= i < |gaps| :: AllInert(gaps[i], j) }

  /** Other nodes that leave the job's schedule alone neither move its watermark nor enqueue a fire of it. */
  lemma {:induction false} InertGoesNowhere(a: Sys, steps: seq<Step>, j: int)
    requires Inv(a) && BehindWatermark(a, j) && AllInert(steps, j)
    ensures Went(a, steps, Run(a, steps), j, [])
    ensures WatermarkOf(Run(a, steps).store, j) == WatermarkOf(a.store, j)
    decreases |steps|
  {
    if steps != [] {
      DisciplinedStep(a, steps[0], j);
      WatermarkStep(a, steps[0], j);
      InertGoesNowhere(Apply(a, steps[0]), steps[1..], j);
    }
  }

  /** One scheduler write on `j`, made while the watermark is the one the leader read. */
  lemma OneWrite(a: Sys, step: Step, j: int)
    requires Inv(a) && BehindWatermark(a, j) && Disciplined(a, step, j)
    requires (step.EnqueueFire? && step.t.job == j) || (step.AdvanceWatermark? && step.job == j)
    ensures Went(a, [step], Apply(a, step), j, if step.EnqueueFire? then [step.t.sched.at] else [])
    ensures WatermarkOf(Apply(a, step).store, j) == Some(step.wm)
  {
    DisciplinedStep(a, step, j);
    WatermarkStep(a, step, j);
    assert [step][1..] == [];
    assert Run(a, [step]) == Run(Apply(a, step), []);
    assert FiredLog(Apply(a, step), [], j) == [];
  }

  /**
   What a call of the scheduler that consumed the gaps `gs` down to `gs'` left alone: it made steps on
   the jobs `own` only, beside what the others did in the gaps.
   */
  ghost predicate Spares(gs: seq<seq<Step>>, steps: seq<Step>, gs': seq<seq<Step>>, own: set<int>) {
    && (Quiet(gs) ==> Quiet(gs'))
    && (forall j | GapsInert(gs, j) :: GapsInert(gs', j) && (j in own || AllInert(steps, j)))
  }

  lemma SparesOn(gs: seq<seq<Step>>, x: seq<Step>, hs: seq<seq<Step>>, y: seq<Step>, ks: seq<seq<Step>>, own: set<int>)
    requires Spares(gs, x, hs, own) && Spares(hs, y, ks, own)
    ensures Spares(gs, x + y, ks, own)
  {
    forall j | GapsInert(gs, j) ensures GapsInert(ks, j) && (j in own || AllInert(x + y, j)) {
      assert GapsInert(hs, j);
    }
  }

  /** The trace is `was` and then `steps`, which consumed the gaps `gs` down to `left`. */
  ghost predicate Trail(was: seq<Step>, gs: seq<seq<Step>>, steps: seq<Step>, trace: seq<Step>, left: seq<seq<Step>>,
          own: set<int>)
  {
    trace == was + steps && Spares(gs, steps, left, own)
  }

  lemma TrailOn(was: seq<Step>, gs: seq<seq<Step>>, steps: seq<Step>, past: seq<Step>, hs: seq<seq<Step>>,
          more: seq<Step>, trace: seq<Step>, left: seq<seq<Step>>, own: set<int>)
    requires Trail(was, gs, steps, past, hs, own) && trace == past + more && Spares(hs, more, left, own)
    ensures Trail(was, gs, steps + more, trace, left, own)
  {
    Appended(was, steps, more);
    SparesOn(gs, steps, hs, more, left, own);
  }

  lemma OwnStep(gs: seq<seq<Step>>, steps: seq<Step>, gs': seq<seq<Step>>, step: Step, j: int)
    requires Spares(gs, steps, gs', {}) && forall i | i != j :: Inert(step, i)
    ensures Spares(gs, steps + [step], gs', {j})
  {
  }

  /** The ticket of the job's fire is pending, with everything the job says of its runs. */
  ghost predicate Queues(sys: Sys, j: Job, fire: int) {
    var k := Pending(Stamp(j.id, Fire(fire)));
    && k in sys.store.kv && sys.store.kv[k].value.VTicket?
    && var t := sys.store.kv[k].value.ticket;
      && t.job == j.id && t.sched == Fire(fire) && t.name == j.name && t.command == j.command
      && t.timeoutSec == j.timeoutSec && t.maxRetries == j.maxRetries && t.noOverlap == j.noOverlap
      && t.attempt == 0 && t.notBefore.None? && !t.manual
  }

  lemma FireIsQueued(sys: Sys, j: Job, t: Ticket, wm: int)
    requires Inv(sys) && BehindWatermark(sys, j.id) && Disciplined(sys, EnqueueFire(t, wm), j.id) && t.sched.Fire?
    requires t == Ticket(j.id, t.sched, j.name, j.command, j.timeoutSec, j.maxRetries, j.noOverlap, 0, None, false)
    ensures Queues(Apply(sys, EnqueueFire(t, wm)), j, t.sched.at)
  {
    DisciplinedStep(sys, EnqueueFire(t, wm), j.id);
    EnqueueFireEffect(sys.store, t, wm);
  }

  /** The fires whose enqueue was not refused by a failing store. */
  function Kept(ts: seq<int>, up: nat -> bool, at: nat): seq<int>
    decreases |ts|
  {
    if ts == [] then [] else Kept(ts[..|ts| - 1], up, at) + (if up(at + |ts| - 1) then [ts[|ts| - 1]] else [])
  }

  lemma KeptSnoc(ts: seq<int>, n: nat, up: nat -> bool, at: nat)
    requires n < |ts|
    ensures Kept(ts[..n + 1], up, at) == Kept(ts[..n], up, at) + (if up(at + n) then [ts[n]] else [])
  {
    assert ts[..n + 1][..n] == ts[..n];
  }

  ghost predicate Above(v: int, ts: seq<int>) { Increasing(ts) && forall i | 0 <= i < |ts| :: v < ts[i] }

  lemma ScanIsInert(gs: seq<seq<Step>>, steps: seq<Step>, gs': seq<seq<Step>>, kvs: seq<Read>)
    requires Spares(gs, steps, gs', {})
    ensures Spares(gs, steps + Observations(kvs), gs', {})
  {
    forall j | GapsInert(gs, j) ensures AllInert(steps + Observations(kvs), j) {
      assert AllInert(steps, j);
    }
  }

  lemma InertStep(gs: seq<seq<Step>>, steps: seq<Step>, gs': seq<seq<Step>>, step: Step)
    requires Spares(gs, steps, gs', {}) && forall i :: Inert(step, i)
    ensures Spares(gs, steps + [step], gs', {})
  {
    forall j | GapsInert(gs, j) ensures AllInert(steps + [step], j) {
      assert AllInert(steps, j);
    }
  }

  lemma InertTrail(was: seq<Step>, gs: seq<seq<Step>>, steps: seq<Step>, left: seq<seq<Step>>, step: Step)
    requires Spares(gs, steps, left, {}) && step.Abandon?
    ensures was + steps + [step] == was + (steps + [step]) && Spares(gs, steps + [step], left, {})
  {
    Appended(was, steps, [step]);
    InertStep(gs, steps, left, step);
  }

  lemma NextGapSpares(gs: seq<seq<Step>>)
    ensures Spares(gs, NextGap(gs), LaterGaps(gs), {})
  {
  }

  /** One job's part of a tick. */
  datatype Visit = Visit(job: Job, before: Sys, steps: seq<Step>, after: Sys)

  function JobsOf(visits: seq<Visit>): seq<Job> {
    if visits == [] then [] else JobsOf(visits[..|visits| - 1]) + [visits[|visits| - 1].job]
  }

  function Enabled(all: seq<Job>): seq<Job> {
    if all == [] then []
    else Enabled(all[..|all| - 1]) + (if all[|all| - 1].enabled then [all[|all| - 1]] else [])
  }

  lemma EnabledOneMore(all: seq<Job>, n: nat)
    requires n < |all|
    ensures Enabled(all[..n + 1]) == Enabled(all[..n]) + (if all[n].enabled then [all[n]] else [])
  {
    assert all[..n + 1][..n] == all[..n];
  }

  /** The enabled jobs are those of the list that are enabled, in the order of the list. */
  lemma {:induction false} EnabledAre(all: seq<Job>, more: seq<Job>, j: Job)
    ensures j in Enabled(all) <==> j in all && j.enabled
    ensures Enabled(all + more) == Enabled(all) + Enabled(more)
    decreases |all|, |more|
  {
    if more != [] {
      var n := |more| - 1;
      EnabledAre(all, more[..n], j);
      assert (all + more)[..|all| + n] == all + more[..n] && (all + more)[|all| + n] == more[n];
    } else {
      assert all + more == all;
      if all != [] {
        EnabledAre(all[..|all| - 1], [], j);
        assert all == all[..|all| - 1] + [all[|all| - 1]];
      }
    }
  }

  function LastOf(a: Sys, visits: seq<Visit>): Sys { if visits == [] then a else visits[|visits| - 1].after }

  /** Each visit begins where the one before it ended. */
  ghost predicate Chained(a: Sys, visits: seq<Visit>) {
    visits != [] ==>
      var n := |visits| - 1;
      Chained(a, visits[..n]) && visits[n].before == LastOf(a, visits[..n])
  }

  lemma VisitOneMore(a: Sys, visits: seq<Visit>, v: Visit)
    requires Chained(a, visits) && v.before == LastOf(a, visits)
    ensures Chained(a, visits + [v]) && LastOf(a, visits + [v]) == v.after
    ensures JobsOf(visits + [v]) == JobsOf(visits) + [v.job]
  {
    assert (visits + [v])[..|visits|] == visits;
  }

  /** The visits are those of the enabled among the first `m` jobs, and lead from `a` to `end`. */
  ghost predicate Covered(a: Sys, visits: seq<Visit>, all: seq<Job>, m: nat, end: Sys) {
    m <= |all| && JobsOf(visits) == Enabled(all[..m]) && Chained(a, visits) && LastOf(a, visits) == end
  }

  lemma CoveredPast(a: Sys, visits: seq<Visit>, all: seq<Job>, m: nat, end: Sys)
    requires Covered(a, visits, all, m, end) && m < |all| && !all[m].enabled
    ensures Covered(a, visits, all, m + 1, end)
  {
    EnabledOneMore(all, m);
  }

  lemma CoveredOn(a: Sys, visits: seq<Visit>, all: seq<Job>, m: nat, v: Visit)
    requires Covered(a, visits, all, m, v.before) && m < |all| && all[m].enabled && v.job == all[m]
    ensures Covered(a, visits + [v], all, m + 1, v.after)
  {
    EnabledOneMore(all, m);
    VisitOneMore(a, visits, v);
  }

  function GapAt(gaps: seq<seq<Step>>, k: nat): seq<Step> { if k < |gaps| then gaps[k] else [] }

  function GapsFrom(gaps: seq<seq<Step>>, k: nat): seq<seq<Step>> { if k < |gaps| then gaps[k..] else [] }

  lemma GapsOn(gaps: seq<seq<Step>>, k: nat)
    ensures NextGap(GapsFrom(gaps, k)) == GapAt(gaps, k) && LaterGaps(GapsFrom(gaps, k)) == GapsFrom(gaps, k + 1)
  {
  }

  /** The tickets of the window that the sweep is to drop, in its order. */
  function Orphans(all: seq<Job>, window: seq<Read>): seq<Ticket>
    requires Decoded(window)
  {
    if window == [] then []
    else
      var n := |window| - 1;
      var t := window[n].entry.value.ticket;
      Orphans(all, window[..n]) + (if Orphan(all, t) then [t] else [])
  }

  /** An abandon of each ticket in turn, what the others do in a gap before each. */
  function Drops(gaps: seq<seq<Step>>, node: NodeId, ts: seq<Ticket>): seq<Step> {
    if ts == [] then []
    else
      var k := |ts| - 1;
      Drops(gaps, node, ts[..k]) + (GapAt(gaps, k) + [Step.Abandon(node, ts[k])])
  }

  /** Where a sweep over the gaps `gs` stands after `n` tickets: what it did, and what the others still have to do. */
  ghost predicate Dropping(gs: seq<seq<Step>>, node: NodeId, all: seq<Job>, window: seq<Read>, n: nat,
          steps: seq<Step>, left: seq<seq<Step>>)
    requires Decoded(window) && n <= |window|
  {
    var ts := Orphans(all, window[..n]);
    steps == Drops(gs, node, ts) && left == GapsFrom(gs, |ts|)
  }

  lemma NothingDropped(gs: seq<seq<Step>>, node: NodeId, all: seq<Job>, window: seq<Read>)
    requires Decoded(window)
    ensures Dropping(gs, node, all, window, 0, [], gs)
  {
    assert window[..0] == [];
  }

  /** One ticket more: an orphan is dropped after the next gap, and any other left alone. */
  lemma DroppingOn(gs: seq<seq<Step>>, node: NodeId, all: seq<Job>, window: seq<Read>, n: nat,
          steps: seq<Step>, left: seq<seq<Step>>)
    requires Decoded(window) && n < |window| && Dropping(gs, node, all, window, n, steps, left)
    ensures
      var t := window[n].entry.value.ticket;
      if Orphan(all, t)
      then Dropping(gs, node, all, window, n + 1, steps + (NextGap(left) + [Step.Abandon(node, t)]), LaterGaps(left))
      else Dropping(gs, node, all, window, n + 1, steps + [], left)
  {
    var t, ts := window[n].entry.value.ticket, Orphans(all, window[..n]);
    assert window[..n + 1][..n] == window[..n];
    assert Orphans(all, window[..n + 1]) == ts + (if Orphan(all, t) then [t] else []);
    if Orphan(all, t) {
      GapsOn(gs, |ts|);
      assert (ts + [t])[..|ts|] == ts;
    } else {
      assert ts + [] == ts && steps + [] == steps;
    }
  }

  /** Exactly the unclaimed orphans among the first tickets in key order are gone. */
  ghost predicate SweptFrom(kv0: map<Key, QEntry>, kv: map<Key, QEntry>, rank: Stamp -> real, all: seq<Job>) {
    exists window :: ScanOf(kv0, rank, SWEEP_LIMIT, window) && Decoded(window) && Swept(kv0, kv, all, window, |window|)
  }

  /**
   The scheduler of one node.  `leaderAt` answers its n-th question whether it still leads, and
   `storeUp` says whether the store accepts its n-th write.
   */
  class Scheduler {
    const q: Queue
    const nextAfter: (int, int) -> Option<int>
    const leaderAt: nat -> bool
    const storeUp: nat -> bool
    var leaderCalls: nat
    var writes: nat

    constructor (q: Queue, nextAfter: (int, int) -> Option<int>, leaderAt: nat -> bool, storeUp: nat -> bool)
      ensures this.q == q && this.nextAfter == nextAfter && this.leaderAt == leaderAt && this.storeUp == storeUp
    {
      this.q, this.nextAfter, this.leaderAt, this.storeUp := q, nextAfter, leaderAt, storeUp;
      leaderCalls, writes := 0, 0;
    }

    /** No other leader is at work on job `j`, nobody deletes it, and its fires so far lie behind its mark. */
    ghost predicate Serial(j: int)
      reads q.cli
    {
      BehindWatermark(q.cli.sys, j) && GapsInert(q.cli.gaps, j)
    }

    function Mark(j: int): Option<int>
      reads q.cli
    {
      WatermarkOf(q.cli.sys.store, j)
    }

    /**
     Of `n` turns, each after a question whether it still leads, the node took the first `k`: every one of them
     after a yes, and the next one not, because the answer was no.
     */
    ghost predicate Led(from: nat, to: nat, k: nat, n: nat) {
      && k <= n && (forall i | from <= i < from + k :: leaderAt(i))
      && to == (if k < n then from + k + 1 else from + k) && (k < n ==> !leaderAt(from + k))
    }

    /** Since question number `from` the node asked `k` times, and the answer was always yes. */
    ghost predicate Leads(from: nat, k: nat)
      reads this`leaderCalls
    {
      leaderCalls == from + k && forall i | from <= i < from + k :: leaderAt(i)
    }

    method Leader() returns (yes: bool)
      modifies this`leaderCalls
      ensures yes == leaderAt(old(leaderCalls)) && leaderCalls == old(leaderCalls) + 1
    {
      yes := leaderAt(leaderCalls);
      leaderCalls := leaderCalls + 1;
    }

    /** The question before turn `k` of `n`. */
    method StillLeads(ghost from: nat, ghost k: nat, ghost n: nat) returns (yes: bool)
      requires Leads(from, k) && k < n
      modifies this`leaderCalls
      ensures if yes then Leads(from, k + 1) else Led(from, leaderCalls, k, n)
    {
      yes := Leader();
    }

    lemma LedThroughout(from: nat, n: nat)
      requires Leads(from, n)
      ensures Led(from, leaderCalls, n, n)
    {
    }

    /** The other nodes take their turn before the next call. */
    method Wait(ghost j: int) returns (ghost steps: seq<Step>)
      requires q.cli.Valid()
      modifies q.cli
      ensures q.cli.Valid() && q.cli.trace == old(q.cli.trace) + steps && Spares(old(q.cli.gaps), steps, q.cli.gaps, {})
      ensures steps == NextGap(old(q.cli.gaps)) && q.cli.gaps == LaterGaps(old(q.cli.gaps))
      ensures q.cli.sys == Run(old(q.cli.sys), steps)
      ensures old(Serial(j)) ==> Serial(j) && Went(old(q.cli.sys), steps, q.cli.sys, j, []) && Mark(j) == old(Mark(j))
      ensures old(q.cli.sys.seen) <= q.cli.sys.seen
      ensures Quiet(old(q.cli.gaps)) ==> q.cli.sys == old(q.cli.sys)
    {
      steps := NextGap(q.cli.gaps);
      NextGapSpares(q.cli.gaps);
      if Serial(j) { InertGoesNowhere(q.cli.sys, steps, j); }
      RunKeepsSeen(q.cli.sys, steps);
      q.cli.Yield();
    }

    /** `calm` says that the caller found the job undisturbed, with its watermark before the fire. */
    method EnqueueFire(j: Job, fire: int, wm: int, ghost calm: bool) returns (ghost steps: seq<Step>)
      requires q.cli.Valid() && (calm ==> Serial(j.id) && Mark(j.id).Some? && Mark(j.id).value < fire <= wm)
      modifies q.cli, this`writes
      ensures q.cli.Valid() && q.cli.trace == old(q.cli.trace) + steps && writes == old(writes) + 1
      ensures Spares(old(q.cli.gaps), steps, q.cli.gaps, {j.id})
      ensures calm ==>
                && Serial(j.id)
                && Went(old(q.cli.sys), steps, q.cli.sys, j.id, if storeUp(old(writes)) then [fire] else [])
      ensures calm ==> Mark(j.id) == if storeUp(old(writes)) then Some(wm) else old(Mark(j.id))
      ensures calm && storeUp(old(writes)) ==> Queues(q.cli.sys, j, fire)
    {
      var t := Ticket(j.id, Fire(fire), j.name, j.command, j.timeoutSec, j.maxRetries, j.noOverlap, 0, None, false);
      ghost var a, was, gs := q.cli.sys, q.cli.trace, q.cli.gaps;
      steps := Wait(j.id);
      ghost var b, step := q.cli.sys, Step.EnqueueFire(t, wm);
      var up := storeUp(writes);
      writes := writes + 1;
      if up {
        if calm {
          OneWrite(b, step, j.id);
          FireIsQueued(b, j, t, wm);
        }
        var created := q.EnqueueFire(t, wm);
        OwnStep(gs, steps, q.cli.gaps, step, j.id);
        Appended(was, steps, [step]);
        if calm {
          WentOn(a, steps, b, [step], q.cli.sys, j.id, [], [fire]);
          assert [] + [fire] == [fire];
        }
        steps := steps + [step];
      }
    }

    method Advance(j: int, wm: int, ghost calm: bool) returns (ghost steps: seq<Step>)
      requires q.cli.Valid() && (calm ==> Serial(j) && (Mark(j).Some? ==> Mark(j).value <= wm))
      modifies q.cli, this`writes
      ensures q.cli.Valid() && q.cli.trace == old(q.cli.trace) + steps && writes == old(writes) + 1
      ensures Spares(old(q.cli.gaps), steps, q.cli.gaps, {j})
      ensures calm ==> Serial(j) && Went(old(q.cli.sys), steps, q.cli.sys, j, [])
      ensures calm ==> Mark(j) == if storeUp(old(writes)) then Some(wm) else old(Mark(j))
    {
      ghost var a, was, gs := q.cli.sys, q.cli.trace, q.cli.gaps;
      steps := Wait(j);
      ghost var b, step := q.cli.sys, Step.AdvanceWatermark(j, wm);
      var up := storeUp(writes);
      writes := writes + 1;
      if up {
        if calm { OneWrite(b, step, j); }
        q.AdvanceWatermark(j, wm);
        OwnStep(gs, steps, q.cli.gaps, step, j);
        Appended(was, steps, [step]);
        if calm { WentOn(a, steps, b, [step], q.cli.sys, j, [], []); }
        steps := steps + [step];
      }
    }

    /** The search comes, before it has eight fires, to an instant after which no fire is found. */
    ghost predicate SearchFails(j: int, v: int, now: int, fire: int -> bool) {
      exists ts :: StopsAt(j, v, now, fire, ts)
    }

    ghost predicate StopsAt(j: int, v: int, now: int, fire: int -> bool, ts: seq<int>) {
      && |ts| < MAX_CATCH_UP_FIRES && Fires(fire, v, Reach(v, ts), ts)
      && (forall i | 0 <= i < |ts| :: ts[i] * NS <= now) && nextAfter(j, Reach(v, ts)).None?
    }

    /** The bounded search for the fires due after `from`; an error drops what was found so far. */
    method CollectFires(j: int, start: int, now: int, ghost fire: int -> bool)
      returns (ok: bool, fires: seq<int>, future: Option<int>)
      requires Finds(fire, (from: int) => nextAfter(j, from))
      ensures ok ==> Collected(fire, start, now, fires, future)
      ensures !ok ==> SearchFails(j, start, now, fire)
    {
      ok, fires, future := true, [], None;
      var from := start;
      while |fires| < MAX_CATCH_UP_FIRES
        invariant |fires| <= MAX_CATCH_UP_FIRES && future.None? && ok
        invariant from == Reach(start, fires) && start <= from
        invariant Fires(fire, start, from, fires)
        invariant forall i | 0 <= i < |fires| :: fires[i] * NS <= now
      {
        var nxt := nextAfter(j, from);
        if nxt.None? {
          assert StopsAt(j, start, now, fire, fires);
          ok := false;
          return;
        }
        assert ((x: int) => nextAfter(j, x))(from) == nxt;
        if nxt.value * NS > now {
          future := nxt;
          break;
        }
        FiresSnoc(fire, start, from, fires, nxt.value);
        fires := fires + [nxt.value];
        from := nxt.value;
      }
    }

    /** How far a `run_all` that began in state `a` has come: the first `n` fires tried since write number `at`. */
    ghost predicate Tried(j: int, fires: seq<int>, n: nat, v: int, at: nat, a: Sys, steps: seq<Step>, log: seq<int>)
      requires n <= |fires|
      reads this, q, q.cli
    {
      && Serial(j) && Went(a, steps, q.cli.sys, j, log)
      && writes == at + n && log == Kept(fires[..n], storeUp, at)
      && Mark(j) == Some(Reach(v, log)) && (n < |fires| ==> Reach(v, log) < fires[n])
    }

    method RunNext(j: Job, fires: seq<int>, n: nat, ghost v: int, ghost at: nat, ghost a: Sys, ghost steps: seq<Step>,
                   ghost log: seq<int>, ghost calm: bool)
      returns (ghost more: seq<Step>, ghost log': seq<int>)
      requires q.cli.Valid() && n < |fires| && Above(v, fires)
      requires calm ==> Tried(j.id, fires, n, v, at, a, steps, log)
      modifies q.cli, this`writes
      ensures q.cli.Valid() && q.cli.trace == old(q.cli.trace) + more
      ensures Spares(old(q.cli.gaps), more, q.cli.gaps, {j.id})
      ensures calm ==> Tried(j.id, fires, n + 1, v, at, a, steps + more, log')
    {
      ghost var b, next := q.cli.sys, if storeUp(writes) then [fires[n]] else [];
      more := EnqueueFire(j, fires[n], fires[n], calm);
      log' := log + next;
      if calm {
        KeptSnoc(fires, n, storeUp, at);
        WentOn(a, steps, b, more, q.cli.sys, j.id, log, next);
      }
    }

    /** `run_all`: each fire in turn, as long as leadership lasts; a refused enqueue does not stop the loop. */
    method RunAllDue(j: Job, fires: seq<int>, ghost v: int, ghost calm: bool)
      returns (ghost steps: seq<Step>, ghost log: seq<int>, ghost k: nat)
      requires q.cli.Valid() && Above(v, fires) && (calm ==> Serial(j.id) && Mark(j.id) == Some(v))
      modifies q.cli, this`writes, this`leaderCalls
      ensures q.cli.Valid() && q.cli.trace == old(q.cli.trace) + steps
      ensures Spares(old(q.cli.gaps), steps, q.cli.gaps, {j.id})
      ensures k <= |fires| && ((forall n :: leaderAt(n)) ==> k == |fires|)
      ensures Led(old(leaderCalls), leaderCalls, k, |fires|)
      ensures calm ==> Serial(j.id) && Went(old(q.cli.sys), steps, q.cli.sys, j.id, log)
      ensures calm ==> log == Kept(fires[..k], storeUp, old(writes)) && Mark(j.id) == Some(Reach(v, log))
    {
      steps, log, k := [], [], 0;
      ghost var a := q.cli.sys;
      if calm { NoStepsYet(a, j.id); }
      for n := 0 to |fires|
        invariant k == n && q.cli.Valid() && q.cli.trace == old(q.cli.trace) + steps
        invariant Leads(old(leaderCalls), k)
        invariant Spares(old(q.cli.gaps), steps, q.cli.gaps, {j.id})
        invariant calm ==> Tried(j.id, fires, n, v, old(writes), a, steps, log)
      {
        var lead := StillLeads(old(leaderCalls), k, |fires|);
        if !lead { return; }
        ghost var more, gs := [], q.cli.gaps;
        more, log := RunNext(j, fires, n, v, old(writes), a, steps, log, calm);
        Appended(old(q.cli.trace), steps, more);
        SparesOn(old(q.cli.gaps), steps, gs, more, q.cli.gaps, {j.id});
        steps, k := steps + more, k + 1;
      }
      assert fires[..|fires|] == fires;
      LedThroughout(old(leaderCalls), k);
    }

    /** A job seen for the first time: its mark goes to the first fire ahead. */
    method Arm(j: int, now: int, ghost fire: int -> bool, ghost calm: bool) returns (ghost steps: seq<Step>)
      requires q.cli.Valid() && (calm ==> Serial(j) && (Mark(j).None? || Mark(j).value == ZERO_TIME))
      requires Finds(fire, (from: int) => nextAfter(j, from)) && ZERO_TIME * NS <= now
      modifies q.cli, this`writes
      ensures q.cli.Valid() && q.cli.trace == old(q.cli.trace) + steps &&
                Spares(old(q.cli.gaps), steps, q.cli.gaps, {j})
      ensures calm ==> Serial(j) && Went(old(q.cli.sys), steps, q.cli.sys, j, [])
      ensures calm ==>
                if nextAfter(j, Seconds(now)).Some? && storeUp(old(writes))
                then Armed(old(Mark(j)), now, fire, Mark(j), [])
                else Mark(j) == old(Mark(j))
    {
      var nxt := nextAfter(j, Seconds(now));
      if nxt.Some? {
        assert ((x: int) => nextAfter(j, x))(Seconds(now)) == nxt;
        steps := Advance(j, nxt.value, calm);
      } else {
        steps := [];
        if calm { NoStepsYet(q.cli.sys, j); }
      }
    }

    /** What the policy makes of the fires collected after watermark `v`. */
    method ApplyPolicy(j: Job, v: int, due: seq<int>, ahead: Option<int>, ghost calm: bool)
      returns (ghost steps: seq<Step>, ghost log: seq<int>, ghost k: nat)
      requires q.cli.Valid() && Above(v, due) && (calm ==> Serial(j.id) && Mark(j.id) == Some(v))
      requires due != [] ==> due[|due| - 1] <= Target(due, ahead)
      modifies q.cli, this`writes, this`leaderCalls
      ensures q.cli.Valid() && q.cli.trace == old(q.cli.trace) + steps
      ensures Spares(old(q.cli.gaps), steps, q.cli.gaps, {j.id})
      ensures k <= |due| && ((forall n :: leaderAt(n)) ==> k == |due|)
      ensures j.policy.RunAll? ==> Led(old(leaderCalls), leaderCalls, k, |due|)
      ensures leaderCalls >= old(leaderCalls)
      ensures calm ==> Serial(j.id) && Went(old(q.cli.sys), steps, q.cli.sys, j.id, log)
      ensures calm ==> TickResult(j.policy, v, due, ahead, k, storeUp, old(writes), Mark(j.id), log)
    {
      steps, log, k := [], [], |due|;
      if calm { NoStepsYet(q.cli.sys, j.id); }
      match j.policy {
        case SkipMissed =>
          if |due| > 0 {
            steps := Advance(j.id, Target(due, ahead), calm);
          }
        case RunAll =>
          steps, log, k := RunAllDue(j, due, v, calm);
        case RunLatest =>
          if |due| > 0 {
            var latest := due[|due| - 1];
            log := if storeUp(writes) then [latest] else [];
            steps := EnqueueFire(j, latest, Target(due, ahead), calm);
          }
      }
    }

    /**
     What a tick does to one job: arm it, if it has no watermark; otherwise catch it up.  It does
     nothing when the next fire cannot be found, or when the store refuses the arming write.
     */
    ghost predicate Ticked(j: Job, now: int, fire: int -> bool, at: nat, m: Option<int>, m': Option<int>, log: seq<int>,
                           fires: seq<int>, future: Option<int>, k: nat)
    {
      if m.None? || m.value == ZERO_TIME then
        if nextAfter(j.id, Seconds(now)).Some? && storeUp(at) then Armed(m, now, fire, m', log) else Unmoved(m, m', log)
      else
        || Caught(m, j.policy, now, fire, fires, future, k, storeUp, at, m', log)
        || (SearchFails(j.id, m.value, now, fire) && Unmoved(m, m', log))
    }

    /** One job's tick, other nodes acting before its first call. */
    method ScheduleJob(j: Job, now: int, ghost fire: int -> bool)
      returns (ghost steps: seq<Step>, ghost log: seq<int>, ghost fires: seq<int>, ghost future: Option<int>,
               ghost k: nat)
      requires q.cli.Valid() && Finds(fire, (from: int) => nextAfter(j.id, from)) && ZERO_TIME * NS <= now
      modifies q.cli, this`writes, this`leaderCalls
      ensures q.cli.Valid() && q.cli.trace == old(q.cli.trace) + steps
      ensures Spares(old(q.cli.gaps), steps, q.cli.gaps, {j.id})
      ensures k <= |fires| && ((forall n :: leaderAt(n)) ==> k == |fires|)
      ensures j.policy.RunAll? ==> Led(old(leaderCalls), leaderCalls, k, |fires|)
      ensures leaderCalls >= old(leaderCalls)
      ensures old(Serial(j.id)) ==>
                && Serial(j.id) && Went(old(q.cli.sys), steps, q.cli.sys, j.id, log)
                && Ticked(j, now, fire, old(writes), old(Mark(j.id)), Mark(j.id), log, fires, future, k)
    {
      ghost var a, was, gs, calm := q.cli.sys, q.cli.trace, q.cli.gaps, Serial(j.id);
      steps := Wait(j.id);
      ghost var b, hs, more := q.cli.sys, q.cli.gaps, [];
      more, log, fires, future, k := TickFromHere(j, now, fire, calm);
      Appended(was, steps, more);
      SparesOn(gs, steps, hs, more, q.cli.gaps, {j.id});
      if calm {
        WentOn(a, steps, b, more, q.cli.sys, j.id, [], log);
        assert [] + log == log;
      }
      steps := steps + more;
    }

    /** The tick from the reading of the watermark on. */
    method TickFromHere(j: Job, now: int, ghost fire: int -> bool, ghost calm: bool)
      returns (ghost steps: seq<Step>, ghost log: seq<int>, ghost fires: seq<int>, ghost future: Option<int>,
               ghost k: nat)
      requires q.cli.Valid() && Finds(fire, (from: int) => nextAfter(j.id, from)) && ZERO_TIME * NS <= now
      requires calm ==> Serial(j.id)
      modifies q.cli, this`writes, this`leaderCalls
      ensures q.cli.Valid() && q.cli.trace == old(q.cli.trace) + steps
      ensures Spares(old(q.cli.gaps), steps, q.cli.gaps, {j.id})
      ensures k <= |fires| && ((forall n :: leaderAt(n)) ==> k == |fires|)
      ensures j.policy.RunAll? ==> Led(old(leaderCalls), leaderCalls, k, |fires|)
      ensures leaderCalls >= old(leaderCalls)
      ensures calm ==> Serial(j.id) && Went(old(q.cli.sys), steps, q.cli.sys, j.id, log)
      ensures calm ==> Ticked(j, now, fire, old(writes), old(Mark(j.id)), Mark(j.id), log, fires, future, k)
    {
      steps, log, fires, future, k := [], [], [], None, 0;
      var wm := q.ReadWatermark(j.id);
      if wm.None? || wm.value == ZERO_TIME {
        steps := Arm(j.id, now, fire, calm);
      } else {
        var ok, due, ahead := CollectFires(j.id, wm.value, now, fire);
        if ok {
          CollectedShape(fire, wm.value, now, due, ahead);
          fires, future := due, ahead;
          steps, log, k := ApplyPolicy(j, wm.value, due, ahead, calm);
        } else if calm {
          NoStepsYet(q.cli.sys, j.id);
        }
      }
    }

    /** `live` are the ids of the enabled jobs. */
    method LiveJobs(all: seq<Job>) returns (live: set<int>)
      ensures forall id :: id in live <==> exists i | 0 <= i < |all| :: all[i].enabled && all[i].id == id
    {
      live := {};
      for n := 0 to |all|
        invariant forall id :: id in live <==> exists i | 0 <= i < n :: all[i].enabled && all[i].id == id
      {
        if all[n].enabled { live := live + {all[n].id}; }
      }
    }

    method AbandonInTurn(o: Read) returns (ghost steps: seq<Step>)
      requires q.cli.Valid() && o in q.cli.sys.seen && o.entry.value.VTicket?
      modifies q.cli
      ensures q.cli.Valid() && q.cli.trace == old(q.cli.trace) + steps && Spares(old(q.cli.gaps), steps, q.cli.gaps, {})
      ensures old(q.cli.sys.seen) <= q.cli.sys.seen && q.cli.gaps == LaterGaps(old(q.cli.gaps))
      ensures steps == NextGap(old(q.cli.gaps)) + [Step.Abandon(q.nodeID, o.entry.value.ticket)]
      ensures Quiet(old(q.cli.gaps)) ==>
                q.cli.sys.store == After(old(q.cli.sys.store), AbandonTxn(q.nodeID, o.entry.value.ticket))
    {
      ghost var was, gs := q.cli.trace, q.cli.gaps;
      steps := Pause();
      ghost var step := AbandonNow(o);
      InertTrail(was, gs, steps, q.cli.gaps, step);
      steps := steps + [step];
    }

    method AbandonNow(o: Read) returns (ghost step: Step)
      requires q.cli.Valid() && o in q.cli.sys.seen && o.entry.value.VTicket?
      modifies q.cli`sys, q.cli`trace
      ensures q.cli.Valid() && step == Step.Abandon(q.nodeID, o.entry.value.ticket)
      ensures q.cli.trace == old(q.cli.trace) + [step] && q.cli.sys.seen == old(q.cli.sys.seen)
      ensures q.cli.sys.store == After(old(q.cli.sys.store), AbandonTxn(q.nodeID, o.entry.value.ticket))
    {
      var t := o.entry.value.ticket;
      step := Step.Abandon(q.nodeID, t);
      q.Abandon(t);
    }

    /** The other nodes' turn, for a caller that does not follow any one job. */
    method Pause() returns (ghost steps: seq<Step>)
      requires q.cli.Valid()
      modifies q.cli
      ensures q.cli.Valid() && q.cli.trace == old(q.cli.trace) + steps && Spares(old(q.cli.gaps), steps, q.cli.gaps, {})
      ensures steps == NextGap(old(q.cli.gaps)) && q.cli.gaps == LaterGaps(old(q.cli.gaps))
      ensures q.cli.sys == Run(old(q.cli.sys), steps) && old(q.cli.sys.seen) <= q.cli.sys.seen
      ensures Quiet(old(q.cli.gaps)) ==> q.cli.sys == old(q.cli.sys)
    {
      steps := Wait(0);
    }

    method Look(limit: nat) returns (pending: seq<Read>)
      requires q.cli.Valid()
      modifies q.cli`sys, q.cli`trace
      ensures q.cli.Valid() && q.cli.trace == old(q.cli.trace) + Observations(pending)
      ensures (set o | o in pending) <= q.cli.sys.seen && Decoded(pending) && Distinct(pending)
      ensures ScanOf(q.cli.sys.store.kv, q.cli.rank, limit, pending) && q.cli.sys.store == old(q.cli.sys.store)
    {
      pending := q.cli.Scan(limit);
      ScanDistinct(q.cli.sys.store.kv, q.cli.rank, limit, pending);
      ScanDecoded(q.cli.sys, pending);
    }

    /** The first tickets in key order; a limit that is not positive stands for fifty. */
    method PendingTickets(limit: int) returns (pending: seq<Read>, ghost steps: seq<Step>)
      requires q.cli.Valid()
      modifies q.cli
      ensures q.cli.Valid() && q.cli.trace == old(q.cli.trace) + steps && Spares(old(q.cli.gaps), steps, q.cli.gaps, {})
      ensures (set o | o in pending) <= q.cli.sys.seen && Decoded(pending) && Distinct(pending)
      ensures steps == NextGap(old(q.cli.gaps)) + Observations(pending) && q.cli.gaps == LaterGaps(old(q.cli.gaps))
      ensures q.cli.sys.store == Run(old(q.cli.sys), NextGap(old(q.cli.gaps))).store
      ensures ScanOf(q.cli.sys.store.kv, q.cli.rank, if limit <= 0 then 50 else limit, pending)
      ensures Quiet(old(q.cli.gaps)) ==> q.cli.sys.store == old(q.cli.sys.store)
    {
      ghost var was, gs := q.cli.trace, q.cli.gaps;
      ghost var waited := Pause();
      var n: nat := if limit <= 0 then 50 else limit;
      pending := Look(n);
      ScanIsInert(gs, waited, q.cli.gaps, pending);
      Appended(was, waited, Observations(pending));
      steps := waited + Observations(pending);
    }

    /**
     Tickets of jobs that are gone or disabled are abandoned, unless they are manual or claimed.  Whatever the
     others do, the sweep's own steps are one listing and, in its order, an abandon of each orphan among the
     first `n` tickets listed; `n` falls short of the window only where leadership was lost.
     */
    method SweepOrphans(all: seq<Job>) returns (ghost steps: seq<Step>, ghost window: seq<Read>, ghost n: nat)
      requires q.cli.Valid()
      modifies q.cli, this`leaderCalls
      ensures q.cli.Valid() && q.cli.trace == old(q.cli.trace) + steps && Spares(old(q.cli.gaps), steps, q.cli.gaps, {})
      ensures var gap := NextGap(old(q.cli.gaps));
        && Decoded(window) && ScanOf(Run(old(q.cli.sys), gap).store.kv, q.cli.rank, SWEEP_LIMIT, window)
        && Led(old(leaderCalls), leaderCalls, n, |window|)
        && steps == (gap + Observations(window))
                    + Drops(LaterGaps(old(q.cli.gaps)), q.nodeID, Orphans(all, window[..n]))
      ensures Quiet(old(q.cli.gaps)) && (forall n :: leaderAt(n)) ==>
                && ScanOf(old(q.cli.sys.store.kv), q.cli.rank, SWEEP_LIMIT, window)
                && Swept(old(q.cli.sys.store.kv), q.cli.sys.store.kv, all, window, |window|)
                && StayIff(old(q.cli.sys.store.kv), q.cli.sys.store.kv, all, window)
    {
      var live := LiveJobs(all);
      var pending;
      ghost var listed;
      pending, listed := PendingTickets(SWEEP_LIMIT);
      ghost var gs, more := q.cli.gaps, [];
      window := pending;
      more, n := SweepWindow(all, live, pending);
      Appended(old(q.cli.trace), listed, more);
      SparesOn(old(q.cli.gaps), listed, gs, more, q.cli.gaps, {});
      steps := listed + more;
      if Quiet(old(q.cli.gaps)) && forall k :: leaderAt(k) {
        WhatStays(old(q.cli.sys.store.kv), q.cli.sys.store.kv, q.cli.rank, all, window);
      }
    }

    /** The loop over the tickets listed. */
    method SweepWindow(ghost all: seq<Job>, live: set<int>, pending: seq<Read>)
      returns (ghost steps: seq<Step>, ghost n: nat)
      requires q.cli.Valid() && Decoded(pending) && (set o | o in pending) <= q.cli.sys.seen
      requires forall id :: id in live <==> exists i | 0 <= i < |all| :: all[i].enabled && all[i].id == id
      modifies q.cli, this`leaderCalls
      ensures q.cli.Valid() && q.cli.trace == old(q.cli.trace) + steps && Spares(old(q.cli.gaps), steps, q.cli.gaps, {})
      ensures Led(old(leaderCalls), leaderCalls, n, |pending|)
      ensures Dropping(old(q.cli.gaps), q.nodeID, all, pending, n, steps, q.cli.gaps)
      ensures Quiet(old(q.cli.gaps)) && (forall n :: leaderAt(n)) ==>
                Swept(old(q.cli.sys.store.kv), q.cli.sys.store.kv, all, pending, |pending|)
    {
      ghost var kv0, was, gs, from := q.cli.sys.store.kv, q.cli.trace, q.cli.gaps, leaderCalls;
      ghost var quiet := Quiet(gs) && forall n :: leaderAt(n);
      steps, n := [], 0;
      NothingDropped(gs, q.nodeID, all, pending);
      for i := 0 to |pending|
        invariant n == i && q.cli.Valid() && Trail(was, gs, steps, q.cli.trace, q.cli.gaps, {})
        invariant Leads(from, n)
        invariant (set o | o in pending) <= q.cli.sys.seen
        invariant Dropping(gs, q.nodeID, all, pending, n, steps, q.cli.gaps)
        invariant quiet ==> Quiet(q.cli.gaps) && Swept(kv0, q.cli.sys.store.kv, all, pending, n)
      {
        var lead := StillLeads(from, n, |pending|);
        if !lead { return; }
        steps := SweepNext(all, live, pending, i, was, gs, steps, kv0, quiet);
        n := n + 1;
      }
      LedThroughout(from, n);
    }

    /** The tick dealt with `v.job` on the way from `v.before` to `v.after`. */
    ghost predicate Served(v: Visit, now: int, fire: int -> bool) {
      exists log, fires, future, k: nat, at: nat ::
        && Went(v.before, v.steps, v.after, v.job.id, log)
        && Ticked(v.job, now, fire, at, WatermarkOf(v.before.store, v.job.id), WatermarkOf(v.after.store, v.job.id),
                  log, fires, future, k)
        && k <= |fires| && ((forall n :: leaderAt(n)) ==> k == |fires|)
    }

    method Visiting(j: Job, now: int, ghost fire: int -> bool) returns (ghost v: Visit)
      requires q.cli.Valid() && Finds(fire, (from: int) => nextAfter(j.id, from)) && ZERO_TIME * NS <= now
      modifies q.cli, this`writes, this`leaderCalls
      ensures q.cli.Valid() && v.job == j && v.before == old(q.cli.sys) && v.after == q.cli.sys
      ensures q.cli.trace == old(q.cli.trace) + v.steps && Spares(old(q.cli.gaps), v.steps, q.cli.gaps, {j.id})
      ensures old(Serial(j.id)) ==> Serial(j.id) && Served(v, now, fire)
      ensures leaderCalls >= old(leaderCalls)
    {
      ghost var at, calm := writes, Serial(j.id);
      ghost var steps, log, fires, future, k := ScheduleJob(j, now, fire);
      v := Visit(j, old(q.cli.sys), steps, q.cli.sys);
      if calm {
        assert Ticked(j, now, fire, at, WatermarkOf(v.before.store, j.id), WatermarkOf(v.after.store, j.id),
                      log, fires, future, k);
      }
    }

    ghost predicate AllServed(visits: seq<Visit>, now: int, fireOf: int -> int -> bool, calm: iset<int>) {
      forall n | 0 <= n < |visits| && visits[n].job.id in calm :: Served(visits[n], now, fireOf(visits[n].job.id))
    }

    lemma ServedOneMore(visits: seq<Visit>, v: Visit, now: int, fireOf: int -> int -> bool, calm: iset<int>)
      requires AllServed(visits, now, fireOf, calm) && (v.job.id in calm ==> Served(v, now, fireOf(v.job.id)))
      ensures AllServed(visits + [v], now, fireOf, calm)
    {
    }

    /** For each of the jobs `calm`, the steps since `a` were disciplined, and nothing is due to disturb it. */
    ghost predicate Orderly(a: Sys, steps: seq<Step>, calm: iset<int>)
      reads q.cli
    {
      forall i | i in calm :: Serial(i) && Throughout(For(i), a, steps)
    }

    /**
     What a visit means for each job left alone in the gaps: a disciplined piece of its run, the job's own
     tick or nothing.
     */
    lemma VisitIsDisciplined(was: seq<Step>, gs: seq<seq<Step>>, v: Visit, i: int, now: int, fire: int -> bool)
      requires q.cli.Valid() && v.before == Run(q.cli.origin, was) && Inv(v.before) && v.after == q.cli.sys
      requires q.cli.trace == was + v.steps && Spares(gs, v.steps, q.cli.gaps, {v.job.id})
      requires BehindWatermark(v.before, i) && GapsInert(gs, i)
      requires i == v.job.id ==> Serial(i) && Served(v, now, fire)
      ensures Serial(i) && Throughout(For(i), v.before, v.steps) && v.after == Run(v.before, v.steps)
    {
      RunSplit(q.cli.origin, was, v.steps);
      if i != v.job.id { InertGoesNowhere(v.before, v.steps, i); }
    }

    /** The sweep at the end of a tick, if the node still leads. */
    method SweepIfLeading(all: seq<Job>, ghost a: Sys, ghost was: seq<Step>, ghost past: seq<Step>,
            ghost calm: iset<int>)
      returns (ghost steps: seq<Step>, ghost swept: Option<nat>)
      requires q.cli.Valid() && q.cli.trace == was + past && q.cli.sys == Run(a, past) && Orderly(a, past, calm)
      modifies q.cli, this`leaderCalls
      ensures q.cli.Valid() && q.cli.trace == was + steps && Orderly(a, steps, calm)
      ensures (forall n :: leaderAt(n)) && Quiet(old(q.cli.gaps)) ==>
                SweptFrom(old(q.cli.sys.store.kv), q.cli.sys.store.kv, q.cli.rank, all)
      ensures leaderCalls > old(leaderCalls)
      ensures match swept
        case Some(n) => n == old(leaderCalls) && leaderAt(n)
        case None => q.cli.sys == old(q.cli.sys) && !leaderAt(leaderCalls - 1)
    {
      steps, swept := past, None;
      ghost var b, trace, gs := q.cli.sys, q.cli.trace, q.cli.gaps;
      var lead := Leader();
      if lead {
        swept := Some(leaderCalls - 1);
        ghost var more, window, looked := SweepOrphans(all);
        forall i | i in calm ensures Serial(i) && Throughout(For(i), a, past + more) {
          SweepIsDisciplined(a, past, b, trace, more, gs, i);
        }
        Appended(was, past, more);
        steps := past + more;
      }
    }

    /**
     A sweep is made when all jobs were dealt with and the answer to one more question was yes; where there is
     none, nothing was done after the jobs, and the last answer was no.
     */
    ghost predicate Finished(swept: Option<nat>, complete: bool, asks: seq<nat>, idle: bool, calls: nat) {
      match swept
      case Some(n) => complete && leaderAt(n) && forall i | 0 <= i < |asks| :: asks[i] < n
      case None => idle && calls > 0 && !leaderAt(calls - 1)
    }

    /** What comes after the jobs: the sweep, unless leadership was lost before or is lost now. */
    method EndTick(all: seq<Job>, m: nat, ghost a: Sys, ghost was: seq<Step>, ghost past: seq<Step>,
            ghost calm: iset<int>, ghost asks: seq<nat>, ghost from: nat)
      returns (ghost steps: seq<Step>, ghost swept: Option<nat>)
      requires q.cli.Valid() && q.cli.trace == was + past && q.cli.sys == Run(a, past) && Orderly(a, past, calm)
      requires m <= |all| && (m < |all| ==> leaderCalls > 0 && !leaderAt(leaderCalls - 1))
      requires Asked(asks, |asks|, from, leaderCalls)
      modifies q.cli, this`leaderCalls
      ensures q.cli.Valid() && q.cli.trace == was + steps && Orderly(a, steps, calm)
      ensures (forall n :: leaderAt(n)) && Quiet(old(q.cli.gaps)) ==>
                SweptFrom(old(q.cli.sys.store.kv), q.cli.sys.store.kv, q.cli.rank, all)
      ensures Asked(asks, |asks|, from, leaderCalls)
      ensures Finished(swept, m == |all|, asks, q.cli.sys == old(q.cli.sys), leaderCalls)
    {
      steps, swept := past, None;
      if m == |all| { steps, swept := SweepIfLeading(all, a, was, past, calm); }
    }

    /**
     A whole tick: every enabled job in turn, then the sweep, as long as leadership lasts.  `m` is
     how many jobs of the list it came to before leadership was lost.  Every job that the others leave
     alone is served, whatever they do to other jobs.
     */
    method TickOnce(all: seq<Job>, now: int, ghost fireOf: int -> int -> bool)
      returns (ghost steps: seq<Step>, ghost visits: seq<Visit>, ghost m: nat, ghost asks: seq<nat>,
               ghost swept: Option<nat>)
      requires q.cli.Valid() && ZERO_TIME * NS <= now
      requires AllFind(all, fireOf)
      modifies q.cli, this`writes, this`leaderCalls
      ensures q.cli.Valid() && q.cli.trace == old(q.cli.trace) + steps
      ensures Orderly(old(q.cli.sys), steps, iset i | old(Serial(i)))
      ensures m <= |all| && ((forall n :: leaderAt(n)) ==> m == |all|)
      ensures JobsOf(visits) == Enabled(all[..m]) && Chained(old(q.cli.sys), visits)
      ensures AllServed(visits, now, fireOf, iset i | old(Serial(i)))
      ensures (forall n :: leaderAt(n)) && Quiet(old(q.cli.gaps)) ==>
                SweptFrom(LastOf(old(q.cli.sys), visits).store.kv, q.cli.sys.store.kv, q.cli.rank, all)
      ensures Asked(asks, |visits|, old(leaderCalls), leaderCalls)
      ensures Finished(swept, m == |all|, asks, q.cli.sys == LastOf(old(q.cli.sys), visits), leaderCalls)
    {
      ghost var was, calm := q.cli.trace, iset i | Serial(i);
      assert calm == iset i | old(Serial(i));
      var n;
      steps, visits, n, asks := VisitAll(all, now, fireOf, calm);
      m := n;
      steps, swept := EndTick(all, n, old(q.cli.sys), was, steps, calm, asks, old(leaderCalls));
    }

    /** The jobs' part of the tick. */
    method VisitAll(all: seq<Job>, now: int, ghost fireOf: int -> int -> bool, ghost calm: iset<int>)
      returns (ghost steps: seq<Step>, ghost visits: seq<Visit>, m: nat, ghost asks: seq<nat>)
      requires q.cli.Valid() && ZERO_TIME * NS <= now
      requires AllFind(all, fireOf) && forall i | i in calm :: Serial(i)
      modifies q.cli, this`writes, this`leaderCalls
      ensures q.cli.Valid() && q.cli.trace == old(q.cli.trace) + steps && q.cli.sys == Run(old(q.cli.sys), steps)
      ensures Orderly(old(q.cli.sys), steps, calm)
      ensures m <= |all| && ((forall n :: leaderAt(n)) ==> m == |all|)
      ensures JobsOf(visits) == Enabled(all[..m]) && Chained(old(q.cli.sys), visits) &&
                LastOf(old(q.cli.sys), visits) == q.cli.sys
      ensures AllServed(visits, now, fireOf, calm)
      ensures Quiet(old(q.cli.gaps)) ==> Quiet(q.cli.gaps)
      ensures Asked(asks, |visits|, old(leaderCalls), leaderCalls)
      ensures m < |all| ==> leaderCalls > 0 && !leaderAt(leaderCalls - 1)
    {
      steps, visits, m, asks := [], [], 0, [];
      ghost var a, was := q.cli.sys, q.cli.trace;
      while m < |all|
        invariant q.cli.Valid() && Progress(a, was, steps, visits, all, m, now, fireOf, calm)
        invariant Quiet(old(q.cli.gaps)) ==> Quiet(q.cli.gaps)
        invariant Asked(asks, |visits|, old(leaderCalls), leaderCalls)
      {
        var lead := Leader();
        if !lead { break; }
        steps, visits, asks := VisitOrPass(all, m, now, fireOf, a, was, steps, visits, calm, asks, old(leaderCalls));
        m := m + 1;
      }
    }

    /** Before each of `n` things came a question of its own, and the answer was yes. */
    ghost predicate Asked(asks: seq<nat>, n: nat, from: nat, to: nat) {
      && |asks| == n && from <= to && (forall i | 0 <= i < n :: from <= asks[i] < to && leaderAt(asks[i]))
      && (forall i, k | 0 <= i < k < n :: asks[i] < asks[k])
    }

    /** The search finds the fires of every job of the list. */
    ghost predicate AllFind(all: seq<Job>, fireOf: int -> int -> bool) {
      forall i | 0 <= i < |all| :: Finds(fireOf(all[i].id), (from: int) => nextAfter(all[i].id, from))
    }

    /** How far the visits since state `a`, when the trace was `was`, have come: the first `m` jobs. */
    ghost predicate Progress(a: Sys, was: seq<Step>, steps: seq<Step>, visits: seq<Visit>, all: seq<Job>, m: nat,
            now: int, fireOf: int -> int -> bool, calm: iset<int>)
      reads q.cli
    {
      && q.cli.trace == was + steps && q.cli.sys == Run(a, steps)
      && Orderly(a, steps, calm) && Covered(a, visits, all, m, q.cli.sys) && AllServed(visits, now, fireOf, calm)
    }

    /** A job that is enabled is visited, any other passed by. */
    method VisitOrPass(all: seq<Job>, m: nat, now: int, ghost fireOf: int -> int -> bool, ghost a: Sys,
            ghost was: seq<Step>, ghost past: seq<Step>, ghost visits: seq<Visit>, ghost calm: iset<int>,
            ghost asks: seq<nat>, ghost from: nat)
      returns (ghost steps: seq<Step>, ghost visits': seq<Visit>, ghost asks': seq<nat>)
      requires q.cli.Valid() && ZERO_TIME * NS <= now && m < |all|
      requires AllFind(all, fireOf) && Progress(a, was, past, visits, all, m, now, fireOf, calm)
      requires leaderCalls > 0 && leaderAt(leaderCalls - 1) && Asked(asks, |visits|, from, leaderCalls - 1)
      modifies q.cli, this`writes, this`leaderCalls
      ensures q.cli.Valid() && Progress(a, was, steps, visits', all, m + 1, now, fireOf, calm)
      ensures Quiet(old(q.cli.gaps)) ==> Quiet(q.cli.gaps)
      ensures Asked(asks', |visits'|, from, leaderCalls)
    {
      steps, visits', asks' := past, visits, asks;
      if all[m].enabled {
        asks' := asks + [leaderCalls - 1];
        steps, visits' := VisitNext(all, m, now, fireOf, a, was, past, visits, calm);
      } else {
        CoveredPast(a, visits, all, m, q.cli.sys);
      }
    }

    method VisitNext(all: seq<Job>, m: nat, now: int, ghost fireOf: int -> int -> bool, ghost a: Sys,
            ghost was: seq<Step>, ghost past: seq<Step>, ghost visits: seq<Visit>, ghost calm: iset<int>)
      returns (ghost steps: seq<Step>, ghost visits': seq<Visit>)
      requires q.cli.Valid() && ZERO_TIME * NS <= now && m < |all| && all[m].enabled
      requires AllFind(all, fireOf) && Progress(a, was, past, visits, all, m, now, fireOf, calm)
      modifies q.cli, this`writes, this`leaderCalls
      ensures q.cli.Valid() && Progress(a, was, steps, visits', all, m + 1, now, fireOf, calm)
      ensures Quiet(old(q.cli.gaps)) ==> Quiet(q.cli.gaps)
      ensures |visits'| == |visits| + 1 && leaderCalls >= old(leaderCalls)
    {
      ghost var v := VisitInTurn(all[m], now, fireOf(all[m].id), a, past, calm);
      Appended(was, past, v.steps);
      CoveredOn(a, visits, all, m, v);
      ServedOneMore(visits, v, now, fireOf, calm);
      steps, visits' := past + v.steps, visits + [v];
    }

    method VisitInTurn(j: Job, now: int, ghost fire: int -> bool, ghost a: Sys, ghost steps: seq<Step>,
            ghost calm: iset<int>)
      returns (ghost v: Visit)
      requires q.cli.Valid() && Finds(fire, (from: int) => nextAfter(j.id, from)) && ZERO_TIME * NS <= now
      requires q.cli.sys == Run(a, steps) && Orderly(a, steps, calm)
      modifies q.cli, this`writes, this`leaderCalls
      ensures q.cli.Valid() && v.job == j && v.before == old(q.cli.sys) &&
                v.after == q.cli.sys == Run(a, steps + v.steps)
      ensures q.cli.trace == old(q.cli.trace) + v.steps && (Quiet(old(q.cli.gaps)) ==> Quiet(q.cli.gaps))
      ensures Orderly(a, steps + v.steps, calm) && (j.id in calm ==> Served(v, now, fire))
      ensures leaderCalls >= old(leaderCalls)
    {
      ghost var was, gs := q.cli.trace, q.cli.gaps;
      v := Visiting(j, now, fire);
      RunSplit(q.cli.origin, was, v.steps);
      RunSplit(a, steps, v.steps);
      forall i | i in calm ensures Serial(i) && Throughout(For(i), a, steps + v.steps) {
        VisitIsDisciplined(was, gs, v, i, now, fire);
        ThroughoutJoin(For(i), a, steps, v.steps);
      }
    }

    lemma SweepIsDisciplined(a: Sys, steps: seq<Step>, b: Sys, past: seq<Step>, more: seq<Step>, gs: seq<seq<Step>>,
            i: int)
      requires q.cli.Valid() && b == Run(a, steps) && Throughout(For(i), a, steps)
      requires b == Run(q.cli.origin, past) && Inv(b) && BehindWatermark(b, i) && GapsInert(gs, i)
      requires q.cli.trace == past + more && Spares(gs, more, q.cli.gaps, {})
      ensures Serial(i) && Throughout(For(i), a, steps + more)
    {
      RunSplit(q.cli.origin, past, more);
      InertGoesNowhere(b, more, i);
      ThroughoutJoin(For(i), a, steps, more);
    }

    /** One turn of the sweep, added to the turns so far. */
    method SweepNext(ghost all: seq<Job>, live: set<int>, pending: seq<Read>, n: nat, ghost was: seq<Step>,
            ghost gs: seq<seq<Step>>, ghost past: seq<Step>, ghost kv0: map<Key, QEntry>, ghost quiet: bool)
      returns (ghost steps: seq<Step>)
      requires q.cli.Valid() && Decoded(pending) && n < |pending| && (set o | o in pending) <= q.cli.sys.seen
      requires forall id :: id in live <==> exists i | 0 <= i < |all| :: all[i].enabled && all[i].id == id
      requires quiet ==> Quiet(q.cli.gaps) && Swept(kv0, q.cli.sys.store.kv, all, pending, n)
      requires Trail(was, gs, past, q.cli.trace, q.cli.gaps, {})
      requires Dropping(gs, q.nodeID, all, pending, n, past, q.cli.gaps)
      modifies q.cli
      ensures q.cli.Valid() && (set o | o in pending) <= q.cli.sys.seen
      ensures Trail(was, gs, steps, q.cli.trace, q.cli.gaps, {})
      ensures Dropping(gs, q.nodeID, all, pending, n + 1, steps, q.cli.gaps)
      ensures quiet ==> Swept(kv0, q.cli.sys.store.kv, all, pending, n + 1)
      ensures Quiet(old(q.cli.gaps)) ==> Quiet(q.cli.gaps)
    {
      ghost var trace, hs := q.cli.trace, q.cli.gaps;
      ghost var more := SweepTurn(all, live, pending, n, gs, past, kv0, quiet);
      TrailOn(was, gs, past, trace, hs, more, q.cli.trace, q.cli.gaps, {});
      steps := past + more;
    }

    /** One turn of the sweep. */
    method SweepTurn(ghost all: seq<Job>, live: set<int>, pending: seq<Read>, n: nat, ghost gs: seq<seq<Step>>,
            ghost drops: seq<Step>, ghost kv0: map<Key, QEntry>, ghost quiet: bool)
      returns (ghost steps: seq<Step>)
      requires q.cli.Valid() && Decoded(pending) && n < |pending| && (set o | o in pending) <= q.cli.sys.seen
      requires forall id :: id in live <==> exists i | 0 <= i < |all| :: all[i].enabled && all[i].id == id
      requires quiet ==> Quiet(q.cli.gaps) && Swept(kv0, q.cli.sys.store.kv, all, pending, n)
      requires Dropping(gs, q.nodeID, all, pending, n, drops, q.cli.gaps)
      modifies q.cli
      ensures Dropping(gs, q.nodeID, all, pending, n + 1, drops + steps, q.cli.gaps)
      ensures q.cli.Valid() && q.cli.trace == old(q.cli.trace) + steps && Spares(old(q.cli.gaps), steps, q.cli.gaps, {})
      ensures (set o | o in pending) <= q.cli.sys.seen
      ensures quiet ==> Swept(kv0, q.cli.sys.store.kv, all, pending, n + 1)
    {
      var o := pending[n];
      assert o in (set x | x in pending);
      var t := o.entry.value.ticket;
      ghost var st := q.cli.sys.store;
      DroppingOn(gs, q.nodeID, all, pending, n, drops, q.cli.gaps);
      if t.manual || t.job in live {
        steps := [];
        if quiet { SpareOne(kv0, st.kv, all, pending, n); }
      } else {
        steps := AbandonInTurn(o);
        if quiet { SweepOne(kv0, st, q.nodeID, all, pending, n); }
      }
    }
  }

  const SWEEP_LIMIT: nat := 256

  /** A scheduled ticket whose job is gone or disabled. */
  predicate Orphan(all: seq<Job>, t: Ticket) {
    !t.manual && !exists i | 0 <= i < |all| :: all[i].enabled && all[i].id == t.job
  }

  /** Of the first `n` tickets of the window, exactly the unclaimed orphans are gone; nothing else changed. */
  ghost predicate Swept(kv0: map<Key, QEntry>, kv: map<Key, QEntry>, all: seq<Job>, window: seq<Read>, n: nat)
    requires Decoded(window)
  {
    && n <= |window|
    && QueueOverlap.SameLocks(kv0, kv)
    && (forall s | Pending(s) in kv :: Pending(s) in kv0 && kv[Pending(s)] == kv0[Pending(s)])
    && (forall i | 0 <= i < n && Orphan(all, window[i].entry.value.ticket) && Claimed(window[i].key) !in kv0 ::
          Pending(window[i].key) !in kv)
    && (forall s | Pending(s) in kv0 && Pending(s) !in kv ::
          exists i | 0 <= i < n :: window[i].key == s && Orphan(all, window[i].entry.value.ticket) &&
            Claimed(s) !in kv0)
  }

  /** Which of the tickets listed are still pending: the manual ones, the claimed ones, and those of an enabled job. */
  ghost predicate StayIff(kv0: map<Key, QEntry>, kv: map<Key, QEntry>, all: seq<Job>, window: seq<Read>)
    requires Decoded(window)
  {
    forall i | 0 <= i < |window| ::
      Pending(window[i].key) in kv <==>
        || window[i].entry.value.ticket.manual
        || Claimed(window[i].key) in kv0
        || exists n | 0 <= n < |all| :: all[n].enabled && all[n].id == window[i].entry.value.ticket.job
  }

  lemma WhatStays(kv0: map<Key, QEntry>, kv: map<Key, QEntry>, rank: Stamp -> real, all: seq<Job>, window: seq<Read>)
    requires ScanOf(kv0, rank, SWEEP_LIMIT, window) && Decoded(window) && Swept(kv0, kv, all, window, |window|)
    ensures StayIff(kv0, kv, all, window)
  {
  }

  /** One sweep looks at 256 tickets, or all that are pending when there are fewer. */
  lemma SweepLooksAt256(kv: map<Key, QEntry>, rank: Stamp -> real, window: seq<Read>)
    requires ScanOf(kv, rank, SWEEP_LIMIT, window)
    ensures |window| == if |PendingStamps(kv)| < 256 then |PendingStamps(kv)| else 256
    ensures |PendingStamps(kv)| <= 256 ==> forall s | Pending(s) in kv :: Listed(window, s)
  {
    ScanTakes(kv, rank, SWEEP_LIMIT, window);
  }

  /** What the sweep is to drop, in whatever state: the tickets listed that are neither manual nor of an enabled job. */
  lemma {:induction false} OrphansAre(all: seq<Job>, window: seq<Read>, t: Ticket)
    requires Decoded(window)
    ensures t in Orphans(all, window) <==>
            && (exists i | 0 <= i < |window| :: window[i].entry.value == VTicket(t))
            && !t.manual && forall n | 0 <= n < |all| && all[n].enabled :: all[n].id != t.job
    decreases |window|
  {
    if window != [] {
      var n := |window| - 1;
      OrphansAre(all, window[..n], t);
      assert forall i | 0 <= i < n :: window[..n][i] == window[i];
    }
  }

  /**
   Whatever the others did between the listing and the abandon: an abandon of a ticket that is not manual does not
   take a manual one out of pending, as long as that one was not enqueued again as another.
   */
  lemma ManualIsSpared(sys: Sys, node: NodeId, t: Ticket, s: Stamp)
    requires Inv(sys) && Unaltered(Whole, sys, s) && s in sys.books && sys.books[s].template.manual && !t.manual
    ensures IsPending(Apply(sys, Step.Abandon(node, t)), s) <==> IsPending(sys, s)
  {
    AbandonEffect(sys.store, node, t);
    forall o | o in sys.seen && o.key == s ensures o.entry.value.VTicket? && o.entry.value.ticket.manual {
      assert Sight(Whole, o.entry.value.ticket) == Sight(Whole, sys.books[s].template);
    }
  }

  lemma SpareOne(kv0: map<Key, QEntry>, kv: map<Key, QEntry>, all: seq<Job>, window: seq<Read>, n: nat)
    requires Decoded(window) && n < |window| && Swept(kv0, kv, all, window, n)
    requires !Orphan(all, window[n].entry.value.ticket) || Claimed(window[n].key) in kv0
    ensures Swept(kv0, kv, all, window, n + 1)
  {
    forall s | Pending(s) in kv0 && Pending(s) !in kv
      ensures exists i | 0 <= i < n + 1 :: window[i].key == s && Orphan(all, window[i].entry.value.ticket) &&
                Claimed(s) !in kv0
    {
      var i :| 0 <= i < n && window[i].key == s && Orphan(all, window[i].entry.value.ticket) && Claimed(s) !in kv0;
    }
  }

  lemma SweepOne(kv0: map<Key, QEntry>, st: QStore, node: NodeId, all: seq<Job>, window: seq<Read>, n: nat)
    requires Valid(st) && Decoded(window) && n < |window| && Swept(kv0, st.kv, all, window, n)
    requires Orphan(all, window[n].entry.value.ticket)
    ensures Swept(kv0, After(st, AbandonTxn(node, window[n].entry.value.ticket)).kv, all, window, n + 1)
  {
    var t := window[n].entry.value.ticket;
    AbandonEffect(st, node, t);
    if Claimed(window[n].key) in kv0 {
      SpareOne(kv0, st.kv, all, window, n);
    } else {
      var kv := After(st, AbandonTxn(node, t)).kv;
      forall s | Pending(s) in kv0 && Pending(s) !in kv
        ensures exists i | 0 <= i < n + 1 :: window[i].key == s && Orphan(all, window[i].entry.value.ticket) &&
                  Claimed(s) !in kv0
      {
        if Pending(s) in st.kv {
          assert window[n].key == s;
        } else {
          var i :| 0 <= i < n && window[i].key == s && Orphan(all, window[i].entry.value.ticket) && Claimed(s) !in kv0;
        }
      }
    }
  }

  lemma CollectedShape(fire: int -> bool, v: int, now: int, due: seq<int>, ahead: Option<int>)
    requires Collected(fire, v, now, due, ahead)
    ensures Above(v, due) && (due != [] ==> due[|due| - 1] <= Target(due, ahead))
  {
  }

  lemma NoStepsYet(a: Sys, j: int)
    requires Inv(a) && BehindWatermark(a, j)
    ensures Went(a, [], a, j, [])
  {
  }

  /** Where `skip` and `run_latest` leave the watermark: the first fire ahead, if the search got there. */
  function Target(fires: seq<int>, future: Option<int>): int
    requires fires != []
  {
    match future
    case Some(n) => n
    case None => fires[|fires| - 1]
  }

  /** A job without a watermark gets the first fire after now as its watermark, and nothing is enqueued. */
  ghost predicate Armed(m: Option<int>, now: int, fire: int -> bool, m': Option<int>, log: seq<int>) {
    && (m.None? || m.value == ZERO_TIME) && log == []
    && m'.Some? && IsNext(fire, Seconds(now), m'.value)
  }

  /** The search failed, or the store refused the write: nothing happened. */
  ghost predicate Unmoved(m: Option<int>, m': Option<int>, log: seq<int>) { m' == m && log == [] }

  /** The tick collected `fires` after the mark and dealt with them as the policy says. */
  ghost predicate Caught(m: Option<int>, p: Policy, now: int, fire: int -> bool, fires: seq<int>, future: Option<int>,
                         k: nat, up: nat -> bool, at: nat, m': Option<int>, log: seq<int>) {
    && m.Some? && Collected(fire, m.value, now, fires, future)
    && TickResult(p, m.value, fires, future, k, up, at, m', log)
  }

  /** What a tick that collected `fires` after watermark `v` enqueued and where it left the mark. */
  ghost predicate TickResult(p: Policy, v: int, fires: seq<int>, future: Option<int>, k: nat, up: nat -> bool, at: nat,
                             m': Option<int>, log: seq<int>) {
    && k <= |fires|
    && match p
       case SkipMissed => log == [] && m' == Some(if fires != [] && up(at) then Target(fires, future) else v)
       case RunAll => log == Kept(fires[..k], up, at) && m' == Some(Reach(v, log))
       case RunLatest =>
         && log == (if fires != [] && up(at) then [fires[|fires| - 1]] else [])
         && m' == Some(if log != [] then Target(fires, future) else v)
  }
}
