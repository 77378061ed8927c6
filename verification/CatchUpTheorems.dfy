/** What the three catch-up policies guarantee, and where each stops. */
module CatchUpTheorems {
  import opened Tickets
  import opened QueueMachine
  import opened QueueEffects
  import opened QueueInvariant
  import opened QueueSafety
  import opened Watermarks
  import opened CatchUp
  import opened SchedulerCode

  // ------------------------------------------------------------------ run_all

  /** The enqueue of the `i`-th fire of the tick goes through. */
  predicate Up(up: nat -> bool, at: nat, i: nat) { up(at + i) }

  lemma {:induction false} KeptIs(ts: seq<int>, up: nat -> bool, at: nat, t: int)
    ensures t in Kept(ts, up, at) <==> exists i | 0 <= i < |ts| :: ts[i] == t && Up(up, at, i)
    decreases |ts|
  {
    if ts != [] {
      var n := |ts| - 1;
      KeptIs(ts[..n], up, at, t);
      if t in Kept(ts[..n], up, at) {
        var i :| 0 <= i < n && ts[..n][i] == t && Up(up, at, i);
        assert ts[i] == t && Up(up, at, i);
      }
      if exists i | 0 <= i < |ts| :: ts[i] == t && Up(up, at, i) {
        var i :| 0 <= i < |ts| && ts[i] == t && Up(up, at, i);
        if i < n { assert ts[..n][i] == t && Up(up, at, i); }
      }
    }
  }

  lemma {:induction false} KeptPrefix(ts: seq<int>, up: nat -> bool, at: nat, m: nat)
    requires m <= |ts| && (forall i | 0 <= i < |ts| :: Up(up, at, i) <==> i < m)
    ensures Kept(ts, up, at) == ts[..m]
    decreases |ts|
  {
    if ts != [] {
      var n := |ts| - 1;
      if m <= n {
        KeptPrefix(ts[..n], up, at, m);
        assert !Up(up, at, n);
        assert ts[..n][..m] == ts[..m];
      } else {
        KeptPrefix(ts[..n], up, at, n);
        assert Up(up, at, n);
        assert ts[..n][..n] + [ts[n]] == ts;
      }
    }
  }

  /** No write of the tick succeeds after one has failed. */
  ghost predicate FailsForGood(n: nat, up: nat -> bool, at: nat) {
    forall i, k | 0 <= i < k < n :: Up(up, at, k) ==> Up(up, at, i)
  }

  lemma {:induction false} FirstFailure(n: nat, up: nat -> bool, at: nat) returns (m: nat)
    requires FailsForGood(n, up, at)
    ensures m <= n && forall i | 0 <= i < n :: Up(up, at, i) <==> i < m
  {
    m := 0;
    while m < n && Up(up, at, m)
      invariant m <= n && forall i | 0 <= i < m :: Up(up, at, i)
    {
      m := m + 1;
    }
    assert forall i | m <= i < n :: Up(up, at, i) ==> Up(up, at, m);
  }

  /** A `run_all` tick leaves no gap exactly when no enqueue of it succeeds after one was refused. */
  lemma GapFreeIff(fire: int -> bool, v: int, ts: seq<int>, up: nat -> bool, at: nat)
    requires Fires(fire, v, Reach(v, ts), ts)
    ensures var log := Kept(ts, up, at); Fires(fire, v, Reach(v, log), log) <==> FailsForGood(|ts|, up, at)
  {
    var log := Kept(ts, up, at);
    if FailsForGood(|ts|, up, at) {
      var m := FirstFailure(|ts|, up, at);
      KeptPrefix(ts, up, at, m);
      FiresCut(fire, v, Reach(v, ts), ts, m);
    }
    if Fires(fire, v, Reach(v, log), log) {
      forall i, k | 0 <= i < k < |ts| && Up(up, at, k) ensures Up(up, at, i) {
        KeptIs(ts, up, at, ts[k]);
        assert ts[k] in log;
        assert ts[i] < ts[k] <= Reach(v, log);
        assert ts[i] in log;
        KeptIs(ts, up, at, ts[i]);
        var i' :| 0 <= i' < |ts| && ts[i'] == ts[i] && Up(up, at, i');
        assert i' == i;
      }
    }
  }

  /**
   With a store that works, a tick cut short anywhere enqueues a gap-free stretch, and a complete one all it
   found.
   */
  lemma RunAllTickExact(fire: int -> bool, v: int, now: int, fires: seq<int>, future: Option<int>, k: nat,
                        up: nat -> bool, at: nat, m': Option<int>, log: seq<int>)
    requires Caught(Some(v), RunAll, now, fire, fires, future, k, up, at, m', log)
    requires forall n :: up(n)
    ensures log == fires[..k] && m' == Some(Reach(v, log)) && Fires(fire, v, m'.value, log)
    ensures k == |fires| ==> CollectsAt(fire, v, now, log)
  {
    KeptPrefix(fires[..k], up, at, k);
    assert fires[..k][..k] == fires[..k];
    FiresCut(fire, v, Reach(v, fires), fires, k);
    if k == |fires| {
      assert log == fires;
      assert Collected(fire, v, now, log, future);
    }
  }

  // ------------------------------------------------------------------ ticks by any leaders, one after another

  /** A stretch of a run: what goes on between ticks, or one tick at time `now`, complete or cut short. */
  datatype Part = Between(steps: seq<Step>) | Tick(steps: seq<Step>, now: int, complete: bool)

  function StepsOf(parts: seq<Part>): seq<Step>
    decreases |parts|
  {
    if parts == [] then [] else parts[0].steps + StepsOf(parts[1..])
  }

  /** A `run_all` tick at `now` by a leader whose writes all go through, as `ScheduleJob` leaves it. */
  ghost predicate RanAll(fire: int -> bool, j: int, a: Sys, steps: seq<Step>, now: int, complete: bool) {
    exists log, fires, future, k: nat, up: nat -> bool, at: nat ::
      && Went(a, steps, Run(a, steps), j, log) && (forall n :: up(n))
      && Caught(WatermarkOf(a.store, j), RunAll, now, fire, fires, future, k, up, at,
                WatermarkOf(Run(a, steps).store, j), log)
      && (complete ==> k == |fires|)
  }

  /** A tick that could not find a next fire left the job as it was. */
  ghost predicate FoundNothing(j: int, a: Sys, steps: seq<Step>) {
    Went(a, steps, Run(a, steps), j, []) && WatermarkOf(Run(a, steps).store, j) == WatermarkOf(a.store, j)
  }

  ghost predicate PartOk(fire: int -> bool, j: int, a: Sys, p: Part) {
    match p
    case Between(steps) => AllInert(steps, j)
    case Tick(steps, now, complete) =>
      RanAll(fire, j, a, steps, now, complete) || (!complete && FoundNothing(j, a, steps))
  }

  /** A run from `a`, made of ticks on job `j` and of whatever leaves the job's schedule alone between them. */
  ghost predicate Relay(fire: int -> bool, j: int, a: Sys, parts: seq<Part>)
    decreases |parts|
  {
    parts == [] || (PartOk(fire, j, a, parts[0]) && Relay(fire, j, Run(a, parts[0].steps), parts[1..]))
  }

  /** From `a` to `b`, the job's fires enqueued are its schedule from the one watermark to the other. */
  ghost predicate Leg(fire: int -> bool, j: int, a: Sys, steps: seq<Step>, b: Sys) {
    && WatermarkOf(a.store, j).Some? && WatermarkOf(b.store, j).Some?
    && WatermarkOf(a.store, j).value <= WatermarkOf(b.store, j).value
    && Went(a, steps, b, j, FiredLog(a, steps, j))
    && Fires(fire, WatermarkOf(a.store, j).value, WatermarkOf(b.store, j).value, FiredLog(a, steps, j))
  }

  lemma LegOn(fire: int -> bool, j: int, a: Sys, x: seq<Step>, b: Sys, y: seq<Step>, c: Sys)
    requires Leg(fire, j, a, x, b) && Leg(fire, j, b, y, c)
    ensures Leg(fire, j, a, x + y, c) && FiredLog(a, x + y, j) == FiredLog(a, x, j) + FiredLog(b, y, j)
  {
    var l, m := FiredLog(a, x, j), FiredLog(b, y, j);
    WentOn(a, x, b, y, c, j, l, m);
    FiresAppend(fire, WatermarkOf(a.store, j).value, WatermarkOf(b.store, j).value,
      WatermarkOf(c.store, j).value, l, m);
  }

  lemma QuietLeg(fire: int -> bool, j: int, a: Sys, steps: seq<Step>)
    requires WatermarkOf(a.store, j).Some? && FoundNothing(j, a, steps)
    ensures Leg(fire, j, a, steps, Run(a, steps)) && FiredLog(a, steps, j) == []
  {
  }

  /** A tick is a leg, and if it is complete it brought in all it found due. */
  lemma TickIsLeg(fire: int -> bool, j: int, a: Sys, steps: seq<Step>, now: int, complete: bool)
    requires RanAll(fire, j, a, steps, now, complete)
    ensures Leg(fire, j, a, steps, Run(a, steps))
    ensures var w, log := WatermarkOf(a.store, j).value, FiredLog(a, steps, j);
      && WatermarkOf(Run(a, steps).store, j) == Some(Reach(w, log))
      && (forall i | 0 <= i < |log| :: log[i] * NS <= now)
      && (complete ==> CollectsAt(fire, w, now, log))
  {
    var log, fires, future, k: nat, up: nat -> bool, at: nat :|
      && Went(a, steps, Run(a, steps), j, log) && (forall n :: up(n))
      && Caught(WatermarkOf(a.store, j), RunAll, now, fire, fires, future, k, up, at,
                WatermarkOf(Run(a, steps).store, j), log)
      && (complete ==> k == |fires|);
    var w := WatermarkOf(a.store, j).value;
    RunAllTickExact(fire, w, now, fires, future, k, up, at, WatermarkOf(Run(a, steps).store, j), log);
    FiresCut(fire, w, Reach(w, fires), fires, k);
  }

  lemma PartIsLeg(fire: int -> bool, j: int, a: Sys, p: Part)
    requires Inv(a) && BehindWatermark(a, j) && WatermarkOf(a.store, j).Some? && PartOk(fire, j, a, p)
    ensures Leg(fire, j, a, p.steps, Run(a, p.steps))
  {
    match p
    case Between(steps) =>
      InertGoesNowhere(a, steps, j);
      QuietLeg(fire, j, a, steps);
    case Tick(steps, now, complete) =>
      if RanAll(fire, j, a, steps, now, complete) {
        TickIsLeg(fire, j, a, steps, now, complete);
      } else {
        QuietLeg(fire, j, a, steps);
      }
  }

  /**
   Exact catch-up over any number of ticks by any leaders, each cut short anywhere, with other nodes
   at work in between: what was enqueued is the schedule, gap-free, in order and without repetition,
   from the first watermark to the last.
   */
  lemma {:induction false} RelayIsExact(fire: int -> bool, j: int, a: Sys, parts: seq<Part>)
    requires Inv(a) && BehindWatermark(a, j) && WatermarkOf(a.store, j).Some? && Relay(fire, j, a, parts)
    ensures Leg(fire, j, a, StepsOf(parts), Run(a, StepsOf(parts)))
    decreases |parts|
  {
    if parts == [] {
      NoStepsYet(a, j);
    } else {
      var b, rest := Run(a, parts[0].steps), StepsOf(parts[1..]);
      PartIsLeg(fire, j, a, parts[0]);
      RelayIsExact(fire, j, b, parts[1..]);
      LegOn(fire, j, a, parts[0].steps, b, rest, Run(b, rest));
      RunSplit(a, parts[0].steps, rest);
    }
  }

  /** How many of the ticks were complete ones at time `now`. */
  function CompleteAt(parts: seq<Part>, now: int): nat
    decreases |parts|
  {
    if parts == [] then 0
    else (if parts[0].Tick? && parts[0].complete && parts[0].now == now then 1 else 0) + CompleteAt(parts[1..], now)
  }

  ghost predicate NoneAfter(parts: seq<Part>, now: int) {
    forall i | 0 <= i < |parts| && parts[i].Tick? :: parts[i].now <= now
  }

  /**
   What one stretch takes of the fires due: the next ones in order, and eight or all that are left if it is
   a complete tick.
   */
  lemma PartTakes(fire: int -> bool, j: int, a: Sys, p: Part, now: int, due: seq<int>)
    requires Inv(a) && BehindWatermark(a, j) && WatermarkOf(a.store, j).Some? && PartOk(fire, j, a, p)
    requires Fires(fire, WatermarkOf(a.store, j).value, Seconds(now), due) && (p.Tick? ==> p.now <= now)
    ensures var log, b := FiredLog(a, p.steps, j), Run(a, p.steps);
      && |log| <= |due| && log == due[..|log|]
      && WatermarkOf(b.store, j).Some? && Fires(fire, WatermarkOf(b.store, j).value, Seconds(now), due[|log|..])
      && (p.Tick? && p.complete && p.now == now ==> |log| == |due| || |log| == MAX_CATCH_UP_FIRES)
  {
    PartIsLeg(fire, j, a, p);
    var w, log := WatermarkOf(a.store, j).value, FiredLog(a, p.steps, j);
    if p.Tick? && RanAll(fire, j, a, p.steps, p.now, p.complete) {
      TickIsLeg(fire, j, a, p.steps, p.now, p.complete);
      if log != [] {
        assert log[|log| - 1] * NS <= now;
        PrefixOf(fire, w, Reach(w, log), Seconds(now), log, due);
        FiresCut(fire, w, Seconds(now), due, |log|);
      }
      if p.complete && p.now == now { CompleteTakes(fire, w, now, log, due); }
    } else {
      if p.Between? { InertGoesNowhere(a, p.steps, j); }
      assert log == [];
    }
  }

  lemma CompleteTakes(fire: int -> bool, w: int, now: int, log: seq<int>, due: seq<int>)
    requires CollectsAt(fire, w, now, log) && Fires(fire, w, Seconds(now), due)
    ensures |log| == |due| || |log| == MAX_CATCH_UP_FIRES
  {
    var future :| Collected(fire, w, now, log, future);
    if w * NS <= now {
      CollectsFirstEight(fire, w, now, log, future, due);
    } else {
      FiresUnique(fire, w, Seconds(now), due, []);
      FiresUnique(fire, w, Seconds(now), log, []);
    }
  }

  /**
   The m fires due at `now` come in by eights: after ticks of which c were complete ones at `now`, the
   fires enqueued are a prefix of them, at least 8c long or all of them.  So ceil(m/8) complete ticks
   bring in all m, whatever else went on.
   */
  lemma {:induction false} TicksCatchUp(fire: int -> bool, j: int, a: Sys, parts: seq<Part>, now: int, due: seq<int>)
    requires Inv(a) && BehindWatermark(a, j) && WatermarkOf(a.store, j).Some? && Relay(fire, j, a, parts)
    requires NoneAfter(parts, now) && Fires(fire, WatermarkOf(a.store, j).value, Seconds(now), due)
    ensures var log := FiredLog(a, StepsOf(parts), j);
      && |log| <= |due| && log == due[..|log|]
      && (|log| == |due| || |log| >= MAX_CATCH_UP_FIRES * CompleteAt(parts, now))
    decreases |parts|
  {
    if parts != [] {
      var p, b, rest := parts[0], Run(a, parts[0].steps), parts[1..];
      PartTakes(fire, j, a, p, now, due);
      PartIsLeg(fire, j, a, p);
      var l := FiredLog(a, p.steps, j);
      TicksCatchUp(fire, j, b, rest, now, due[|l|..]);
      FiredLogSplit(a, p.steps, StepsOf(rest), j);
      PrefixesJoin(due, l, FiredLog(b, StepsOf(rest), j));
    }
  }

  lemma PrefixesJoin(due: seq<int>, l: seq<int>, m: seq<int>)
    requires |l| <= |due| && l == due[..|l|] && |m| <= |due[|l|..]| && m == due[|l|..][..|m|]
    ensures |l + m| <= |due| && l + m == due[..|l + m|]
  {
  }

  // ------------------------------------------------------------------ the code, tick after tick

  lemma {:induction false} StepsSnoc(parts: seq<Part>, p: Part)
    ensures StepsOf(parts + [p]) == StepsOf(parts) + p.steps
    decreases |parts|
  {
    if parts == [] {
      assert parts + [p] == [p] && [p][1..] == [];
    } else {
      Unshift(parts, p);
      StepsSnoc(parts[1..], p);
      Appended(parts[0].steps, StepsOf(parts[1..]), p.steps);
    }
  }

  lemma {:induction false} RelaySnoc(fire: int -> bool, j: int, a: Sys, parts: seq<Part>, p: Part)
    requires Relay(fire, j, a, parts) && PartOk(fire, j, Run(a, StepsOf(parts)), p)
    ensures Relay(fire, j, a, parts + [p])
    decreases |parts|
  {
    if parts == [] {
      assert parts + [p] == [p] && [p][1..] == [];
    } else {
      Unshift(parts, p);
      RunSplit(a, parts[0].steps, StepsOf(parts[1..]));
      RelaySnoc(fire, j, Run(a, parts[0].steps), parts[1..], p);
    }
  }

  lemma Unshift<T>(xs: seq<T>, x: T)
    requires xs != []
    ensures (xs + [x])[0] == xs[0] && (xs + [x])[1..] == xs[1..] + [x]
  {
  }

  /** Leadership lasts, and every instant has a next fire. */
  ghost predicate Unhindered(s: Scheduler, j: int) {
    (forall n :: s.leaderAt(n)) && forall t :: s.nextAfter(j, t).Some?
  }

  /** What `ScheduleJob` did to an armed `run_all` job, its writes going through, is a stretch of a relay. */
  lemma ServedIsPart(s: Scheduler, v: Visit, now: int, fire: int -> bool, complete: bool)
    requires s.Served(v, now, fire) && v.job.policy.RunAll? && (forall n :: s.storeUp(n))
    requires var m := WatermarkOf(v.before.store, v.job.id); m.Some? && m.value != ZERO_TIME
    requires complete ==> Unhindered(s, v.job.id)
    ensures v.after == Run(v.before, v.steps) && PartOk(fire, v.job.id, v.before, Tick(v.steps, now, complete))
  {
    var id := v.job.id;
    var m := WatermarkOf(v.before.store, id);
    var log, fires, future, k: nat, at: nat :|
      && Went(v.before, v.steps, v.after, id, log)
      && s.Ticked(v.job, now, fire, at, m, WatermarkOf(v.after.store, id), log, fires, future, k)
      && k <= |fires| && ((forall n :: s.leaderAt(n)) ==> k == |fires|);
    if !Caught(m, RunAll, now, fire, fires, future, k, s.storeUp, at, WatermarkOf(v.after.store, id), log) {
      var ts :| s.StopsAt(id, m.value, now, fire, ts);
      assert FoundNothing(id, v.before, v.steps);
    }
  }

  /** So it makes a relay that ended where it began one stretch longer. */
  lemma ServedJoins(s: Scheduler, v: Visit, now: int, fire: int -> bool, complete: bool, a: Sys, parts: seq<Part>)
    requires s.Served(v, now, fire) && v.job.policy.RunAll? && (forall n :: s.storeUp(n))
    requires Inv(v.before) && BehindWatermark(v.before, v.job.id)
    requires var m := WatermarkOf(v.before.store, v.job.id); m.Some? && ZERO_TIME < m.value
    requires complete ==> Unhindered(s, v.job.id)
    requires Relay(fire, v.job.id, a, parts) && v.before == Run(a, StepsOf(parts))
    ensures var ps := parts + [Tick(v.steps, now, complete)];
      Relay(fire, v.job.id, a, ps) && v.after == Run(a, StepsOf(ps))
    ensures var m := WatermarkOf(v.after.store, v.job.id); m.Some? && ZERO_TIME < m.value
  {
    var p := Tick(v.steps, now, complete);
    ServedIsPart(s, v, now, fire, complete);
    PartIsLeg(fire, v.job.id, v.before, p);
    RelaySnoc(fire, v.job.id, a, parts, p);
    StepsSnoc(parts, p);
    RunSplit(a, StepsOf(parts), v.steps);
  }

  /** The parts are ticks at the first of the times, in order. */
  ghost predicate AreTicks(parts: seq<Part>, nows: seq<int>, complete: bool) {
    |parts| <= |nows| && forall i | 0 <= i < |parts| :: parts[i] == Tick(parts[i].steps, nows[i], complete)
  }

  lemma OneMoreTick(parts: seq<Part>, p: Part, nows: seq<int>, complete: bool)
    requires AreTicks(parts, nows, complete) && |parts| < |nows| && p == Tick(p.steps, nows[|parts|], complete)
    ensures AreTicks(parts + [p], nows, complete)
  {
  }

  /** One more tick on the job, added to the relay so far. */
  method TickAgain(s: Scheduler, j: Job, now: int, ghost fire: int -> bool, ghost a: Sys, ghost parts: seq<Part>)
    returns (ghost p: Part)
    requires s.q.cli.Valid() && s.Serial(j.id) && Finds(fire, (from: int) => s.nextAfter(j.id, from))
    requires j.policy.RunAll? && (forall n :: s.storeUp(n)) && ZERO_TIME * NS <= now
    requires s.Mark(j.id).Some? && ZERO_TIME < s.Mark(j.id).value
    requires Relay(fire, j.id, a, parts) && s.q.cli.sys == Run(a, StepsOf(parts))
    modifies s, s.q.cli
    ensures s.q.cli.Valid() && s.Serial(j.id) && s.Mark(j.id).Some? && ZERO_TIME < s.Mark(j.id).value
    ensures Relay(fire, j.id, a, parts + [p]) && s.q.cli.sys == Run(a, StepsOf(parts + [p]))
    ensures p == Tick(p.steps, now, Unhindered(s, j.id))
  {
    ghost var v := s.Visiting(j, now, fire);
    p := Tick(v.steps, now, Unhindered(s, j.id));
    ServedJoins(s, v, now, fire, p.complete, a, parts);
  }

  /**
   The leader's loop on one `run_all` job: a tick at each of the times `nows`, other nodes acting before
   every call.  What it enqueues is the schedule between the two watermarks, whatever happens.
   */
  method Ticks(s: Scheduler, j: Job, nows: seq<int>, ghost fire: int -> bool) returns (ghost parts: seq<Part>)
    requires s.q.cli.Valid() && s.Serial(j.id) && Finds(fire, (from: int) => s.nextAfter(j.id, from))
    requires j.policy.RunAll? && (forall n :: s.storeUp(n)) && forall i | 0 <= i < |nows| :: ZERO_TIME * NS <= nows[i]
    requires s.Mark(j.id).Some? && ZERO_TIME < s.Mark(j.id).value
    modifies s, s.q.cli
    ensures s.q.cli.Valid() && s.Serial(j.id) && |parts| == |nows|
    ensures Relay(fire, j.id, old(s.q.cli.sys), parts) && s.q.cli.sys == Run(old(s.q.cli.sys), StepsOf(parts))
    ensures Leg(fire, j.id, old(s.q.cli.sys), StepsOf(parts), s.q.cli.sys)
    ensures forall i | 0 <= i < |nows| :: parts[i] == Tick(parts[i].steps, nows[i], Unhindered(s, j.id))
  {
    parts := [];
    ghost var a := s.q.cli.sys;
    for n := 0 to |nows|
      invariant s.q.cli.Valid() && s.Serial(j.id) && |parts| == n
      invariant Relay(fire, j.id, a, parts) && s.q.cli.sys == Run(a, StepsOf(parts))
      invariant s.Mark(j.id).Some? && ZERO_TIME < s.Mark(j.id).value
      invariant AreTicks(parts, nows, Unhindered(s, j.id))
    {
      ghost var p := TickAgain(s, j, nows[n], fire, a, parts);
      OneMoreTick(parts, p, nows, Unhindered(s, j.id));
      parts := parts + [p];
    }
    RelayIsExact(fire, j.id, a, parts);
  }

  // ------------------------------------------------------------------ run_latest

  /** A tick that found one to seven fires enqueues the greatest fire due, and marks the first one ahead. */
  lemma LatestCollapses(fire: int -> bool, v: int, now: int, fires: seq<int>, future: Option<int>, k: nat,
                        up: nat -> bool, at: nat, m': Option<int>, log: seq<int>)
    requires Caught(Some(v), RunLatest, now, fire, fires, future, k, up, at, m', log) && v * NS <= now
    requires up(at) && 1 <= |fires| < MAX_CATCH_UP_FIRES
    ensures |log| == 1 && m'.Some?
    ensures v < log[0] && fire(log[0]) && log[0] * NS <= now
    ensures forall t | fire(t) && v < t && t * NS <= now :: t <= log[0]
    ensures IsNext(fire, Seconds(now), m'.value)
  {
    var last, ahead := fires[|fires| - 1], future.value;
    forall t | fire(t) && v < t && t * NS <= now ensures t <= last {
      assert !(last < t < ahead);
    }
    forall t | Seconds(now) < t < ahead ensures !fire(t) {
      assert last < t;
    }
  }

  /**
   The other side of the collapse, over a run: of the fires a `run_latest` tick found, up to eight, the
   last one is enqueued by the tick, and none of the others ever is, by it or by any later tick.
   */
  lemma LatestForGood(fire: int -> bool, j: int, a: Sys, steps: seq<Step>, b: Sys, log: seq<int>, later: seq<Step>,
                      now: int, fires: seq<int>, future: Option<int>, k: nat, up: nat -> bool, at: nat, t: int)
    requires Went(a, steps, b, j, log) && WatermarkOf(a.store, j).Some?
    requires Caught(WatermarkOf(a.store, j), RunLatest, now, fire, fires, future, k, up, at,
                    WatermarkOf(b.store, j), log)
    requires up(at) && Throughout(For(j), b, later) && t in fires
    ensures t in FiredLog(a, steps + later, j) <==> t == fires[|fires| - 1]
    ensures |fires| == MAX_CATCH_UP_FIRES ==> WatermarkOf(b.store, j) == Some(fires[7])
  {
    LatestMark(fire, WatermarkOf(a.store, j).value, now, fires, future, k, up, at, WatermarkOf(b.store, j), log);
    FiredLogSplit(a, steps, later, j);
    LogAboveWatermark(b, later, j);
    OneThenAbove(log[0], FiredLog(b, later, j), WatermarkOf(b.store, j).value, t);
  }

  lemma OneThenAbove(x: int, ys: seq<int>, m: int, t: int)
    requires (forall y | y in ys :: m < y) && t <= m
    ensures t in [x] + ys <==> t == x
  {
  }

  lemma LatestMark(fire: int -> bool, v: int, now: int, fires: seq<int>, future: Option<int>, k: nat,
                   up: nat -> bool, at: nat, m': Option<int>, log: seq<int>)
    requires Caught(Some(v), RunLatest, now, fire, fires, future, k, up, at, m', log) && up(at) && fires != []
    ensures log == [fires[|fires| - 1]] && m'.Some? && forall i | 0 <= i < |fires| :: fires[i] <= m'.value
    ensures |fires| == MAX_CATCH_UP_FIRES ==> m' == Some(fires[7])
  {
  }

  // ------------------------------------------------------------------ skip

  /**
   A `skip` tick enqueues nothing.  If its write goes through, it marks the first fire ahead when it found one to
   seven fires due, the eighth when it found eight, and leaves the mark alone when none was due.
   */
  lemma SkipMarks(fire: int -> bool, v: int, now: int, fires: seq<int>, future: Option<int>, k: nat,
                  up: nat -> bool, at: nat, m': Option<int>, log: seq<int>)
    requires Caught(Some(v), SkipMissed, now, fire, fires, future, k, up, at, m', log) && v * NS <= now && up(at)
    ensures log == [] && m'.Some?
    ensures 1 <= |fires| < 8 ==> IsNext(fire, Seconds(now), m'.value)
    ensures |fires| == 8 ==> m'.value == fires[7]
    ensures |fires| == 0 ==> m'.value == v && forall t | v < t && t * NS <= now :: !fire(t)
  {
    if 1 <= |fires| < 8 {
      forall t | Seconds(now) < t < future.value ensures !fire(t) {
        assert fires[|fires| - 1] < t;
      }
    }
  }

  /** Over a run: none of the fires a `skip` tick found is ever enqueued, by it or by any later tick. */
  lemma SkipForGood(fire: int -> bool, j: int, a: Sys, steps: seq<Step>, b: Sys, log: seq<int>, later: seq<Step>,
                    now: int, fires: seq<int>, future: Option<int>, k: nat, up: nat -> bool, at: nat, t: int)
    requires Went(a, steps, b, j, log) && WatermarkOf(a.store, j).Some?
    requires Caught(WatermarkOf(a.store, j), SkipMissed, now, fire, fires, future, k, up, at,
                    WatermarkOf(b.store, j), log)
    requires up(at) && Throughout(For(j), b, later) && t in fires
    ensures t !in FiredLog(a, steps + later, j)
  {
    FiredLogSplit(a, steps, later, j);
    assert t <= WatermarkOf(b.store, j).value;
    PassedOverForGood(b, later, j, t);
  }

  /** Whatever a tick does to a job that skips, armed or not, its write accepted or not: it enqueues nothing. */
  lemma SkipServed(s: Scheduler, v: Visit, now: int, fire: int -> bool)
    requires s.Served(v, now, fire) && v.job.policy.SkipMissed?
    ensures v.after == Run(v.before, v.steps) && FiredLog(v.before, v.steps, v.job.id) == []
  {
  }

  /** The leader's loop on a job that skips, other nodes acting before every call: no fire is ever enqueued. */
  method SkipTicks(s: Scheduler, j: Job, nows: seq<int>, ghost fire: int -> bool) returns (ghost steps: seq<Step>)
    requires s.q.cli.Valid() && s.Serial(j.id) && Finds(fire, (from: int) => s.nextAfter(j.id, from))
    requires j.policy.SkipMissed? && forall i | 0 <= i < |nows| :: ZERO_TIME * NS <= nows[i]
    modifies s, s.q.cli
    ensures s.q.cli.Valid() && s.Serial(j.id)
    ensures s.q.cli.sys == Run(old(s.q.cli.sys), steps) && FiredLog(old(s.q.cli.sys), steps, j.id) == []
  {
    steps := [];
    ghost var a := s.q.cli.sys;
    for n := 0 to |nows|
      invariant s.q.cli.Valid() && s.Serial(j.id)
      invariant s.q.cli.sys == Run(a, steps) && FiredLog(a, steps, j.id) == []
    {
      ghost var v := s.Visiting(j, nows[n], fire);
      SkipServed(s, v, nows[n], fire);
      RunSplit(a, steps, v.steps);
      FiredLogSplit(a, steps, v.steps, j.id);
      steps := steps + v.steps;
    }
  }

  /** Neither a fire that a tick passed over nor the slot a mark points at is enqueued by any later serialized tick. */
  lemma PassedOverForGood(sys: Sys, steps: seq<Step>, j: int, t: int)
    requires Inv(sys) && BehindWatermark(sys, j) && Throughout(For(j), sys, steps)
    requires WatermarkOf(sys.store, j).Some? && t <= WatermarkOf(sys.store, j).value
    ensures t !in FiredLog(sys, steps, j)
  {
    LogAboveWatermark(sys, steps, j);
  }

  /** A job with no watermark, or one that reads as the zero time, is armed by a tick, and nothing of it is enqueued. */
  lemma UnsetIsArmed(s: Scheduler, j: Job, now: int, fire: int -> bool, at: nat, m: Option<int>, m': Option<int>,
                     log: seq<int>, fires: seq<int>, future: Option<int>, k: nat)
    requires s.Ticked(j, now, fire, at, m, m', log, fires, future, k) && (m == None || m == Some(-62135596800))
    ensures log == []
    ensures s.nextAfter(j.id, Seconds(now)).Some? && s.storeUp(at) ==> m'.Some? && IsNext(fire, Seconds(now), m'.value)
    ensures s.nextAfter(j.id, Seconds(now)).None? || !s.storeUp(at) ==> m' == m
  {
  }

  /** Arming marks a fire ahead, so that very fire is never enqueued, whatever the policy. */
  lemma ArmedSlotNeverFires(fire: int -> bool, sys: Sys, steps: seq<Step>, j: int, m: Option<int>, now: int)
    requires Inv(sys) && BehindWatermark(sys, j) && Throughout(For(j), sys, steps)
    requires Armed(m, now, fire, WatermarkOf(sys.store, j), [])
    ensures exists t :: IsNext(fire, Seconds(now), t) && t !in FiredLog(sys, steps, j)
  {
    var t := WatermarkOf(sys.store, j).value;
    PassedOverForGood(sys, steps, j, t);
  }

  // ------------------------------------------------------------------ interleaved ticks

  /**
   `EnqueueFire` looks at the ticket key alone.  A leader that read an old watermark enqueues a
   fire again, and takes the watermark back, exactly when the fire's ticket is no longer pending.
   */
  lemma StaleEnqueue(sys: Sys, t: Ticket)
    requires Inv(sys) && t.sched.Fire? && StampOf(t) in sys.books
    requires WatermarkOf(sys.store, t.job).Some? && t.sched.at < WatermarkOf(sys.store, t.job).value
    ensures
      var sys' := Apply(sys, EnqueueFire(t, t.sched.at));
      !IsPending(sys, StampOf(t)) <==>
        (&& IsPending(sys', StampOf(t)) && WatermarkOf(sys'.store, t.job) == Some(t.sched.at)
         && StampOf(t) in sys'.books && sys'.books[StampOf(t)].enqueues == sys.books[StampOf(t)].enqueues + 1)
  {
    WatermarkStep(sys, EnqueueFire(t, t.sched.at), t.job);
    EnqueueFireEffect(sys.store, t, t.sched.at);
  }
}
