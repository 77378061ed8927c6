/**
 What catching up means: a gap-free, ordered, duplicate-free stretch of a job's schedule.
 The schedule is any predicate on whole seconds; `next` finds the least fire after an instant.
 */
module CatchUp {
  import opened Tickets
  import opened QueueMachine
  import opened QueueSafety
  import opened Watermarks

  /** How many fires one tick takes at most. */
  const MAX_CATCH_UP_FIRES: nat := 8

  /** `next` answers, when it answers, with the least fire strictly after its argument. */
  ghost predicate Finds(fire: int -> bool, next: int -> Option<int>) {
    forall from | next(from).Some? :: IsNext(fire, from, next(from).value)
  }

  ghost predicate IsNext(fire: int -> bool, from: int, n: int) {
    from < n && fire(n) && forall t | from < t < n :: !fire(t)
  }

  ghost predicate Increasing(ts: seq<int>) { forall i, j | 0 <= i < j < |ts| :: ts[i] < ts[j] }

  /** `ts` lists, in order and once each, exactly the fires after `from` up to `to`. */
  ghost predicate Fires(fire: int -> bool, from: int, to: int, ts: seq<int>) {
    && Increasing(ts)
    && (forall i | 0 <= i < |ts| :: from < ts[i] <= to && fire(ts[i]))
    && (forall t | from < t <= to && fire(t) :: t in ts)
  }

  /** Where a stretch that starts after `from` ends. */
  function Reach(from: int, ts: seq<int>): int { if ts == [] then from else ts[|ts| - 1] }

  lemma FiresAppend(fire: int -> bool, from: int, mid: int, to: int, a: seq<int>, b: seq<int>)
    requires Fires(fire, from, mid, a) && Fires(fire, mid, to, b) && from <= mid <= to
    ensures Fires(fire, from, to, a + b)
  {
    forall t | from < t <= to && fire(t) ensures t in a + b {
      if t <= mid { assert t in a; } else { assert t in b; }
    }
  }

  lemma FiresSnoc(fire: int -> bool, from: int, to: int, ts: seq<int>, n: int)
    requires Fires(fire, from, to, ts) && from <= to && IsNext(fire, to, n)
    ensures Fires(fire, from, n, ts + [n])
  {
    assert Fires(fire, to, n, [n]);
    FiresAppend(fire, from, to, n, ts, [n]);
  }

  lemma FiresCut(fire: int -> bool, from: int, to: int, ts: seq<int>, k: nat)
    requires Fires(fire, from, to, ts) && k <= |ts|
    ensures Fires(fire, from, Reach(from, ts[..k]), ts[..k])
    ensures from <= to ==> Fires(fire, Reach(from, ts[..k]), to, ts[k..]) && from <= Reach(from, ts[..k]) <= to
  {
    FiresBefore(fire, from, to, ts, k);
    if from <= to { FiresAfter(fire, from, to, ts, k); }
  }

  lemma FiresBefore(fire: int -> bool, from: int, to: int, ts: seq<int>, k: nat)
    requires Fires(fire, from, to, ts) && k <= |ts|
    ensures Fires(fire, from, Reach(from, ts[..k]), ts[..k])
  {
    forall t | from < t <= Reach(from, ts[..k]) && fire(t) ensures t in ts[..k] {
      var i :| 0 <= i < |ts| && ts[i] == t;
      assert i < k;
      assert ts[..k][i] == t;
    }
  }

  lemma FiresAfter(fire: int -> bool, from: int, to: int, ts: seq<int>, k: nat)
    requires Fires(fire, from, to, ts) && k <= |ts| && from <= to
    ensures Fires(fire, Reach(from, ts[..k]), to, ts[k..]) && from <= Reach(from, ts[..k]) <= to
  {
    forall t | Reach(from, ts[..k]) < t <= to && fire(t) ensures t in ts[k..] {
      var i :| 0 <= i < |ts| && ts[i] == t;
      assert i >= k;
      assert ts[k..][i - k] == t;
    }
  }

  /** A stretch is determined by its ends. */
  lemma {:induction false} FiresUnique(fire: int -> bool, from: int, to: int, a: seq<int>, b: seq<int>)
    requires Fires(fire, from, to, a) && Fires(fire, from, to, b)
    ensures a == b
    decreases |a|
  {
    if a == [] {
      assert forall t | t in b :: t in a;
    } else {
      assert a[0] in b;
      assert b[0] in a;
      var i :| 0 <= i < |b| && b[i] == a[0];
      var k :| 0 <= k < |a| && a[k] == b[0];
      assert a[0] == b[0];
      assert Fires(fire, a[0], to, a[1..]) by { RestFires(fire, from, to, a); }
      assert Fires(fire, a[0], to, b[1..]) by { RestFires(fire, from, to, b); }
      FiresUnique(fire, a[0], to, a[1..], b[1..]);
      assert a == [a[0]] + a[1..] && b == [b[0]] + b[1..];
    }
  }

  lemma RestFires(fire: int -> bool, from: int, to: int, ts: seq<int>)
    requires Fires(fire, from, to, ts) && ts != []
    ensures Fires(fire, ts[0], to, ts[1..])
  {
    forall t | ts[0] < t <= to && fire(t) ensures t in ts[1..] {
      var i :| 0 <= i < |ts| && ts[i] == t;
      assert ts[1..][i - 1] == t;
    }
  }

  // ------------------------------------------------------------------ one tick's collection

  /** The fires a tick at `now` collects after `from`, and the first one still ahead, if it got that far. */
  ghost predicate Collected(fire: int -> bool, from: int, now: int, ts: seq<int>, future: Option<int>) {
    && |ts| <= MAX_CATCH_UP_FIRES
    && Fires(fire, from, Reach(from, ts), ts)
    && (forall i | 0 <= i < |ts| :: ts[i] * NS <= now)
    && match future
       case None => |ts| == MAX_CATCH_UP_FIRES
       case Some(n) => |ts| < MAX_CATCH_UP_FIRES && n * NS > now && IsNext(fire, Reach(from, ts), n)
  }

  /** A tick collects the first eight of the fires due, or all of them when there are fewer. */
  lemma CollectsFirstEight(fire: int -> bool, from: int, now: int, ts: seq<int>, future: Option<int>, due: seq<int>)
    requires Collected(fire, from, now, ts, future) && from * NS <= now
    requires Fires(fire, from, Seconds(now), due)
    ensures |ts| == (if |due| < MAX_CATCH_UP_FIRES then |due| else MAX_CATCH_UP_FIRES) && ts == due[..|ts|]
    ensures Fires(fire, Reach(from, ts), Seconds(now), due[|ts|..]) && Reach(from, ts) * NS <= now
  {
    var top := Seconds(now);
    var m := Reach(from, ts);
    if future.Some? {
      assert Fires(fire, m, top, []);
      FiresAppend(fire, from, m, top, ts, []);
      assert ts + [] == ts;
      FiresUnique(fire, from, top, ts, due);
      assert due[|ts|..] == [];
    } else {
      if |due| < |ts| {
        PrefixOf(fire, from, m, top, ts, due);
      }
      PrefixOf(fire, from, m, top, ts, due);
      FiresCut(fire, from, top, due, |ts|);
    }
  }

  /** The stretch up to an earlier end is a prefix of the stretch up to a later one. */
  lemma PrefixOf(fire: int -> bool, from: int, mid: int, to: int, a: seq<int>, b: seq<int>)
    requires Fires(fire, from, mid, a) && Fires(fire, from, to, b) && from <= mid <= to && mid == Reach(from, a)
    ensures |a| <= |b| && a == b[..|a|]
  {
    if a != [] {
      assert a[|a| - 1] in b;
      var k :| 0 <= k < |b| && b[k] == mid;
      FiresCut(fire, from, to, b, k + 1);
      FiresUnique(fire, from, mid, a, b[..k + 1]);
    }
  }

  ghost predicate CollectsAt(fire: int -> bool, w: int, now: int, ts: seq<int>) {
    exists future :: Collected(fire, w, now, ts, future)
  }

  // ------------------------------------------------------------------ the log of enqueued fires

  /** The fires of job `j` the run enqueues, in the order of their commits. */
  function FiredLog(sys: Sys, steps: seq<Step>, j: int): seq<int>
    decreases |steps|
  {
    if steps == [] then []
    else (if Fired(sys, steps[0], j) then [steps[0].t.sched.at] else []) + FiredLog(Apply(sys, steps[0]), steps[1..], j)
  }

  predicate Fired(sys: Sys, step: Step, j: int) {
    && step.EnqueueFire? && step.t.job == j && step.t.sched.Fire?
    && !IsPending(sys, StampOf(step.t))
  }

  lemma {:induction false} FiredLogSplit(sys: Sys, a: seq<Step>, b: seq<Step>, j: int)
    ensures FiredLog(sys, a + b, j) == FiredLog(sys, a, j) + FiredLog(Run(sys, a), b, j)
    decreases |a|
  {
    if a == [] {
      assert a + b == b;
    } else {
      assert (a + b)[0] == a[0] && (a + b)[1..] == a[1..] + b;
      FiredLogSplit(Apply(sys, a[0]), a[1..], b, j);
    }
  }

  /** Nothing at or before a watermark is ever enqueued again: neither a fire passed over nor the slot it points at. */
  lemma {:induction false} LogAboveWatermark(sys: Sys, steps: seq<Step>, j: int)
    requires Inv(sys) && BehindWatermark(sys, j) && WatermarkOf(sys.store, j).Some?
    requires Throughout(For(j), sys, steps)
    ensures forall t | t in FiredLog(sys, steps, j) :: t > WatermarkOf(sys.store, j).value
    decreases |steps|
  {
    if steps != [] {
      DisciplinedStep(sys, steps[0], j);
      LogAboveWatermark(Apply(sys, steps[0]), steps[1..], j);
    }
  }

  /** Whatever the policy: no fire of the job is enqueued twice along such a run, and none out of order. */
  lemma {:induction false} LogIncreases(sys: Sys, steps: seq<Step>, j: int)
    requires Inv(sys) && BehindWatermark(sys, j) && Throughout(For(j), sys, steps)
    ensures Increasing(FiredLog(sys, steps, j))
    decreases |steps|
  {
    if steps != [] {
      var sys', rest := Apply(sys, steps[0]), steps[1..];
      DisciplinedStep(sys, steps[0], j);
      LogIncreases(sys', rest, j);
      if Fired(sys, steps[0], j) {
        LogAboveWatermark(sys', rest, j);
        Prepended(steps[0].t.sched.at, FiredLog(sys', rest, j));
      }
    }
  }

  lemma Prepended(t: int, ts: seq<int>)
    requires Increasing(ts) && forall u | u in ts :: t < u
    ensures Increasing([t] + ts)
  {
    assert forall i | 0 <= i < |ts| :: ts[i] in ts;
  }
}
