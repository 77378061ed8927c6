/**
 Catching up on cron schedules: the ticks of the leader, with the search for the next fire in the
 place of an arbitrary one.
 */
module CronCatchUp {
  import opened CatchUp
  import opened CatchUpTheorems
  import opened CronExpression
  import opened CronSchedule
  import opened QueueMachine
  import opened SchedulerCode
  import opened Tickets
  import opened Watermarks

  ghost function FiresOf(s: Schedule, z: Zone): int -> bool { t => IsFire(s, z, t) }

  /** The scheduler gets its answers for job `j` from the search, up to an instant `limit` has for each start. */
  ghost predicate Asks(next: (int, int) -> Option<int>, j: int, s: Schedule, z: Zone, limit: int -> int) {
    forall from :: next(j, from) == Search(s, z, First(s, from * NS), limit(from))
  }

  lemma AsksFinds(next: (int, int) -> Option<int>, j: int, s: Schedule, z: Zone, limit: int -> int)
    requires Asks(next, j, s, z, limit) && (s.hasSeconds ==> Steady(z))
    ensures Finds(FiresOf(s, z), (from: int) => next(j, from))
  {
    SearchFinds(s, z, limit);
    forall from | next(j, from).Some? ensures IsNext(FiresOf(s, z), from, next(j, from).value) {
      NextIsLeast(s, z, from * NS, limit(from));
    }
  }

  /**
   Tick after tick on a `run_all` job with schedule `sched`, other nodes at work before every call: what
   is enqueued is exactly the fires of the schedule between the two watermarks, each once, in order.
   */
  method TicksOfSchedule(s: Scheduler, j: Job, sched: Schedule, z: Zone, limit: int -> int, nows: seq<int>)
    returns (ghost parts: seq<Part>)
    requires s.q.cli.Valid() && s.Serial(j.id)
    requires Asks(s.nextAfter, j.id, sched, z, limit) && (sched.hasSeconds ==> Steady(z))
    requires j.policy.RunAll? && (forall n :: s.storeUp(n)) && forall i | 0 <= i < |nows| :: ZERO_TIME * NS <= nows[i]
    requires s.Mark(j.id).Some? && ZERO_TIME < s.Mark(j.id).value
    modifies s, s.q.cli
    ensures s.q.cli.Valid() && s.Serial(j.id) && |parts| == |nows|
    ensures Relay(FiresOf(sched, z), j.id, old(s.q.cli.sys), parts) &&
              s.q.cli.sys == Run(old(s.q.cli.sys), StepsOf(parts))
    ensures Leg(FiresOf(sched, z), j.id, old(s.q.cli.sys), StepsOf(parts), s.q.cli.sys)
    ensures forall i | 0 <= i < |nows| :: parts[i] == Tick(parts[i].steps, nows[i], Unhindered(s, j.id))
  {
    AsksFinds(s.nextAfter, j.id, sched, z, limit);
    parts := Ticks(s, j, nows, FiresOf(sched, z));
  }

  lemma {:induction false} AllComplete(parts: seq<Part>, now: int)
    requires forall i | 0 <= i < |parts| :: parts[i].Tick? && parts[i].complete && parts[i].now == now
    ensures CompleteAt(parts, now) == |parts| && NoneAfter(parts, now)
    decreases |parts|
  {
    if parts != [] { AllComplete(parts[1..], now); }
  }

  /** The scheduler's answers for job `j` are those of an accepted daily expression. */
  ghost predicate Daily(next: (int, int) -> Option<int>, j: int, expr: string, s: Schedule, z: Zone,
          limit: int -> int)
  {
    && Parses(expr, s) && EveryDay(expr) && Calendar(z) && FixedHours(z)
    && Asks(next, j, s, z, limit) && forall from :: (from + DAY) * NS < limit(from)
  }

  /** The search for a daily expression always answers: the next fire is at most a day away. */
  lemma DailyAnswers(next: (int, int) -> Option<int>, j: int, expr: string, s: Schedule, z: Zone, limit: int -> int)
    requires Daily(next, j, expr, s, z, limit)
    ensures Finds(FiresOf(s, z), (from: int) => next(j, from))
    ensures forall from :: next(j, from).Some?
  {
    FixedIsSteady(z);
    AsksFinds(next, j, s, z, limit);
    forall from ensures next(j, from).Some? {
      assert (from + DAY) * NS < limit(from);
      DailyWithin24Hours(expr, s, z, from * NS, limit(from));
    }
  }

  lemma TickedOut(s: Scheduler, fire: int -> bool, j: int, a: Sys, parts: seq<Part>, now: int, due: seq<int>)
    requires Inv(a) && BehindWatermark(a, j) && WatermarkOf(a.store, j).Some? && Relay(fire, j, a, parts)
    requires Unhindered(s, j) && forall i | 0 <= i < |parts| :: parts[i] == Tick(parts[i].steps, now, Unhindered(s, j))
    requires Fires(fire, WatermarkOf(a.store, j).value, Seconds(now), due)
    ensures BroughtIn(FiredLog(a, StepsOf(parts), j), due, |parts|)
  {
    AllComplete(parts, now);
    TicksCatchUp(fire, j, a, parts, now, due);
  }

  /** The first 8n of the fires due, or all of them. */
  ghost predicate BroughtIn(log: seq<int>, due: seq<int>, n: nat) {
    |log| <= |due| && log == due[..|log|] && (|log| == |due| || |log| >= MAX_CATCH_UP_FIRES * n)
  }

  /**
   From the text of an expression to the queue: a leader that stays on, ticking n times at `now`, has
   enqueued the first 8n fires due of an accepted daily expression, or all of them.
   */
  method DailyCatchUp(s: Scheduler, j: Job, ghost expr: string, ghost sched: Schedule, ghost z: Zone,
          ghost limit: int -> int, now: int, nows: seq<int>, ghost due: seq<int>)
    returns (ghost parts: seq<Part>)
    requires s.q.cli.Valid() && s.Serial(j.id) && Daily(s.nextAfter, j.id, expr, sched, z, limit)
    requires j.policy.RunAll? && (forall n :: s.storeUp(n)) && (forall n :: s.leaderAt(n))
    requires ZERO_TIME * NS <= now && forall i | 0 <= i < |nows| :: nows[i] == now
    requires s.Mark(j.id).Some? && ZERO_TIME < s.Mark(j.id).value
    requires Fires(FiresOf(sched, z), s.Mark(j.id).value, Seconds(now), due)
    modifies s, s.q.cli
    ensures s.q.cli.sys == Run(old(s.q.cli.sys), StepsOf(parts))
    ensures BroughtIn(FiredLog(old(s.q.cli.sys), StepsOf(parts), j.id), due, |nows|)
  {
    ghost var a, fire := s.q.cli.sys, FiresOf(sched, z);
    DailyAnswers(s.nextAfter, j.id, expr, sched, z, limit);
    parts := Ticks(s, j, nows, fire);
    TickedOut(s, fire, j.id, a, parts, now, due);
  }
}
