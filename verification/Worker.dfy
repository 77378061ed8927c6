/**
 Worker slots.  The check for a free slot and the increment are separate critical sections with a
 claim between them; a run starts after the increment and gives its slot back once, at any time.
 What bounds the slots from above is how many callers of `tryClaim` there are; from below, that
 every decrement belongs to a run whose increment came before.
 */
module Worker {

  /**
   `passed` are the callers between their check and their increment, each with a claim under way;
   `taking` those between their increment and the start of the run; `running` the runs in progress.
   */
  datatype Pool = Pool(maxConc: nat, callers: nat, slots: int, passed: set<nat>, taking: set<nat>,
                       running: set<nat>, next: nat)

  datatype Step =
    | Check(caller: nat)                  // first critical section: is there a free slot?
    | Resolve(caller: nat, won: bool)     // the claim's answer; a ticket won takes a slot
    | Start(caller: nat)                  // the run of that ticket begins
    | Finish(id: nat)                     // a run ends and decrements, without looking

  function Apply(p: Pool, step: Step): Pool {
    match step
    case Check(c) =>
      if c < p.callers && c !in p.passed && c !in p.taking && p.slots < p.maxConc
      then p.(passed := p.passed + {c}) else p
    case Resolve(c, won) =>
      if c !in p.passed then p
      else if !won then p.(passed := p.passed - {c})
      else p.(passed := p.passed - {c}, slots := p.slots + 1, taking := p.taking + {c})
    case Start(c) =>
      if c !in p.taking then p
      else p.(taking := p.taking - {c}, running := p.running + {p.next}, next := p.next + 1)
    case Finish(id) =>
      if id !in p.running then p else p.(slots := p.slots - 1, running := p.running - {id})
  }

  function Run(p: Pool, steps: seq<Step>): Pool
    decreases |steps|
  {
    if steps == [] then p else Run(Apply(p, steps[0]), steps[1..])
  }

  function Fresh(maxConc: nat, callers: nat): Pool { Pool(maxConc, callers, 0, {}, {}, {}, 0) }

  ghost predicate Inv(p: Pool) {
    && 1 <= p.maxConc && 1 <= p.callers
    && (forall c | c in p.passed :: c < p.callers) && p.passed !! p.taking
    && (forall id | id in p.running :: id < p.next)
    && p.slots == |p.running| + |p.taking|
    && p.slots + |p.passed| <= p.maxConc + p.callers - 1
  }

  lemma {:induction false} Below(s: set<nat>, n: nat)
    requires forall c | c in s :: c < n
    ensures |s| <= n
    decreases n
  {
    if n == 0 {
      assert s == {};
    } else {
      Below(s - {n - 1}, n - 1);
      if n - 1 !in s { assert s - {n - 1} == s; }
    }
  }

  lemma CheckKeeps(p: Pool, c: nat)
    requires Inv(p)
    ensures Inv(Apply(p, Check(c)))
  {
    if c < p.callers && c !in p.passed { Below(p.passed + {c}, p.callers); }
  }

  lemma ResolveKeeps(p: Pool, c: nat, won: bool)
    requires Inv(p)
    ensures Inv(Apply(p, Resolve(c, won)))
  {
  }

  lemma StartKeeps(p: Pool, c: nat)
    requires Inv(p)
    ensures Inv(Apply(p, Start(c)))
  {
  }

  lemma FinishKeeps(p: Pool, id: nat)
    requires Inv(p)
    ensures Inv(Apply(p, Finish(id)))
  {
  }

  lemma InvStep(p: Pool, step: Step)
    requires Inv(p)
    ensures Inv(Apply(p, step))
  {
    match step
    case Check(c) => CheckKeeps(p, c);
    case Resolve(c, won) => ResolveKeeps(p, c, won);
    case Start(c) => StartKeeps(p, c);
    case Finish(id) => FinishKeeps(p, id);
  }

  /**
   With `callers` callers of `tryClaim`, no interleaving takes more than `maxConc + callers - 1` slots;
   and the slots taken are always exactly the runs in progress or about to start.
   */
  lemma {:induction false} SlotsBounded(p: Pool, steps: seq<Step>)
    requires Inv(p)
    ensures Inv(Run(p, steps))
    ensures Run(p, steps).maxConc == p.maxConc && Run(p, steps).callers == p.callers
    ensures var q := Run(p, steps);
      q.slots == |q.running| + |q.taking| && q.slots + |q.passed| <= p.maxConc + p.callers - 1
    decreases |steps|
  {
    if steps != [] {
      InvStep(p, steps[0]);
      SlotsBounded(Apply(p, steps[0]), steps[1..]);
    }
  }

  /** The worker has one caller, its polling loop: the slots never pass the limit and never go below zero. */
  lemma OneCallerKeepsTheLimit(maxConc: nat, steps: seq<Step>)
    requires maxConc >= 1
    ensures var p := Run(Fresh(maxConc, 1), steps);
      0 <= |p.running| <= p.slots == |p.running| + |p.taking| <= p.slots + |p.passed| <= maxConc
  {
    SlotsBounded(Fresh(maxConc, 1), steps);
  }

  function Checks(n: nat): (steps: seq<Step>) ensures |steps| == n {
    if n == 0 then [] else Checks(n - 1) + [Check(n - 1)]
  }

  function Wins(n: nat): (steps: seq<Step>) ensures |steps| == n {
    if n == 0 then [] else Wins(n - 1) + [Resolve(n - 1, true)]
  }

  lemma {:induction false} RunSplit(p: Pool, a: seq<Step>, b: seq<Step>)
    ensures Run(p, a + b) == Run(Run(p, a), b)
    decreases |a|
  {
    if a == [] {
      assert a + b == b;
    } else {
      assert (a + b)[1..] == a[1..] + b;
      RunSplit(Apply(p, a[0]), a[1..], b);
    }
  }

  lemma OneStep(p: Pool, step: Step)
    ensures Run(p, [step]) == Apply(p, step)
  {
    assert [step][1..] == [];
  }

  function UpTo(n: nat): set<nat> { if n == 0 then {} else UpTo(n - 1) + {n - 1} }

  lemma {:induction false} UpToBelow(n: nat, c: nat)
    ensures c in UpTo(n) <==> c < n
  {
    if n > 0 { UpToBelow(n - 1, c); }
  }

  lemma {:induction false} AllCheck(p: Pool, n: nat)
    requires n <= p.callers && p.slots < p.maxConc && p.passed == {} && p.taking == {}
    ensures Run(p, Checks(n)) == p.(passed := UpTo(n))
  {
    if n > 0 {
      AllCheck(p, n - 1);
      RunSplit(p, Checks(n - 1), [Check(n - 1)]);
      OneStep(Run(p, Checks(n - 1)), Check(n - 1));
      UpToBelow(n - 1, n - 1);
    }
  }

  lemma {:induction false} AllWin(p: Pool, n: nat)
    requires UpTo(n) <= p.passed
    ensures Run(p, Wins(n)) == p.(passed := p.passed - UpTo(n), slots := p.slots + n, taking := p.taking + UpTo(n))
  {
    if n > 0 {
      AllWin(p, n - 1);
      UpToBelow(n - 1, n - 1);
      RunSplit(p, Wins(n - 1), [Resolve(n - 1, true)]);
      OneStep(Run(p, Wins(n - 1)), Resolve(n - 1, true));
      assert p.passed - UpTo(n) == p.passed - UpTo(n - 1) - {n - 1};
    }
  }

  function Fill(n: nat): seq<Step> { if n == 0 then [] else Fill(n - 1) + [Check(0), Resolve(0, true), Start(0)] }

  lemma {:induction false} Fills(p: Pool, n: nat)
    requires p.callers >= 1 && p.slots + n <= p.maxConc && p.passed == {} && p.taking == {}
    ensures var q := Run(p, Fill(n));
      && q.maxConc == p.maxConc && q.callers == p.callers && q.slots == p.slots + n
      && q.passed == {} && q.taking == {}
  {
    if n > 0 {
      Fills(p, n - 1);
      var q := Run(p, Fill(n - 1));
      RunSplit(p, Fill(n - 1), [Check(0), Resolve(0, true), Start(0)]);
      ThreeSteps(q, Check(0), Resolve(0, true), Start(0));
      assert Apply(q, Check(0)).passed == {0} && {0} - {0} == {};
    }
  }

  lemma ThreeSteps(p: Pool, x: Step, y: Step, z: Step)
    ensures Run(p, [x, y, z]) == Apply(Apply(Apply(p, x), y), z)
  {
    assert [x, y, z][1..] == [y, z] && [y, z][1..] == [z];
    OneStep(Apply(Apply(p, x), y), z);
  }

  /** The bound is reached: all callers check while one slot is free, and then all claim. */
  lemma BoundIsReached(maxConc: nat, callers: nat)
    requires maxConc >= 1 && callers >= 1
    ensures
      Run(Fresh(maxConc, callers), Fill(maxConc - 1) + (Checks(callers) + Wins(callers))).slots == maxConc + callers - 1
  {
    Fills(Fresh(maxConc, callers), maxConc - 1);
    var p := Run(Fresh(maxConc, callers), Fill(maxConc - 1));
    RunSplit(Fresh(maxConc, callers), Fill(maxConc - 1), Checks(callers) + Wins(callers));
    AllCheck(p, callers);
    AllWin(Run(p, Checks(callers)), callers);
    RunSplit(p, Checks(callers), Wins(callers));
  }

  // ------------------------------------------------------------------ the polling loop

  lemma CheckPasses(p: Pool)
    requires Inv(p) && p.passed == {} && p.taking == {} && p.slots < p.maxConc
    ensures Apply(p, Check(0)) == p.(passed := {0}) && Inv(p.(passed := {0}))
  {
    InvStep(p, Check(0));
  }

  lemma ClaimResolves(p: Pool, won: bool)
    requires Inv(p) && p.passed == {0} && p.taking == {}
    ensures Inv(Apply(p, Resolve(0, won)))
    ensures Apply(p, Resolve(0, won)) ==
            if won then p.(passed := {}, slots := p.slots + 1, taking := {0}) else p.(passed := {})
  {
    InvStep(p, Resolve(0, won));
  }

  lemma RunStarts(p: Pool)
    requires Inv(p) && p.passed == {} && p.taking == {0} && p.callers == 1
    ensures var q := p.(taking := {}, running := p.running + {p.next}, next := p.next + 1);
      Apply(p, Start(0)) == q && Inv(q) && 0 <= q.slots == |q.running| <= p.maxConc
  {
    InvStep(p, Start(0));
  }

  /** The runs left once those in `ends` have ended. */
  function Without(runs: set<nat>, ends: seq<nat>): (left: set<nat>)
    ensures left == set id | id in runs && id !in ends
  {
    if ends == [] then runs
    else
      var n := |ends| - 1;
      assert ends == ends[..n] + [ends[n]];
      Without(runs, ends[..n]) - {ends[n]}
  }

  /** The runs that end before the caller's next critical section. */
  function EndsNext(gaps: seq<seq<nat>>): seq<nat> { if gaps == [] then [] else gaps[0] }

  class Slots {
    const maxConc: nat
    var slots: int
    var running: set<nat>              // the runs in progress
    var next: nat
    var gaps: seq<seq<nat>>            // which runs end before each of our next critical sections
    ghost var pool: Pool

    constructor (limit: int, gaps: seq<seq<nat>>)
      ensures Valid() && Idle() && slots == 0 && running == {} && this.gaps == gaps
      ensures maxConc == if limit < 1 then 1 else limit
    {
      maxConc := if limit < 1 then 1 else limit;
      this.slots, this.running, this.next, this.gaps := 0, {}, 0, gaps;
      pool := Fresh(if limit < 1 then 1 else limit, 1);
    }

    ghost predicate Valid()
      reads this
    {
      && Inv(pool) && pool.callers == 1 && pool.maxConc == maxConc
      && pool.slots == slots && pool.running == running && pool.next == next
    }

    /** The polling loop is between two calls. */
    ghost predicate Idle()
      reads this
    {
      pool.passed == {} && pool.taking == {}
    }

    /** A run ends and takes its own slot off the count. */
    method End(id: nat)
      requires Valid()
      modifies this`slots, this`running, this`pool
      ensures Valid() && pool.passed == old(pool).passed && pool.taking == old(pool).taking
      ensures running == old(running) - {id} && slots <= old(slots)
    {
      InvStep(pool, Finish(id));
      pool := Apply(pool, Finish(id));
      if id in running {
        running := running - {id};
        slots := slots - 1;
      }
    }

    method Yield()
      requires Valid()
      modifies this`slots, this`running, this`pool, this`gaps
      ensures Valid() && pool.passed == old(pool).passed && pool.taking == old(pool).taking
      ensures running == Without(old(running), EndsNext(old(gaps)))
      ensures slots <= old(slots) && running <= old(running)
    {
      if gaps == [] { return; }
      var ends := gaps[0];
      gaps := gaps[1..];
      for k := 0 to |ends|
        invariant Valid() && pool.passed == old(pool).passed && pool.taking == old(pool).taking
        invariant running == Without(old(running), ends[..k]) && slots <= old(slots)
      {
        End(ends[k]);
        assert ends[..k + 1][..k] == ends[..k];
      }
      assert ends[..|ends|] == ends;
    }

    /** The first critical section: is there a free slot? */
    method FreeSlot() returns (ok: bool)
      requires Valid() && Idle()
      modifies this`slots, this`running, this`pool, this`gaps
      ensures Valid() && (ok <==> |Without(old(running), EndsNext(old(gaps)))| < maxConc)
      ensures if ok then pool.passed == {0} && pool.taking == {} else Idle()
      ensures slots <= old(slots) && running <= old(running) && (old(slots) < maxConc ==> ok)
      ensures 0 <= slots == |running| <= maxConc
    {
      Yield();
      var busy := slots;
      var free := maxConc - busy;
      if free <= 0 { return false; }
      CheckPasses(pool);
      pool := Apply(pool, Check(0));
      return true;
    }

    /** The run of a ticket won begins. */
    method Begin()
      requires Valid() && pool.passed == {} && pool.taking == {0}
      modifies this`slots, this`running, this`pool, this`gaps, this`next
      ensures Valid() && Idle() && 0 <= slots == |running| <= maxConc && slots <= old(slots)
      ensures next == old(next) + 1 && old(next) in running
    {
      Yield();
      RunStarts(pool);
      pool := Apply(pool, Start(0));
      running, next := running + {next}, next + 1;
    }

    /**
     One call of the polling loop, `won` saying whether there was a ticket to claim: a run is started exactly if
     there was, and the call found fewer runs in progress than the limit.
     */
    method TryClaim(won: bool) returns (started: bool)
      requires Valid() && Idle()
      modifies this
      ensures Valid() && Idle() && 0 <= slots == |running| <= maxConc
      ensures started ==> won && slots <= old(slots) + 1 && next == old(next) + 1 && old(next) in running
      ensures !started ==> slots <= old(slots) && next == old(next) && running <= old(running)
      ensures won && old(slots) < maxConc ==> started
      ensures started <==> won && |Without(old(running), EndsNext(old(gaps)))| < maxConc
    {
      var free := FreeSlot();
      if !free { return false; }
      Yield();
      ClaimResolves(pool, won);
      pool := Apply(pool, Resolve(0, won));
      if !won { return false; }
      slots := slots + 1;
      Begin();
      return true;
    }
  }
}
