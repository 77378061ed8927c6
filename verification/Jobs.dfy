/**
 The job repository: ids come from one counter key, taken by compare-and-swap.  A step is one
 store call of one caller; a caller may act on anything read at any earlier time.
 */
module Jobs {
  import opened Etcd
  import opened Tickets
  import opened RetryDelay
  import CronExpression
  import CronReading
  import Text

  datatype Job = Job(
    id: int, name: string, command: string, cron: string, timezone: string, catchUp: string,
    timeoutSec: int, maxRetries: int, noOverlap: bool, enabled: bool)

  /** `MarkAt` is the scheduler's watermark key of the job. */
  datatype JobKey = Counter | JobAt(id: int) | MarkAt(id: int)

  datatype JobValue = Number(n: int) | Body(job: Job) | Time(at: int)

  type JobStore = Store<JobKey, JobValue>

  /** A read of the counter: its number, 0 when there is none, and its mod revision. */
  datatype Seen = Seen(cur: int, modRev: nat)

  /** `created` are the ids handed out, in order; `ever` the ids under which a job was ever written. */
  datatype Registry = Registry(store: JobStore, seen: set<Seen>, known: set<int>, created: seq<int>, ever: set<int>)

  datatype Step =
    | ReadCounter
    | Create(o: Seen, job: Job)
    | ReadJob(id: int)
    | PutJob(id: int, job: Job)    // the write of an update or a toggle, after the read of the job
    | SetMark(id: int, at: int)    // a scheduler moves the job's watermark
    | Remove(id: int)
    | WriteElsewhere

  const START: Registry := Registry(Store(0, map[], {}), {}, {}, [], {})

  function SeenNow(s: JobStore): Seen {
    if Counter in s.kv then Seen(if s.kv[Counter].value.Number? then s.kv[Counter].value.n else 0, s.kv[Counter].modRev)
    else Seen(0, 0)
  }

  function CreateTxn(o: Seen, job: Job): Txn<JobKey, JobValue> {
    var id := o.cur + 1;
    Txn([ModRevIs(Counter, o.modRev)],
        [Op.Put(Counter, Number(id), NO_LEASE), Op.Put(JobAt(id), Body(job.(id := id, enabled := true)), NO_LEASE)], [])
  }

  function PutTxn(id: int, job: Job): Txn<JobKey, JobValue> {
    Txn([], [Op.Put(JobAt(id), Body(job.(id := id)), NO_LEASE)], [])
  }

  function MarkTxn(id: int, at: int): Txn<JobKey, JobValue> { Txn([], [Op.Put(MarkAt(id), Time(at), NO_LEASE)], []) }

  /** A job goes together with its watermark. */
  function DeleteTxn(id: int): Txn<JobKey, JobValue> {
    Txn([], [Op.Delete(JobAt(id)), Op.Delete(MarkAt(id))], [])
  }

  function Apply(r: Registry, step: Step): Registry {
    match step
    case ReadCounter => r.(seen := r.seen + {SeenNow(r.store)})
    case Create(o, job) =>
      if o !in r.seen then r
      else if !Wins(r.store, CreateTxn(o, job)) then r.(store := After(r.store, CreateTxn(o, job)))
      else r.(store := After(r.store, CreateTxn(o, job)),
              created := r.created + [o.cur + 1], ever := r.ever + {o.cur + 1})
    case ReadJob(id) => if JobAt(id) in r.store.kv then r.(known := r.known + {id}) else r
    case PutJob(id, job) =>
      if id !in r.known then r else r.(store := After(r.store, PutTxn(id, job)), ever := r.ever + {id})
    case SetMark(id, at) => r.(store := After(r.store, MarkTxn(id, at)))
    case Remove(id) => r.(store := After(r.store, DeleteTxn(id)))
    case WriteElsewhere => r.(store := r.store.(rev := r.store.rev + 1))
  }

  function Run(r: Registry, steps: seq<Step>): Registry
    decreases |steps|
  {
    if steps == [] then r else Run(Apply(r, steps[0]), steps[1..])
  }

  // ------------------------------------------------------------------ what each transaction does

  lemma CreateEffect(s: JobStore, o: Seen, job: Job)
    ensures Wins(s, CreateTxn(o, job)) <==> SeenNow(s).modRev == o.modRev
    ensures After(s, CreateTxn(o, job)) ==
            if SeenNow(s).modRev != o.modRev then s
            else CreatedStore(s, o.cur + 1, job)
  {
    var txn := CreateTxn(o, job);
    Ops2(s.kv, txn.thens[0], txn.thens[1], s.rev + 1);
    assert txn.thens[0].Put?;
    assert AllHold(s, txn.cmps) <==> Etcd.Holds(s, txn.cmps[0]);
  }

  function CreatedStore(s: JobStore, id: int, job: Job): JobStore {
    var v := (if Counter in s.kv then s.kv[Counter].version else 0) + 1;
    var w := (if JobAt(id) in s.kv then s.kv[JobAt(id)].version else 0) + 1;
    s.(rev := s.rev + 1,
       kv := s.kv[Counter := Entry(Number(id), s.rev + 1, v, NO_LEASE)]
                 [JobAt(id) := Entry(Body(job.(id := id, enabled := true)), s.rev + 1, w, NO_LEASE)])
  }

  lemma PutEffect(s: JobStore, id: int, job: Job)
    ensures var t := After(s, PutTxn(id, job));
      t.rev == s.rev + 1 && t.kv.Keys == s.kv.Keys + {JobAt(id)} && t.kv[JobAt(id)].value == Body(job.(id := id))
      && forall k | k in s.kv && k != JobAt(id) :: t.kv[k] == s.kv[k]
  {
    var txn := PutTxn(id, job);
    Ops1(s.kv, txn.thens[0], s.rev + 1);
    assert txn.thens[0].Put?;
  }

  lemma MarkEffect(s: JobStore, id: int, at: int)
    ensures var t := After(s, MarkTxn(id, at));
      && t.rev == s.rev + 1 && t.kv.Keys == s.kv.Keys + {MarkAt(id)}
      && forall k | k in s.kv && k != MarkAt(id) :: t.kv[k] == s.kv[k]
  {
    var txn := MarkTxn(id, at);
    Ops1(s.kv, txn.thens[0], s.rev + 1);
    assert txn.thens[0].Put?;
  }

  lemma DeleteEffect(s: JobStore, id: int)
    ensures var t := After(s, DeleteTxn(id)); s.rev <= t.rev && t.kv == s.kv - {JobAt(id), MarkAt(id)}
  {
    var txn := DeleteTxn(id);
    Ops2(s.kv, txn.thens[0], txn.thens[1], s.rev + 1);
    if JobAt(id) in s.kv { assert txn.thens[0].key in s.kv; }
    if MarkAt(id) in s.kv { assert txn.thens[1].key in s.kv; }
    assert s.kv - {JobAt(id)} - {MarkAt(id)} == s.kv - {JobAt(id), MarkAt(id)};
  }

  // ------------------------------------------------------------------ invariant

  /** A read of the counter that is still current has the number that is there. */
  predicate SeenOk(r: Registry, o: Seen) {
    && o.modRev <= r.store.rev
    && (o.modRev == SeenNow(r.store).modRev ==> o == SeenNow(r.store))
  }

  ghost predicate Inv(r: Registry) {
    && Valid(r.store)
    && SeenNow(r.store).cur == |r.created|
    && (Counter in r.store.kv ==> r.store.kv[Counter].value.Number?)
    && (Counter !in r.store.kv ==> r.created == [])
    && (forall o | o in r.seen :: SeenOk(r, o))
    && (forall i | 0 <= i < |r.created| :: r.created[i] == i + 1)
    && (forall id :: id in r.ever <==> 1 <= id <= |r.created|)
    && r.known <= r.ever
    && (forall id | JobAt(id) in r.store.kv :: id in r.ever)
  }

  lemma CreateKeeps(r: Registry, o: Seen, job: Job)
    requires Inv(r)
    ensures Inv(Apply(r, Create(o, job)))
  {
    if o in r.seen {
      CreateEffect(r.store, o, job);
      CommitKeeps(r.store, CreateTxn(o, job));
    }
  }

  lemma WriteKeeps(r: Registry, id: int, job: Job)
    requires Inv(r)
    ensures Inv(Apply(r, PutJob(id, job))) && Inv(Apply(r, Remove(id)))
  {
    PutEffect(r.store, id, job);
    CommitKeeps(r.store, PutTxn(id, job));
    DeleteEffect(r.store, id);
    CommitKeeps(r.store, DeleteTxn(id));
  }

  lemma MarkKeeps(r: Registry, id: int, at: int)
    requires Inv(r)
    ensures Inv(Apply(r, SetMark(id, at)))
  {
    MarkEffect(r.store, id, at);
    CommitKeeps(r.store, MarkTxn(id, at));
  }

  lemma InvStep(r: Registry, step: Step)
    requires Inv(r)
    ensures Inv(Apply(r, step))
  {
    match step
    case Create(o, job) => CreateKeeps(r, o, job);
    case PutJob(id, job) => WriteKeeps(r, id, job);
    case SetMark(id, at) => MarkKeeps(r, id, at);
    case Remove(id) => WriteKeeps(r, id, Job(0, "", "", "", "", "", 0, 0, false, false));
    case _ =>
  }

  lemma {:induction false} InvRun(r: Registry, steps: seq<Step>)
    requires Inv(r)
    ensures Inv(Run(r, steps))
    decreases |steps|
  {
    if steps != [] {
      InvStep(r, steps[0]);
      InvRun(Apply(r, steps[0]), steps[1..]);
    }
  }

  lemma {:induction false} RunSplit(r: Registry, a: seq<Step>, b: seq<Step>)
    ensures Run(r, a + b) == Run(Run(r, a), b)
    decreases |a|
  {
    if a == [] {
      assert a + b == b;
    } else {
      assert (a + b)[1..] == a[1..] + b;
      RunSplit(Apply(r, a[0]), a[1..], b);
    }
  }

  // ------------------------------------------------------------------ theorems

  /** The ids handed out are 1, 2, 3 and so on, and the counter is how many there were. */
  lemma IdsAreConsecutive(steps: seq<Step>)
    ensures var r := Run(START, steps);
      && (forall i | 0 <= i < |r.created| :: r.created[i] == i + 1)
      && SeenNow(r.store).cur == |r.created|
  {
    InvRun(START, steps);
  }

  /** A create that succeeds takes an id no job was ever written under, even one deleted since. */
  lemma IdsAreNeverReused(steps: seq<Step>, o: Seen, job: Job)
    requires var r := Run(START, steps); o in r.seen && Wins(r.store, CreateTxn(o, job))
    ensures var r := Run(START, steps);
      var id := |r.created| + 1;
      var r' := Apply(r, Create(o, job));
      && r'.created == r.created + [id]
      && id !in r.ever && JobAt(id) !in r.store.kv
      && JobAt(id) in r'.store.kv && r'.store.kv[JobAt(id)].value == Body(job.(id := id, enabled := true))
      && forall k: int | k != id :: JobAt(k) in r'.store.kv <==> JobAt(k) in r.store.kv
  {
    var r := Run(START, steps);
    InvRun(START, steps);
    CreateEffect(r.store, o, job);
    assert SeenOk(r, o);
  }

  /** Only a create that succeeds changes the counter. */
  lemma CounterMoves(r: Registry, step: Step)
    requires Inv(r)
    ensures var r' := Apply(r, step);
      && r.created <= r'.created
      && (|r'.created| == |r.created| ==> SeenNow(r'.store) == SeenNow(r.store))
  {
    match step
    case Create(o, job) => CreateEffect(r.store, o, job);
    case PutJob(id, job) => PutEffect(r.store, id, job);
    case SetMark(id, at) => MarkEffect(r.store, id, at);
    case Remove(id) => DeleteEffect(r.store, id);
    case _ =>
  }

  lemma {:induction false} CounterMovesInRuns(r: Registry, steps: seq<Step>)
    requires Inv(r)
    ensures var r' := Run(r, steps);
      && r.created <= r'.created && r.seen <= r'.seen
      && (|r'.created| == |r.created| ==> SeenNow(r'.store) == SeenNow(r.store))
    decreases |steps|
  {
    if steps != [] {
      CounterMoves(r, steps[0]);
      InvStep(r, steps[0]);
      CounterMovesInRuns(Apply(r, steps[0]), steps[1..]);
    }
  }

  /** Nothing but a write by such an update or toggle brings a deleted job back. */
  lemma {:induction false} DeletedStaysGone(r: Registry, steps: seq<Step>, id: int)
    requires Inv(r) && id in r.ever && JobAt(id) !in r.store.kv
    requires forall i | 0 <= i < |steps| && steps[i].PutJob? :: steps[i].id != id
    ensures JobAt(id) !in Run(r, steps).store.kv
    decreases |steps|
  {
    if steps != [] {
      match steps[0] {
        case Create(o, job) => CreateEffect(r.store, o, job);
        case PutJob(k, job) => PutEffect(r.store, k, job);
        case SetMark(k, at) => MarkEffect(r.store, k, at);
        case Remove(k) => DeleteEffect(r.store, k);
        case _ =>
      }
      InvStep(r, steps[0]);
      DeletedStaysGone(Apply(r, steps[0]), steps[1..], id);
    }
  }

  /** The job is missing in every state of the run. */
  ghost predicate AbsentThroughout(r: Registry, steps: seq<Step>, id: int)
    decreases |steps|
  {
    JobAt(id) !in r.store.kv && (steps == [] || AbsentThroughout(Apply(r, steps[0]), steps[1..], id))
  }

  ghost predicate NeverPut(steps: seq<Step>, id: int) {
    forall i | 0 <= i < |steps| :: steps[i].PutJob? ==> steps[i].id != id
  }

  /**
   The exact condition: a deleted job is missing for the whole of a run if and only if nobody had read
   it before, or no update or toggle of it is written.  Every single such write brings it back.
   */
  lemma {:induction false} GoneForGoodIff(r: Registry, steps: seq<Step>, id: int)
    requires Inv(r) && id in r.ever && JobAt(id) !in r.store.kv
    ensures AbsentThroughout(r, steps, id) <==> id !in r.known || NeverPut(steps, id)
    decreases |steps|
  {
    if steps != [] {
      var r', rest := Apply(r, steps[0]), steps[1..];
      InvStep(r, steps[0]);
      StaysAbsentIff(r, steps[0], id);
      assert NeverPut(steps, id) <==> (steps[0].PutJob? ==> steps[0].id != id) && NeverPut(rest, id);
      if JobAt(id) !in r'.store.kv { GoneForGoodIff(r', rest, id); }
    }
  }

  lemma StaysAbsentIff(r: Registry, step: Step, id: int)
    requires Inv(r) && id in r.ever && JobAt(id) !in r.store.kv
    ensures JobAt(id) !in Apply(r, step).store.kv <==> id !in r.known || (step.PutJob? ==> step.id != id)
    ensures id in Apply(r, step).known <==> id in r.known
    ensures id in Apply(r, step).ever
  {
    match step
    case Create(o, job) => CreateEffect(r.store, o, job);
    case PutJob(k, job) => PutEffect(r.store, k, job);
    case SetMark(k, at) => MarkEffect(r.store, k, at);
    case Remove(k) => DeleteEffect(r.store, k);
    case _ =>
  }

  /** A deleted job is back when an update or toggle that read it earlier writes it. */
  lemma DeletedJobComesBack(job: Job)
    ensures exists steps, id ::
      var r := Run(START, steps + [Remove(id)]);
      JobAt(id) !in r.store.kv && id in r.ever && JobAt(id) in Apply(r, PutJob(id, job)).store.kv
  {
    var o := Seen(0, 0);
    var steps := [ReadCounter, Create(o, job), ReadJob(1)];
    var r1 := Apply(START, ReadCounter);
    var r2 := Apply(r1, Create(o, job));
    var r3 := Apply(Apply(r2, ReadJob(1)), Remove(1));
    CreateEffect(r1.store, o, job);
    ThreeSteps(START, ReadCounter, Create(o, job), ReadJob(1));
    RunSplit(START, steps, [Remove(1)]);
    OneStep(Run(START, steps), Remove(1));
    DeleteEffect(r2.store, 1);
    PutEffect(r3.store, 1, job);
  }

  lemma OneStep(r: Registry, step: Step)
    ensures Run(r, [step]) == Apply(r, step)
  {
    assert [step][1..] == [];
  }

  lemma ThreeSteps(r: Registry, x: Step, y: Step, z: Step)
    ensures Run(r, [x, y, z]) == Apply(Apply(Apply(r, x), y), z)
  {
    assert [x, y, z] == [x] + ([y] + [z]);
    RunSplit(r, [x], [y] + [z]);
    RunSplit(Apply(r, x), [y], [z]);
    OneStep(r, x);
    OneStep(Apply(r, x), y);
    OneStep(Apply(Apply(r, x), y), z);
  }

  // ------------------------------------------------------------------ validation

  const MAX_TIMEOUT: int := 86400

  /** Everything that is asked of a job but its expression. */
  predicate ValidSettings(j: Job, zones: string -> bool) {
    && Text.Trim(j.name) != ""
    && Text.Trim(j.command) != ""
    && (j.timezone == "" || zones(j.timezone))
    && j.catchUp in {"", "run_latest", "run_all", "skip"}
    && 0 <= j.timeoutSec <= MAX_TIMEOUT
    && 0 <= j.maxRetries <= MAX_RETRIES
  }

  ghost predicate ValidJob(j: Job, zones: string -> bool) {
    ValidSettings(j, zones) && CronExpression.Accepted(j.cron)
  }

  method Validate(j: Job, zones: string -> bool) returns (ok: bool)
    ensures ok <==> ValidJob(j, zones)
  {
    if Text.Trim(j.name) == "" || Text.Trim(j.command) == "" { return false; }
    var accepted := CronExpression.Validate(j.cron);
    if !accepted { return false; }
    if j.timezone != "" && !zones(j.timezone) { return false; }
    if j.catchUp !in {"", "run_latest", "run_all", "skip"} { return false; }
    if j.timeoutSec < 0 || j.timeoutSec > 86400 { return false; }
    if j.maxRetries < 0 || j.maxRetries > 10 { return false; }
    return true;
  }

  /** Of a job with valid settings, what each number by itself may be. */
  lemma BoundsOfAJob(j: Job, zones: string -> bool, n: int)
    requires ValidSettings(j, zones)
    ensures ValidSettings(j.(timeoutSec := n), zones) <==> 0 <= n <= 86400
    ensures ValidSettings(j.(maxRetries := n), zones) <==> 0 <= n <= 10
  {
  }

  /** Its name and its command may be any text that is not all white space. */
  lemma NameOfAJob(j: Job, zones: string -> bool, t: string)
    requires ValidSettings(j, zones)
    ensures ValidSettings(j.(name := t), zones) <==> !CronReading.AllBlank(t)
    ensures ValidSettings(j.(command := t), zones) <==> !CronReading.AllBlank(t)
  {
    CronReading.TrimIsEmptyIff(t);
  }

  /** Its policy may be one of three or left open, and its zone any known one or left open. */
  lemma PolicyOfAJob(j: Job, zones: string -> bool, t: string)
    requires ValidSettings(j, zones)
    ensures ValidSettings(j.(catchUp := t), zones) <==> t == "" || t == "run_latest" || t == "run_all" || t == "skip"
    ensures ValidSettings(j.(timezone := t), zones) <==> t == "" || zones(t)
  {
  }

  /** The retry bound of an accepted job keeps every backoff exact: min(2^attempt, 300) seconds. */
  lemma AcceptedJobsBackOffExactly(j: Job, zones: string -> bool, attempt: nat, now: int)
    requires ValidJob(j, zones) && attempt <= j.maxRetries
    ensures Backoff(attempt, now) == now + Delay(attempt)
  {
    BackoffExact(attempt, now);
  }

  function StoredJob(s: JobStore, id: int): Option<Job> {
    if JobAt(id) in s.kv && s.kv[JobAt(id)].value.Body? then Some(s.kv[JobAt(id)].value.job) else None
  }

  lemma {:induction false} KnownStays(r: Registry, steps: seq<Step>)
    ensures r.known <= Run(r, steps).known
    decreases |steps|
  {
    if steps != [] { KnownStays(Apply(r, steps[0]), steps[1..]); }
  }

  // ------------------------------------------------------------------ the loop

  const ATTEMPTS: nat := 8

  datatype Created = Id(id: int) | Invalid | Contention

  function NextGap(gaps: seq<seq<Step>>): seq<Step> { if gaps == [] then [] else gaps[0] }

  function LaterGaps(gaps: seq<seq<Step>>): seq<seq<Step>> { if gaps == [] then [] else gaps[1..] }

  /** What the next call of a caller acts on. */
  function Found(r: Registry, gaps: seq<seq<Step>>): Registry { Run(r, NextGap(gaps)) }

  /** One try at the next number: the counter is read after a gap, and the job written after another. */
  function TryAt(r: Registry, gaps: seq<seq<Step>>, job: Job): seq<Step> {
    (NextGap(gaps) + [ReadCounter]) + (NextGap(LaterGaps(gaps)) + [Step.Create(SeenNow(Found(r, gaps).store), job)])
  }

  /** The gaps left, and the steps made, after `n` tries. */
  function GapsAfter(gaps: seq<seq<Step>>, n: nat): seq<seq<Step>> {
    if n == 0 then gaps else LaterGaps(LaterGaps(GapsAfter(gaps, n - 1)))
  }

  function Tries(r: Registry, gaps: seq<seq<Step>>, job: Job, n: nat): seq<Step> {
    if n == 0 then [] else
      var past := Tries(r, gaps, job, n - 1);
      past + TryAt(Run(r, past), GapsAfter(gaps, n - 1), job)
  }

  lemma StepsOn(r: Registry, x: seq<Step>, y: seq<Step>, was: seq<Step>)
    ensures (was + x) + y == was + (x + y) && Run(r, x + y) == Run(Run(r, x), y)
  {
    RunSplit(r, x, y);
  }

  lemma GapThen(r: Registry, gap: seq<Step>, step: Step)
    ensures Run(r, gap + [step]) == Apply(Run(r, gap), step)
  {
    RunSplit(r, gap, [step]);
    OneStep(Run(r, gap), step);
  }

  /** Nobody else writes anything. */
  ghost predicate Alone(gaps: seq<seq<Step>>) { forall i | 0 <= i < |gaps| :: gaps[i] == [] }

  /** No job but `id` is another than it was, and no watermark. */
  ghost predicate OthersKept(s: JobStore, t: JobStore, id: int) {
    && (forall k | k != id :: StoredJob(t, k) == StoredJob(s, k))
    && (forall k :: MarkAt(k) in t.kv <==> MarkAt(k) in s.kv)
    && (forall k | MarkAt(k) in s.kv :: t.kv[MarkAt(k)] == s.kv[MarkAt(k)])
  }

  /** A create goes through if the counter is as it was read, and then writes the job under the next id and no other. */
  lemma CreateOutcome(r: Registry, o: Seen, job: Job)
    requires Inv(r) && o in r.seen
    ensures var r', id := Apply(r, Step.Create(o, job)), |r.created| + 1;
      if SeenNow(r.store).modRev == o.modRev then
        && r'.created == r.created + [id] && OthersKept(r.store, r'.store, id)
        && JobAt(id) in r'.store.kv && r'.store.kv[JobAt(id)].value == Body(job.(id := id, enabled := true))
      else r' == r
  {
    CreateEffect(r.store, o, job);
    assert SeenOk(r, o);
  }

  class Repo {
    var reg: Registry
    var gaps: seq<seq<Step>>       // what other callers do before each of our next calls
    ghost const origin: Registry
    ghost var trace: seq<Step>

    constructor (start: Registry, schedule: seq<seq<Step>>)
      requires Inv(start)
      ensures Valid() && reg == start && gaps == schedule && trace == []
    {
      reg, gaps, origin, trace := start, schedule, start, [];
    }

    ghost predicate Valid()
      reads this
    {
      reg == Run(origin, trace) && Inv(reg)
    }

    method Do(steps: seq<Step>)
      requires Valid()
      modifies this`reg, this`trace
      ensures Valid() && reg == Run(old(reg), steps) && trace == old(trace) + steps
    {
      RunSplit(origin, trace, steps);
      InvRun(reg, steps);
      reg, trace := Run(reg, steps), trace + steps;
    }

    /** The other callers take their turn. */
    method Yield()
      requires Valid()
      modifies this
      ensures reg == Found(old(reg), old(gaps)) && trace == old(trace) + NextGap(old(gaps))
      ensures Valid() && gaps == LaterGaps(old(gaps))
      ensures old(reg).created <= reg.created && old(reg).seen <= reg.seen
      ensures |reg.created| == |old(reg).created| ==> SeenNow(reg.store) == SeenNow(old(reg).store)
      ensures old(reg).known <= reg.known
    {
      if gaps != [] {
        CounterMovesInRuns(reg, gaps[0]);
        KnownStays(reg, gaps[0]);
        Do(gaps[0]);
        gaps := gaps[1..];
      }
    }

    /** One step of the caller, after the others' turn. */
    method Call(step: Step)
      requires Valid()
      modifies this`reg, this`trace
      ensures Valid() && reg == Apply(old(reg), step) && trace == old(trace) + [step]
    {
      OneStep(reg, step);
      Do([step]);
    }

    /** The counter as it stands after the others' turn. */
    method ReadNumber() returns (o: Seen)
      requires Valid()
      modifies this
      ensures Valid() && old(reg).created <= reg.created && o in reg.seen && o == SeenNow(reg.store)
      ensures gaps == LaterGaps(old(gaps)) && reg.store == Found(old(reg), old(gaps)).store
      ensures var steps := NextGap(old(gaps)) + [ReadCounter];
        trace == old(trace) + steps && reg == Run(old(reg), steps)
    {
      Yield();
      o := SeenNow(reg.store);
      Call(ReadCounter);
      GapThen(old(reg), NextGap(old(gaps)), ReadCounter);
      StepsOn(old(reg), NextGap(old(gaps)), [ReadCounter], old(trace));
    }

    /** The write that takes the number after `o`, whether it goes through or not. */
    method TakeNumber(o: Seen, job: Job) returns (ok: bool)
      requires Valid() && o in reg.seen && o == SeenNow(reg.store)
      modifies this
      ensures Valid() && old(reg).created <= reg.created
      ensures ok ==> Got(|reg.created|, job) && |reg.created| > |old(reg).created|
      ensures !ok ==> |reg.created| > |old(reg).created|
      ensures gaps == LaterGaps(old(gaps))
      ensures var steps := NextGap(old(gaps)) + [Step.Create(o, job)];
        trace == old(trace) + steps && reg == Run(old(reg), steps)
      ensures NextGap(old(gaps)) == [] ==>
                ok && |reg.created| == |old(reg).created| + 1 && OthersKept(old(reg).store, reg.store, |reg.created|)
    {
      Yield();
      ok := SeenNow(reg.store).modRev == o.modRev;
      CreateOutcome(reg, o, job);
      Call(Step.Create(o, job));
      GapThen(old(reg), NextGap(old(gaps)), Step.Create(o, job));
      StepsOn(old(reg), NextGap(old(gaps)), [Step.Create(o, job)], old(trace));
    }

    /** Reading the counter and trying to take the next number: lost only to another create. */
    method TryOnce(job: Job) returns (ok: bool)
      requires Valid()
      modifies this
      ensures Valid() && old(reg).created <= reg.created
      ensures ok ==> Got(|reg.created|, job) && |reg.created| > |old(reg).created|
      ensures !ok ==> |reg.created| > |old(reg).created|
      ensures trace == old(trace) + TryAt(old(reg), old(gaps), job) && gaps == LaterGaps(LaterGaps(old(gaps)))
      ensures reg == Run(old(reg), TryAt(old(reg), old(gaps), job))
      ensures Alone(old(gaps)) ==>
                ok && |reg.created| == |old(reg).created| + 1 && OthersKept(old(reg).store, reg.store, |reg.created|)
    {
      var o := ReadNumber();
      ok := TakeNumber(o, job);
      StepsOn(old(reg), NextGap(old(gaps)) + [ReadCounter],
        NextGap(LaterGaps(old(gaps))) + [Step.Create(o, job)], old(trace));
    }

    /** Since `reg` was `r` and the gaps were `gs`, there were `n` tries, each in vain, and so as many other creates. */
    ghost predicate Trying(r: Registry, gs: seq<seq<Step>>, job: Job, n: nat, was: seq<Step>)
      reads this
    {
      Tried(r, gs, job, n, was) && |reg.created| >= |r.created| + n
    }

    ghost predicate Tried(r: Registry, gs: seq<seq<Step>>, job: Job, n: nat, was: seq<Step>)
      reads this
    {
      && Valid() && r.created <= reg.created
      && trace == was + Tries(r, gs, job, n) && reg == Run(r, Tries(r, gs, job, n)) && gaps == GapsAfter(gs, n)
    }

    /**
     What came of `n` tries, at most eight, that are all that was done: a number, the newest one, or eight other
     creates that got through meanwhile.  Left alone, the first try gets the next number, and no other job is touched.
     */
    ghost predicate Allocated(id: Option<int>, r: Registry, gs: seq<seq<Step>>, job: Job, n: nat, was: seq<Step>)
      reads this
    {
      && Tried(r, gs, job, n, was) && 1 <= n <= 8
      && (id.Some? ==> Got(id.value, job) && id.value > |r.created|)
      && (id.None? ==> n == 8 && |reg.created| >= |r.created| + 8)
      && (Alone(gs) ==> n == 1 && id == Some(|r.created| + 1) && OthersKept(r.store, reg.store, |r.created| + 1))
    }

    method TryNext(job: Job, ghost r: Registry, ghost gs: seq<seq<Step>>, ghost n: nat, ghost was: seq<Step>)
      returns (ok: bool)
      requires Trying(r, gs, job, n, was) && n < 8
      modifies this
      ensures ok ==> Got(|reg.created|, job) && |reg.created| > |r.created|
      ensures Trying(r, gs, job, n + 1, was)
      ensures Alone(gs) && n == 0 ==>
                ok && |reg.created| == |r.created| + 1 && OthersKept(r.store, reg.store, |reg.created|)
    {
      ghost var before, hs := reg, gaps;
      ok := TryOnce(job);
      StepsOn(r, Tries(r, gs, job, n), TryAt(before, hs, job), was);
    }

    lemma NothingTried(job: Job)
      requires Valid()
      ensures Trying(reg, gaps, job, 0, trace)
    {
    }

    lemma Won(r: Registry, gs: seq<seq<Step>>, job: Job, n: nat, was: seq<Step>)
      requires Trying(r, gs, job, n, was) && 1 <= n <= 8 && Got(|reg.created|, job) && |reg.created| > |r.created|
      requires Alone(gs) ==> n == 1 && |reg.created| == |r.created| + 1 && OthersKept(r.store, reg.store, |reg.created|)
      ensures Allocated(Some(|reg.created|), r, gs, job, n, was)
    {
    }

    /** Eight tries. */
    method Allocate(job: Job) returns (r: Option<int>, ghost n: nat)
      requires Valid()
      modifies this
      ensures Allocated(r, old(reg), old(gaps), job, n, old(trace))
    {
      n, r := 0, None;
      ghost var start, gs, was := reg, gaps, trace;
      NothingTried(job);
      for attempt := 0 to ATTEMPTS
        invariant n == attempt && Trying(start, gs, job, n, was)
        invariant Alone(gs) ==> n == 0
      {
        var ok := TryNext(job, start, gs, n, was);
        n := n + 1;
        if ok {
          Won(start, gs, job, n, was);
          return Some(|reg.created|), n;
        }
      }
    }

    /**
     What a create does beside what the others do is up to eight tries at a number, and nothing else.  A job that
     does not validate changes nothing.
     */
    method Create(job: Job, zones: string -> bool) returns (r: Created, ghost n: nat)
      requires Valid()
      modifies this
      ensures Valid() && old(reg).created <= reg.created
      ensures r.Invalid? <==> !ValidJob(job, zones)
      ensures r.Invalid? ==> reg == old(reg) && trace == old(trace) && gaps == old(gaps)
      ensures r.Id? ==> Got(r.id, job) && r.id > |old(reg).created|
      ensures r.Contention? ==> |reg.created| >= |old(reg).created| + ATTEMPTS
      ensures !r.Invalid? ==>
                Allocated(if r.Id? then Some(r.id) else None, old(reg), old(gaps), job, n, old(trace))
    {
      n := 0;
      var valid := Validate(job, zones);
      if !valid { return Invalid, n; }
      var id;
      id, n := Allocate(job);
      r := if id.Some? then Id(id.value) else Contention;
    }

    /** The job as it stands in the store, after the others' turn. */
    method Get(id: int) returns (r: Option<Job>)
      requires Valid()
      modifies this
      ensures Valid() && old(reg).created <= reg.created && gaps == LaterGaps(old(gaps))
      ensures r == StoredJob(Found(old(reg), old(gaps)).store, id) && reg.store == Found(old(reg), old(gaps)).store
      ensures r.Some? ==> id in reg.known
      ensures trace == old(trace) + (NextGap(old(gaps)) + [ReadJob(id)])
    {
      Yield();
      var kv := reg.store.kv;
      r := if JobAt(id) in kv && kv[JobAt(id)].value.Body? then Some(kv[JobAt(id)].value.job) else None;
      Call(ReadJob(id));
    }

    /** The write of a job read before: it goes through whatever happened to the job since, and touches nothing else. */
    method PutBack(id: int, job: Job)
      requires Valid() && id in reg.known
      modifies this
      ensures Valid() && StoredJob(reg.store, id) == Some(job.(id := id)) && gaps == LaterGaps(old(gaps))
      ensures OthersKept(Found(old(reg), old(gaps)).store, reg.store, id)
      ensures trace == old(trace) + (NextGap(old(gaps)) + [PutJob(id, job)])
    {
      Yield();
      PutEffect(reg.store, id, job);
      Call(PutJob(id, job));
    }

    /** The job is read, only to see that there is one, and the one given is written. */
    method Replace(id: int, job: Job) returns (ok: bool)
      requires Valid()
      modifies this
      ensures Valid()
      ensures ok <==> StoredJob(Found(old(reg), old(gaps)).store, id).Some?
      ensures ok ==> StoredJob(reg.store, id) == Some(job.(id := id))
      ensures trace == old(trace) + (NextGap(old(gaps)) + [ReadJob(id)])
                       + (if ok then NextGap(LaterGaps(old(gaps))) + [PutJob(id, job)] else [])
      ensures ok && Alone(old(gaps)) ==> OthersKept(old(reg).store, reg.store, id)
      ensures !ok ==> reg.store == Found(old(reg), old(gaps)).store
    {
      var cur := Get(id);
      if cur.None? { return false; }
      PutBack(id, job);
      ok := true;
    }

    /** An accepted update of a job that is there replaces it, and that is all it does. */
    method Update(id: int, job: Job, zones: string -> bool) returns (ok: bool)
      requires Valid()
      modifies this
      ensures Valid()
      ensures !ValidJob(job, zones) ==> !ok && reg == old(reg) && trace == old(trace)
      ensures ok ==> StoredJob(reg.store, id) == Some(job.(id := id))
      ensures ValidJob(job, zones) ==> (ok <==> StoredJob(Found(old(reg), old(gaps)).store, id).Some?)
      ensures ValidJob(job, zones) ==>
                trace == old(trace) + (NextGap(old(gaps)) + [ReadJob(id)])
                         + (if ok then NextGap(LaterGaps(old(gaps))) + [PutJob(id, job)] else [])
      ensures ok && Alone(old(gaps)) ==> OthersKept(old(reg).store, reg.store, id)
      ensures ValidJob(job, zones) && !ok ==> reg.store == Found(old(reg), old(gaps)).store
    {
      var valid := Validate(job, zones);
      if !valid { return false; }
      ok := Replace(id, job);
    }

    /**
     The toggle reads the job and writes back the whole of it as read, with the flag as asked: an update in
     between is overwritten, and nothing but the flag is the toggle's own.
     */
    method SetEnabled(id: int, enabled: bool) returns (ok: bool, ghost seen: Option<Job>)
      requires Valid()
      modifies this
      ensures Valid() && (ok <==> seen.Some?)
      ensures seen == StoredJob(Found(old(reg), old(gaps)).store, id)
      ensures ok ==> StoredJob(reg.store, id) == Some(seen.value.(id := id, enabled := enabled))
      ensures trace == old(trace) + (NextGap(old(gaps)) + [ReadJob(id)])
                       + (if ok then NextGap(LaterGaps(old(gaps))) + [PutJob(id, seen.value.(enabled := enabled))]
                          else [])
      ensures ok && Alone(old(gaps)) ==> OthersKept(old(reg).store, reg.store, id)
      ensures !ok ==> reg.store == Found(old(reg), old(gaps)).store
    {
      var j := Get(id);
      seen := j;
      if j.None? { return false, seen; }
      PutBack(id, j.value.(enabled := enabled));
      ok := true;
    }

    /** One transaction takes the job and its watermark out of what the others left, and leaves every other key. */
    method Delete(id: int)
      requires Valid()
      modifies this
      ensures Valid() && trace == old(trace) + (NextGap(old(gaps)) + [Remove(id)])
      ensures var before := Found(old(reg), old(gaps));
        reg == Apply(before, Remove(id)) && reg.store.kv == before.store.kv - {JobAt(id), MarkAt(id)}
    {
      Yield();
      DeleteEffect(reg.store, id);
      Call(Remove(id));
    }

    /** The last id handed out is `id`, and the job is stored under it, enabled. */
    ghost predicate Got(id: int, job: Job)
      reads this
    {
      && |reg.created| == id > 0 && reg.created[id - 1] == id
      && JobAt(id) in reg.store.kv && reg.store.kv[JobAt(id)].value == Body(job.(id := id, enabled := true))
    }
  }
}
