/**
 The queue's own code, in its own shape: methods that read the shared store and commit
 transactions, each shown to be a step of the machine, with other nodes acting in between.
 */
module QueueCode {
  import opened Etcd
  import opened Tickets
  import opened QueueMachine
  import opened QueueEffects
  import opened QueueInvariant
  import opened AtomicTickets
  import QueueOverlap

  const CLAIM_SCAN_LIMIT: nat := 64

  /**
   The byte order of the keys, as a rank: any total order on a countable set of keys is the
   order of some injective rank into the reals.
   */
  ghost predicate Ranks(rank: Stamp -> real) {
    forall a, b {:trigger rank(a), rank(b)} :: rank(a) == rank(b) ==> a == b
  }

  predicate Listed(kvs: seq<Read>, s: Stamp) { exists i | 0 <= i < |kvs| :: kvs[i].key == s }

  /** `kvs` is the first `limit` pending entries in key order. */
  ghost predicate ScanOf(kv: map<Key, QEntry>, rank: Stamp -> real, limit: nat, kvs: seq<Read>) {
    && |kvs| <= limit
    && (forall i | 0 <= i < |kvs| :: Pending(kvs[i].key) in kv && kv[Pending(kvs[i].key)] == kvs[i].entry)
    && (forall i, j | 0 <= i < j < |kvs| :: rank(kvs[i].key) < rank(kvs[j].key))
    && (forall s | Pending(s) in kv ::
          || Listed(kvs, s)
          || (|kvs| == limit && forall i | 0 <= i < |kvs| :: rank(kvs[i].key) < rank(s)))
  }

  function Observations(kvs: seq<Read>): seq<Step> {
    seq(|kvs|, i requires 0 <= i < |kvs| => Observe(kvs[i].key))
  }

  function NextGap(gaps: seq<seq<Step>>): seq<Step> { if gaps == [] then [] else gaps[0] }

  function LaterGaps(gaps: seq<seq<Step>>): seq<seq<Step>> { if gaps == [] then [] else gaps[1..] }

  ghost predicate Quiet(gaps: seq<seq<Step>>) { forall i | 0 <= i < |gaps| :: gaps[i] == [] }

  lemma PrefixOn<T>(a: seq<T>, b: seq<T>, c: seq<T>)
    requires a <= b <= c
    ensures a <= c
  {
  }

  /**
   The shared store as one node's client sees it.  `gaps` is what all other actors commit
   before each further call; every statement below holds for every value of it.
   */
  class Client {
    var sys: Sys
    var gaps: seq<seq<Step>>
    ghost const origin: Sys
    ghost var trace: seq<Step>
    const rank: Stamp -> real

    /** Whatever happened so far is a run of the machine. */
    ghost predicate Valid()
      reads this
    {
      sys == Run(origin, trace) && Inv(sys) && Ranks(rank)
    }

    constructor (rank: Stamp -> real, gaps: seq<seq<Step>>)
      requires Ranks(rank)
      ensures Valid() && sys == START && trace == [] && this.gaps == gaps
    {
      this.rank, this.gaps := rank, gaps;
      sys, origin, trace := START, START, [];
      InvStart();
    }

    /** The other actors take their turn. */
    method Yield()
      requires Valid()
      modifies this
      ensures Valid() && gaps == LaterGaps(old(gaps))
      ensures trace == old(trace) + NextGap(old(gaps)) && sys == Run(old(sys), NextGap(old(gaps)))
    {
      RunSplit(origin, trace, NextGap(gaps));
      sys, trace, gaps := Run(sys, NextGap(gaps)), trace + NextGap(gaps), LaterGaps(gaps);
      InvRun(old(sys), NextGap(old(gaps)));
    }

    /** The same, for a caller that holds reads: what was seen stays seen. */
    method YieldSeen()
      requires Valid()
      modifies this
      ensures Valid() && old(trace) <= trace && old(sys.seen) <= sys.seen
      ensures Quiet(old(gaps)) ==> Quiet(gaps) && sys == old(sys)
    {
      RunKeepsSeen(sys, NextGap(gaps));
      Yield();
    }

    method CommitTxn(txn: QTxn) returns (ok: bool, err: bool)
      modifies this`sys
      ensures sys == old(sys).(store := After(old(sys.store), txn))
      ensures ok == Wins(old(sys.store), txn)
      ensures err == Commit(old(sys.store), txn).LeaseNotFound?
    {
      match Commit(sys.store, txn) {
        case LeaseNotFound => ok, err := false, true;
        case Committed(succeeded, store) =>
          sys := sys.(store := store);
          ok, err := succeeded, false;
      }
    }

    /** The call just made was machine step `step`. */
    ghost method Traced(before: Sys, step: Step)
      requires before == Run(origin, trace) && Inv(before) && Ranks(rank)
      requires sys == Apply(before, step)
      modifies this`trace
      ensures Valid() && trace == old(trace) + [step]
    {
      RunSplit(origin, trace, [step]);
      assert [step][1..] == [];
      assert Run(before, [step]) == Run(Apply(before, step), []);
      trace := trace + [step];
      InvStep(before, step);
    }

    /** A range read over the pending prefix, in key order. */
    method Scan(limit: nat) returns (kvs: seq<Read>)
      requires Valid()
      modifies this`sys, this`trace
      ensures Valid() && ScanOf(sys.store.kv, rank, limit, kvs)
      ensures trace == old(trace) + Observations(kvs)
      ensures sys == old(sys).(seen := sys.seen) && forall i | 0 <= i < |kvs| :: kvs[i] in sys.seen
    {
      kvs := Range(sys.store.kv, rank, limit);
      ghost var before := sys;
      sys := sys.(seen := sys.seen + set o | o in kvs);
      ObservationsRun(before, kvs);
      RunSplit(origin, trace, Observations(kvs));
      trace := trace + Observations(kvs);
      InvRun(before, Observations(kvs));
    }
  }

  /** Reading a list of pending entries only adds them to what has been seen. */
  lemma {:induction false} ObservationsRun(sys: Sys, kvs: seq<Read>)
    requires forall i | 0 <= i < |kvs| :: Pending(kvs[i].key) in sys.store.kv &&
              sys.store.kv[Pending(kvs[i].key)] == kvs[i].entry
    ensures Run(sys, Observations(kvs)) == sys.(seen := sys.seen + set o | o in kvs)
    decreases |kvs|
  {
    if kvs == [] {
      assert sys.seen + (set o | o in kvs) == sys.seen;
    } else {
      var sys' := Apply(sys, Observe(kvs[0].key));
      assert sys' == sys.(seen := sys.seen + {kvs[0]});
      assert Observations(kvs)[1..] == Observations(kvs[1..]);
      ObservationsRun(sys', kvs[1..]);
      assert sys'.seen + (set o | o in kvs[1..]) == sys.seen + (set o | o in kvs);
    }
  }

  function PendingStamps(kv: map<Key, QEntry>): set<Stamp> { set k | k in kv && k.Pending? :: k.stamp }

  function KeysOf(kvs: seq<Read>): (ss: set<Stamp>)
    ensures forall s :: s in ss <==> Listed(kvs, s)
  {
    set i | 0 <= i < |kvs| :: kvs[i].key
  }

  lemma {:induction false} DistinctKeys(rank: Stamp -> real, kvs: seq<Read>)
    requires forall i, j | 0 <= i < j < |kvs| :: rank(kvs[i].key) < rank(kvs[j].key)
    ensures |KeysOf(kvs)| == |kvs|
    decreases |kvs|
  {
    if kvs != [] {
      var n := |kvs| - 1;
      DistinctKeys(rank, kvs[..n]);
      assert Listed(kvs, kvs[n].key) && !Listed(kvs[..n], kvs[n].key);
      assert KeysOf(kvs) == KeysOf(kvs[..n]) + {kvs[n].key};
    }
  }

  /** A scan takes as many of the pending tickets as its limit allows, all of them when there are no more. */
  lemma ScanTakes(kv: map<Key, QEntry>, rank: Stamp -> real, limit: nat, kvs: seq<Read>)
    requires ScanOf(kv, rank, limit, kvs)
    ensures |kvs| == if |PendingStamps(kv)| < limit then |PendingStamps(kv)| else limit
    ensures |PendingStamps(kv)| <= limit ==> forall s | Pending(s) in kv :: Listed(kvs, s)
  {
    DistinctKeys(rank, kvs);
    assert KeysOf(kvs) <= PendingStamps(kv);
    CountIn(KeysOf(kvs), PendingStamps(kv));
    if |kvs| < limit { assert KeysOf(kvs) == PendingStamps(kv); }
  }

  lemma CountIn(a: set<Stamp>, b: set<Stamp>)
    requires a <= b
    ensures |a| <= |b| && (|a| == |b| ==> a == b)
  {
    assert b == a + (b - a);
  }

  /** One poll looks at 64 tickets, or all that are pending when there are fewer. */
  lemma PollLooksAt64(kv: map<Key, QEntry>, rank: Stamp -> real, window: seq<Read>)
    requires ScanOf(kv, rank, CLAIM_SCAN_LIMIT, window)
    ensures |window| == if |PendingStamps(kv)| < 64 then |PendingStamps(kv)| else 64
    ensures |PendingStamps(kv)| <= 64 ==> forall s | Pending(s) in kv :: Listed(window, s)
  {
    ScanTakes(kv, rank, CLAIM_SCAN_LIMIT, window);
  }

  method Range(kv: map<Key, QEntry>, rank: Stamp -> real, limit: nat) returns (kvs: seq<Read>)
    requires Ranks(rank)
    ensures ScanOf(kv, rank, limit, kvs)
  {
    kvs := [];
    var left := set k | k in kv && k.Pending? :: k.stamp;
    while left != {} && |kvs| < limit
      invariant |kvs| <= limit && ScannedSoFar(kv, rank, kvs, left)
      decreases left
    {
      ghost var least := LeastExists(rank, left);
      var m :| IsLeast(rank, m, left);
      assert IsLeast(rank, m, left);
      assert m in left;
      var o := Read(m, kv[Pending(m)]);
      ScannedOneMore(kv, rank, kvs, left, o);
      kvs, left := kvs + [o], left - {m};
    }
  }

  predicate IsLeast(rank: Stamp -> real, m: Stamp, ss: set<Stamp>) {
    m in ss && forall s | s in ss :: rank(m) <= rank(s)
  }

  /** The scan took the entries of `kvs` and has the stamps in `left` still to take. */
  ghost predicate ScannedSoFar(kv: map<Key, QEntry>, rank: Stamp -> real, kvs: seq<Read>, left: set<Stamp>) {
    && (forall s | s in left :: Pending(s) in kv)
    && (forall s | Pending(s) in kv :: s in left || Listed(kvs, s))
    && (forall i | 0 <= i < |kvs| :: Pending(kvs[i].key) in kv && kv[Pending(kvs[i].key)] == kvs[i].entry)
    && (forall i, j | 0 <= i < j < |kvs| :: rank(kvs[i].key) < rank(kvs[j].key))
    && (forall i, s | 0 <= i < |kvs| && s in left :: rank(kvs[i].key) < rank(s))
  }

  lemma ListedOneMore(kvs: seq<Read>, o: Read, s: Stamp)
    ensures Listed(kvs + [o], s) <==> Listed(kvs, s) || s == o.key
  {
    var kvs' := kvs + [o];
    assert kvs'[|kvs|] == o;
    assert forall i | 0 <= i < |kvs| :: kvs'[i] == kvs[i];
  }

  lemma ScannedOneMore(kv: map<Key, QEntry>, rank: Stamp -> real, kvs: seq<Read>, left: set<Stamp>, o: Read)
    requires Ranks(rank) && ScannedSoFar(kv, rank, kvs, left) && IsLeast(rank, o.key, left)
    requires o.entry == kv[Pending(o.key)]
    ensures ScannedSoFar(kv, rank, kvs + [o], left - {o.key})
  {
    var kvs' := kvs + [o];
    assert forall i | 0 <= i < |kvs| :: kvs'[i] == kvs[i];
    forall s | Pending(s) in kv ensures s in left - {o.key} || Listed(kvs', s) { ListedOneMore(kvs, o, s); }
    forall s | s in left - {o.key} ensures rank(o.key) < rank(s) {
      assert rank(o.key) <= rank(s);
    }
  }

  lemma {:induction false} LeastExists(rank: Stamp -> real, ss: set<Stamp>) returns (m: Stamp)
    requires ss != {}
    ensures IsLeast(rank, m, ss)
    decreases |ss|
  {
    m :| m in ss;
    if ss != {m} {
      var x, rest := m, ss - {m};
      assert rest != {};
      m := LeastExists(rank, rest);
      if rank(x) < rank(m) { m := x; }
    }
  }

  /** `claimLease` answers its n-th call with `leaseAt(n)`: the claim session may change at any time. */
  class Queue {
    const cli: Client
    const nodeID: NodeId
    const leaseAt: nat -> nat
    var leaseCalls: nat

    constructor (cli: Client, nodeID: NodeId, leaseAt: nat -> nat)
      ensures this.cli == cli && this.nodeID == nodeID && this.leaseAt == leaseAt && leaseCalls == 0
    {
      this.cli, this.nodeID, this.leaseAt, leaseCalls := cli, nodeID, leaseAt, 0;
    }

    method ClaimLease() returns (l: nat)
      modifies this
      ensures l == leaseAt(old(leaseCalls)) && leaseCalls == old(leaseCalls) + 1
    {
      l := leaseAt(leaseCalls);
      leaseCalls := leaseCalls + 1;
    }

    method Enqueue(t: Ticket) returns (created: bool)
      requires cli.Valid()
      modifies cli`sys, cli`trace
      ensures cli.Valid() && cli.trace == old(cli.trace) + [Step.Enqueue(t)]
      ensures cli.sys == Apply(old(cli.sys), Step.Enqueue(t))
      ensures created <==> Pending(StampOf(t)) !in old(cli.sys.store.kv)
    {
      ghost var before := cli.sys;
      var key := Pending(StampOf(t));
      EnqueueEffect(before.store, t);
      var ok, err := cli.CommitTxn(Txn([VersionIs(key, 0)], [Put(key, VTicket(t), NO_LEASE)], []));
      created := ok;
      if ok {
        cli.sys := cli.sys.(books := NoteEnqueue(cli.sys.books, t));
      }
      cli.Traced(before, Step.Enqueue(t));
    }

    method EnqueueFire(t: Ticket, fireTime: int) returns (created: bool)
      requires cli.Valid()
      modifies cli`sys, cli`trace
      ensures cli.Valid() && cli.trace == old(cli.trace) + [Step.EnqueueFire(t, fireTime)]
      ensures cli.sys == Apply(old(cli.sys), Step.EnqueueFire(t, fireTime))
      ensures created <==> Pending(StampOf(t)) !in old(cli.sys.store.kv)
    {
      ghost var before := cli.sys;
      var key := Pending(StampOf(t));
      EnqueueFireEffect(before.store, t, fireTime);
      var ok, err := cli.CommitTxn(
        Txn([VersionIs(key, 0)],
            [Put(key, VTicket(t), NO_LEASE), Put(Watermark(t.job), VTime(fireTime), NO_LEASE)],
            []));
      created := ok;
      if ok {
        cli.sys := cli.sys.(books := NoteEnqueue(cli.sys.books, t));
      }
      cli.Traced(before, Step.EnqueueFire(t, fireTime));
    }

    method AdvanceWatermark(job: int, fireTime: int)
      requires cli.Valid()
      modifies cli`sys, cli`trace
      ensures cli.Valid() && cli.trace == old(cli.trace) + [Step.AdvanceWatermark(job, fireTime)]
      ensures cli.sys == Apply(old(cli.sys), Step.AdvanceWatermark(job, fireTime))
    {
      ghost var before := cli.sys;
      var _, _ := cli.CommitTxn(Txn([], [Put(Watermark(job), VTime(fireTime), NO_LEASE)], []));
      cli.Traced(before, Step.AdvanceWatermark(job, fireTime));
    }

    method ReadWatermark(job: int) returns (wm: Option<int>)
      requires cli.Valid()
      ensures wm == WatermarkOf(cli.sys.store, job)
    {
      wm := if Watermark(job) in cli.sys.store.kv then Some(cli.sys.store.kv[Watermark(job)].value.at) else None;
    }

    /** `t` is the ticket decoded from `o`; the claim raises its attempt whether it wins or not. */
    method Claim(o: Read, t: Ticket) returns (ok: bool, t': Ticket, err: bool, ghost step: Step)
      requires cli.Valid() && o in cli.sys.seen && o.entry.value == VTicket(t)
      modifies this, cli`sys, cli`trace
      ensures cli.Valid() && cli.trace == old(cli.trace) + [step] && cli.sys == Apply(old(cli.sys), step)
      ensures t' == t.(attempt := t.attempt + 1)
      ensures step.Claim? && step.node == nodeID && step.o == o
      ensures step.lease == leaseAt(old(leaseCalls)) &&
                (t.noOverlap ==> step.overlapLease == leaseAt(old(leaseCalls) + 1))
      ensures leaseCalls == old(leaseCalls) + (if t.noOverlap then 2 else 1)
      ensures ok <==> CanClaim(old(cli.sys.store), o.key, o.entry.modRev, t', step.lease, step.overlapLease)
      ensures err ==> !ok
      ensures err <==> Refused(old(cli.sys.store), step)
      ensures err ==>
                || !LiveOrNone(cli.sys.store, step.lease)
                || (t.noOverlap && !LiveOrNone(cli.sys.store, step.overlapLease))
    {
      ghost var before := cli.sys;
      var claimK := Claimed(o.key);
      t' := t.(attempt := t.attempt + 1);
      var cmps := [VersionIs(claimK, 0), ModRevIs(Pending(o.key), o.entry.modRev)];
      var lease := ClaimLease();
      var thens := [Put(claimK, VNode(nodeID), lease), Put(Pending(o.key), VTicket(t'), NO_LEASE)];
      var overlapLease := lease;
      if t'.noOverlap {
        cmps := cmps + [VersionIs(Overlap(t'.job), 0)];
        overlapLease := ClaimLease();
        thens := thens + [Put(Overlap(t'.job), VNode(nodeID), overlapLease)];
      }
      step := Step.Claim(nodeID, o, lease, overlapLease);
      ClaimTxnBuilt(nodeID, o, t', lease, overlapLease, cmps, thens);
      ClaimEffect(before.store, nodeID, o.key, o.entry.modRev, t', lease, overlapLease);
      ok, err := cli.CommitTxn(Txn(cmps, thens, []));
      if err {
        ClaimErr(before.store, nodeID, o.key, o.entry.modRev, t', lease, overlapLease);
      }
      if ok {
        cli.sys := cli.sys.(execs := cli.sys.execs[cli.sys.nextExec := Exec(nodeID, t')],
                            nextExec := cli.sys.nextExec + 1,
                            books := NoteClaim(cli.sys.books, o.key));
      }
      cli.Traced(before, step);
    }

    method OverlapHeld(job: int) returns (held: bool)
      ensures held <==> Overlap(job) in cli.sys.store.kv
    {
      held := Overlap(job) in cli.sys.store.kv;
    }

    /** `t` is the ticket of `o` as the failed claim left it: its attempt is already raised. */
    method SkipStale(o: Read, t: Ticket)
      requires cli.Valid() && o in cli.sys.seen && o.entry.value.VTicket? && t == Bumped(o) && t.noOverlap
      modifies cli`sys, cli`trace
      ensures cli.Valid() && cli.trace == old(cli.trace) + [Step.Skip(nodeID, o)]
      ensures cli.sys == Apply(old(cli.sys), Step.Skip(nodeID, o))
    {
      ghost var before := cli.sys;
      var res := Result(t.job, t.sched, t.attempt, nodeID, Skipped, 0);
      var _, _ := cli.CommitTxn(
        Txn([ModRevIs(Pending(o.key), o.entry.modRev)],
            [Delete(Pending(o.key)), Put(ResultAt(StampOf(t), t.attempt), VResult(res), NO_LEASE)],
            []));
      cli.Traced(before, Step.Skip(nodeID, o));
    }

    method SkipAfterYield(o: Read, t: Ticket)
      requires cli.Valid() && o in cli.sys.seen && o.entry.value.VTicket? && t == Bumped(o) && t.noOverlap
      modifies cli
      ensures cli.Valid() && old(cli.trace) <= cli.trace && old(cli.sys.seen) <= cli.sys.seen
      ensures Quiet(old(cli.gaps)) ==>
                Quiet(cli.gaps) && cli.sys.store == After(old(cli.sys.store), SkipTxn(nodeID, o.key, o.entry.modRev, t))
    {
      cli.YieldSeen();
      ghost var yielded := cli.trace;
      SkipStale(o, t);
      PrefixOn(old(cli.trace), yielded, cli.trace);
    }

    /** After a lost claim of a no-overlap ticket: skip it if its job's lock is held. */
    method SkipIfHeld(o: Read, t: Ticket)
      requires cli.Valid() && o in cli.sys.seen && o.entry.value.VTicket? && t == Bumped(o) && t.noOverlap
      modifies cli
      ensures cli.Valid() && old(cli.trace) <= cli.trace && old(cli.sys.seen) <= cli.sys.seen
      ensures Quiet(old(cli.gaps)) ==> Quiet(cli.gaps) && cli.sys.store == AfterTurn(old(cli.sys.store), nodeID, o)
    {
      cli.YieldSeen();
      ghost var yielded := cli.trace;
      var held := OverlapHeld(t.job);
      if held {
        SkipAfterYield(o, t);
        PrefixOn(old(cli.trace), yielded, cli.trace);
      }
    }

    /** A claim, with other nodes acting before it. */
    method ClaimAfterYield(o: Read) returns (ok: bool, t: Ticket, err: bool, ghost before: Sys, ghost won: Step)
      requires cli.Valid() && o in cli.sys.seen && o.entry.value.VTicket?
      modifies this, cli
      ensures cli.Valid() && cli.sys.seen >= old(cli.sys.seen) && t == Bumped(o)
      ensures old(cli.trace) < cli.trace && Ends(cli.trace, won) && before == Run(cli.origin, Earlier(cli.trace))
      ensures if ok then !err && WonBy(before, won, nodeID, o, cli.sys) else cli.sys.store == before.store
      ensures Quiet(old(cli.gaps)) ==> Quiet(cli.gaps) && before == old(cli.sys)
      ensures Healthy(before.store, leaseAt) ==> !err && (ok <==> Claimable(before.store, o, t))
      ensures won.Claim? && won.o == o && (err <==> Refused(before.store, won))
    {
      cli.YieldSeen();
      before := cli.sys;
      ghost var soFar := cli.trace;
      ok, t, err, won := ClaimNow(o);
      EndsWith(soFar, won);
    }

    /** The claim by itself: a win takes the ticket, anything else changes nothing. */
    method ClaimNow(o: Read) returns (ok: bool, t: Ticket, err: bool, ghost won: Step)
      requires cli.Valid() && o in cli.sys.seen && o.entry.value.VTicket?
      modifies this, cli`sys, cli`trace
      ensures cli.Valid() && cli.trace == old(cli.trace) + [won] && cli.sys.seen == old(cli.sys.seen) && t == Bumped(o)
      ensures if ok then !err && WonBy(old(cli.sys), won, nodeID, o, cli.sys) else cli.sys.store == old(cli.sys.store)
      ensures Healthy(old(cli.sys.store), leaseAt) ==> !err && (ok <==> Claimable(old(cli.sys.store), o, t))
      ensures won.Claim? && won.o == o && (err <==> Refused(old(cli.sys.store), won))
    {
      ghost var before, k := cli.sys, leaseCalls;
      ok, t, err, won := Claim(o, o.entry.value.ticket);
      ClaimOutcome(before, won, ok);
      if Healthy(before.store, leaseAt) { ClaimWhenHealthy(before.store, leaseAt, k, o, t, won); }
    }

    /** One turn of the scan loop on a ticket whose retry time has come. */
    method TryTicket(o: Read) returns (ok: bool, t: Ticket, err: bool, ghost before: Sys, ghost won: Step)
      requires cli.Valid() && o in cli.sys.seen && o.entry.value.VTicket?
      modifies this, cli
      ensures cli.Valid() && old(cli.trace) <= cli.trace && old(cli.sys.seen) <= cli.sys.seen && t == Bumped(o)
      ensures won.Claim? && won.o == o && (err <==> Refused(before.store, won))
      ensures ok ==> !err && WonBy(before, won, nodeID, o, cli.sys)
      ensures ok ==> Ends(cli.trace, won) && before == Run(cli.origin, Earlier(cli.trace))
      ensures Quiet(old(cli.gaps)) ==> Quiet(cli.gaps) && before == old(cli.sys)
      ensures Quiet(old(cli.gaps)) && Healthy(old(cli.sys.store), leaseAt) ==>
                !err && (ok <==> Claimable(old(cli.sys.store), o, t))
                && (!ok ==> cli.sys.store == AfterTurn(old(cli.sys.store), nodeID, o))
    {
      ok, t, err, before, won := ClaimAfterYield(o);
      if !ok && !err && t.noOverlap {
        SkipIfHeld(o, t);
      }
    }

    /**
     The worker's poll.  Under any interference a returned ticket was queued, due and unclaimed
     in the very state the winning transaction found.  Left alone, the poll claims exactly the
     first takeable ticket of its window, and removes exactly the blocked tickets before it.
     */
    method ClaimNext(now: int)
      returns (claimed: Option<Ticket>, err: bool, ghost window: seq<Read>, ghost before: Sys, ghost won: Step,
               ghost tries: seq<Option<Try>>)
      requires cli.Valid()
      modifies this, cli
      ensures cli.Valid() && old(cli.trace) <= cli.trace
      ensures claimed.Some? ==> Claims(cli.origin, cli.trace, before, won, nodeID, cli.sys, claimed.value, now)
      ensures claimed.Some? && claimed.value.notBefore.Some? ==> claimed.value.notBefore.value * 1_000_000_000 <= now
      ensures StopsRight(window, tries, now, claimed, err, before, won)
      ensures Quiet(old(cli.gaps)) && Healthy(old(cli.sys.store), leaseAt) ==>
                && !err && ScanOf(old(cli.sys.store.kv), cli.rank, CLAIM_SCAN_LIMIT, window)
                && (claimed.None? ==> PassedOver(old(cli.sys.store), cli.sys.store, window, |window|, now))
                && (claimed.Some? ==>
                      exists n :: TakesAt(old(cli.sys.store), before.store, cli.sys.store, window, n, now, won))
                && (claimed.Some? <==> AnyFree(old(cli.sys.store), window, now))
    {
      ghost var st0, quiet := cli.sys.store, Quiet(cli.gaps) && Healthy(cli.sys.store, leaseAt);
      cli.YieldSeen();
      var kvs := cli.Scan(CLAIM_SCAN_LIMIT);
      window := kvs;
      ScanDistinct(cli.sys.store.kv, cli.rank, CLAIM_SCAN_LIMIT, kvs);
      ScanDecoded(cli.sys, kvs);
      if quiet { NothingPassedYet(st0, kvs, now); }
      claimed, err, before, won, tries := TakeTurns(kvs, now, st0, quiet);
    }

    /** The scan loop: the tickets of the window in turn, until one is claimed or a claim is answered with an error. */
    method TakeTurns(kvs: seq<Read>, now: int, ghost st0: QStore, ghost quiet: bool)
      returns (claimed: Option<Ticket>, err: bool, ghost before: Sys, ghost won: Step, ghost tries: seq<Option<Try>>)
      requires cli.Valid() && (set o | o in kvs) <= cli.sys.seen && Decoded(kvs) && Distinct(kvs)
      requires quiet ==> Quiet(cli.gaps) && Healthy(st0, leaseAt) && PassedOver(st0, cli.sys.store, kvs, 0, now)
      modifies this, cli
      ensures cli.Valid() && old(cli.trace) <= cli.trace
      ensures claimed.Some? ==> Claims(cli.origin, cli.trace, before, won, nodeID, cli.sys, claimed.value, now)
      ensures StopsRight(kvs, tries, now, claimed, err, before, won)
      ensures quiet ==> !err && (claimed.Some? <==> AnyFree(st0, kvs, now))
      ensures quiet && claimed.None? ==> PassedOver(st0, cli.sys.store, kvs, |kvs|, now)
      ensures quiet && claimed.Some? ==> exists n :: TakesAt(st0, before.store, cli.sys.store, kvs, n, now, won)
    {
      before, won, tries := cli.sys, Lose(0), [];
      claimed, err := None, false;
      var n := 0;
      while n < |kvs|
        invariant 0 <= n <= |kvs| && claimed.None? && !err && Turns(kvs, tries, n, now)
        invariant cli.Valid() && old(cli.trace) <= cli.trace && (set o | o in kvs) <= cli.sys.seen
        invariant quiet ==> Quiet(cli.gaps) && PassedOver(st0, cli.sys.store, kvs, n, now)
      {
        claimed, err, before, won := Turn(kvs, n, now, st0, quiet);
        if claimed.Some? || err {
          if quiet { SomeFree(st0, before.store, cli.sys.store, kvs, n, now, won); }
          return;
        }
        tries := TurnsOn(kvs, tries, n, now, before, won);
        n := n + 1;
      }
      if quiet { NoneFree(st0, cli.sys.store, kvs, now); }
    }

    /** One turn of the scan loop. */
    method Turn(kvs: seq<Read>, n: nat, now: int, ghost st0: QStore, ghost quiet: bool)
      returns (claimed: Option<Ticket>, err: bool, ghost before: Sys, ghost won: Step)
      requires cli.Valid() && n < |kvs| && (set o | o in kvs) <= cli.sys.seen && Decoded(kvs) && Distinct(kvs)
      requires quiet ==> Quiet(cli.gaps) && Healthy(st0, leaseAt) && PassedOver(st0, cli.sys.store, kvs, n, now)
      modifies this, cli
      ensures cli.Valid() && old(cli.trace) <= cli.trace && (set o | o in kvs) <= cli.sys.seen
      ensures claimed.Some? ==> Claims(cli.origin, cli.trace, before, won, nodeID, cli.sys, claimed.value, now)
      ensures if Ready(kvs[n].entry.value.ticket, now) then Tried(before, won, kvs[n], err) else !err && claimed.None?
      ensures err ==> claimed.None?
      ensures quiet ==> !err && Quiet(cli.gaps)
      ensures quiet && claimed.None? ==> PassedOver(st0, cli.sys.store, kvs, n + 1, now)
      ensures quiet && claimed.Some? ==> TakesAt(st0, before.store, cli.sys.store, kvs, n, now, won)
    {
      var o := kvs[n];
      assert o in (set x | x in kvs);
      ghost var st := cli.sys.store;
      if Ready(o.entry.value.ticket, now) {
        if quiet { HealthKept(st0, st, leaseAt); }
        claimed, err, before, won := ReadyTurn(o, now);
        if quiet { TurnOutcome(st0, st, cli.sys.store, nodeID, kvs, n, now, claimed.Some?, won); }
      } else {
        claimed, err, before, won := None, false, cli.sys, Lose(0);
        if quiet { NotReadyPasses(st0, st, kvs, n, now); }
      }
    }

    /** The turn of a ticket whose retry time has come. */
    method ReadyTurn(o: Read, now: int)
      returns (claimed: Option<Ticket>, err: bool, ghost before: Sys, ghost won: Step)
      requires cli.Valid() && o in cli.sys.seen && o.entry.value.VTicket? && Ready(o.entry.value.ticket, now)
      modifies this, cli
      ensures cli.Valid() && old(cli.trace) <= cli.trace && old(cli.sys.seen) <= cli.sys.seen
      ensures claimed.Some? ==> !err && Claims(cli.origin, cli.trace, before, won, nodeID, cli.sys, claimed.value, now)
      ensures Tried(before, won, o, err)
      ensures Quiet(old(cli.gaps)) && Healthy(old(cli.sys.store), leaseAt) ==>
                !err && Quiet(cli.gaps) && before == old(cli.sys)
                && (claimed.Some? <==> Claimable(old(cli.sys.store), o, Bumped(o)))
                && cli.sys.store == AfterTry(old(cli.sys.store), nodeID, o, claimed.Some?, won)
    {
      var ok, t;
      ok, t, err, before, won := TryTicket(o);
      claimed := if ok then Some(t) else None;
    }

    /** `id` names the finished run; the worker's record of it is `res`. */
    method FinishSuccess(id: nat, t: Ticket, res: Result)
      requires cli.Valid() && id in cli.sys.execs && cli.sys.execs[id] == Exec(nodeID, t)
      requires res == RunResult(Exec(nodeID, t), Success, res.exitCode)
      modifies cli`sys, cli`trace
      ensures cli.Valid() && cli.trace == old(cli.trace) + [Step.FinishSuccess(id, res.exitCode)]
      ensures cli.sys == Apply(old(cli.sys), Step.FinishSuccess(id, res.exitCode))
    {
      ghost var before := cli.sys;
      var s := StampOf(t);
      var pub := Put(ResultAt(s, t.attempt), VResult(res), NO_LEASE);
      var thens := [Delete(Pending(s)), Delete(Claimed(s)), pub];
      thens := thens + OverlapRelease(t);
      var ok, err := cli.CommitTxn(Txn([ValueIs(Claimed(s), VNode(nodeID))], thens, [pub]));
      cli.sys := cli.sys.(execs := cli.sys.execs - {id});
      if ok {
        cli.sys := cli.sys.(books := NoteFinal(cli.sys.books, s));
      }
      cli.Traced(before, Step.FinishSuccess(id, res.exitCode));
    }

    /** A result without a status counts as failed. */
    method FinishFailure(id: nat, t: Ticket, res: Result, now: int)
      requires cli.Valid() && id in cli.sys.execs && cli.sys.execs[id] == Exec(nodeID, t)
      requires res.status in {Blank, Failed, Timeout} && res == RunResult(Exec(nodeID, t), res.status, res.exitCode)
      modifies cli`sys, cli`trace
      ensures cli.Valid() &&
                cli.trace == old(cli.trace) + [Step.FinishFailure(id, res.status == Timeout, res.exitCode, now)]
      ensures cli.sys == Apply(old(cli.sys), Step.FinishFailure(id, res.status == Timeout, res.exitCode, now))
      ensures OwnedBy(old(cli.sys.store.kv), StampOf(t), nodeID) ==>
                (Pending(StampOf(t)) in cli.sys.store.kv <==> t.attempt <= t.maxRetries)
      ensures Published(cli.sys.store.kv, t, res, if t.attempt > t.maxRetries then FailedPermanent
                                                  else if res.status == Timeout then Timeout else Failed)
    {
      ghost var before := cli.sys;
      ghost var step := Step.FinishFailure(id, res.status == Timeout, res.exitCode, now);
      var s := StampOf(t);
      var giveUp := t.attempt > t.maxRetries;
      var status := res.status;
      if status == Blank { status := Failed; }
      if giveUp { status := FailedPermanent; }
      var pub := Put(ResultAt(s, t.attempt), VResult(res.(status := status)), NO_LEASE);
      var thens: seq<Op<Key, Value>>;
      if giveUp {
        thens := [Delete(Pending(s)), Delete(Claimed(s)), pub];
      } else {
        var t' := t.(notBefore := Some(Seconds(Backoff(t.attempt, now))));
        thens := [Put(Pending(s), VTicket(t'), NO_LEASE), Delete(Claimed(s)), pub];
      }
      thens := thens + OverlapRelease(t);
      ghost var filled := RunResult(Exec(nodeID, t), Fault(res.status == Timeout), res.exitCode);
      FailureOutcome(before.store, nodeID, t, filled, now);
      assert res.(status := status) == FailureResult(t, filled);
      assert Txn([ValueIs(Claimed(s), VNode(nodeID))], thens, [pub]) == FinishFailureTxn(nodeID, t, filled, now);
      var ok, err := cli.CommitTxn(Txn([ValueIs(Claimed(s), VNode(nodeID))], thens, [pub]));
      cli.sys := cli.sys.(execs := cli.sys.execs - {id});
      if ok {
        cli.sys := cli.sys.(books := if giveUp then NoteFinal(cli.sys.books, s) else NoteRequeue(cli.sys.books, s));
      }
      cli.Traced(before, step);
    }

    method Abandon(t: Ticket)
      requires cli.Valid() && exists o | o in cli.sys.seen :: o.entry.value == VTicket(t)
      modifies cli`sys, cli`trace
      ensures cli.Valid() && cli.trace == old(cli.trace) + [Step.Abandon(nodeID, t)]
      ensures cli.sys == Apply(old(cli.sys), Step.Abandon(nodeID, t))
    {
      ghost var before := cli.sys;
      var s := StampOf(t);
      var res := Result(t.job, t.sched, t.attempt, nodeID, Abandoned, 0);
      var _, _ := cli.CommitTxn(
        Txn([VersionIs(Claimed(s), 0)], [Delete(Pending(s)), Put(ResultAt(s, t.attempt), VResult(res), NO_LEASE)], []));
      cli.Traced(before, Step.Abandon(nodeID, t));
    }
  }

  /** The claim is answered with an error: what it compares holds, and one of its leases is gone. */
  predicate Refused(s: QStore, claim: Step)
    requires claim.Claim? && claim.o.entry.value.VTicket?
  {
    Commit(s, ClaimTxnOf(claim.node, claim.o, claim.lease, claim.overlapLease)).LeaseNotFound?
  }

  /** In state `before` there was a claim of that very entry, and it was refused exactly if `err`. */
  predicate Tried(before: Sys, won: Step, o: Read, err: bool) {
    won.Claim? && won.o == o && o.entry.value.VTicket? && (err <==> Refused(before.store, won))
  }

  /** A claim that was made, and the state it was made in. */
  datatype Try = Try(before: Sys, claim: Step)

  /** Of the first `n` tickets of the window exactly the ready ones were tried, and no try ended in an error. */
  ghost predicate Turns(window: seq<Read>, tries: seq<Option<Try>>, n: nat, now: int) {
    && |tries| == n <= |window|
    && forall i | 0 <= i < n ::
      && window[i].entry.value.VTicket?
      && (tries[i].Some? <==> Ready(window[i].entry.value.ticket, now))
      && (tries[i].Some? ==> Tried(tries[i].value.before, tries[i].value.claim, window[i], false))
  }

  lemma TurnsOn(window: seq<Read>, tries: seq<Option<Try>>, n: nat, now: int, before: Sys, won: Step)
    returns (more: seq<Option<Try>>)
    requires Turns(window, tries, n, now) && n < |window| && window[n].entry.value.VTicket?
    requires Ready(window[n].entry.value.ticket, now) ==> Tried(before, won, window[n], false)
    ensures Turns(window, more, n + 1, now)
  {
    more := tries + [if Ready(window[n].entry.value.ticket, now) then Some(Try(before, won)) else None];
  }

  /**
   The loop goes on past tickets that are not ready or not won, and ends in one of three ways: all turns were taken,
   a claim was won, or one was answered with an error.
   */
  ghost predicate StopsRight(window: seq<Read>, tries: seq<Option<Try>>, now: int, claimed: Option<Ticket>, err: bool,
          before: Sys, won: Step)
  {
    && Turns(window, tries, |tries|, now)
    && (claimed.None? && !err ==> |tries| == |window|)
    && (claimed.Some? ==> !err && |tries| < |window| && Tried(before, won, window[|tries|], false))
    && (err ==> |tries| < |window| && Tried(before, won, window[|tries|], true))
  }

  /** The result of the run stands in the store, with that status. */
  predicate Published(kv: map<Key, QEntry>, t: Ticket, res: Result, status: Status) {
    var r := ResultAt(StampOf(t), t.attempt);
    r in kv && kv[r].value == VResult(res.(status := status))
  }

  ghost predicate Ends(trace: seq<Step>, step: Step) { trace != [] && trace[|trace| - 1] == step }

  function Earlier(trace: seq<Step>): seq<Step>
    requires trace != []
  {
    trace[..|trace| - 1]
  }

  lemma EndsWith(soFar: seq<Step>, step: Step)
    ensures Ends(soFar + [step], step) && Earlier(soFar + [step]) == soFar && soFar < soFar + [step]
  {
  }

  lemma ClaimOutcome(before: Sys, won: Step, ok: bool)
    requires Inv(before) && won.Claim? && CanUse(before, won.o)
    requires ok <==> CanClaim(before.store, won.o.key, won.o.entry.modRev, Bumped(won.o), won.lease, won.overlapLease)
    ensures Apply(before, won).seen == before.seen
    ensures if ok then WonBy(before, won, won.node, won.o, Apply(before, won)) else Apply(before, won) == before
  {
    if ok { ClaimIsTake(before, won); } else { LostClaimChangesNothing(before, won); }
  }

  /** With live leases nothing but the ticket itself stands in the way of a claim. */
  lemma ClaimWhenHealthy(s: QStore, leaseAt: nat -> nat, k: nat, o: Read, t: Ticket, step: Step)
    requires Healthy(s, leaseAt) && step.Claim? && step.lease == leaseAt(k)
    requires t.noOverlap ==> step.overlapLease == leaseAt(k + 1)
    ensures LiveOrNone(s, step.lease) && (t.noOverlap ==> LiveOrNone(s, step.overlapLease))
    ensures CanClaim(s, o.key, o.entry.modRev, t, step.lease, step.overlapLease) <==> Claimable(s, o, t)
  {
  }

  lemma ClaimIsTake(before: Sys, step: Step)
    requires Inv(before) && step.Claim? && CanUse(before, step.o)
    requires CanClaim(before.store, step.o.key, step.o.entry.modRev, Bumped(step.o), step.lease, step.overlapLease)
    ensures WonBy(before, step, step.node, step.o, Apply(before, step))
  {
  }

  lemma LostClaimChangesNothing(before: Sys, step: Step)
    requires Inv(before) && step.Claim? && CanUse(before, step.o)
    requires !CanClaim(before.store, step.o.key, step.o.entry.modRev, Bumped(step.o), step.lease, step.overlapLease)
    ensures Apply(before, step) == before
  {
    ClaimEffect(before.store, step.node, step.o.key, step.o.entry.modRev, Bumped(step.o), step.lease,
      step.overlapLease);
  }

  /** The step was a claim by `node` that turned the ticket, as it then stood in the store, from queued to running. */
  ghost predicate WonBy(before: Sys, won: Step, node: NodeId, o: Read, after: Sys) {
    && Inv(before) && after == Apply(before, won)
    && won.Claim? && won.node == node && won.o == o && CanUse(before, o)
    && PhaseOf(before, o.key) == Queued(o.entry.value.ticket)
    && Label(before, won, o.key) == Take(node, won.lease)
  }

  ghost predicate Healthy(s: QStore, leaseAt: nat -> nat) { forall n: nat :: LiveOrNone(s, leaseAt(n)) }

  /** Nobody holds the ticket, the read is current, and its lock, if it needs one, is free. */
  predicate Claimable(s: QStore, o: Read, t: Ticket) {
    && Claimed(o.key) !in s.kv
    && Pending(o.key) in s.kv && s.kv[Pending(o.key)].modRev == o.entry.modRev
    && (t.noOverlap ==> Overlap(t.job) !in s.kv)
  }

  /** What an undisturbed turn leaves when it does not claim. */
  function AfterTurn(s: QStore, node: NodeId, o: Read): QStore
    requires o.entry.value.VTicket?
  {
    if Bumped(o).noOverlap && Overlap(Bumped(o).job) in s.kv
    then After(s, SkipTxn(node, o.key, o.entry.modRev, Bumped(o))) else s
  }

  /** What an undisturbed turn leaves, whether it claims or not. */
  function AfterTry(s: QStore, node: NodeId, o: Read, ok: bool, won: Step): QStore
    requires o.entry.value.VTicket? && won.Claim?
  {
    if ok then After(s, ClaimTxnOf(won.node, o, won.lease, won.overlapLease)) else AfterTurn(s, node, o)
  }

  lemma {:induction false} RunKeepsSeen(sys: Sys, steps: seq<Step>)
    ensures sys.seen <= Run(sys, steps).seen
    decreases |steps|
  {
    if steps != [] {
      RunKeepsSeen(Apply(sys, steps[0]), steps[1..]);
    }
  }

  /** The lists the claim builds piece by piece are those of the claim transaction. */
  lemma ClaimTxnBuilt(n: NodeId, o: Read, t: Ticket, l: nat, ol: nat,
          cmps: seq<Cmp<Key, Value>>, thens: seq<Op<Key, Value>>)
    requires o.entry.value.VTicket? && t == Bumped(o)
    requires cmps == [VersionIs(Claimed(o.key), 0), ModRevIs(Pending(o.key), o.entry.modRev)]
                     + (if t.noOverlap then [VersionIs(Overlap(t.job), 0)] else [])
    requires thens == [Put(Claimed(o.key), VNode(n), l), Put(Pending(o.key), VTicket(t), NO_LEASE)]
                      + (if t.noOverlap then [Put(Overlap(t.job), VNode(n), ol)] else [])
    ensures Txn(cmps, thens, []) == ClaimTxnOf(n, o, l, ol)
  {
  }

  /** A claim is answered with an error only when one of its leases is gone. */
  lemma ClaimErr(s: QStore, n: NodeId, k: Stamp, rev: nat, t: Ticket, l: nat, ol: nat)
    requires Commit(s, ClaimTxn(n, k, rev, t, l, ol)).LeaseNotFound?
    ensures !LiveOrNone(s, l) || (t.noOverlap && !LiveOrNone(s, ol))
  {
  }

  // ------------------------------------------------------------------ an undisturbed poll

  ghost predicate Decoded(kvs: seq<Read>) {
    forall i | 0 <= i < |kvs| :: kvs[i].entry.value.VTicket? && StampOf(kvs[i].entry.value.ticket) == kvs[i].key
                                 && 0 < kvs[i].entry.modRev
  }

  /** Due, unclaimed, and its job's lock, if it needs it, free. */
  predicate Takeable(s: QStore, o: Read, now: int)
    requires o.entry.value.VTicket?
  {
    && Ready(o.entry.value.ticket, now)
    && Claimed(o.key) !in s.kv
    && (o.entry.value.ticket.noOverlap ==> Overlap(o.key.job) !in s.kv)
  }

  /**
   Some ticket of the window has no retry time or one that is not after `now` (seconds against nanoseconds), nobody
   holds it, and its job's lock, if it needs one, is free.
   */
  ghost predicate AnyFree(s: QStore, window: seq<Read>, now: int) {
    exists i | 0 <= i < |window| ::
      && window[i].entry.value.VTicket? && Claimed(window[i].key) !in s.kv
      && var t := window[i].entry.value.ticket;
        && (t.notBefore.Some? ==> t.notBefore.value * 1_000_000_000 <= now)
        && (t.noOverlap ==> Overlap(window[i].key.job) !in s.kv)
  }

  lemma NoneFree(st0: QStore, st: QStore, kvs: seq<Read>, now: int)
    requires PassedOver(st0, st, kvs, |kvs|, now)
    ensures !AnyFree(st0, kvs, now)
  {
    assert forall j | 0 <= j < |kvs| :: !Takeable(st0, kvs[j], now);
  }

  lemma SomeFree(st0: QStore, mid: QStore, st: QStore, kvs: seq<Read>, n: nat, now: int, won: Step)
    requires TakesAt(st0, mid, st, kvs, n, now, won)
    ensures AnyFree(st0, kvs, now)
  {
  }

  /** Due, but its job's lock is held: the poll removes it. */
  predicate Blocked(s: QStore, o: Read, now: int)
    requires o.entry.value.VTicket?
  {
    Ready(o.entry.value.ticket, now) && o.entry.value.ticket.noOverlap && Overlap(o.key.job) in s.kv
  }

  /** The first `n` tickets of the window were passed over: nothing taken, the blocked ones removed. */
  ghost predicate PassedOver(st0: QStore, st: QStore, kvs: seq<Read>, n: nat, now: int) {
    && n <= |kvs| && Decoded(kvs) && Valid(st)
    && st.leases == st0.leases
    && QueueOverlap.SameLocks(st0.kv, st.kv)
    && (forall j | 0 <= j < n :: !Takeable(st0, kvs[j], now))
    && (forall j | n <= j < |kvs| :: Pending(kvs[j].key) in st.kv && st.kv[Pending(kvs[j].key)] == kvs[j].entry)
    && (forall j | 0 <= j < n && Blocked(st0, kvs[j], now) :: Pending(kvs[j].key) !in st.kv)
    && (forall s | Pending(s) in st.kv :: Pending(s) in st0.kv && st.kv[Pending(s)] == st0.kv[Pending(s)])
    && (forall s | Pending(s) in st0.kv && Pending(s) !in st.kv ::
          exists j | 0 <= j < n :: kvs[j].key == s && Blocked(st0, kvs[j], now))
  }

  /** After passing over `n` tickets the poll found `mid`, and claimed the next one in it. */
  ghost predicate TakesAt(st0: QStore, mid: QStore, st: QStore, kvs: seq<Read>, n: int, now: int, won: Step) {
    && 0 <= n < |kvs|
    && PassedOver(st0, mid, kvs, n, now)
    && Takeable(st0, kvs[n], now)
    && won.Claim? && won.o == kvs[n]
    && st == After(mid, ClaimTxnOf(won.node, kvs[n], won.lease, won.overlapLease))
  }

  /** The last step of the trace was a claim that won a ticket which was queued and due. */
  ghost predicate Claims(origin: Sys, trace: seq<Step>, before: Sys, won: Step, node: NodeId, after: Sys, t: Ticket,
          now: int)
  {
    && won.Claim? && WonBy(before, won, node, won.o, after)
    && t == Bumped(won.o) && Ready(won.o.entry.value.ticket, now)
    && Ends(trace, won) && before == Run(origin, Earlier(trace))
  }

  ghost predicate Distinct(kvs: seq<Read>) { forall i, j | 0 <= i < j < |kvs| :: kvs[i].key != kvs[j].key }

  lemma ScanDistinct(kv: map<Key, QEntry>, rank: Stamp -> real, limit: nat, kvs: seq<Read>)
    requires ScanOf(kv, rank, limit, kvs)
    ensures Distinct(kvs)
  {
  }

  lemma ScanDecoded(sys: Sys, kvs: seq<Read>)
    requires SeenOk(sys) && forall i | 0 <= i < |kvs| :: kvs[i] in sys.seen
    ensures Decoded(kvs)
  {
  }

  lemma NothingPassedYet(st0: QStore, kvs: seq<Read>, now: int)
    requires Valid(st0) && Decoded(kvs)
    requires forall j | 0 <= j < |kvs| :: Pending(kvs[j].key) in st0.kv && st0.kv[Pending(kvs[j].key)] == kvs[j].entry
    ensures PassedOver(st0, st0, kvs, 0, now)
  {
  }

  /** Nothing was passed over yet that could change how leases or locks stand. */
  lemma HealthKept(st0: QStore, st: QStore, leaseAt: nat -> nat)
    requires Healthy(st0, leaseAt) && st.leases == st0.leases
    ensures Healthy(st, leaseAt)
  {
  }

  lemma TurnLooksTheSame(st0: QStore, st: QStore, kvs: seq<Read>, n: nat, now: int)
    requires n < |kvs| && PassedOver(st0, st, kvs, n, now) && Ready(kvs[n].entry.value.ticket, now)
    ensures Claimable(st, kvs[n], Bumped(kvs[n])) <==> Takeable(st0, kvs[n], now)
  {
  }

  lemma NotReadyPasses(st0: QStore, st: QStore, kvs: seq<Read>, n: nat, now: int)
    requires n < |kvs| && PassedOver(st0, st, kvs, n, now) && !Ready(kvs[n].entry.value.ticket, now)
    ensures PassedOver(st0, st, kvs, n + 1, now)
  {
    forall s | Pending(s) in st0.kv && Pending(s) !in st.kv
      ensures exists j | 0 <= j < n + 1 :: kvs[j].key == s && Blocked(st0, kvs[j], now)
    {
      var j :| 0 <= j < n && kvs[j].key == s && Blocked(st0, kvs[j], now);
    }
  }

  lemma TurnPasses(st0: QStore, st: QStore, node: NodeId, kvs: seq<Read>, n: nat, now: int)
    requires n < |kvs| && PassedOver(st0, st, kvs, n, now) && Ready(kvs[n].entry.value.ticket, now)
    requires !Takeable(st0, kvs[n], now) && Distinct(kvs)
    ensures PassedOver(st0, AfterTurn(st, node, kvs[n]), kvs, n + 1, now)
  {
    var o := kvs[n];
    if Blocked(st0, o, now) {
      var t := Bumped(o);
      SkipEffect(st, node, o.key, o.entry.modRev, t);
      CommitKeeps(st, SkipTxn(node, o.key, o.entry.modRev, t));
      BlockedPasses(st0, st, AfterTurn(st, node, o), ResultAt(StampOf(t), t.attempt), kvs, n, now);
    } else {
      forall s | Pending(s) in st0.kv && Pending(s) !in st.kv
        ensures exists j | 0 <= j < n + 1 :: kvs[j].key == s && Blocked(st0, kvs[j], now)
      {
        var j :| 0 <= j < n && kvs[j].key == s && Blocked(st0, kvs[j], now);
      }
    }
  }

  /** An undisturbed turn, by what it did: it took the ticket, or passed over it. */
  lemma TurnOutcome(st0: QStore, st: QStore, st': QStore, node: NodeId, kvs: seq<Read>, n: nat, now: int, ok: bool,
          won: Step)
    requires n < |kvs| && PassedOver(st0, st, kvs, n, now) && Ready(kvs[n].entry.value.ticket, now) && Distinct(kvs)
    requires (ok <==> Claimable(st, kvs[n], Bumped(kvs[n]))) && won.Claim? && won.o == kvs[n]
    requires st' == AfterTry(st, node, kvs[n], ok, won)
    ensures if ok then TakesAt(st0, st, st', kvs, n, now, won) else PassedOver(st0, st', kvs, n + 1, now)
  {
    TurnLooksTheSame(st0, st, kvs, n, now);
    if !ok { TurnPasses(st0, st, node, kvs, n, now); }
  }

  lemma BlockedPasses(st0: QStore, st: QStore, st': QStore, r: Key, kvs: seq<Read>, n: nat, now: int)
    requires n < |kvs| && PassedOver(st0, st, kvs, n, now) && Blocked(st0, kvs[n], now) && Distinct(kvs)
    requires r.ResultAt? && r in st'.kv && Valid(st') && st'.leases == st.leases
    requires st'.kv == (st.kv - {Pending(kvs[n].key)})[r := st'.kv[r]]
    ensures PassedOver(st0, st', kvs, n + 1, now)
  {
    forall s | Pending(s) in st0.kv && Pending(s) !in st'.kv
      ensures exists j | 0 <= j < n + 1 :: kvs[j].key == s && Blocked(st0, kvs[j], now)
    {
      if Pending(s) in st.kv {
        assert kvs[n].key == s;
      } else {
        var j :| 0 <= j < n && kvs[j].key == s && Blocked(st0, kvs[j], now);
      }
    }
  }
}
