/**
 Leader election over one lease-backed key.  A step is one store call, one local move of a
 node's loop, or one event at a lease; any node may be interrupted between any two of them.
 */
module Election {
  import opened Etcd
  import opened Tickets

  datatype LeaderKey = LeaderKey

  type LStore = Store<LeaderKey, NodeId>

  /** What a watch on the leader key reports. */
  datatype Event = PutEvent(rev: nat, node: NodeId) | DeleteEvent(rev: nat)

  /** The lease behind a session, and whether the client has noticed that it is over. */
  datatype Session = NoSession | Session(lease: nat, done: bool)

  /** Where a node's loop stands. */
  datatype Pc =
    | Start
    | Ready                             // session in hand, member registered
    | Won                               // campaign committed, not yet announced
    | Leading
    | Beaten                            // campaign lost, leader key not yet read
    | Told(rev: nat)                    // leader key read at revision `rev`
    | Following(from: nat, pos: nat)    // watch from `from`; events before `pos` handled
    | Ending                            // about to drop the session
    | Stopped

  /** `leader` is whom the node takes for the leader. */
  datatype NodeState = NodeState(pc: Pc, session: Session, isLeader: bool, leader: Option<NodeId>)

  datatype Cluster = Cluster(store: LStore, log: seq<Event>, nextLease: nat, nodes: map<NodeId, NodeState>)

  datatype Step =
    | OpenSession(n: NodeId)                       // ensureSession: a new lease when there is none
    | Campaign(n: NodeId)
    | CampaignErr(n: NodeId, committed: bool)      // the answer is lost; the write may have happened
    | Announce(n: NodeId)
    | ReadLeader(n: NodeId)
    | StartWatch(n: NodeId)
    | Deliver(n: NodeId)
    | WatchClosed(n: NodeId)
    | SessionOver(n: NodeId)                       // the client notices its session is over
    | Give(n: NodeId)                              // a wait on the session ends, or a call fails
    | Drop(n: NodeId, revoked: bool)               // dropSession: the revoke may not get through
    | LeaseEnds(lease: nat)
    | WriteElsewhere                               // some other key changes: the revision goes up
    | Halt(n: NodeId)

  function Initial(ids: set<NodeId>): Cluster {
    Cluster(Store(0, map[], {}), [], 1, map n | n in ids :: NodeState(Start, NoSession, false, None))
  }

  /** What the watchers of the leader key are sent for one change of the store. */
  function Notify(s: LStore, t: LStore): seq<Event> {
    if LeaderKey in t.kv && (LeaderKey !in s.kv || s.kv[LeaderKey].modRev != t.kv[LeaderKey].modRev)
    then [PutEvent(t.rev, t.kv[LeaderKey].value)]
    else if LeaderKey in s.kv && LeaderKey !in t.kv then [DeleteEvent(t.rev)]
    else []
  }

  function Move(c: Cluster, s: LStore): Cluster { c.(store := s, log := c.log + Notify(c.store, s)) }

  function Put(c: Cluster, n: NodeId, st: NodeState): Cluster { c.(nodes := c.nodes[n := st]) }

  function CampaignTxn(n: NodeId, lease: nat): Txn<LeaderKey, NodeId> {
    Txn([VersionIs(LeaderKey, 0)], [Op.Put(LeaderKey, n, lease)], [])
  }

  /** The first event the watch still has to deliver. */
  function NextEvent(log: seq<Event>, from: nat, pos: nat): (i: nat)
    requires pos <= |log|
    ensures pos <= i <= |log| && (i < |log| ==> log[i].rev >= from)
    ensures forall k | pos <= k < i :: log[k].rev < from
    decreases |log| - pos
  {
    if pos == |log| || log[pos].rev >= from then pos else NextEvent(log, from, pos + 1)
  }

  /** Whom the leader key names. */
  function Holder(s: LStore): Option<NodeId> {
    if LeaderKey in s.kv then Some(s.kv[LeaderKey].value) else None
  }

  /** What a handled event leaves a follower believing. */
  function Reported(e: Event): Option<NodeId> { if e.PutEvent? then Some(e.node) else None }

  function LeaseOf(st: NodeState): nat { if st.session.Session? then st.session.lease else NO_LEASE }

  function DoCampaign(c: Cluster, n: NodeId, st: NodeState): Cluster {
    var txn := CampaignTxn(n, LeaseOf(st));
    match Commit(c.store, txn)
    case LeaseNotFound => Put(c, n, st.(pc := Ending))
    case Committed(ok, s) => Put(Move(c, s), n, st.(pc := if ok then Won else Beaten))
  }

  function DoDeliver(c: Cluster, n: NodeId, st: NodeState): Cluster
    requires st.pc.Following?
  {
    if st.pc.pos > |c.log| then c
    else
      var i := NextEvent(c.log, st.pc.from, st.pc.pos);
      if i == |c.log| then c
      else Put(c, n, st.(pc := if c.log[i].DeleteEvent? then Start else Following(st.pc.from, i + 1),
                         leader := Reported(c.log[i])))
  }

  /** One step of node `n`; a step the node's loop does not stand at changes nothing. */
  function DoNode(c: Cluster, step: Step, n: NodeId, st: NodeState): Cluster {
    match step
    case OpenSession(_) =>
      if !st.pc.Start? then c
      else if st.session.Session? then Put(c, n, st.(pc := Ready))
      else Put(c.(store := Grant(c.store, c.nextLease), nextLease := c.nextLease + 1), n,
               st.(pc := Ready, session := Session(c.nextLease, false)))
    case Campaign(_) => if st.pc.Ready? then DoCampaign(c, n, st) else c
    case CampaignErr(_, committed) =>
      if !st.pc.Ready? then c
      else Put(if committed then Move(c, After(c.store, CampaignTxn(n, LeaseOf(st)))) else c, n, st.(pc := Ending))
    case Announce(_) => if st.pc.Won? then Put(c, n, st.(pc := Leading, isLeader := true, leader := Some(n))) else c
    case ReadLeader(_) =>
      if !st.pc.Beaten? then c
      else if LeaderKey !in c.store.kv then Put(c, n, st.(pc := Start))
      else Put(c, n, st.(pc := Told(c.store.rev), leader := Holder(c.store)))
    case StartWatch(_) => if st.pc.Told? then Put(c, n, st.(pc := Following(st.pc.rev + 1, 0))) else c
    case Deliver(_) => if st.pc.Following? then DoDeliver(c, n, st) else c
    case WatchClosed(_) => if st.pc.Following? then Put(c, n, st.(pc := Start)) else c
    case SessionOver(_) => if st.session.Session? then Put(c, n, st.(session := st.session.(done := true))) else c
    case Give(_) =>
      if (st.pc.Leading? || st.pc.Following?) && st.session.Session? && !st.session.done then c
      else if st.pc.Leading? || st.pc.Following? || st.pc.Ready? || st.pc.Beaten?
      then Put(c, n, st.(pc := Ending, isLeader := false, leader := if st.pc.Leading? then None else st.leader)) else c
    case Drop(_, revoked) =>
      if !st.pc.Ending? then c
      else Put(if revoked then Move(c, Expire(c.store, LeaseOf(st))) else c, n, st.(pc := Start, session := NoSession))
    case Halt(_) => Put(c, n, st.(pc := Stopped, isLeader := false))
    case _ => c
  }

  function Apply(c: Cluster, step: Step): Cluster {
    if step.LeaseEnds? then Move(c, Expire(c.store, step.lease))
    else if step.WriteElsewhere? then Move(c, c.store.(rev := c.store.rev + 1))
    else if step.n !in c.nodes then c
    else DoNode(c, step, step.n, c.nodes[step.n])
  }

  function Run(c: Cluster, steps: seq<Step>): Cluster
    decreases |steps|
  {
    if steps == [] then c else Run(Apply(c, steps[0]), steps[1..])
  }

  // ------------------------------------------------------------------ invariant

  predicate Alive(c: Cluster, l: nat) { l in c.store.leases }

  /** The leader key is held by `n` under lease `l`. */
  predicate Holds(c: Cluster, n: NodeId, l: nat) {
    LeaderKey in c.store.kv && c.store.kv[LeaderKey].value == n && c.store.kv[LeaderKey].lease == l
  }

  /** What a follower will believe once its watch has delivered everything it still has to. */
  function Replay(believed: Option<NodeId>, log: seq<Event>, from: nat, pos: nat): Option<NodeId>
    decreases |log|
  {
    if |log| <= pos then believed
    else if log[|log| - 1].rev >= from then Reported(log[|log| - 1])
    else Replay(believed, log[..|log| - 1], from, pos)
  }

  /** Some event past `from`, not yet handled, reports that the key went away. */
  ghost predicate DeletePending(log: seq<Event>, from: nat, pos: nat) {
    exists i | pos <= i < |log| :: log[i].DeleteEvent? && log[i].rev >= from
  }

  lemma {:induction false} DeleteIsPending(believed: NodeId, log: seq<Event>, from: nat, pos: nat)
    requires Replay(Some(believed), log, from, pos).None?
    ensures DeletePending(log, from, pos)
    decreases |log|
  {
    var k := |log| - 1;
    if log[k].rev < from {
      DeleteIsPending(believed, log[..k], from, pos);
      var i :| pos <= i < k && log[..k][i].DeleteEvent? && log[..k][i].rev >= from;
      assert log[i] == log[..k][i];
    }
  }

  /** Handling the next event moves the belief forward and leaves the outcome of the replay alone. */
  lemma {:induction false} HandledReplays(believed: Option<NodeId>, log: seq<Event>, from: nat, pos: nat, i: nat)
    requires pos <= i < |log| && log[i].rev >= from
    ensures Replay(Reported(log[i]), log, from, i + 1) == Replay(believed, log, from, pos)
    decreases |log|
  {
    var k := |log| - 1;
    if i < k && log[k].rev < from {
      assert log[..k][i] == log[i];
      HandledReplays(believed, log[..k], from, pos, i);
    }
  }

  ghost predicate NodeOk(c: Cluster, n: NodeId, st: NodeState) {
    && (st.session.Session? ==> NO_LEASE < st.session.lease < c.nextLease)
    && (st.pc in {Ready, Won, Leading} ==> st.session.Session?)
    && (st.isLeader ==> st.pc.Leading?)
    && (st.pc.Won? || st.pc.Leading? ==> (Alive(c, st.session.lease) ==> Holds(c, n, st.session.lease)))
    && (st.pc.Told? ==>
          st.pc.rev <= c.store.rev && Watches(c, st.leader, st.pc.rev + 1, 0))
    && (st.pc.Following? ==>
          st.pc.from <= c.store.rev + 1 && st.pc.pos <= |c.log| && Watches(c, st.leader, st.pc.from, st.pc.pos))
    && (st.pc.Leading? ==> st.leader == Some(n))
  }

  /** The node believes in someone, and what its watch has yet to tell brings it to the present holder. */
  ghost predicate Watches(c: Cluster, believed: Option<NodeId>, from: nat, pos: nat) {
    believed.Some? && Replay(believed, c.log, from, pos) == Holder(c.store)
  }

  ghost predicate StoreOk(c: Cluster) {
    && Valid(c.store)
    && (forall l | l in c.store.leases :: l < c.nextLease)
    && 0 < c.nextLease
    && (LeaderKey in c.store.kv ==> c.store.kv[LeaderKey].lease != NO_LEASE)
    && (forall i | 0 <= i < |c.log| :: c.log[i].rev <= c.store.rev)
  }

  ghost predicate Inv(c: Cluster) {
    StoreOk(c) && forall n | n in c.nodes :: NodeOk(c, n, c.nodes[n])
  }

  lemma CampaignEffect(s: LStore, n: NodeId, l: nat)
    requires Valid(s) && l != NO_LEASE
    ensures var s' := After(s, CampaignTxn(n, l));
      if LeaderKey in s.kv || l !in s.leases then s' == s
      else s' == s.(rev := s.rev + 1, kv := s.kv[LeaderKey := Entry(n, s.rev + 1, 1, l)])
    ensures Commit(s, CampaignTxn(n, l)).LeaseNotFound? <==> LeaderKey !in s.kv && l !in s.leases
    ensures Commit(s, CampaignTxn(n, l)).Committed? ==>
              Commit(s, CampaignTxn(n, l)) == Committed(LeaderKey !in s.kv, After(s, CampaignTxn(n, l)))
  {
    var txn := CampaignTxn(n, l);
    Ops1(s.kv, txn.thens[0], s.rev + 1);
    assert Etcd.Holds(s, txn.cmps[0]) <==> LeaderKey !in s.kv;
    assert txn.thens[0].Put?;
  }

  /** A change of the store that another step may make: the key stays, goes away, or is taken while free. */
  ghost predicate Allowed(s: LStore, t: LStore) {
    && Valid(t) && s.rev <= t.rev && t.leases <= s.leases
    && (LeaderKey in s.kv && LeaderKey in t.kv ==> t.kv[LeaderKey] == s.kv[LeaderKey])
    && (LeaderKey in s.kv && LeaderKey !in t.kv ==> s.rev < t.rev && s.kv[LeaderKey].lease !in t.leases)
    && (LeaderKey !in s.kv && LeaderKey in t.kv ==> s.rev < t.rev && t.kv[LeaderKey].lease != NO_LEASE)
  }

  lemma WatchKept(c: Cluster, t: LStore, believed: Option<NodeId>, from: nat, pos: nat)
    requires Allowed(c.store, t) && from <= c.store.rev + 1 && pos <= |c.log|
    requires Watches(c, believed, from, pos)
    ensures Watches(Move(c, t), believed, from, pos)
  {
    var log := Move(c, t).log;
    if log != c.log {
      assert log[|log| - 1].rev == t.rev;
    }
  }

  /** The node that wins the campaign is the only one whose part of the invariant may need the new key. */
  lemma MoveKeeps(c: Cluster, t: LStore, n: NodeId, st: NodeState)
    requires StoreOk(c) && NodeOk(c, n, st) && Allowed(c.store, t)
    ensures NodeOk(Move(c, t), n, st)
  {
    match st.pc
    case Told(rev) => WatchKept(c, t, st.leader, rev + 1, 0);
    case Following(from, pos) => WatchKept(c, t, st.leader, from, pos);
    case _ =>
  }

  lemma StoreMoves(c: Cluster, t: LStore)
    requires StoreOk(c) && Allowed(c.store, t)
    ensures StoreOk(Move(c, t))
  {
    var c' := Move(c, t);
    forall i | 0 <= i < |c'.log| ensures c'.log[i].rev <= t.rev {
      if i < |c.log| { assert c'.log[i] == c.log[i]; }
    }
  }

  lemma CampaignAllowed(c: Cluster, n: NodeId, l: nat)
    requires StoreOk(c) && l != NO_LEASE
    ensures Allowed(c.store, After(c.store, CampaignTxn(n, l)))
  {
    CampaignEffect(c.store, n, l);
    CommitKeeps(c.store, CampaignTxn(n, l));
  }

  lemma ExpiryAllowed(c: Cluster, l: nat)
    requires StoreOk(c)
    ensures Allowed(c.store, Expire(c.store, l))
  {
    LeaseStepKeeps(c.store, l);
  }

  /** After any change of the store, one node moves: the rest of the invariant is kept. */
  lemma MovedThenPut(c: Cluster, t: LStore, n: NodeId, st: NodeState)
    requires Inv(c) && Allowed(c.store, t) && NodeOk(Move(c, t), n, st)
    ensures Inv(Put(Move(c, t), n, st)) && Inv(Move(c, t))
  {
    var c' := Move(c, t);
    StoreMoves(c, t);
    forall m | m in c.nodes ensures NodeOk(c', m, c.nodes[m]) { MoveKeeps(c, t, m, c.nodes[m]); }
    PutKeeps(c', n, st);
  }

  lemma PutKeeps(c: Cluster, n: NodeId, st: NodeState)
    requires Inv(c) && NodeOk(c, n, st)
    ensures Inv(Put(c, n, st))
  {
    var c' := Put(c, n, st);
    forall m | m in c'.nodes ensures NodeOk(c', m, c'.nodes[m]) {
      assert NodeOk(c, m, c'.nodes[m]);
    }
  }

  lemma OpenKeeps(c: Cluster, n: NodeId)
    requires Inv(c) && n in c.nodes && c.nodes[n].pc.Start?
    ensures Inv(DoNode(c, OpenSession(n), n, c.nodes[n]))
  {
    var st := c.nodes[n];
    assert NodeOk(c, n, st);
    if st.session.Session? {
      PutKeeps(c, n, st.(pc := Ready));
    } else {
      var c1 := c.(store := Grant(c.store, c.nextLease), nextLease := c.nextLease + 1);
      LeaseStepKeeps(c.store, c.nextLease);
      forall m | m in c.nodes ensures NodeOk(c1, m, c.nodes[m]) {
        assert NodeOk(c, m, c.nodes[m]);
      }
      PutKeeps(c1, n, st.(pc := Ready, session := Session(c.nextLease, false)));
    }
  }

  lemma CampaignKeeps(c: Cluster, n: NodeId, committed: bool)
    requires Inv(c) && n in c.nodes && c.nodes[n].pc.Ready?
    ensures Inv(DoNode(c, Campaign(n), n, c.nodes[n]))
    ensures Inv(DoNode(c, CampaignErr(n, committed), n, c.nodes[n]))
  {
    var st := c.nodes[n];
    assert NodeOk(c, n, st);
    var l := LeaseOf(st);
    var t := After(c.store, CampaignTxn(n, l));
    CampaignEffect(c.store, n, l);
    CampaignAllowed(c, n, l);
    MovedThenPut(c, t, n, st.(pc := Ending));
    PutKeeps(c, n, st.(pc := Ending));
    MovedThenPut(c, t, n, st.(pc := Beaten));
    if LeaderKey !in c.store.kv && l in c.store.leases {
      MovedThenPut(c, t, n, st.(pc := Won));
    }
  }

  lemma DeliverKeeps(c: Cluster, n: NodeId)
    requires Inv(c) && n in c.nodes && c.nodes[n].pc.Following?
    ensures Inv(DoDeliver(c, n, c.nodes[n]))
  {
    var st := c.nodes[n];
    assert NodeOk(c, n, st);
    var i := NextEvent(c.log, st.pc.from, st.pc.pos);
    if i < |c.log| {
      HandledReplays(st.leader, c.log, st.pc.from, st.pc.pos, i);
      PutKeeps(c, n, DoDeliver(c, n, st).nodes[n]);
    }
  }

  /** The watch is opened one past the revision of the read: nothing falls between the two. */
  lemma LocalKeeps(c: Cluster, step: Step, n: NodeId)
    requires Inv(c) && n in c.nodes
    requires step.Announce? || step.StartWatch? || step.WatchClosed? || step.SessionOver?
             || step.Give? || step.Halt?
    ensures Inv(DoNode(c, step, n, c.nodes[n]))
  {
    var st := c.nodes[n];
    assert NodeOk(c, n, st);
    var c' := DoNode(c, step, n, st);
    if c' != c { PutKeeps(c, n, c'.nodes[n]); }
  }

  lemma ReadKeeps(c: Cluster, n: NodeId)
    requires Inv(c) && n in c.nodes && c.nodes[n].pc.Beaten?
    ensures Inv(DoNode(c, ReadLeader(n), n, c.nodes[n]))
  {
    var st := c.nodes[n];
    assert NodeOk(c, n, st);
    NoneLeft(Holder(c.store), c.log, c.store.rev + 1, 0);
    PutKeeps(c, n, DoNode(c, ReadLeader(n), n, st).nodes[n]);
  }

  lemma InvStep(c: Cluster, step: Step)
    requires Inv(c)
    ensures Inv(Apply(c, step))
  {
    if step.LeaseEnds? {
      ExpiryAllowed(c, step.lease);
      EmptyMove(c, Expire(c.store, step.lease));
    } else if step.WriteElsewhere? {
      EmptyMove(c, c.store.(rev := c.store.rev + 1));
    } else if step.n in c.nodes {
      var n := step.n;
      var st := c.nodes[n];
      match step
      case OpenSession(_) => if st.pc.Start? { OpenKeeps(c, n); }
      case Campaign(_) => if st.pc.Ready? { CampaignKeeps(c, n, true); }
      case CampaignErr(_, committed) => if st.pc.Ready? { CampaignKeeps(c, n, committed); }
      case ReadLeader(_) => if st.pc.Beaten? { ReadKeeps(c, n); }
      case Deliver(_) => if st.pc.Following? { DeliverKeeps(c, n); }
      case Drop(_, revoked) => if st.pc.Ending? { DropKeeps(c, n, revoked); }
      case _ => LocalKeeps(c, step, n);
    }
  }

  lemma EmptyMove(c: Cluster, t: LStore)
    requires Inv(c) && Allowed(c.store, t)
    ensures Inv(Move(c, t))
  {
    StoreMoves(c, t);
    forall m | m in c.nodes ensures NodeOk(Move(c, t), m, c.nodes[m]) { MoveKeeps(c, t, m, c.nodes[m]); }
  }

  lemma DropKeeps(c: Cluster, n: NodeId, revoked: bool)
    requires Inv(c) && n in c.nodes && c.nodes[n].pc.Ending?
    ensures Inv(DoNode(c, Drop(n, revoked), n, c.nodes[n]))
  {
    var st := c.nodes[n].(pc := Start, session := NoSession);
    assert NodeOk(c, n, c.nodes[n]);
    var t := if revoked then Expire(c.store, LeaseOf(c.nodes[n])) else c.store;
    ExpiryAllowed(c, LeaseOf(c.nodes[n]));
    if revoked { MovedThenPut(c, t, n, st); } else { PutKeeps(c, n, st); }
  }

  lemma {:induction false} InvRun(c: Cluster, steps: seq<Step>)
    requires Inv(c)
    ensures Inv(Run(c, steps))
    decreases |steps|
  {
    if steps != [] {
      InvStep(c, steps[0]);
      InvRun(Apply(c, steps[0]), steps[1..]);
    }
  }

  lemma InvInitial(ids: set<NodeId>)
    ensures Inv(Initial(ids))
  {
  }

  // ------------------------------------------------------------------ theorems

  ghost predicate Reachable(ids: set<NodeId>, c: Cluster) { exists steps :: c == Run(Initial(ids), steps) }

  lemma ReachableInv(ids: set<NodeId>, c: Cluster)
    requires Reachable(ids, c)
    ensures Inv(c)
  {
    var steps :| c == Run(Initial(ids), steps);
    InvInitial(ids);
    InvRun(Initial(ids), steps);
  }

  /** A node that waits in `follow` sees the leader key, or has its going still to be told. */
  lemma NoLostWakeUp(ids: set<NodeId>, c: Cluster, n: NodeId)
    requires Reachable(ids, c) && n in c.nodes && c.nodes[n].pc.Following?
    ensures var at := c.nodes[n].pc;
      LeaderKey in c.store.kv || DeletePending(c.log, at.from, at.pos)
  {
    ReachableInv(ids, c);
    var st := c.nodes[n];
    assert NodeOk(c, n, st);
    if LeaderKey !in c.store.kv { DeleteIsPending(st.leader.value, c.log, st.pc.from, st.pc.pos); }
  }

  /** A follower whose watch has nothing more to tell knows the true holder of the leader key. */
  lemma FollowerKnowsLeader(ids: set<NodeId>, c: Cluster, n: NodeId)
    requires Reachable(ids, c) && n in c.nodes && c.nodes[n].pc.Following?
    requires forall i | c.nodes[n].pc.pos <= i < |c.log| :: c.log[i].rev < c.nodes[n].pc.from
    ensures c.nodes[n].leader.Some? && c.nodes[n].leader == Holder(c.store)
  {
    ReachableInv(ids, c);
    var st := c.nodes[n];
    assert NodeOk(c, n, st);
    NoneLeft(st.leader, c.log, st.pc.from, st.pc.pos);
  }

  lemma {:induction false} NoneLeft(believed: Option<NodeId>, log: seq<Event>, from: nat, pos: nat)
    requires forall i | pos <= i < |log| :: log[i].rev < from
    ensures Replay(believed, log, from, pos) == believed
    decreases |log|
  {
    if pos < |log| { NoneLeft(believed, log[..|log| - 1], from, pos); }
  }

  /**
   Nothing that has happened so far will move the node: it waits for its session to end, the
   session is alive, and (in `follow`) every delete event on its watch has been handled.
   */
  ghost predicate Asleep(c: Cluster, st: NodeState) {
    && st.session.Session? && !st.session.done && Alive(c, st.session.lease)
    && (st.pc.Leading? || (st.pc.Following? && !DeletePending(c.log, st.pc.from, st.pc.pos)))
  }

  /** With no leader key nobody sleeps: every node is on its way, stopped, or has a wake-up due. */
  lemma NobodySleepsLeaderless(ids: set<NodeId>, c: Cluster, n: NodeId)
    requires Reachable(ids, c) && n in c.nodes && LeaderKey !in c.store.kv
    ensures !Asleep(c, c.nodes[n])
  {
    ReachableInv(ids, c);
    assert NodeOk(c, n, c.nodes[n]);
    if c.nodes[n].pc.Following? { NoLostWakeUp(ids, c, n); }
  }

  /** `n` says it leads, and the lease of the session it has is still alive. */
  predicate LeadsAlive(c: Cluster, n: NodeId) {
    n in c.nodes && c.nodes[n].isLeader && c.nodes[n].session.Session? && Alive(c, c.nodes[n].session.lease)
  }

  /** Leaders with a live session hold the key under that session's lease, so there is at most one. */
  lemma LeaderExclusion(ids: set<NodeId>, c: Cluster, m: NodeId, n: NodeId)
    requires Reachable(ids, c) && LeadsAlive(c, m) && LeadsAlive(c, n)
    ensures m == n && Holds(c, n, c.nodes[n].session.lease)
  {
    ReachableInv(ids, c);
    assert NodeOk(c, m, c.nodes[m]) && NodeOk(c, n, c.nodes[n]);
  }

  function Repeat(n: NodeId, k: nat): (steps: seq<Step>)
    ensures |steps| == k
  {
    if k == 0 then [] else [Deliver(n)] + Repeat(n, k - 1)
  }

  /** A follower with a delete due is back at the top of its loop after its watch delivers that far. */
  lemma {:induction false} DeliveriesWake(c: Cluster, n: NodeId, i: nat) returns (k: nat)
    requires n in c.nodes && c.nodes[n].pc.Following?
    requires c.nodes[n].pc.pos <= i < |c.log| && c.log[i].DeleteEvent? && c.log[i].rev >= c.nodes[n].pc.from
    ensures 0 < k <= i + 1 - c.nodes[n].pc.pos
    ensures Run(c, Repeat(n, k)) == Put(c, n, c.nodes[n].(pc := Start, leader := None))
    decreases i - c.nodes[n].pc.pos
  {
    var st := c.nodes[n];
    var j := NextEvent(c.log, st.pc.from, st.pc.pos);
    assert j <= i;
    var c' := Apply(c, Deliver(n));
    if c.log[j].DeleteEvent? {
      k := 1;
      assert Repeat(n, 1) == [Deliver(n)] && [Deliver(n)][1..] == [];
    } else {
      var k' := DeliveriesWake(c', n, i);
      k := k' + 1;
      assert Repeat(n, k)[1..] == Repeat(n, k');
      assert Put(c', n, st.(pc := Start, leader := None)) == Put(c, n, st.(pc := Start, leader := None));
    }
  }

  /** When the holder's lease ends, every follower can be woken by what its watch then has to say. */
  lemma HolderGoneWakesFollowers(ids: set<NodeId>, c: Cluster, n: NodeId) returns (k: nat)
    requires Reachable(ids, c) && LeaderKey in c.store.kv
    requires n in c.nodes && c.nodes[n].pc.Following?
    ensures var c' := Apply(c, LeaseEnds(c.store.kv[LeaderKey].lease));
      LeaderKey !in c'.store.kv && Run(c', Repeat(n, k)) == Put(c', n, c.nodes[n].(pc := Start, leader := None))
  {
    ReachableInv(ids, c);
    var l := c.store.kv[LeaderKey].lease;
    var c' := Apply(c, LeaseEnds(l));
    assert NodeOk(c, n, c.nodes[n]);
    assert c'.log == c.log + [DeleteEvent(c'.store.rev)];
    assert c'.log[|c.log|] == DeleteEvent(c'.store.rev);
    k := DeliveriesWake(c', n, |c.log|);
  }

  /**
   `isLeader` alone does not exclude: it is cleared only when the node notices that its session
   is over, so a node whose lease has ended leads on beside its successor.
   */
  lemma TwoNodesLeadAtOnce() returns (c: Cluster)
    ensures Reachable({Node(1), Node(2)}, c)
    ensures Node(1) in c.nodes && Node(2) in c.nodes
    ensures c.nodes[Node(1)].isLeader && c.nodes[Node(2)].isLeader
    ensures LeadsAlive(c, Node(2)) && !LeadsAlive(c, Node(1))
    ensures c.nodes[Node(1)].session.Session? && !c.nodes[Node(1)].session.done
  {
    var c0 := Initial({Node(1), Node(2)});
    var c1 := LeadsAfter(c0, Node(1));
    var c2 := Apply(c1, LeaseEnds(1));
    LeaderLeaseEnds(c1);
    c := LeadsAfter(c2, Node(2));
    RunSplit(c0, Bid(Node(1)), [LeaseEnds(1)]);
    assert Run(c1, [LeaseEnds(1)]) == Run(c2, [LeaseEnds(1)][1..]) == c2;
    RunSplit(c0, Bid(Node(1)) + [LeaseEnds(1)], Bid(Node(2)));
  }

  /** A node that says it leads has a live lease exactly as long as it holds the key. */
  lemma LeaderHoldsIff(ids: set<NodeId>, c: Cluster, n: NodeId)
    requires Reachable(ids, c) && n in c.nodes && c.nodes[n].isLeader
    ensures var st := c.nodes[n]; st.session.Session? && (Alive(c, st.session.lease) <==> Holds(c, n, st.session.lease))
  {
    ReachableInv(ids, c);
    assert NodeOk(c, n, c.nodes[n]);
  }

  /**
   Exactly when a second leader appears: beside a leader, another node that tries from the top of its loop
   leads too if and only if the key is gone, which takes the end of the first one's lease.
   */
  lemma SecondLeaderIff(ids: set<NodeId>, c: Cluster, n: NodeId, m: NodeId)
    requires Reachable(ids, c) && n in c.nodes && c.nodes[n].isLeader
    requires m in c.nodes && m != n && c.nodes[m].pc.Start? && c.nodes[m].session.NoSession?
    ensures var c' := Run(c, Bid(m));
      && m in c'.nodes && n in c'.nodes && c'.nodes[n] == c.nodes[n]
      && (c'.nodes[m].isLeader <==> LeaderKey !in c.store.kv)
      && (c'.nodes[m].isLeader ==> LeadsAlive(c', m) && !LeadsAlive(c', n))
  {
    ReachableInv(ids, c);
    assert NodeOk(c, n, c.nodes[n]) && NodeOk(c, m, c.nodes[m]);
    BidOutcome(c, m);
  }

  /** So every leader may come to lead beside another: its lease ends, and it has not noticed. */
  lemma AnyLeaderMayBeDoubled(ids: set<NodeId>, c: Cluster, n: NodeId, m: NodeId)
    requires Reachable(ids, c) && LeadsAlive(c, n)
    requires m in c.nodes && m != n && c.nodes[m].pc.Start? && c.nodes[m].session.NoSession?
    ensures var c' := Run(Apply(c, LeaseEnds(c.nodes[n].session.lease)), Bid(m));
      && m in c'.nodes && n in c'.nodes && c'.nodes[n] == c.nodes[n]
      && c'.nodes[n].isLeader && c'.nodes[m].isLeader && LeadsAlive(c', m)
  {
    ReachableInv(ids, c);
    assert NodeOk(c, n, c.nodes[n]) && NodeOk(c, m, c.nodes[m]);
    LeaderLeaseEnds(c);
    var c1 := Apply(c, LeaseEnds(c.nodes[n].session.lease));
    InvStep(c, LeaseEnds(c.nodes[n].session.lease));
    BidOutcome(c1, m);
  }

  /** What three steps from the top of the loop come to. */
  lemma BidOutcome(c: Cluster, m: NodeId)
    requires Inv(c) && m in c.nodes && c.nodes[m].pc.Start? && c.nodes[m].session.NoSession?
    ensures var c' := Run(c, Bid(m));
      && m in c'.nodes && (forall k | k in c.nodes && k != m :: k in c'.nodes && c'.nodes[k] == c.nodes[k])
      && c'.store.leases == c.store.leases + {c.nextLease}
      && (c'.nodes[m].isLeader <==> LeaderKey !in c.store.kv)
      && (c'.nodes[m].isLeader ==> c'.nodes[m].session == Session(c.nextLease, false))
  {
    var c1 := Apply(c, OpenSession(m));
    var c2 := Apply(c1, Campaign(m));
    assert NodeOk(c, m, c.nodes[m]);
    LeaseStepKeeps(c.store, c.nextLease);
    CampaignEffect(c1.store, m, c.nextLease);
    BidIs(c, m);
  }

  lemma BidIs(c: Cluster, m: NodeId)
    ensures Run(c, Bid(m)) == Apply(Apply(Apply(c, OpenSession(m)), Campaign(m)), Announce(m))
  {
    var steps := Bid(m);
    var c1 := Apply(c, OpenSession(m));
    var c2 := Apply(c1, Campaign(m));
    assert steps[1..] == [Campaign(m), Announce(m)] && steps[1..][1..] == [Announce(m)];
    assert Run(c1, [Campaign(m), Announce(m)]) == Run(c2, [Campaign(m), Announce(m)][1..]);
    assert Run(c2, [Announce(m)]) == Run(Apply(c2, Announce(m)), [Announce(m)][1..]);
  }

  function Bid(n: NodeId): seq<Step> { [OpenSession(n), Campaign(n), Announce(n)] }

  lemma LeaderLeaseEnds(c: Cluster)
    requires Valid(c.store) && LeaderKey in c.store.kv && c.store.kv[LeaderKey].lease in c.store.leases
    ensures var c' := Apply(c, LeaseEnds(c.store.kv[LeaderKey].lease));
      && LeaderKey !in c'.store.kv && Valid(c'.store) && c'.nodes == c.nodes && c'.nextLease == c.nextLease
      && c'.store.leases == c.store.leases - {c.store.kv[LeaderKey].lease}
  {
    LeaseStepKeeps(c.store, c.store.kv[LeaderKey].lease);
  }

  lemma {:induction false} RunSplit(c: Cluster, a: seq<Step>, b: seq<Step>)
    ensures Run(c, a + b) == Run(Run(c, a), b)
    decreases |a|
  {
    if a == [] {
      assert a + b == b;
    } else {
      assert (a + b)[1..] == a[1..] + b;
      RunSplit(Apply(c, a[0]), a[1..], b);
    }
  }

  /** A node that finds the key free leads three steps later. */
  lemma LeadsAfter(c: Cluster, n: NodeId) returns (c': Cluster)
    requires 0 < c.nextLease && LeaderKey !in c.store.kv
    requires n in c.nodes && c.nodes[n] == NodeState(Start, NoSession, false, None)
    requires Valid(c.store)
    ensures c' == Run(c, Bid(n))
    ensures c'.nodes == c.nodes[n := NodeState(Leading, Session(c.nextLease, false), true, Some(n))]
    ensures c'.store.kv == map[LeaderKey := Entry(n, c.store.rev + 1, 1, c.nextLease)]
    ensures c'.store.leases == c.store.leases + {c.nextLease}
    ensures c'.nextLease == c.nextLease + 1 && Valid(c'.store)
  {
    var c1 := Apply(c, OpenSession(n));
    LeaseStepKeeps(c.store, c.nextLease);
    CampaignEffect(c1.store, n, c.nextLease);
    CommitKeeps(c1.store, CampaignTxn(n, c.nextLease));
    var c2 := Apply(c1, Campaign(n));
    c' := Apply(c2, Announce(n));
    BidIs(c, n);
    assert c.store.kv == map[] by {
      assert forall k: LeaderKey | k in c.store.kv :: k.LeaderKey?;
    }
  }
}
