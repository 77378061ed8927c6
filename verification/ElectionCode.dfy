/**
 One node's election loop as it is written, over the shared cluster.  Before every store call
 and every wait the other nodes, the leases and the client library may do anything a `Turn`
 says; what the node does itself is exactly the steps of the machine in `Election`.
 */
module ElectionCode {
  import opened Election
  import opened Tickets

  /**
   What one store call or wait of the node meets: the steps of the others that come first, whether
   the call fails (and whether the campaign's write went through all the same), whether the watch
   is closed, and what `select` prefers when it has the choice.
   */
  datatype Turn = Turn(others: seq<Step>, err: bool, committed: bool, closed: bool, sessionFirst: bool, batch: nat)

  const QUIET := Turn([], false, false, false, false, 0)

  datatype Outcome = Restart | Waiting

  /** A step some other node, a lease or the client library of `id` makes. */
  predicate Foreign(id: NodeId, step: Step) {
    step.LeaseEnds? || step.WriteElsewhere? || step.SessionOver? || step.n != id
  }

  /** All that others can do to a node is to let it notice that its session is over. */
  predicate Untouched(a: NodeState, b: NodeState) {
    b == a || (a.session.Session? && b == a.(session := a.session.(done := true)))
  }

  lemma ForeignLeaves(c: Cluster, step: Step, id: NodeId)
    requires id in c.nodes && Foreign(id, step)
    ensures id in Apply(c, step).nodes && Untouched(c.nodes[id], Apply(c, step).nodes[id])
    ensures |Apply(c, step).log| >= |c.log|
  {
  }

  lemma {:induction false} OneMore(origin: Cluster, trace: seq<Step>, step: Step)
    ensures Run(origin, trace + [step]) == Apply(Run(origin, trace), step)
  {
    RunSplit(origin, trace, [step]);
    assert [step][1..] == [];
  }

  /** Lease `l` is over, and the leader key, if it is there, is under another. */
  ghost predicate Released(c: Cluster, l: nat) {
    !Alive(c, l) && (LeaderKey in c.store.kv ==> c.store.kv[LeaderKey].lease != l)
  }

  lemma DropReleases(c: Cluster, n: NodeId, revoked: bool)
    requires Inv(c) && n in c.nodes && c.nodes[n].pc.Ending?
    ensures var c', l := Apply(c, Drop(n, revoked)), LeaseOf(c.nodes[n]);
      && n in c'.nodes && (forall m | m in c.nodes && m != n :: m in c'.nodes && c'.nodes[m] == c.nodes[m])
      && (if revoked then
            && Released(c', l) && c'.store.leases == c.store.leases - {l}
            && (LeaderKey in c.store.kv && c.store.kv[LeaderKey].lease != l ==>
                  LeaderKey in c'.store.kv && c'.store.kv[LeaderKey] == c.store.kv[LeaderKey])
          else c'.store == c.store)
  {
    assert NodeOk(c, n, c.nodes[n]);
  }

  class Node {
    const id: NodeId
    var cluster: Cluster
    var turns: seq<Turn>
    ghost const origin: Cluster
    ghost var trace: seq<Step>

    constructor (me: NodeId, start: Cluster, schedule: seq<Turn>)
      requires Inv(start) && me in start.nodes
      requires forall i, j | 0 <= i < |schedule| && 0 <= j < |schedule[i].others| :: Foreign(me, schedule[i].others[j])
      ensures Valid() && id == me && cluster == start && turns == schedule && origin == start
    {
      id, cluster, turns := me, start, schedule;
      origin, trace := start, [];
    }

    ghost predicate Valid()
      reads this
    {
      && cluster == Run(origin, trace) && Inv(cluster)
      && id in cluster.nodes
      && forall i, j | 0 <= i < |turns| && 0 <= j < |turns[i].others| :: Foreign(id, turns[i].others[j])
    }

    function Me(): NodeState
      requires id in cluster.nodes
      reads this
    {
      cluster.nodes[id]
    }

    method Do(step: Step)
      requires Valid()
      modifies this`cluster, this`trace
      ensures Valid() && cluster == Apply(old(cluster), step)
    {
      OneMore(origin, trace, step);
      InvStep(cluster, step);
      cluster := Apply(cluster, step);
      trace := trace + [step];
    }

    method Others(steps: seq<Step>)
      requires Valid() && forall j | 0 <= j < |steps| :: Foreign(id, steps[j])
      modifies this`cluster, this`trace
      ensures Valid() && Untouched(old(Me()), Me()) && |cluster.log| >= |old(cluster).log|
      ensures steps == [] ==> cluster == old(cluster)
    {
      for j := 0 to |steps|
        invariant Valid() && Untouched(old(Me()), Me()) && |cluster.log| >= |old(cluster).log|
        invariant j == 0 ==> cluster == old(cluster)
      {
        ForeignLeaves(cluster, steps[j], id);
        Do(steps[j]);
      }
    }

    /** A store call or wait: the others move first.  Past the end of the schedule nothing disturbs the node. */
    method Wait() returns (t: Turn)
      requires Valid()
      modifies this
      ensures Valid() && Untouched(old(Me()), Me()) && |cluster.log| >= |old(cluster).log|
      ensures old(turns) == [] ==> t == QUIET && cluster == old(cluster) && turns == []
      ensures old(turns) != [] ==> t == old(turns)[0] && turns == old(turns)[1..]
      ensures old(turns) != [] && old(turns)[0].others == [] ==> cluster == old(cluster)
    {
      if turns == [] { return QUIET; }
      t := turns[0];
      Others(t.others);
      turns := turns[1..];
    }

    method EnsureSession()
      requires Valid() && Me().pc.Start?
      modifies this
      ensures Valid() && Me().pc.Ready? && !Me().isLeader && |turns| <= |old(turns)|
      ensures old(turns) == [] ==> turns == []
      ensures old(turns) == [] && old(Me()).session.Session? ==>
                Me().session == old(Me()).session && cluster.store == old(cluster).store
      ensures old(turns) == [] && old(Me()).session.NoSession? ==>
                Alive(cluster, Me().session.lease) && !Me().session.done
    {
      var _ := Wait();
      assert NodeOk(cluster, id, Me());
      Do(OpenSession(id));
    }

    /** Whether the node could write its member key under its session's lease. */
    method RegisterMember() returns (ok: bool)
      requires Valid() && Me().pc.Ready?
      modifies this
      ensures Valid() && Me().pc.Ready? && |turns| <= |old(turns)| && (old(turns) != [] ==> |turns| < |old(turns)|)
      ensures ok ==> Alive(cluster, Me().session.lease)
      ensures old(turns) == [] ==> Me() == old(Me()) && ok == Alive(old(cluster), Me().session.lease)
      ensures old(turns) != [] && old(turns)[0].err ==> !ok
      ensures old(turns) == [] ==>
                cluster.store == old(cluster).store.(rev := old(cluster).store.rev + (if ok then 1 else 0))
    {
      var t := Wait();
      assert NodeOk(cluster, id, Me());
      ok := !t.err && Me().session.lease in cluster.store.leases;
      if ok { Do(WriteElsewhere); }
    }

    /** An error may hide a campaign that was won: the key then stays until the lease is gone. */
    method Campaign() returns (won: bool, err: bool)
      requires Valid() && Me().pc.Ready?
      modifies this
      ensures Valid() && |turns| <= |old(turns)|
      ensures won <==> Me().pc.Won?
      ensures err <==> Me().pc.Ending?
      ensures old(turns) != [] && old(turns)[0].err ==> err
      ensures !won && !err ==> Me().pc.Beaten? && LeaderKey in cluster.store.kv
      ensures won && Alive(cluster, Me().session.lease) ==> Election.Holds(cluster, id, Me().session.lease)
      ensures old(turns) == [] ==> Me().session == old(Me()).session
      ensures old(turns) == [] && Alive(old(cluster), old(Me()).session.lease) ==>
                !err && won == (LeaderKey !in old(cluster).store.kv) && Alive(cluster, Me().session.lease)
    {
      var t := Wait();
      assert NodeOk(cluster, id, Me());
      CampaignEffect(cluster.store, id, LeaseOf(Me()));
      if t.err { Do(CampaignErr(id, t.committed)); } else { Do(Election.Step.Campaign(id)); }
      assert NodeOk(cluster, id, Me());
      won, err := Me().pc.Won?, Me().pc.Ending?;
    }

    method DropSession()
      requires Valid() && Me().pc.Ending?
      modifies this
      ensures Valid() && |turns| <= |old(turns)|
      ensures Me().pc.Start? && Me().session.NoSession? && !Me().isLeader
      ensures Me().leader == old(Me()).leader
      ensures old(turns) == [] || !old(turns)[0].err ==> Released(cluster, LeaseOf(old(Me())))
      ensures old(turns) == [] && LeaderKey in old(cluster).store.kv
              && old(cluster).store.kv[LeaderKey].lease != LeaseOf(old(Me())) ==>
                LeaderKey in cluster.store.kv && cluster.store.kv[LeaderKey] == old(cluster).store.kv[LeaderKey]
      ensures old(turns) != [] && old(turns)[0].err && old(turns)[0].others == [] ==>
                cluster.store == old(cluster).store
    {
      var t := Wait();
      assert NodeOk(cluster, id, Me());
      DropReleases(cluster, id, !t.err);
      Do(Drop(id, !t.err));
    }

    /** One watch response: its events in order, stopping at the first that says the key is gone. */
    method HandleBatch(size: nat) returns (gone: bool)
      requires Valid() && Me().pc.Following?
      requires NextEvent(cluster.log, Me().pc.from, Me().pc.pos) < |cluster.log|
      modifies this`cluster, this`trace
      ensures Valid() && cluster.log == old(cluster).log && cluster.store == old(cluster).store
      ensures gone ==> Me() == old(Me()).(pc := Start, leader := None)
      ensures gone ==>
                exists i :: old(Me()).pc.pos <= i < |cluster.log| && cluster.log[i].DeleteEvent?
                            && cluster.log[i].rev >= old(Me()).pc.from
      ensures !gone ==> Me().pc.Following? && Me().pc.from == old(Me()).pc.from && Me().session == old(Me()).session
      ensures !gone ==> old(Me()).pc.pos < Me().pc.pos <= |cluster.log|
      ensures !gone ==>
                forall i | old(Me()).pc.pos <= i < Me().pc.pos ::
                  cluster.log[i].rev < Me().pc.from || cluster.log[i].PutEvent?
    {
      ghost var log, st := cluster.log, Me();
      var left := size;
      gone := false;
      while true
        invariant Valid() && cluster.log == log && cluster.store == old(cluster).store
        invariant Me().pc.Following? && Me() == st.(pc := Following(st.pc.from, Me().pc.pos), leader := Me().leader)
        invariant st.pc.pos <= Me().pc.pos <= |log|
        invariant st.pc.pos < Me().pc.pos || (left == size && Me().pc == st.pc)
        invariant forall i | st.pc.pos <= i < Me().pc.pos :: log[i].rev < st.pc.from || log[i].PutEvent?
        decreases |log| - Me().pc.pos
      {
        var at := NextEvent(cluster.log, Me().pc.from, Me().pc.pos);
        if at == |cluster.log| { return; }
        HandleNext(at);
        if Me().pc.Start? { return true; }
        if left == 0 { return; }
        left := left - 1;
      }
    }

    /** The next event of the watch: a deletion wakes the node, a put tells it the leader. */
    method HandleNext(ghost at: nat)
      requires Valid() && Me().pc.Following? && Me().pc.pos <= |cluster.log|
      requires at == NextEvent(cluster.log, Me().pc.from, Me().pc.pos) < |cluster.log|
      modifies this`cluster, this`trace
      ensures Valid() && cluster.log == old(cluster).log && cluster.store == old(cluster).store
      ensures var e, st := cluster.log[at], old(Me());
        Me() == st.(pc := if e.DeleteEvent? then Start else Following(st.pc.from, at + 1), leader := Reported(e))
    {
      Do(Deliver(id));
    }

    /** Nothing is left to move the node, and what it takes for the leader is the leader. */
    ghost predicate AtRest()
      requires id in cluster.nodes
      reads this
    {
      && turns == [] && Me().session.Session? && !Me().session.done
      && (Me().pc.Leading? || Me().pc.Following?)
      && (Me().pc.Leading? ==> Me().isLeader && Me().leader == Some(id))
      && (Me().pc.Following? ==> LeaderKey in cluster.store.kv && Me().leader == Holder(cluster.store))
    }

    /** The session is over: back to the top of the loop without it. */
    method LeaveSession()
      requires Valid() && (Me().pc.Following? || Me().pc.Leading?) && Over(Me())
      modifies this
      ensures Valid() && |turns| <= |old(turns)|
      ensures Me().pc.Start? && Me().session.NoSession? && !Me().isLeader
      ensures old(turns) == [] || !old(turns)[0].err ==> Released(cluster, LeaseOf(old(Me())))
    {
      Do(Give(id));
      DropSession();
    }

    /** `follow` once the watch is open: wait for it or for the end of the session, whichever comes. */
    method Watching() returns (r: Outcome)
      requires Valid() && Me().pc.Following? && !Me().isLeader
      modifies this
      ensures Valid() && |turns| <= |old(turns)|
      ensures r.Restart? ==> Me().pc.Start? && !Me().isLeader
      ensures r.Waiting? ==> AtRest() && Me().pc.Following?
      ensures old(turns) == [] && Calm(old(cluster), old(Me()).pc.from, old(Me()).pc.pos) ==>
                if Over(old(Me())) then r.Restart? && Me().session.NoSession? else r.Waiting?
    {
      var t := QUIET;
      while true
        invariant Valid() && Me().pc.Following? && !Me().isLeader && |turns| <= |old(turns)|
        invariant old(turns) == [] ==> turns == [] && t == QUIET
        invariant old(turns) == [] && Calm(old(cluster), old(Me()).pc.from, old(Me()).pc.pos) ==>
                    cluster == old(cluster)
        decreases |turns|, |cluster.log| - Me().pc.pos
      {
        assert NodeOk(cluster, id, Me());
        var pending := NextEvent(cluster.log, Me().pc.from, Me().pc.pos) < |cluster.log|;
        if Over(Me()) && (!pending || t.sessionFirst) {
          LeaveSession();
          return Restart;
        } else if t.closed {
          Do(WatchClosed(id));
          return Restart;
        } else if pending {
          var gone := HandleBatch(t.batch);
          if gone { return Restart; }
        } else if turns == [] {
          NoneLeft(Me().leader, cluster.log, Me().pc.from, Me().pc.pos);
          return Waiting;
        } else {
          t := Wait();
        }
      }
    }

    /** `follow`: read who leads, then watch from the next revision on. */
    method Follow() returns (r: Outcome)
      requires Valid() && Me().pc.Beaten? && !Me().isLeader
      modifies this
      ensures Valid() && |turns| <= |old(turns)|
      ensures r.Restart? ==> Me().pc.Start? && !Me().isLeader
      ensures r.Waiting? ==> AtRest() && Me().pc.Following?
      ensures old(turns) == [] && LeaderKey in old(cluster).store.kv ==>
                if Over(old(Me())) then r.Restart? && Me().session.NoSession? else r.Waiting?
      ensures old(turns) != [] && old(turns)[0].err ==> r.Restart? && Me().session.NoSession?
    {
      var t := Wait();
      assert NodeOk(cluster, id, Me());
      if t.err {
        Do(Election.Step.Give(id));
        DropSession();
        return Restart;
      }
      Do(ReadLeader(id));
      if Me().pc.Start? { return Restart; }
      Do(StartWatch(id));
      r := Watching();
    }

    /** The wait of a leader for the end of its session. */
    method Lead() returns (r: Outcome)
      requires Valid() && Me().pc.Won?
      modifies this
      ensures Valid() && |turns| <= |old(turns)|
      ensures r.Restart? ==> Me().pc.Start? && !Me().isLeader && Me().leader.None?
      ensures r.Waiting? ==> AtRest() && Me().pc.Leading?
      ensures old(turns) == [] ==>
                if Over(old(Me())) then r.Restart? && Me().session.NoSession?
                else r.Waiting? && Me().session == old(Me()).session && cluster.store == old(cluster).store
      ensures old(turns) == [] && Over(old(Me())) ==> Released(cluster, LeaseOf(old(Me())))
    {
      Do(Announce(id));
      while !Over(Me())
        invariant Valid() && Me().pc.Leading? && Me().isLeader && Me().session.Session? && |turns| <= |old(turns)|
        invariant old(turns) == [] ==>
                    turns == [] && Me().session == old(Me()).session && cluster.store == old(cluster).store
        decreases |turns|
      {
        assert NodeOk(cluster, id, Me());
        if turns == [] { return Waiting; }
        var _ := Wait();
      }
      Do(Give(id));
      DropSession();
      return Restart;
    }

    /** One pass of the loop of `Run`. */
    method Round() returns (r: Outcome)
      requires Valid() && Me().pc.Start?
      modifies this
      ensures Valid()
      ensures r.Restart? ==> Me().pc.Start?
      ensures r.Restart? ==>
                |turns| < |old(turns)| ||
                (old(turns) == [] && turns == [] && old(Me()).session.Session? && Me().session.NoSession?)
      ensures r.Waiting? ==> AtRest()
      ensures r.Waiting? && old(turns) == [] && Me().pc.Leading? ==> LeadsAlive(cluster, id)
    {
      EnsureSession();
      var ok := RegisterMember();
      if !ok {
        Do(Give(id));
        DropSession();
        return Restart;
      }
      var won, err := Campaign();
      if err {
        DropSession();
        return Restart;
      }
      if won { r := Lead(); } else { r := Follow(); }
    }

    /**
     The whole loop.  Whatever happened before, once the others leave it alone the node comes to
     rest, and it rests beside a leader it knows: itself or the holder of the key.
     */
    method RunToRest()
      requires Valid() && Me().pc.Start?
      modifies this
      ensures Valid() && AtRest()
    {
      var r := Round();
      while r.Restart?
        invariant Valid() && (if r.Restart? then Me().pc.Start? else AtRest())
        decreases r.Restart?, |turns|, Me().session.Session?
      {
        r := Round();
      }
    }
  }

  predicate Over(st: NodeState) { st.session.Session? ==> st.session.done }

  /** The watch has nothing left to deliver. */
  ghost predicate Calm(c: Cluster, from: nat, pos: nat) {
    forall i | pos <= i < |c.log| :: c.log[i].rev < from
  }
}
