/** What each transaction of the queue does to the store, spelled out key by key. */
module QueueEffects {
  import opened Etcd
  import opened Tickets

  lemma EnqueueEffect(s: QStore, t: Ticket)
    requires Valid(s)
    ensures Wins(s, EnqueueTxn(t)) <==> Pending(StampOf(t)) !in s.kv
    ensures var s' := After(s, EnqueueTxn(t));
      if Pending(StampOf(t)) in s.kv then s' == s
      else s' == s.(rev := s.rev + 1, kv := s.kv[Pending(StampOf(t)) := Entry(VTicket(t), s.rev + 1, 1, NO_LEASE)])
  {
    var txn := EnqueueTxn(t);
    Ops1(s.kv, txn.thens[0], s.rev + 1);
    assert Holds(s, txn.cmps[0]) <==> Pending(StampOf(t)) !in s.kv;
    assert txn.thens[0].Put?;
  }

  lemma EnqueueFireEffect(s: QStore, t: Ticket, wm: int)
    requires Valid(s)
    ensures Wins(s, EnqueueFireTxn(t, wm)) <==> Pending(StampOf(t)) !in s.kv
    ensures var s' := After(s, EnqueueFireTxn(t, wm));
      if Pending(StampOf(t)) in s.kv then s' == s
      else
        var kv1 := s.kv[Pending(StampOf(t)) := Entry(VTicket(t), s.rev + 1, 1, NO_LEASE)];
        && Watermark(t.job) in s'.kv
        && s'.kv[Watermark(t.job)].value == VTime(wm)
        && s' == s.(rev := s.rev + 1, kv := kv1[Watermark(t.job) := s'.kv[Watermark(t.job)]])
  {
    var txn := EnqueueFireTxn(t, wm);
    Ops2(s.kv, txn.thens[0], txn.thens[1], s.rev + 1);
    assert Holds(s, txn.cmps[0]) <==> Pending(StampOf(t)) !in s.kv;
    assert txn.thens[0].Put?;
  }

  lemma AdvanceEffect(s: QStore, job: int, wm: int)
    ensures var s' := After(s, AdvanceTxn(job, wm));
      && Watermark(job) in s'.kv
      && s'.kv[Watermark(job)].value == VTime(wm)
      && s' == s.(rev := s.rev + 1, kv := s.kv[Watermark(job) := s'.kv[Watermark(job)]])
  {
    var txn := AdvanceTxn(job, wm);
    Ops1(s.kv, txn.thens[0], s.rev + 1);
    assert txn.thens[0].Put?;
  }

  lemma DeleteEffect(s: QStore, k: Key)
    ensures var s' := After(s, Txn([], [Delete(k)], [])); s'.kv == s.kv - {k} && s'.leases == s.leases
  {
    var txn: QTxn := Txn([], [Delete(k)], []);
    Ops1(s.kv, txn.thens[0], s.rev + 1);
    if k in s.kv { assert txn.thens[0].key in s.kv; }
  }

  /** The entry a put leaves; its version counts the puts since the key appeared. */
  function PutEntry(s: QStore, k: Key, v: Value, lease: nat): QEntry {
    Entry(v, s.rev + 1, (if k in s.kv then s.kv[k].version else 0) + 1, lease)
  }

  predicate LiveOrNone(s: QStore, l: nat) { l == NO_LEASE || l in s.leases }

  /** When a claim commits: nobody holds it, the read is current, and the overlap lock is free. */
  predicate CanClaim(s: QStore, k: Stamp, rev: nat, t: Ticket, lease: nat, overlapLease: nat) {
    && Claimed(k) !in s.kv
    && Pending(k) in s.kv && s.kv[Pending(k)].modRev == rev
    && LiveOrNone(s, lease)
    && (t.noOverlap ==> Overlap(t.job) !in s.kv && LiveOrNone(s, overlapLease))
  }

  lemma ClaimEffect(s: QStore, node: NodeId, k: Stamp, rev: nat, t: Ticket, lease: nat, overlapLease: nat)
    requires Valid(s) && 0 < rev
    ensures var txn := ClaimTxn(node, k, rev, t, lease, overlapLease);
      && (Wins(s, txn) <==> CanClaim(s, k, rev, t, lease, overlapLease))
      && (!Wins(s, txn) ==> After(s, txn) == s)
    ensures CanClaim(s, k, rev, t, lease, overlapLease) ==>
      var s' := After(s, ClaimTxn(node, k, rev, t, lease, overlapLease));
      var kv1 := s.kv[Claimed(k) := PutEntry(s, Claimed(k), VNode(node), lease)]
                     [Pending(k) := PutEntry(s, Pending(k), VTicket(t), NO_LEASE)];
      s' == s.(rev := s.rev + 1,
               kv := if t.noOverlap then kv1[Overlap(t.job) := PutEntry(s, Overlap(t.job), VNode(node), overlapLease)]
                     else kv1)
  {
    var txn := ClaimTxn(node, k, rev, t, lease, overlapLease);
    var p1, p2, p3 := Put(Claimed(k), VNode(node), lease), Put(Pending(k), VTicket(t), NO_LEASE),
      Put(Overlap(t.job), VNode(node), overlapLease);
    assert txn.cmps[0] == VersionIs(Claimed(k), 0) && txn.cmps[1] == ModRevIs(Pending(k), rev);
    assert txn.thens[0] == p1 && txn.thens[1] == p2;
    if t.noOverlap {
      assert txn.cmps == [VersionIs(Claimed(k), 0), ModRevIs(Pending(k), rev), VersionIs(Overlap(t.job), 0)];
      assert txn.thens == [p1, p2, p3];
      assert txn.cmps[2] == VersionIs(Overlap(t.job), 0) && txn.thens[2] == p3;
      assert Holds(s, txn.cmps[2]) <==> Overlap(t.job) !in s.kv;
      Ops3(s.kv, p1, p2, p3, s.rev + 1);
    } else {
      assert txn.cmps == [VersionIs(Claimed(k), 0), ModRevIs(Pending(k), rev)];
      assert txn.thens == [p1, p2];
      Ops2(s.kv, p1, p2, s.rev + 1);
    }
  }

  lemma SkipEffect(s: QStore, node: NodeId, k: Stamp, rev: nat, t: Ticket)
    requires Valid(s) && 0 < rev
    ensures
      var txn, r := SkipTxn(node, k, rev, t), ResultAt(StampOf(t), t.attempt);
      var s' := After(s, txn);
      && (Wins(s, txn) <==> Pending(k) in s.kv && s.kv[Pending(k)].modRev == rev)
      && (if Wins(s, txn) then
            s' == s.(rev := s.rev + 1,
                     kv := (s.kv - {Pending(k)})[r := PutEntry(s, r, txn.thens[1].value, NO_LEASE)])
          else s' == s)
  {
    var txn := SkipTxn(node, k, rev, t);
    Ops2(s.kv, txn.thens[0], txn.thens[1], s.rev + 1);
    assert Holds(s, txn.cmps[0]) <==> Pending(k) in s.kv && s.kv[Pending(k)].modRev == rev;
    assert txn.thens[1].Put?;
  }

  predicate OwnedBy(kv: map<Key, QEntry>, s: Stamp, node: NodeId) {
    Claimed(s) in kv && kv[Claimed(s)].value == VNode(node)
  }

  /** What is left when a finish owns the claim; `kv1` already has the pending key settled. */
  function Settled(kv1: map<Key, QEntry>, t: Ticket, r: QEntry): map<Key, QEntry> {
    var kv2 := (kv1 - {Claimed(StampOf(t))})[ResultAt(StampOf(t), t.attempt) := r];
    if t.noOverlap then kv2 - {Overlap(t.job)} else kv2
  }

  /** A finish of either kind: `p` settles the pending key, `pub` publishes the result. */
  lemma FinishEffect(s: QStore, node: NodeId, t: Ticket, p: Op<Key, Value>, res: Result)
    requires p == Delete(Pending(StampOf(t))) || (p.Put? && p.key == Pending(StampOf(t)) && p.lease == NO_LEASE)
    ensures
      var k := StampOf(t);
      var txn := Txn([ValueIs(Claimed(k), VNode(node))],
                     [p, Delete(Claimed(k)), Publish(t, res)] + OverlapRelease(t), [Publish(t, res)]);
      var s' := After(s, txn);
      var r := PutEntry(s, ResultAt(k, t.attempt), VResult(res), NO_LEASE);
      && (Wins(s, txn) <==> OwnedBy(s.kv, k, node))
      && s'.rev == s.rev + 1 && s'.leases == s.leases
      && s'.kv == if Wins(s, txn) then Settled(ApplyOp(s.kv, p, s.rev + 1), t, r) else s.kv[ResultAt(k, t.attempt) := r]
  {
    var k := StampOf(t);
    var pub := Publish(t, res);
    var txn := Txn([ValueIs(Claimed(k), VNode(node))], [p, Delete(Claimed(k)), pub] + OverlapRelease(t), [pub]);
    assert Holds(s, txn.cmps[0]) <==> OwnedBy(s.kv, k, node);
    assert txn.thens[2] == pub && txn.elses[0] == pub;
    Ops1(s.kv, pub, s.rev + 1);
    if t.noOverlap {
      assert txn.thens == [p, Delete(Claimed(k)), pub, Delete(Overlap(t.job))];
      Ops4(s.kv, p, Delete(Claimed(k)), pub, Delete(Overlap(t.job)), s.rev + 1);
    } else {
      assert txn.thens == [p, Delete(Claimed(k)), pub];
      Ops3(s.kv, p, Delete(Claimed(k)), pub, s.rev + 1);
    }
  }

  lemma FinishSuccessEffect(s: QStore, node: NodeId, t: Ticket, res: Result)
    ensures
      var txn := FinishSuccessTxn(node, t, res);
      var s' := After(s, txn);
      var r := PutEntry(s, ResultAt(StampOf(t), t.attempt), VResult(res), NO_LEASE);
      && (Wins(s, txn) <==> OwnedBy(s.kv, StampOf(t), node))
      && s'.rev == s.rev + 1 && s'.leases == s.leases
      && s'.kv == if Wins(s, txn) then Settled(s.kv - {Pending(StampOf(t))}, t, r)
                  else s.kv[ResultAt(StampOf(t), t.attempt) := r]
  {
    FinishEffect(s, node, t, Delete(Pending(StampOf(t))), res);
  }

  lemma FinishFailureEffect(s: QStore, node: NodeId, t: Ticket, res: Result, now: int)
    ensures
      var txn := FinishFailureTxn(node, t, res, now);
      var s' := After(s, txn);
      var p := Pending(StampOf(t));
      var r := PutEntry(s, ResultAt(StampOf(t), t.attempt), VResult(FailureResult(t, res)), NO_LEASE);
      && (Wins(s, txn) <==> OwnedBy(s.kv, StampOf(t), node))
      && s'.rev == s.rev + 1 && s'.leases == s.leases
      && s'.kv == if !Wins(s, txn) then s.kv[ResultAt(StampOf(t), t.attempt) := r]
                  else if GivesUp(t) then Settled(s.kv - {p}, t, r)
                  else Settled(s.kv[p := PutEntry(s, p, VTicket(Retried(t, now)), NO_LEASE)], t, r)
  {
    var p := Pending(StampOf(t));
    var settle := if GivesUp(t) then Delete(p) else Put(p, VTicket(Retried(t, now)), NO_LEASE);
    FinishEffect(s, node, t, settle, FailureResult(t, res));
  }

  /** The status a failed run is published with. */
  lemma FailureStatus(t: Ticket, res: Result)
    ensures t.attempt > t.maxRetries ==> FailureResult(t, res) == res.(status := FailedPermanent)
    ensures t.attempt <= t.maxRetries ==>
              FailureResult(t, res) == if res.status == Blank then res.(status := Failed) else res
  {
  }

  /**
   A failure, by its numbers: by the owner, the ticket stays pending exactly as long as its attempt is not above
   its retries, free of claim and lock; by anyone else, ticket, claim and lock are as they were.  Whoever it is by,
   the result is published, as a permanent failure exactly when the attempt is above the retries.
   */
  lemma FailureOutcome(s: QStore, node: NodeId, t: Ticket, res: Result, now: int)
    requires res.status in {Blank, Failed, Timeout}
    ensures var kv, k := After(s, FinishFailureTxn(node, t, res, now)).kv, StampOf(t);
      && (if OwnedBy(s.kv, k, node) then
            && (Pending(k) in kv <==> t.attempt <= t.maxRetries)
            && Claimed(k) !in kv && (t.noOverlap ==> Overlap(t.job) !in kv)
          else
            && (Pending(k) in kv <==> Pending(k) in s.kv) && (Claimed(k) in kv <==> Claimed(k) in s.kv)
            && (Overlap(t.job) in kv <==> Overlap(t.job) in s.kv))
      && ResultAt(k, t.attempt) in kv && kv[ResultAt(k, t.attempt)].value.VResult?
      && var r := kv[ResultAt(k, t.attempt)].value.result;
        && r == res.(status := r.status)
        && (r.status == FailedPermanent <==> t.attempt > t.maxRetries)
        && (t.attempt <= t.maxRetries ==> r.status == if res.status == Timeout then Timeout else Failed)
  {
    FinishFailureEffect(s, node, t, res, now);
    FailureStatus(t, res);
  }

  lemma AbandonEffect(s: QStore, node: NodeId, t: Ticket)
    requires Valid(s)
    ensures
      var txn, r := AbandonTxn(node, t), ResultAt(StampOf(t), t.attempt);
      var s' := After(s, txn);
      && (Wins(s, txn) <==> Claimed(StampOf(t)) !in s.kv)
      && (if Wins(s, txn) then
            s' == s.(rev := s.rev + 1,
                     kv := (s.kv - {Pending(StampOf(t))})[r := PutEntry(s, r, txn.thens[1].value, NO_LEASE)])
          else s' == s)
  {
    var txn := AbandonTxn(node, t);
    Ops2(s.kv, txn.thens[0], txn.thens[1], s.rev + 1);
    assert Holds(s, txn.cmps[0]) <==> Claimed(StampOf(t)) !in s.kv;
    assert txn.thens[1].Put?;
  }
}
