/**
 A revisioned key-value store in the manner of etcd: one global revision, atomic
 compare-then-else transactions, and leases whose expiry deletes every attached key.

 `Extends` is the relation every commit, lease grant and lease expiry keeps.  It is what
 makes the read-then-transact style of the repository sound: a mod revision that still
 matches means that the whole entry is still the one that was read.
 */
module Etcd {

  /** The lease id that means "attached to no lease". */
  const NO_LEASE: nat := 0

  datatype Entry<V> = Entry(value: V, modRev: nat, version: nat, lease: nat)

  datatype Cmp<K, V> =
    | VersionIs(key: K, version: nat)
    | ModRevIs(key: K, rev: nat)
    | ValueIs(key: K, value: V)

  datatype Op<K, V> =
    | Put(key: K, value: V, lease: nat)
    | Delete(key: K)

  datatype Txn<K, V> = Txn(cmps: seq<Cmp<K, V>>, thens: seq<Op<K, V>>, elses: seq<Op<K, V>>)

  datatype Store<K(==), V> = Store(rev: nat, kv: map<K, Entry<V>>, leases: set<nat>)

  /** What a transaction answers: an error without effect, or a commit of one branch. */
  datatype Outcome<K(==), V> =
    | LeaseNotFound
    | Committed(succeeded: bool, store: Store<K, V>)

  /** Every entry was written at a revision already reached, under no lease or a live one. */
  ghost predicate Valid<K, V>(s: Store<K, V>) {
    && NO_LEASE !in s.leases
    && (forall k | k in s.kv ::
          && 0 < s.kv[k].modRev <= s.rev
          && 0 < s.kv[k].version
          && (s.kv[k].lease == NO_LEASE || s.kv[k].lease in s.leases))
  }

  /** A missing key has version 0 and mod revision 0; a value comparison on it always fails. */
  predicate Holds<K(==), V(==)>(s: Store<K, V>, c: Cmp<K, V>) {
    match c
    case VersionIs(k, n) => (if k in s.kv then s.kv[k].version else 0) == n
    case ModRevIs(k, r) => (if k in s.kv then s.kv[k].modRev else 0) == r
    case ValueIs(k, v) => k in s.kv && s.kv[k].value == v
  }

  predicate AllHold<K(==), V(==)>(s: Store<K, V>, cmps: seq<Cmp<K, V>>) {
    forall i | 0 <= i < |cmps| :: Holds(s, cmps[i])
  }

  function ApplyOp<K(==), V>(kv: map<K, Entry<V>>, op: Op<K, V>, at: nat): map<K, Entry<V>> {
    match op
    case Put(k, v, l) => kv[k := Entry(v, at, (if k in kv then kv[k].version else 0) + 1, l)]
    case Delete(k) => kv - {k}
  }

  function ApplyOps<K(==), V>(kv: map<K, Entry<V>>, ops: seq<Op<K, V>>, at: nat): map<K, Entry<V>>
    decreases |ops|
  {
    if ops == [] then kv else ApplyOps(ApplyOp(kv, ops[0], at), ops[1..], at)
  }

  /** Only a put, or the deletion of a key that is there, makes a new revision. */
  predicate Changes<K(==), V>(kv: map<K, Entry<V>>, ops: seq<Op<K, V>>) {
    exists i | 0 <= i < |ops| :: ops[i].Put? || ops[i].key in kv
  }

  predicate LeasesLive<K(==), V>(s: Store<K, V>, ops: seq<Op<K, V>>) {
    forall i | 0 <= i < |ops| && ops[i].Put? :: ops[i].lease == NO_LEASE || ops[i].lease in s.leases
  }

  function Write<K(==), V>(s: Store<K, V>, ops: seq<Op<K, V>>): Store<K, V> {
    if Changes(s.kv, ops) then s.(rev := s.rev + 1, kv := ApplyOps(s.kv, ops, s.rev + 1)) else s
  }

  function Commit<K(==), V(==)>(s: Store<K, V>, txn: Txn<K, V>): Outcome<K, V> {
    var ok := AllHold(s, txn.cmps);
    var ops := if ok then txn.thens else txn.elses;
    if LeasesLive(s, ops) then Committed(ok, Write(s, ops)) else LeaseNotFound
  }

  /** The store once the transaction was answered, whatever the answer. */
  function After<K(==), V(==)>(s: Store<K, V>, txn: Txn<K, V>): Store<K, V> {
    match Commit(s, txn)
    case LeaseNotFound => s
    case Committed(_, s') => s'
  }

  /** The transaction committed its `thens` branch. */
  predicate Wins<K(==), V(==)>(s: Store<K, V>, txn: Txn<K, V>) {
    AllHold(s, txn.cmps) && LeasesLive(s, txn.thens)
  }

  function Grant<K(==), V>(s: Store<K, V>, l: nat): Store<K, V> {
    if l == NO_LEASE then s else s.(leases := s.leases + {l})
  }

  /** Expiry or revocation: all attached keys go in one revision. */
  function Expire<K(==), V>(s: Store<K, V>, l: nat): Store<K, V> {
    if l !in s.leases then s
    else
      var doomed := set k | k in s.kv && s.kv[k].lease == l;
      Store(if doomed == {} then s.rev else s.rev + 1, s.kv - doomed, s.leases - {l})
  }

  // ------------------------------------------------------------------ monotone growth

  /** Every entry of `t` not written after `s` is an entry of `s`, unchanged. */
  ghost predicate Extends<K, V>(s: Store<K, V>, t: Store<K, V>) {
    && s.rev <= t.rev
    && forall k | k in t.kv && t.kv[k].modRev <= s.rev :: k in s.kv && s.kv[k] == t.kv[k]
  }

  lemma ExtendsTransitive<K, V>(s: Store<K, V>, t: Store<K, V>, u: Store<K, V>)
    requires Extends(s, t) && Extends(t, u)
    ensures Extends(s, u)
  {
    forall k | k in u.kv && u.kv[k].modRev <= s.rev
      ensures k in s.kv && s.kv[k] == u.kv[k]
    {
      assert k in t.kv && t.kv[k] == u.kv[k];
    }
  }

  /** Equal mod revisions mean equal entries, however far apart the two reads were. */
  lemma SameModRevSameEntry<K, V>(s: Store<K, V>, t: Store<K, V>, k: K)
    requires Valid(s) && Extends(s, t)
    requires k in s.kv && k in t.kv && s.kv[k].modRev == t.kv[k].modRev
    ensures s.kv[k] == t.kv[k]
  {
    assert t.kv[k].modRev <= s.rev;
  }

  predicate Puts<K(==), V(==)>(op: Op<K, V>, k: K, e: Entry<V>) {
    op.Put? && op.key == k && e.lease == op.lease && e.value == op.value
  }

  /** What a list of writes leaves under a key: the old entry, or one written at `at`. */
  lemma {:induction false} ApplyOpsAt<K, V>(kv: map<K, Entry<V>>, ops: seq<Op<K, V>>, at: nat, k: K)
    requires k in ApplyOps(kv, ops, at)
    ensures
      var e := ApplyOps(kv, ops, at)[k];
      || (k in kv && e == kv[k])
      || (&& e.modRev == at && 0 < e.version
          && exists i | 0 <= i < |ops| :: Puts(ops[i], k, e))
    decreases |ops|
  {
    if ops != [] {
      var kv' := ApplyOp(kv, ops[0], at);
      ApplyOpsAt(kv', ops[1..], at, k);
      var e := ApplyOps(kv, ops, at)[k];
      if exists i | 0 <= i < |ops[1..]| :: Puts(ops[1..][i], k, e) {
        var i :| 0 <= i < |ops[1..]| && Puts(ops[1..][i], k, e);
        assert ops[i + 1] == ops[1..][i];
      } else if !(k in kv && e == kv[k]) {
        assert ops[0].Put? && ops[0].key == k;
      }
    }
  }

  lemma CommitKeeps<K, V>(s: Store<K, V>, txn: Txn<K, V>)
    requires Valid(s)
    ensures Valid(After(s, txn)) && Extends(s, After(s, txn))
    ensures After(s, txn).leases == s.leases
  {
    var ops := if AllHold(s, txn.cmps) then txn.thens else txn.elses;
    var t := After(s, txn);
    if LeasesLive(s, ops) && Changes(s.kv, ops) {
      forall k | k in t.kv
        ensures 0 < t.kv[k].modRev <= t.rev && 0 < t.kv[k].version
        ensures t.kv[k].lease == NO_LEASE || t.kv[k].lease in s.leases
        ensures t.kv[k].modRev <= s.rev ==> k in s.kv && s.kv[k] == t.kv[k]
      {
        ApplyOpsAt(s.kv, ops, s.rev + 1, k);
      }
    }
  }

  lemma LeaseStepKeeps<K, V>(s: Store<K, V>, l: nat)
    requires Valid(s)
    ensures Valid(Grant(s, l)) && Extends(s, Grant(s, l))
    ensures Valid(Expire(s, l)) && Extends(s, Expire(s, l))
  {
  }

  // ------------------------------------------------------------------ short op lists

  lemma Ops1<K, V>(kv: map<K, Entry<V>>, a: Op<K, V>, at: nat)
    ensures ApplyOps(kv, [a], at) == ApplyOp(kv, a, at)
  {
    assert [a][1..] == [];
  }

  lemma Ops2<K, V>(kv: map<K, Entry<V>>, a: Op<K, V>, b: Op<K, V>, at: nat)
    ensures ApplyOps(kv, [a, b], at) == ApplyOp(ApplyOp(kv, a, at), b, at)
  {
    assert [a, b][1..] == [b];
    Ops1(ApplyOp(kv, a, at), b, at);
  }

  lemma Ops3<K, V>(kv: map<K, Entry<V>>, a: Op<K, V>, b: Op<K, V>, c: Op<K, V>, at: nat)
    ensures ApplyOps(kv, [a, b, c], at) == ApplyOp(ApplyOp(ApplyOp(kv, a, at), b, at), c, at)
  {
    assert [a, b, c][1..] == [b, c];
    Ops2(ApplyOp(kv, a, at), b, c, at);
  }

  lemma Ops4<K, V>(kv: map<K, Entry<V>>, a: Op<K, V>, b: Op<K, V>, c: Op<K, V>, d: Op<K, V>, at: nat)
    ensures ApplyOps(kv, [a, b, c, d], at) == ApplyOp(ApplyOp(ApplyOp(ApplyOp(kv, a, at), b, at), c, at), d, at)
  {
    assert [a, b, c, d][1..] == [b, c, d];
    Ops3(ApplyOp(kv, a, at), b, c, d, at);
  }
}
