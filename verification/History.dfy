/**
 The history mirror: a snapshot of the result keys, then a watch from the next revision on, all
 of it into rows that are inserted or ignored, again after every loss of the watch.
 */
module History {
  import opened Tickets

  datatype ResultKey = ResultKey(stamp: Stamp, attempt: int)

  /** A stored value: one that decodes, or one that does not. */
  datatype Raw = Decodable(result: Result) | Garbled

  datatype Event = PutEvent(rev: nat, key: ResultKey, raw: Raw) | DeleteEvent(rev: nat, key: ResultKey)

  datatype Pair = Pair(key: ResultKey, raw: Raw)

  type Rows = map<ResultKey, Result>

  ghost predicate Ordered(log: seq<Event>) { forall i, j | 0 <= i < j < |log| :: log[i].rev <= log[j].rev }

  /** The result keys that are there once `log` has happened. */
  function Live(log: seq<Event>): map<ResultKey, Raw> {
    if log == [] then map[]
    else
      var before, e := Live(log[..|log| - 1]), log[|log| - 1];
      if e.PutEvent? then before[e.key := e.raw] else before - {e.key}
  }

  /** How many events happened up to revision `rev`. */
  function Upto(log: seq<Event>, rev: nat): (n: nat)
    ensures n <= |log| && (forall i | 0 <= i < n :: log[i].rev <= rev) && (n < |log| ==> log[n].rev > rev)
  {
    if log == [] || log[0].rev > rev then 0
    else
      var n := 1 + Upto(log[1..], rev);
      assert forall i | 0 < i < n :: log[i] == log[1..][i - 1];
      n
  }

  /** A read of all result keys at one revision: every live key once. */
  ghost predicate SnapshotOf(kvs: seq<Pair>, live: map<ResultKey, Raw>) {
    && (forall i | 0 <= i < |kvs| :: kvs[i].key in live && live[kvs[i].key] == kvs[i].raw)
    && (forall k | k in live :: Pair(k, live[k]) in kvs)
  }

  function Puts(events: seq<Event>): seq<Pair> {
    if events == [] then []
    else
      var e := events[|events| - 1];
      Puts(events[..|events| - 1]) + (if e.PutEvent? then [Pair(e.key, e.raw)] else [])
  }

  function Insert(rows: Rows, p: Pair): Rows {
    if p.raw.Garbled? || p.key in rows then rows else rows[p.key := p.raw.result]
  }

  function Absorb(rows: Rows, ps: seq<Pair>): Rows {
    if ps == [] then rows else Insert(Absorb(rows, ps[..|ps| - 1]), ps[|ps| - 1])
  }

  /** One stretch of the mirror's loop: a snapshot at revision `at`, then events up to the `until`-th. */
  datatype Connection = Connection(at: nat, kvs: seq<Pair>, until: nat)

  ghost predicate Possible(log: seq<Event>, c: Connection) {
    Upto(log, c.at) <= c.until <= |log| && SnapshotOf(c.kvs, Live(log[..Upto(log, c.at)]))
  }

  /** The events the watch of a stretch delivers. */
  function Watched(log: seq<Event>, c: Connection): seq<Event> {
    if Upto(log, c.at) <= c.until <= |log| then log[Upto(log, c.at)..c.until] else []
  }

  /** Everything the mirror is shown in one stretch, in order. */
  function Shown(log: seq<Event>, c: Connection): seq<Pair> { c.kvs + Puts(Watched(log, c)) }

  function ShownIn(log: seq<Event>, cs: seq<Connection>): seq<Pair> {
    if cs == [] then [] else ShownIn(log, cs[..|cs| - 1]) + Shown(log, cs[|cs| - 1])
  }

  class Mirror {
    var rows: Rows

    constructor ()
      ensures rows == map[]
    {
      rows := map[];
    }

    method Put(key: ResultKey, raw: Raw)
      modifies this
      ensures rows == Insert(old(rows), Pair(key, raw))
    {
      match raw
      case Garbled =>
      case Decodable(result) => if key !in rows { rows := rows[key := result]; }
    }

    method Load(kvs: seq<Pair>)
      modifies this
      ensures rows == Absorb(old(rows), kvs)
    {
      for i := 0 to |kvs|
        invariant rows == Absorb(old(rows), kvs[..i])
      {
        Put(kvs[i].key, kvs[i].raw);
        assert kvs[..i + 1][..i] == kvs[..i];
      }
      assert kvs[..|kvs|] == kvs;
    }

    method Follow(events: seq<Event>)
      modifies this
      ensures rows == Absorb(old(rows), Puts(events))
    {
      for i := 0 to |events|
        invariant rows == Absorb(old(rows), Puts(events[..i]))
      {
        assert events[..i + 1][..i] == events[..i];
        if events[i].PutEvent? {
          Put(events[i].key, events[i].raw);
          AbsorbSnoc(old(rows), Puts(events[..i]), Pair(events[i].key, events[i].raw));
        } else {
          assert Puts(events[..i + 1]) == Puts(events[..i]);
        }
      }
      assert events[..|events|] == events;
    }

    /** One pass of the loop: the snapshot, then the watch until it is closed. */
    method Connect(log: seq<Event>, c: Connection)
      requires Possible(log, c)
      modifies this
      ensures rows == Absorb(old(rows), Shown(log, c))
    {
      Load(c.kvs);
      Follow(Watched(log, c));
      AbsorbMore(old(rows), c.kvs, Puts(Watched(log, c)));
    }

    /** The loop of `Run`, for as many connections as it gets. */
    method Run(log: seq<Event>, cs: seq<Connection>)
      requires forall i | 0 <= i < |cs| :: Possible(log, cs[i])
      modifies this
      ensures rows == Absorb(old(rows), ShownIn(log, cs))
    {
      for i := 0 to |cs|
        invariant rows == Absorb(old(rows), ShownIn(log, cs[..i]))
      {
        Connect(log, cs[i]);
        AbsorbMore(old(rows), ShownIn(log, cs[..i]), Shown(log, cs[i]));
        assert cs[..i + 1][..i] == cs[..i];
      }
      assert cs[..|cs|] == cs;
    }
  }

  lemma AbsorbSnoc(rows: Rows, ps: seq<Pair>, p: Pair)
    ensures Absorb(rows, ps + [p]) == Insert(Absorb(rows, ps), p)
  {
    assert (ps + [p])[..|ps|] == ps;
  }

  lemma {:induction false} AbsorbMore(rows: Rows, a: seq<Pair>, b: seq<Pair>)
    ensures Absorb(rows, a + b) == Absorb(Absorb(rows, a), b)
    decreases |b|
  {
    if b == [] {
      assert a + b == a;
    } else {
      AbsorbMore(rows, a, b[..|b| - 1]);
      assert (a + b)[..|a + b| - 1] == a + b[..|b| - 1];
    }
  }

  /** `v` is the first decodable value shown for `k`. */
  ghost predicate FirstShown(ps: seq<Pair>, k: ResultKey, v: Result) {
    exists i | 0 <= i < |ps| :: ps[i] == Pair(k, Decodable(v)) && NotShown(ps[..i], k)
  }

  ghost predicate NotShown(ps: seq<Pair>, k: ResultKey) {
    forall j | 0 <= j < |ps| :: ps[j].key == k ==> ps[j].raw.Garbled?
  }

  /** A key has a row exactly when it had one or was shown decodably; the first value shown stays. */
  lemma {:induction false} RowsAre(rows: Rows, ps: seq<Pair>, k: ResultKey)
    ensures k in rows ==> k in Absorb(rows, ps) && Absorb(rows, ps)[k] == rows[k]
    ensures k !in rows ==> (k !in Absorb(rows, ps) <==> NotShown(ps, k))
    ensures k !in rows && k in Absorb(rows, ps) ==> FirstShown(ps, k, Absorb(rows, ps)[k])
    decreases |ps|
  {
    if ps != [] {
      var n := |ps| - 1;
      var ps' := ps[..n];
      RowsAre(rows, ps', k);
      assert forall i | 0 <= i < n :: ps'[i] == ps[i];
      if k !in rows && k in Absorb(rows, ps') {
        var v := Absorb(rows, ps')[k];
        var i :| 0 <= i < n && ps'[i] == Pair(k, Decodable(v)) && NotShown(ps'[..i], k);
        assert ps[i] == Pair(k, Decodable(v)) && ps[..i] == ps'[..i];
      }
    }
  }

  // ------------------------------------------------------------------ theorems

  predicate IsPut(e: Event, k: ResultKey, raw: Raw) { e.PutEvent? && e.key == k && e.raw == raw }

  lemma {:induction false} PutsHas(events: seq<Event>, k: ResultKey, raw: Raw)
    ensures Pair(k, raw) in Puts(events) <==> exists i | 0 <= i < |events| :: IsPut(events[i], k, raw)
    decreases |events|
  {
    if events != [] {
      var n := |events| - 1;
      PutsHas(events[..n], k, raw);
      assert forall i | 0 <= i < n :: events[..n][i] == events[i];
    }
  }

  lemma ShownHasRow(rows: Rows, ps: seq<Pair>, k: ResultKey, v: Result)
    requires Pair(k, Decodable(v)) in ps
    ensures k in Absorb(rows, ps)
  {
    RowsAre(rows, ps, k);
    var i :| 0 <= i < |ps| && ps[i] == Pair(k, Decodable(v));
  }

  /** `v` was the value of `k` at the snapshot, or was put after it and up to revision `r`. */
  ghost predicate LiveOrPut(log: seq<Event>, at: nat, r: nat, k: ResultKey, v: Result) {
    || LiveAt(log, at, k, v)
    || (exists i | 0 <= i < |log| :: at < log[i].rev <= r && IsPut(log[i], k, Decodable(v)))
  }

  ghost predicate LiveAt(log: seq<Event>, at: nat, k: ResultKey, v: Result) {
    var live := Live(log[..Upto(log, at)]);
    k in live && live[k] == Decodable(v)
  }

  lemma UptoSplits(log: seq<Event>, rev: nat, i: nat)
    requires Ordered(log) && i < |log|
    ensures i < Upto(log, rev) <==> log[i].rev <= rev
  {
  }

  lemma PutIsShown(log: seq<Event>, c: Connection, k: ResultKey, v: Result, i: nat)
    requires Upto(log, c.at) <= i < c.until <= |log| && IsPut(log[i], k, Decodable(v))
    ensures Pair(k, Decodable(v)) in Shown(log, c)
  {
    var w := Watched(log, c);
    assert IsPut(w[i - Upto(log, c.at)], k, Decodable(v));
    PutsHas(w, k, Decodable(v));
  }

  lemma IsShown(log: seq<Event>, c: Connection, r: nat, k: ResultKey, v: Result)
    requires Ordered(log) && Possible(log, c) && c.at <= r && c.until == Upto(log, r)
    requires LiveOrPut(log, c.at, r, k, v)
    ensures Pair(k, Decodable(v)) in Shown(log, c)
  {
    if LiveAt(log, c.at, k, v) {
      assert Pair(k, Decodable(v)) in c.kvs;
    } else {
      var i :| 0 <= i < |log| && c.at < log[i].rev <= r && IsPut(log[i], k, Decodable(v));
      UptoSplits(log, c.at, i);
      UptoSplits(log, r, i);
      PutIsShown(log, c, k, v, i);
    }
  }

  /**
   Once a stretch has handled everything up to revision `r`, every decodable result that was live
   at the snapshot or put since has a row, and the rows there were before are as they were.
   */
  lemma MirrorAgrees(log: seq<Event>, c: Connection, r: nat, rows: Rows, k: ResultKey, v: Result)
    requires Ordered(log) && Possible(log, c) && c.at <= r && c.until == Upto(log, r)
    requires LiveOrPut(log, c.at, r, k, v)
    ensures var rows' := Absorb(rows, Shown(log, c));
      && k in rows'
      && (k in rows ==> rows'[k] == rows[k])
      && (k !in rows ==> FirstShown(Shown(log, c), k, rows'[k]))
  {
    IsShown(log, c, r, k, v);
    ShownHasRow(rows, Shown(log, c), k, v);
    RowsAre(rows, Shown(log, c), k);
  }

  /** What one stretch shows of a key: its value at the snapshot, and the puts the watch delivers. */
  ghost predicate Shows(log: seq<Event>, c: Connection, k: ResultKey, v: Result) {
    || LiveAt(log, c.at, k, v)
    || (exists i | Upto(log, c.at) <= i < c.until && i < |log| :: IsPut(log[i], k, Decodable(v)))
  }

  lemma ShownIff(log: seq<Event>, c: Connection, k: ResultKey, v: Result)
    requires Possible(log, c)
    ensures Pair(k, Decodable(v)) in Shown(log, c) <==> Shows(log, c, k, v)
  {
    PutsHas(Watched(log, c), k, Decodable(v));
    if LiveAt(log, c.at, k, v) { assert Pair(k, Decodable(v)) in c.kvs; }
    if exists i | 0 <= i < |Watched(log, c)| :: IsPut(Watched(log, c)[i], k, Decodable(v)) {
      var i :| 0 <= i < |Watched(log, c)| && IsPut(Watched(log, c)[i], k, Decodable(v));
      assert log[Upto(log, c.at) + i] == Watched(log, c)[i];
    }
    if exists i | Upto(log, c.at) <= i < c.until && i < |log| :: IsPut(log[i], k, Decodable(v)) {
      var i :| Upto(log, c.at) <= i < c.until && i < |log| && IsPut(log[i], k, Decodable(v));
      PutIsShown(log, c, k, v, i);
    }
  }

  lemma NotShownIff(ps: seq<Pair>, k: ResultKey)
    ensures NotShown(ps, k) <==> forall v :: Pair(k, Decodable(v)) !in ps
  {
    forall j | 0 <= j < |ps| && ps[j].key == k && ps[j].raw.Decodable?
      ensures Pair(k, Decodable(ps[j].raw.result)) in ps
    {
      assert ps[j] == Pair(k, Decodable(ps[j].raw.result));
    }
  }

  ghost predicate Hides(log: seq<Event>, c: Connection, k: ResultKey) { forall v :: !Shows(log, c, k, v) }

  lemma StretchIff(log: seq<Event>, c: Connection, rows: Rows, k: ResultKey)
    requires Possible(log, c) && k !in rows
    ensures k !in Absorb(rows, Shown(log, c)) <==> Hides(log, c, k)
  {
    RowsAre(rows, Shown(log, c), k);
    NotShownIff(Shown(log, c), k);
    forall v ensures Pair(k, Decodable(v)) in Shown(log, c) <==> Shows(log, c, k, v) {
      ShownIff(log, c, k, v);
    }
  }

  /**
   The exact condition: a stretch up to revision `r` brings a new row iff a decodable value of the key was
   live or put.
   */
  lemma NewRowIff(log: seq<Event>, c: Connection, r: nat, rows: Rows, k: ResultKey)
    requires Ordered(log) && Possible(log, c) && c.at <= r && c.until == Upto(log, r)
    requires k !in rows
    ensures k in Absorb(rows, Shown(log, c)) <==> exists v :: LiveOrPut(log, c.at, r, k, v)
  {
    StretchIff(log, c, rows, k);
    forall v ensures Shows(log, c, k, v) <==> LiveOrPut(log, c.at, r, k, v) {
      forall i | 0 <= i < |log| ensures Upto(log, c.at) <= i < c.until <==> c.at < log[i].rev <= r {
        UptoSplits(log, c.at, i);
        UptoSplits(log, r, i);
      }
    }
  }

  predicate ShowsDecodably(e: Event, k: ResultKey) { e.PutEvent? && e.key == k && e.raw.Decodable? }

  /** Of the events from the `a`-th to the `b`-th, the first one to put a decodable value of `k` puts `v`. */
  ghost predicate FirstPut(log: seq<Event>, a: nat, b: nat, k: ResultKey, v: Result) {
    exists i | a <= i < b && i < |log| ::
      IsPut(log[i], k, Decodable(v)) && forall j | a <= j < i :: !ShowsDecodably(log[j], k)
  }

  lemma {:induction false} FirstOfPuts(events: seq<Event>, k: ResultKey, v: Result)
    requires FirstShown(Puts(events), k, v)
    ensures FirstPut(events, 0, |events|, k, v)
    decreases |events|
  {
    var n := |events| - 1;
    var before, ps := events[..n], Puts(events[..n]);
    var i :| 0 <= i < |Puts(events)| && Puts(events)[i] == Pair(k, Decodable(v)) && NotShown(Puts(events)[..i], k);
    assert forall j | 0 <= j < n :: before[j] == events[j];
    if i < |ps| {
      assert ps[i] == Pair(k, Decodable(v)) && Puts(events)[..i] == ps[..i];
      FirstOfPuts(before, k, v);
    } else {
      assert Puts(events)[..i] == ps;
      NonePut(before, k);
      assert IsPut(events[n], k, Decodable(v));
    }
  }

  lemma {:induction false} NonePut(events: seq<Event>, k: ResultKey)
    requires NotShown(Puts(events), k)
    ensures forall j | 0 <= j < |events| :: !ShowsDecodably(events[j], k)
    decreases |events|
  {
    if events != [] {
      var n := |events| - 1;
      var ps := Puts(events[..n]);
      assert forall i | 0 <= i < |ps| :: Puts(events)[i] == ps[i];
      NonePut(events[..n], k);
      assert forall j | 0 <= j < n :: events[..n][j] == events[j];
      if events[n].PutEvent? { assert Puts(events)[|ps|] == Pair(events[n].key, events[n].raw); }
    }
  }

  lemma NotShownParts(a: seq<Pair>, b: seq<Pair>, k: ResultKey)
    requires NotShown(a + b, k)
    ensures NotShown(b, k)
  {
    forall j | 0 <= j < |b| && b[j].key == k ensures b[j].raw.Garbled? { assert (a + b)[|a| + j] == b[j]; }
  }

  /** Of what one stretch shows, the snapshot comes first, and then the puts in their order. */
  lemma FirstOfShown(log: seq<Event>, c: Connection, k: ResultKey, v: Result)
    requires Possible(log, c) && FirstShown(Shown(log, c), k, v)
    ensures LiveAt(log, c.at, k, v) || FirstShown(Puts(Watched(log, c)), k, v)
    ensures (exists w :: LiveAt(log, c.at, k, w)) ==> LiveAt(log, c.at, k, v)
  {
    var ps, puts := Shown(log, c), Puts(Watched(log, c));
    var i :| 0 <= i < |ps| && ps[i] == Pair(k, Decodable(v)) && NotShown(ps[..i], k);
    if i < |c.kvs| {
      assert ps[i] == c.kvs[i];
    } else {
      assert ps[..i] == c.kvs + puts[..i - |c.kvs|] && puts[i - |c.kvs|] == ps[i];
      NotShownParts(c.kvs, puts[..i - |c.kvs|], k);
      assert forall j | 0 <= j < |c.kvs| :: c.kvs[j] == ps[..i][j];
    }
  }

  lemma FirstAmong(log: seq<Event>, a: nat, w: seq<Event>, k: ResultKey, v: Result)
    requires a + |w| <= |log| && w == log[a..a + |w|] && FirstPut(w, 0, |w|, k, v)
    ensures FirstPut(log, a, a + |w|, k, v)
  {
    var i :| 0 <= i < |w| && IsPut(w[i], k, Decodable(v)) && forall j | 0 <= j < i :: !ShowsDecodably(w[j], k);
    assert log[a + i] == w[i];
    forall j | a <= j < a + i ensures !ShowsDecodably(log[j], k) { assert log[j] == w[j - a]; }
  }

  /**
   What a new row holds: the value that was live at the snapshot, if that decodes, and otherwise the first
   decodable one that was put while watched.
   */
  lemma NewRowHolds(log: seq<Event>, c: Connection, rows: Rows, k: ResultKey)
    requires Possible(log, c) && k !in rows && k in Absorb(rows, Shown(log, c))
    ensures var v := Absorb(rows, Shown(log, c))[k];
      if exists u :: LiveAt(log, c.at, k, u) then LiveAt(log, c.at, k, v)
      else FirstPut(log, Upto(log, c.at), c.until, k, v)
  {
    RowsAre(rows, Shown(log, c), k);
    var v := Absorb(rows, Shown(log, c))[k];
    FirstOfShown(log, c, k, v);
    if !LiveAt(log, c.at, k, v) {
      FirstOfPuts(Watched(log, c), k, v);
      FirstAmong(log, Upto(log, c.at), Watched(log, c), k, v);
    }
  }

  ghost predicate AllHide(log: seq<Event>, cs: seq<Connection>, k: ResultKey) {
    forall i | 0 <= i < |cs| :: Hides(log, cs[i], k)
  }

  lemma AllHideButLast(log: seq<Event>, cs: seq<Connection>, k: ResultKey)
    requires cs != []
    ensures AllHide(log, cs, k) <==> AllHide(log, cs[..|cs| - 1], k) && Hides(log, cs[|cs| - 1], k)
  {
    assert forall i | 0 <= i < |cs| - 1 :: cs[..|cs| - 1][i] == cs[i];
  }

  lemma LastStretch(log: seq<Event>, cs: seq<Connection>, rows: Rows, k: ResultKey)
    requires cs != [] && Possible(log, cs[|cs| - 1])
    ensures var before := Absorb(rows, ShownIn(log, cs[..|cs| - 1]));
      k !in Absorb(rows, ShownIn(log, cs)) <==> k !in before && Hides(log, cs[|cs| - 1], k)
  {
    var n := |cs| - 1;
    var before := Absorb(rows, ShownIn(log, cs[..n]));
    AbsorbMore(rows, ShownIn(log, cs[..n]), Shown(log, cs[n]));
    if k in before {
      RowsAre(before, Shown(log, cs[n]), k);
    } else {
      StretchIff(log, cs[n], before, k);
    }
  }

  /** Over any number of stretches a result stays without a row if and only if none of them showed it. */
  lemma {:induction false} LostIff(log: seq<Event>, cs: seq<Connection>, rows: Rows, k: ResultKey)
    requires forall i | 0 <= i < |cs| :: Possible(log, cs[i])
    requires k !in rows
    ensures k !in Absorb(rows, ShownIn(log, cs)) <==> AllHide(log, cs, k)
    decreases |cs|
  {
    if cs != [] {
      LostIff(log, cs[..|cs| - 1], rows, k);
      LastStretch(log, cs, rows, k);
      AllHideButLast(log, cs, k);
    }
  }

  /** Whatever comes later, new connections and deletions included, a row never changes. */
  lemma RowsNeverChange(log: seq<Event>, cs: seq<Connection>, rows: Rows, k: ResultKey)
    requires forall i | 0 <= i < |cs| :: Possible(log, cs[i])
    requires k in rows
    ensures k in Absorb(rows, ShownIn(log, cs)) && Absorb(rows, ShownIn(log, cs))[k] == rows[k]
  {
    RowsAre(rows, ShownIn(log, cs), k);
  }

  lemma {:induction false} LiveWasPut(log: seq<Event>, k: ResultKey)
    requires k in Live(log)
    ensures exists i | 0 <= i < |log| :: log[i] == PutEvent(log[i].rev, k, Live(log)[k])
    decreases |log|
  {
    var n := |log| - 1;
    var e := log[n];
    if e.PutEvent? && e.key == k {
      assert log[n] == PutEvent(log[n].rev, k, Live(log)[k]);
    } else {
      LiveWasPut(log[..n], k);
      var i :| 0 <= i < n && log[..n][i] == PutEvent(log[..n][i].rev, k, Live(log[..n])[k]);
      assert log[i] == log[..n][i];
    }
  }

  lemma {:induction false} PutStaysLive(log: seq<Event>, k: ResultKey, i: nat)
    requires i < |log| && log[i].PutEvent? && log[i].key == k
    requires forall j | i < j < |log| :: log[j].key == k ==> log[j].PutEvent?
    ensures k in Live(log)
    decreases |log|
  {
    if i < |log| - 1 { PutStaysLive(log[..|log| - 1], k, i); }
  }

  /**
   A result that is not collected before revision `r` is not missed, however often the watch was
   lost before: the last stretch makes up for it.
   */
  lemma NothingUncollectedIsMissed(log: seq<Event>, c: Connection, r: nat, rows: Rows, k: ResultKey, i: nat)
    requires Ordered(log) && Possible(log, c) && c.at <= r && c.until == Upto(log, r)
    requires i < |log| && log[i].rev <= r && log[i].PutEvent? && log[i].key == k
    requires forall j | 0 <= j < |log| && log[j].key == k && log[j].rev <= r ::
               log[j].PutEvent? && log[j].raw.Decodable?
    ensures k in Absorb(rows, Shown(log, c))
  {
    var n := Upto(log, c.at);
    if i < n {
      PutStaysLive(log[..n], k, i);
      LiveWasPut(log[..n], k);
      var j :| 0 <= j < n && log[..n][j] == PutEvent(log[..n][j].rev, k, Live(log[..n])[k]);
      assert log[j] == log[..n][j];
      assert LiveAt(log, c.at, k, log[j].raw.result);
      MirrorAgrees(log, c, r, rows, k, log[j].raw.result);
    } else {
      assert IsPut(log[i], k, Decodable(log[i].raw.result));
      MirrorAgrees(log, c, r, rows, k, log[i].raw.result);
    }
  }

  function PutThenCollected(k: ResultKey, v: Result): seq<Event> { [PutEvent(1, k, Decodable(v)), DeleteEvent(2, k)] }

  lemma NoneLive(k: ResultKey, v: Result)
    ensures var log := PutThenCollected(k, v);
      Upto(log, 0) == 0 && Upto(log, 2) == 2 && Live(log[..0]) == map[] == Live(log[..2])
  {
    var log := PutThenCollected(k, v);
    assert log[1..] == [DeleteEvent(2, k)];
    assert [DeleteEvent(2, k)][1..] == [];
    assert Upto([DeleteEvent(2, k)], 2) == 1;
    assert log[..2] == log;
    assert log[..1] == [PutEvent(1, k, Decodable(v))];
    assert log[..1][..0] == [];
    assert Live(log[..1]) == map[k := Decodable(v)];
    assert Live(log) == Live(log[..1]) - {k} == map[];
  }

  /** A result put and collected between two stretches is never shown, and never gets a row. */
  lemma CollectedUnseenIsLost(k: ResultKey, v: Result)
    ensures var log := PutThenCollected(k, v);
      var cs := [Connection(0, [], 0), Connection(2, [], 2)];
      && Ordered(log) && Possible(log, cs[0]) && Possible(log, cs[1])
      && k !in Absorb(map[], ShownIn(log, cs))
  {
    var log := PutThenCollected(k, v);
    var cs := [Connection(0, [], 0), Connection(2, [], 2)];
    NoneLive(k, v);
    NothingShown(log, 0);
    NothingShown(log, 2);
    TwoShown(log, cs[0], cs[1]);
    assert [] + [] == ShownIn(log, cs);
  }

  lemma NothingShown(log: seq<Event>, at: nat)
    requires Live(log[..Upto(log, at)]) == map[]
    ensures var c := Connection(at, [], Upto(log, at)); Possible(log, c) && Shown(log, c) == []
  {
    assert Watched(log, Connection(at, [], Upto(log, at))) == [];
  }

  lemma TwoShown(log: seq<Event>, c: Connection, d: Connection)
    ensures ShownIn(log, [c, d]) == Shown(log, c) + Shown(log, d)
  {
    var cs := [c, d];
    assert cs[..1] == [c] && [c][..0] == [];
    assert ShownIn(log, [c]) == [] + Shown(log, c) == Shown(log, c);
  }
}
