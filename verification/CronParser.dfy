/**
 Cron expressions.  What an item of a field may look like is stated as a grammar, by how the
 text can be cut; the parser, which cuts at the first `/` and the first `-`, is proved against it.
 */
module CronParser {
  import opened CronMask
  import opened Text
  import opened Tickets

  type Names = map<string, int>

  const NO_NAMES: Names := map[]

  const MONTH_NAMES: Names := map[
    "jan" := 1, "feb" := 2, "mar" := 3, "apr" := 4, "may" := 5, "jun" := 6,
    "jul" := 7, "aug" := 8, "sep" := 9, "oct" := 10, "nov" := 11, "dec" := 12]

  const DOW_NAMES: Names := map["sun" := 0, "mon" := 1, "tue" := 2, "wed" := 3, "thu" := 4, "fri" := 5, "sat" := 6]

  /** The values a field may hold; `wrap` is 7 for the day of the week, where 7 is 0 again, else 0. */
  datatype Kind = Kind(lo: int, hi: int, wrap: nat, names: Names)

  const SECONDS := Kind(0, 59, 0, NO_NAMES)
  const MINUTES := Kind(0, 59, 0, NO_NAMES)
  const HOURS := Kind(0, 23, 0, NO_NAMES)
  const DOMS := Kind(1, 31, 0, NO_NAMES)
  const MONTHS := Kind(1, 12, 0, MONTH_NAMES)
  const DOWS := Kind(0, 7, 7, DOW_NAMES)

  predicate Sane(k: Kind) {
    0 <= k.lo <= k.hi < 60 && (k.wrap == 0 || (k.wrap == 7 && k.lo == 0 && k.hi == 7)) && "" !in k.names
  }

  /** From `from` up to `to` in steps of `step`. */
  datatype Item = Item(from: int, to: int, step: int)

  predicate Fits(k: Kind, x: Item) { k.lo <= x.from <= x.to <= k.hi && 1 <= x.step < TWO63 }

  // ------------------------------------------------------------------ the grammar of an item

  function ValueOf(s: string, names: Names): Option<int> {
    if s in names then Some(names[s]) else Atoi(s)
  }

  /** `*`, one value, or two with a dash between; one value with a step runs to the maximum. */
  ghost predicate IsRange(rng: string, k: Kind, stepped: bool, from: int, to: int) {
    if rng == "*" then from == k.lo && to == k.hi
    else
      && k.lo <= from && to <= k.hi && from <= to
      && if '-' in rng
         then exists a: string, b: string ::
                IsDash(rng, a, b) && ValueOf(a, k.names) == Some(from) && ValueOf(b, k.names) == Some(to)
         else ValueOf(rng, k.names) == Some(from) && to == if stepped then k.hi else from
  }

  ghost predicate IsDash(rng: string, a: string, b: string) { '-' !in a && rng == a + "-" + b }

  ghost predicate IsSlash(part: string, a: string, b: string) { '/' !in a && part == a + "/" + b }

  ghost predicate IsStepped(a: string, b: string, k: Kind, x: Item) {
    1 <= x.step && Atoi(b) == Some(x.step) && IsRange(a, k, true, x.from, x.to)
  }

  ghost predicate Denotes(part: string, k: Kind, x: Item) {
    if '/' in part
    then exists a: string, b: string :: IsSlash(part, a, b) && IsStepped(a, b, k, x)
    else part != "" && x.step == 1 && IsRange(part, k, false, x.from, x.to)
  }

  lemma DashIsFirst(rng: string, a: string, b: string)
    requires IsDash(rng, a, b)
    ensures Index(rng, '-') == |a| && rng[..|a|] == a && rng[|a| + 1..] == b
  {
    IndexOfCut(a, '-', b);
  }

  lemma SlashIsFirst(part: string, a: string, b: string)
    requires IsSlash(part, a, b)
    ensures Index(part, '/') == |a| && part[..|a|] == a && part[|a| + 1..] == b
  {
    IndexOfCut(a, '/', b);
  }

  lemma DashCut(rng: string, i: nat)
    requires i == Index(rng, '-') < |rng|
    ensures IsDash(rng, rng[..i], rng[i + 1..]) && '-' in rng
  {
    CutAt(rng, i);
    assert ['-'] == "-";
  }

  /** What a range says once it is cut at its first dash, or taken as one value twice. */
  predicate IsEnds(a: string, b: string, isRange: bool, k: Kind, stepped: bool, from: int, to: int) {
    && k.lo <= from && to <= k.hi && from <= to && ValueOf(a, k.names) == Some(from)
    && if isRange then ValueOf(b, k.names) == Some(to) else to == if stepped then k.hi else from
  }

  lemma RangeIff(rng: string, a: string, b: string, isRange: bool, k: Kind, stepped: bool, from: int, to: int)
    requires rng != "*" && (if isRange then IsDash(rng, a, b) && '-' in rng else '-' !in rng && a == rng)
    ensures IsRange(rng, k, stepped, from, to) <==> IsEnds(a, b, isRange, k, stepped, from, to)
  {
    forall x: string, y: string | IsDash(rng, x, y) && isRange ensures x == a && y == b {
      DashIsFirst(rng, x, y);
      DashIsFirst(rng, a, b);
    }
  }

  method ParseRange(rng: string, k: Kind, stepped: bool) returns (r: Option<(int, int)>)
    requires Sane(k)
    ensures r.Some? ==> IsRange(rng, k, stepped, r.value.0, r.value.1) && k.lo <= r.value.0 <= r.value.1 <= k.hi
    ensures forall from, to | IsRange(rng, k, stepped, from, to) :: r == Some((from, to))
  {
    if rng == "*" { return Some((k.lo, k.hi)); }
    var a, b, isRange := rng, rng, false;
    var i := Index(rng, '-');
    if i < |rng| {
      a, b, isRange := rng[..i], rng[i + 1..], true;
      DashCut(rng, i);
    }
    forall from, to ensures IsRange(rng, k, stepped, from, to) <==> IsEnds(a, b, isRange, k, stepped, from, to) {
      RangeIff(rng, a, b, isRange, k, stepped, from, to);
    }
    var av := ParseValue(a, k.names);
    var bv := ParseValue(b, k.names);
    if av.None? || bv.None? { return None; }
    if av.value < k.lo || av.value > k.hi || bv.value < k.lo || bv.value > k.hi || av.value > bv.value { return None; }
    return Some((av.value, if stepped && !isRange then k.hi else bv.value));
  }

  method ParseValue(s: string, names: Names) returns (r: Option<int>)
    requires "" !in names
    ensures r == ValueOf(s, names)
  {
    if s == "" { return None; }
    if s in names { return Some(names[s]); }
    r := Atoi(s);
  }

  lemma SlashCut(part: string, i: nat)
    requires i == Index(part, '/') < |part|
    ensures IsSlash(part, part[..i], part[i + 1..]) && '/' in part
  {
    CutAt(part, i);
    assert ['/'] == "/";
  }

  lemma SteppedDenotes(part: string, i: nat, k: Kind, x: Item)
    requires i == Index(part, '/') < |part| && Denotes(part, k, x)
    ensures IsStepped(part[..i], part[i + 1..], k, x)
  {
    SlashCut(part, i);
    var c: string, d: string :| IsSlash(part, c, d) && IsStepped(c, d, k, x);
    SlashIsFirst(part, c, d);
  }

  lemma DenotesStepped(part: string, i: nat, k: Kind, x: Item)
    requires i == Index(part, '/') < |part| && IsStepped(part[..i], part[i + 1..], k, x)
    ensures Denotes(part, k, x)
  {
    SlashCut(part, i);
  }

  /** `r` is what the part denotes, or nothing when it denotes nothing. */
  ghost predicate Yields(part: string, k: Kind, r: Option<Item>) {
    && (r.Some? ==> Denotes(part, k, r.value) && Fits(k, r.value))
    && forall x | Denotes(part, k, x) :: r == Some(x)
  }

  lemma SteppedYields(part: string, i: nat, k: Kind, r: Option<Item>)
    requires i == Index(part, '/') < |part|
    requires r.Some? ==> IsStepped(part[..i], part[i + 1..], k, r.value) && Fits(k, r.value)
    requires forall x | IsStepped(part[..i], part[i + 1..], k, x) :: r == Some(x)
    ensures Yields(part, k, r)
  {
    if r.Some? { DenotesStepped(part, i, k, r.value); }
    forall x | Denotes(part, k, x) ensures r == Some(x) { SteppedDenotes(part, i, k, x); }
  }

  method ParseItem(part: string, k: Kind) returns (r: Option<Item>)
    requires Sane(k)
    ensures Yields(part, k, r)
  {
    if part == "" { return None; }
    var step, rng, stepped := 1, part, false;
    var i := Index(part, '/');
    assert part[..|part|] == part;
    if i < |part| {
      rng := part[..i];
      var v := Atoi(part[i + 1..]);
      if v.None? || v.value < 1 {
        SteppedYields(part, i, k, None);
        return None;
      }
      step, stepped := v.value, true;
    }
    var ends := ParseRange(rng, k, stepped);
    r := if ends.None? then None else Some(Item(ends.value.0, ends.value.1, step));
    if stepped {
      SteppedYields(part, i, k, r);
    }
  }

  // ------------------------------------------------------------------ the bits of an item

  /** Go's remainder has the sign of the dividend. */
  function Rem(v: int, d: int): int
    requires d > 0
  {
    if v >= 0 then v % d else -((-v) % d)
  }

  function Fold(v: int, wrap: nat): int {
    if wrap > 0 then Rem(v, wrap) else v
  }

  /** A negative shift count turns into a huge one, and the bit is gone. */
  function Shifted(bit: int): bv64 { if bit < 0 then 0 else One(bit) }

  /** `b` is one of the bits an item stands for. */
  ghost predicate Means(x: Item, wrap: nat, b: nat) {
    x.step > 0 && exists v :: InItem(x, v) && Fold(v, wrap) == b
  }

  predicate InItem(x: Item, v: int)
    requires x.step > 0
  {
    x.from <= v <= x.to && (v - x.from) % x.step == 0
  }

  const HALF: int := 0x4000_0000_0000_0000

  /** The values the loop can stand at: in range, past the end, or just wrapped round. */
  predicate Standing(v: int, step: int) {
    && 1 <= step < TWO63
    && -TWO63 <= v < TWO63
    && (v >= -60 || (step >= HALF && -60 <= v + TWO64 - step < 60))
  }

  function Rank(v: int, to: int, step: int): int {
    if v > to then 0
    else if step < HALF then 1 + to - v
    else if v < -60 then 200 + 2 * (v + TWO64 - step)
    else 201 + 2 * v
  }

  lemma Wraps(x: int)
    requires -TWO63 <= x < TWO63 + TWO63
    ensures Wrap64(x) == if x < TWO63 then x else x - TWO64
  {
  }

  lemma Onward(v: int, to: int, step: int)
    requires Standing(v, step) && v <= to < 60
    ensures var w := Wrap64(v + step); Standing(w, step) && 0 <= Rank(w, to, step) < Rank(v, to, step)
  {
    Wraps(v + step);
  }

  /** The values the loop `for v := from; v <= to; v += step` goes through on 64-bit integers. */
  function Visited(v: int, to: int, step: int): set<int>
    requires Standing(v, step) && to < 60
    decreases Rank(v, to, step)
  {
    if v > to then {}
    else
      Onward(v, to, step);
      {v} + Visited(Wrap64(v + step), to, step)
  }

  /** `b` is one of the bits the loop sets for an item. */
  ghost predicate Marks(x: Item, wrap: nat, b: nat) {
    Standing(x.from, x.step) && x.to < 60 && FoldsFrom(Visited(x.from, x.to, x.step), wrap, b)
  }

  lemma MarkOne(bits: bv64, before: iset<nat>, done: set<int>, v: int, wrap: nat)
    requires IsMask(bits, before + Folded(done, wrap)) && Fold(v, wrap) < 60
    ensures IsMask(With(bits, Shifted(Fold(v, wrap))), before + Folded(done + {v}, wrap))
  {
    var bit := Fold(v, wrap);
    forall b: nat ensures FoldsFrom(done + {v}, wrap, b) <==> FoldsFrom(done, wrap, b) || b == bit {
      assert v in done + {v};
    }
    if bit >= 0 {
      GrowMask(bits, before + Folded(done, wrap), bit);
      assert before + Folded(done + {v}, wrap) == before + Folded(done, wrap) + iset{bit};
    } else {
      SameMask(bits, before + Folded(done, wrap));
      assert Folded(done + {v}, wrap) == Folded(done, wrap);
    }
  }

  lemma VisitOn(done: set<int>, v: int, to: int, step: int)
    requires Standing(v, step) && v <= to < 60 && Standing(Wrap64(v + step), step)
    ensures (done + {v}) + Visited(Wrap64(v + step), to, step) == done + Visited(v, to, step)
  {
  }

  lemma FoldUnder60(k: Kind, x: Item, v: int)
    requires Sane(k) && Fits(k, x) && v <= x.to
    ensures Fold(v, k.wrap) < 60
  {
  }

  /** The inner loop of the field parser. */
  method MarkItem(bits: bv64, x: Item, k: Kind, ghost before: iset<nat>) returns (r: bv64)
    requires Sane(k) && Fits(k, x) && IsMask(bits, before)
    ensures IsMask(r, before + iset b: nat | Marks(x, k.wrap, b))
  {
    r := bits;
    var v := x.from;
    ghost var done: set<int> := {};
    assert before + Folded({}, k.wrap) == before;
    while v <= x.to
      invariant Standing(v, x.step)
      invariant done + Visited(v, x.to, x.step) == Visited(x.from, x.to, x.step)
      invariant IsMask(r, before + Folded(done, k.wrap))
      decreases Rank(v, x.to, x.step)
    {
      var bit := v;
      if k.wrap > 0 { bit := Rem(bit, k.wrap); }
      FoldUnder60(k, x, v);
      MarkOne(r, before, done, v, k.wrap);
      r := With(r, Shifted(bit));
      Onward(v, x.to, x.step);
      VisitOn(done, v, x.to, x.step);
      done := done + {v};
      v := Wrap64(v + x.step);
    }
    MarksAre(x, k.wrap, done);
  }

  lemma MarksAre(x: Item, wrap: nat, done: set<int>)
    requires Standing(x.from, x.step) && x.to < 60 && done == Visited(x.from, x.to, x.step)
    ensures Folded(done, wrap) == iset b: nat | Marks(x, wrap, b)
  {
  }

  ghost function Folded(vs: set<int>, wrap: nat): iset<nat> {
    iset b: nat | FoldsFrom(vs, wrap, b)
  }

  ghost predicate FoldsFrom(vs: set<int>, wrap: nat, b: nat) {
    exists v :: v in vs && Fold(v, wrap) == b
  }

  // ------------------------------------------------------------------ fields

  ghost predicate ItemsOf(field: string, k: Kind, items: seq<Item>) {
    var parts := Split(field, ',');
    |items| == |parts| && forall i | 0 <= i < |parts| :: Denotes(parts[i], k, items[i]) && Fits(k, items[i])
  }

  ghost predicate MarkedBy(items: seq<Item>, wrap: nat, b: nat) {
    exists i | 0 <= i < |items| :: Marks(items[i], wrap, b)
  }

  ghost function AllMarks(items: seq<Item>, wrap: nat): iset<nat> { iset b: nat | MarkedBy(items, wrap, b) }

  /** The word is what the field parser makes of the field. */
  ghost predicate FieldMask(field: string, k: Kind, m: bv64) {
    exists items :: ItemsOf(field, k, items) && IsMask(m, AllMarks(items, k.wrap))
  }

  lemma MarksSnoc(items: seq<Item>, x: Item, wrap: nat)
    ensures AllMarks(items + [x], wrap) == AllMarks(items, wrap) + iset b: nat | Marks(x, wrap, b)
  {
    var more := items + [x];
    forall b: nat ensures MarkedBy(more, wrap, b) <==> MarkedBy(items, wrap, b) || Marks(x, wrap, b) {
      if MarkedBy(items, wrap, b) {
        var i :| 0 <= i < |items| && Marks(items[i], wrap, b);
        assert more[i] == items[i];
      }
      assert more[|items|] == x;
    }
  }

  /** The first value of an item is always marked, so no accepted field is empty. */
  lemma FirstIsMarked(k: Kind, x: Item)
    requires Sane(k) && Fits(k, x)
    ensures 0 <= Fold(x.from, k.wrap) < 60 && Marks(x, k.wrap, Fold(x.from, k.wrap))
  {
    assert x.from in Visited(x.from, x.to, x.step);
  }

  method ParseField(field: string, k: Kind) returns (r: Option<bv64>)
    requires Sane(k)
    ensures r.Some? ==> FieldMask(field, k, r.value)
    ensures r.None? ==> forall m :: !FieldMask(field, k, m)
  {
    var bits: bv64 := 0;
    var parts := Split(field, ',');
    ghost var items: seq<Item> := [];
    EmptyMask();
    assert AllMarks([], k.wrap) == iset{};
    for i := 0 to |parts|
      invariant |items| == i
      invariant forall j | 0 <= j < i :: Denotes(parts[j], k, items[j]) && Fits(k, items[j])
      invariant IsMask(bits, AllMarks(items, k.wrap))
    {
      var x := ParseItem(parts[i], k);
      if x.None? { return None; }
      bits := MarkItem(bits, x.value, k, AllMarks(items, k.wrap));
      MarksSnoc(items, x.value, k.wrap);
      items := items + [x.value];
    }
    if bits == 0 {
      NotEmpty(k, items);
      return None;
    }
    r := Some(bits);
  }

  lemma NotEmpty(k: Kind, items: seq<Item>)
    requires Sane(k) && items != [] && Fits(k, items[0])
    ensures !IsMask(0, AllMarks(items, k.wrap))
  {
    FirstIsMarked(k, items[0]);
    var b := Fold(items[0].from, k.wrap);
    assert MarkedBy(items, k.wrap, b);
    EmptyWord(b);
  }
}
