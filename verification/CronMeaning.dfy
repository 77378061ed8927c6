/**
 What the field parser's loop marks against what an item means.  The loop adds the step on
 64-bit integers, so a step close to 2^63 wraps round and marks bits that the item does not mean;
 `Sound` is exactly the condition under which it does not.
 */
module CronMeaning {
  import opened CronMask
  import opened CronParser
  import opened Text
  import opened Tickets

  /** The loop does not wrap, or wraps only onto values that leave no bit of their own. */
  predicate Sound(k: Kind, x: Item) {
    || x.from + x.step < TWO63
    || (x.from + 2 * x.step < TWO64 && (k.wrap == 0 || x.from == k.wrap || x.from + x.step != TWO63 + 1))
  }

  /** The loop marks for an item exactly what the item means. */
  ghost predicate Faithful(k: Kind, x: Item) { forall b: nat :: Marks(x, k.wrap, b) <==> Means(x, k.wrap, b) }

  lemma {:induction false} ReachedBySteps(w: int, v: int, x: Item)
    requires 1 <= x.step < TWO63 && 0 <= w <= v <= x.to < 60 && (v - w) % x.step == 0
    ensures v in Visited(w, x.to, x.step)
    decreases v - w
  {
    if w < v {
      StepsApart(v - w, x.step);
      Wraps(w + x.step);
      ReachedBySteps(w + x.step, v, x);
    }
  }

  lemma StepsApart(d: int, step: int)
    requires 0 < d && 1 <= step && d % step == 0
    ensures step <= d && (d - step) % step == 0
  {
    ModSub(d, step);
  }

  lemma ModSub(d: int, step: int)
    requires 1 <= step
    ensures (d - step) % step == d % step
  {
    var q, r := d / step, d % step;
    assert d == q * step + r;
    assert d - step == (q - 1) * step + r;
    ModOf(q - 1, r, step);
  }

  lemma ModOf(q: int, r: int, step: int)
    requires 0 <= r < step
    ensures (q * step + r) % step == r
  {
    var n := q * step + r;
    assert n == (n / step) * step + n % step;
    assert (q - n / step) * step == n % step - r;
    NoMultipleBetween(q - n / step, step, n % step - r);
  }

  lemma NoMultipleBetween(q: int, step: int, d: int)
    requires -step < d < step && q * step == d
    ensures d == 0
  {
    assert q >= 1 ==> q * step >= step;
    assert q <= -1 ==> q * step <= -step;
  }

  /** Nothing an item means is missed. */
  lemma MeantIsMarked(k: Kind, x: Item, b: nat)
    requires Sane(k) && Fits(k, x) && Means(x, k.wrap, b)
    ensures Marks(x, k.wrap, b)
  {
    var v :| InItem(x, v) && Fold(v, k.wrap) == b;
    ReachedBySteps(x.from, v, x);
  }

  lemma {:induction false} SmallStepsStay(w: int, x: Item, v: int)
    requires 1 <= x.step < HALF && 0 <= x.from <= w && x.to < 60 && w < TWO63 && (w - x.from) % x.step == 0
    requires v in Visited(w, x.to, x.step)
    ensures InItem(x, v)
    decreases Rank(w, x.to, x.step)
  {
    if v != w {
      Wraps(w + x.step);
      Onward(w, x.to, x.step);
      ModSub(w + x.step - x.from, x.step);
      SmallStepsStay(w + x.step, x, v);
    }
  }

  /** A step too long to wrap or to land in the field again: only the first value is visited. */
  lemma OneVisit(x: Item)
    requires 0 <= x.from <= x.to < 60 && HALF <= x.step && x.from + x.step < TWO63
    ensures Visited(x.from, x.to, x.step) == {x.from}
  {
    Wraps(x.from + x.step);
    assert Visited(x.from + x.step, x.to, x.step) == {};
  }

  /** When the first addition wraps, the second comes back below the start. */
  lemma WrapVisits(x: Item)
    requires 0 <= x.from <= x.to < 60 && x.step < TWO63 <= x.from + x.step
    ensures var low, back := x.from + x.step - TWO64, x.from + 2 * x.step - TWO64;
      && Standing(back, x.step) && back < x.from
      && Visited(x.from, x.to, x.step) == {x.from, low} + Visited(back, x.to, x.step)
      && back in Visited(back, x.to, x.step)
      && (back < 0 ==> Visited(back, x.to, x.step) == {back})
  {
    var low, back := x.from + x.step - TWO64, x.from + 2 * x.step - TWO64;
    VisitWrapped(x.from, x.to, x.step);
    VisitOnward(low, x.to, x.step);
    if back < 0 {
      VisitOnward(back, x.to, x.step);
      assert Visited(back + x.step, x.to, x.step) == {};
    }
  }

  lemma VisitWrapped(v: int, to: int, step: int)
    requires 0 <= v <= to < 60 && step < TWO63 <= v + step
    ensures var low := v + step - TWO64; Standing(low, step) && Visited(v, to, step) == {v} + Visited(low, to, step)
  {
    Wraps(v + step);
    Onward(v, to, step);
  }

  lemma VisitOnward(v: int, to: int, step: int)
    requires Standing(v, step) && v <= to < 60 && v + step < TWO63
    ensures Standing(v + step, step) && Visited(v, to, step) == {v} + Visited(v + step, to, step)
  {
    Wraps(v + step);
    Onward(v, to, step);
  }

  lemma OnlyFirstMeant(k: Kind, x: Item, b: nat)
    requires Sane(k) && Fits(k, x) && x.step >= 60
    ensures Means(x, k.wrap, b) <==> b == Fold(x.from, k.wrap)
  {
    assert InItem(x, x.from);
    if Means(x, k.wrap, b) {
      var v :| InItem(x, v) && Fold(v, k.wrap) == b;
      if v != x.from { StepsApart(v - x.from, x.step); }
    }
  }

  /** The folds of the values visited after a wrap, in a week of seven days. */
  lemma WeekFolds(from: int, step: int)
    requires 0 <= from <= 7 && step < TWO63 <= from + step
    ensures Fold(from + step - TWO64, 7) >= 0 <==> from + step == TWO63 + 1
    ensures from + step == TWO63 + 1 ==> Fold(from + step - TWO64, 7) == 0 && from >= 2
    ensures from + 2 * step < TWO64 && Fold(from + 2 * step - TWO64, 7) >= 0 ==>
              from == 7 && Fold(from + 2 * step - TWO64, 7) == 0
  {
    assert TWO63 == 7 * 1317624576693539401 + 1;
  }

  lemma SoundIsFaithful(k: Kind, x: Item, b: nat)
    requires Sane(k) && Fits(k, x) && Sound(k, x) && Marks(x, k.wrap, b)
    ensures Means(x, k.wrap, b)
  {
    var v :| v in Visited(x.from, x.to, x.step) && Fold(v, k.wrap) == b;
    if x.step < HALF {
      SmallStepsStay(x.from, x, v);
    } else {
      OnlyFirstMeant(k, x, b);
      if x.from + x.step < TWO63 {
        OneVisit(x);
      } else {
        WrapVisits(x);
        if k.wrap == 7 { WeekFolds(x.from, x.step); }
      }
    }
  }

  lemma UnsoundIsNot(k: Kind, x: Item)
    requires Sane(k) && Fits(k, x) && !Sound(k, x)
    ensures !Faithful(k, x)
  {
    if x.from + 2 * x.step >= TWO64 { StrayBack(k, x); } else { StrayLow(k, x); }
  }

  /** The second addition comes back into the field, on another bit. */
  lemma StrayBack(k: Kind, x: Item)
    requires Sane(k) && Fits(k, x) && x.from + 2 * x.step >= TWO64
    ensures !Faithful(k, x)
  {
    WrapVisits(x);
    BackFolds(k, x);
    StrayBit(k, x, x.from + 2 * x.step - TWO64);
  }

  /** What comes back lies an even way below the start, so in a week too it is another day. */
  lemma BackFolds(k: Kind, x: Item)
    requires Sane(k) && Fits(k, x) && x.from + 2 * x.step >= TWO64
    ensures var back := x.from + 2 * x.step - TWO64;
      0 <= Fold(back, k.wrap) && Fold(back, k.wrap) != Fold(x.from, k.wrap)
  {
    var back := x.from + 2 * x.step - TWO64;
    assert back == x.from - 2 * (TWO63 - x.step);
    if k.wrap == 7 { EvenApart(back, x.from, TWO63 - x.step); }
  }

  lemma EvenApart(back: int, from: int, n: int)
    requires 0 <= back && from <= 7 && n >= 1 && back == from - 2 * n
    ensures Fold(back, 7) == back && Fold(from, 7) != back
  {
  }

  /** The first addition comes down where the remainder by seven is nought. */
  lemma StrayLow(k: Kind, x: Item)
    requires Sane(k) && Fits(k, x) && x.from + 2 * x.step < TWO64
    requires x.from + x.step == TWO63 + 1 && k.wrap == 7 && x.from != 7
    ensures !Faithful(k, x)
  {
    WrapVisits(x);
    WeekFolds(x.from, x.step);
    StrayBit(k, x, x.from + x.step - TWO64);
  }

  lemma StrayBit(k: Kind, x: Item, v: int)
    requires Sane(k) && Fits(k, x) && x.step >= 60
    requires v in Visited(x.from, x.to, x.step)
    requires Fold(v, k.wrap) >= 0 && Fold(v, k.wrap) != Fold(x.from, k.wrap)
    ensures !Faithful(k, x)
  {
    var b: nat := Fold(v, k.wrap);
    assert Marks(x, k.wrap, b);
    OnlyFirstMeant(k, x, b);
  }

  /** An item's bits are right if and only if its step does not wrap onto another bit. */
  lemma FaithfulIffSound(k: Kind, x: Item)
    requires Sane(k) && Fits(k, x)
    ensures Faithful(k, x) <==> Sound(k, x)
  {
    if Sound(k, x) {
      forall b: nat ensures Marks(x, k.wrap, b) <==> Means(x, k.wrap, b) {
        if Means(x, k.wrap, b) { MeantIsMarked(k, x, b); }
        if Marks(x, k.wrap, b) { SoundIsFaithful(k, x, b); }
      }
    } else {
      UnsoundIsNot(k, x);
    }
  }

  // ------------------------------------------------------------------ fields

  ghost predicate MeantBy(items: seq<Item>, wrap: nat, b: nat) {
    exists i | 0 <= i < |items| :: Means(items[i], wrap, b)
  }

  ghost predicate AllSound(k: Kind, items: seq<Item>) { forall i | 0 <= i < |items| :: Sound(k, items[i]) }

  /** An accepted field with sound steps gives the union of the stepped ranges of its items. */
  lemma FieldIsUnion(field: string, k: Kind, m: bv64, items: seq<Item>)
    requires Sane(k) && ItemsOf(field, k, items) && AllSound(k, items)
    requires IsMask(m, AllMarks(items, k.wrap))
    ensures forall b: nat :: Has(m, b) <==> MeantBy(items, k.wrap, b)
  {
    forall b: nat ensures Has(m, b) <==> MeantBy(items, k.wrap, b) {
      assert Has(m, b) <==> MarkedBy(items, k.wrap, b);
      forall i | 0 <= i < |items| ensures Marks(items[i], k.wrap, b) <==> Means(items[i], k.wrap, b) {
        FaithfulIffSound(k, items[i]);
      }
    }
  }

  // ------------------------------------------------------------------ staying in bounds

  predicate Inside(k: Kind, b: nat) { k.lo <= b <= k.hi && (k.wrap > 0 ==> b < k.wrap) }

  ghost predicate KeepsInside(k: Kind, x: Item) { forall b: nat | Marks(x, k.wrap, b) :: Inside(k, b) }

  /** What two additions of the step, wrapped, take away. */
  function Drop(step: int): int { TWO64 - 2 * step }

  /** Where the drops leave a start that wraps. */
  function Rest(x: Item): int
    requires x.step < TWO63
  {
    x.from % Drop(x.step)
  }

  lemma RestOnward(x: Item)
    requires 0 <= x.from && x.step < TWO63
    ensures x.from < Drop(x.step) ==> Rest(x) == x.from
    ensures Drop(x.step) <= x.from ==> Rest(x) == Rest(x.(from := x.from - Drop(x.step)))
  {
    if x.from < Drop(x.step) { ModSmall(x.from, Drop(x.step)); } else { ModSub(x.from, Drop(x.step)); }
  }

  lemma ModSmall(r: int, d: int)
    requires 0 <= r < d
    ensures r % d == r
  {
  }

  /** The loop comes by a value from 0 up to but not including `lo`. */
  ghost predicate Lows(v: int, to: int, step: int, lo: int)
    requires Standing(v, step) && to < 60
  {
    exists b :: 0 <= b < lo && b in Visited(v, to, step)
  }

  lemma LowsOnward(x: Item, lo: int)
    requires 0 <= x.from <= x.to < 60 && HALF <= x.step < TWO63 && 0 <= lo
    ensures x.from < Drop(x.step) ==> (Lows(x.from, x.to, x.step, lo) <==> x.from < lo)
    ensures Drop(x.step) <= x.from ==>
              (Lows(x.from, x.to, x.step, lo) <==> Lows(x.from - Drop(x.step), x.to, x.step, lo))
  {
    if x.from + x.step < TWO63 {
      OneVisit(x);
    } else {
      WrapVisits(x);
    }
  }

  /** A step too long to be taken twice: each wrap lands `Drop(step)` below, down to the remainder. */
  lemma {:induction false} LowVisits(x: Item, lo: int)
    requires 0 <= x.from <= x.to < 60 && HALF <= x.step < TWO63 && 0 <= lo
    ensures Lows(x.from, x.to, x.step, lo) <==> Rest(x) < lo
    decreases x.from
  {
    LowsOnward(x, lo);
    RestOnward(x);
    if Drop(x.step) <= x.from { LowVisits(x.(from := x.from - Drop(x.step)), lo); }
  }

  lemma LongInside(k: Kind, x: Item)
    requires Sane(k) && Fits(k, x) && k.wrap == 0 && HALF <= x.step
    ensures KeepsInside(k, x) <==> k.lo <= Rest(x)
  {
    LowVisits(x, k.lo);
    forall b: nat ensures Marks(x, 0, b) <==> b in Visited(x.from, x.to, x.step) { assert Fold(b, 0) == b; }
    forall b: nat | b in Visited(x.from, x.to, x.step) ensures b <= k.hi { VisitedAreBelow(x.from, x.to, x.step, b); }
    if Lows(x.from, x.to, x.step, k.lo) {
      var b: nat :| b < k.lo && b in Visited(x.from, x.to, x.step);
      assert Marks(x, 0, b) && !Inside(k, b);
    }
  }

  /** An item's bits stay in the field's bounds if and only if the wraps do not carry its start below them. */
  lemma InsideIff(k: Kind, x: Item)
    requires Sane(k) && Fits(k, x)
    ensures KeepsInside(k, x) <==> k.lo <= Rest(x)
  {
    if k.wrap > 0 {
      forall b: nat | Marks(x, k.wrap, b) ensures Inside(k, b) { FoldInWeek(x, b); }
    } else if x.step < HALF {
      RestOnward(x);
      forall b: nat | Marks(x, k.wrap, b) ensures Inside(k, b) { SmallStepsStay(x.from, x, b); }
    } else {
      LongInside(k, x);
    }
  }

  lemma FoldInWeek(x: Item, b: nat)
    requires Marks(x, 7, b)
    ensures b < 7
  {
    var v :| v in Visited(x.from, x.to, x.step) && Fold(v, 7) == b;
  }

  lemma {:induction false} VisitedAreBelow(v: int, to: int, step: int, w: int)
    requires Standing(v, step) && to < 60 && w in Visited(v, to, step)
    ensures w <= to
    decreases Rank(v, to, step)
  {
    Onward(v, to, step);
    if w != v { VisitedAreBelow(Wrap64(v + step), to, step, w); }
  }

  /**
   An accepted field is never empty; its bits lie within the field if and only if no step of it
   wraps a start below the minimum.
   */
  lemma FieldWithinBounds(field: string, k: Kind, m: bv64, items: seq<Item>)
    requires Sane(k) && ItemsOf(field, k, items)
    requires IsMask(m, AllMarks(items, k.wrap))
    ensures exists b: nat :: Has(m, b)
    ensures (forall b: nat | Has(m, b) :: Inside(k, b)) <==>
            (forall i | 0 <= i < |items| :: k.lo <= Rest(items[i]))
  {
    FirstIsMarked(k, items[0]);
    assert MarkedBy(items, k.wrap, Fold(items[0].from, k.wrap));
    assert Has(m, Fold(items[0].from, k.wrap));
    forall i | 0 <= i < |items| ensures KeepsInside(k, items[i]) <==> k.lo <= Rest(items[i]) {
      InsideIff(k, items[i]);
    }
    MaskInside(k, m, items);
  }

  lemma MaskInside(k: Kind, m: bv64, items: seq<Item>)
    requires IsMask(m, AllMarks(items, k.wrap))
    ensures (forall b: nat | Has(m, b) :: Inside(k, b)) <==> forall i | 0 <= i < |items| :: KeepsInside(k, items[i])
  {
    if forall b: nat | Has(m, b) :: Inside(k, b) {
      forall i, b: nat | 0 <= i < |items| && Marks(items[i], k.wrap, b) ensures Inside(k, b) {
        assert MarkedBy(items, k.wrap, b);
        assert Has(m, b);
      }
    }
    if forall i | 0 <= i < |items| :: KeepsInside(k, items[i]) {
      forall b: nat | Has(m, b) ensures Inside(k, b) {
        assert MarkedBy(items, k.wrap, b);
        var i :| 0 <= i < |items| && Marks(items[i], k.wrap, b);
        assert KeepsInside(k, items[i]);
      }
    }
  }

  /** No text denotes two items, so a field has at most one reading. */
  lemma OneReading(field: string, k: Kind, a: seq<Item>, b: seq<Item>)
    requires Sane(k) && ItemsOf(field, k, a) && ItemsOf(field, k, b)
    ensures a == b
  {
    forall i | 0 <= i < |a| ensures a[i] == b[i] { DenotesOne(Split(field, ',')[i], k, a[i], b[i]); }
  }

  lemma RangeIsOne(rng: string, k: Kind, stepped: bool, f1: int, t1: int, f2: int, t2: int)
    requires IsRange(rng, k, stepped, f1, t1) && IsRange(rng, k, stepped, f2, t2)
    ensures f1 == f2 && t1 == t2
  {
    if rng != "*" && '-' in rng {
      var a1: string, b1: string :|
        IsDash(rng, a1, b1) && ValueOf(a1, k.names) == Some(f1) && ValueOf(b1, k.names) == Some(t1);
      var a2: string, b2: string :|
        IsDash(rng, a2, b2) && ValueOf(a2, k.names) == Some(f2) && ValueOf(b2, k.names) == Some(t2);
      DashIsFirst(rng, a1, b1);
      DashIsFirst(rng, a2, b2);
    }
  }

  lemma DenotesOne(part: string, k: Kind, x: Item, y: Item)
    requires Denotes(part, k, x) && Denotes(part, k, y)
    ensures x == y
  {
    if '/' in part {
      var a1: string, b1: string :| IsSlash(part, a1, b1) && IsStepped(a1, b1, k, x);
      var a2: string, b2: string :| IsSlash(part, a2, b2) && IsStepped(a2, b2, k, y);
      SlashIsFirst(part, a1, b1);
      SlashIsFirst(part, a2, b2);
      RangeIsOne(a1, k, true, x.from, x.to, y.from, y.to);
    } else {
      RangeIsOne(part, k, false, x.from, x.to, y.from, y.to);
    }
  }

  // ------------------------------------------------------------------ writing items and reading them back

  function Show(x: Item, k: Kind): string
    requires Sane(k) && Fits(k, x)
  {
    Itoa(x.from) + "-" + Itoa(x.to) + "/" + Itoa(x.step)
  }

  lemma DashShown(a: string, b: string)
    requires AllDigits(a) && AllDigits(b)
    ensures IsDash(a + "-" + b, a, b) && '-' in a + "-" + b && a + "-" + b != "*"
    ensures '/' !in a + "-" + b && ',' !in a + "-" + b
  {
    var rng := a + "-" + b;
    assert rng[|a|] == '-';
    assert forall i | 0 <= i < |rng| :: IsDigit(rng[i]) || rng[i] == '-';
  }

  lemma SlashShown(rng: string, c: string)
    requires '/' !in rng && ',' !in rng && AllDigits(c)
    ensures IsSlash(rng + "/" + c, rng, c) && '/' in rng + "/" + c && ',' !in rng + "/" + c
  {
    assert (rng + "/" + c)[|rng|] == '/';
  }

  lemma RangeShown(x: Item, k: Kind)
    requires Sane(k) && Fits(k, x) && forall n | n in k.names :: !AllDigits(n)
    ensures IsRange(Itoa(x.from) + "-" + Itoa(x.to), k, true, x.from, x.to)
  {
    var a, b := Itoa(x.from), Itoa(x.to);
    AtoiOfItoa(x.from);
    AtoiOfItoa(x.to);
    DashShown(a, b);
  }

  lemma SlashDenotes(part: string, a: string, b: string, k: Kind, x: Item)
    requires '/' in part && IsSlash(part, a, b) && IsStepped(a, b, k, x)
    ensures Denotes(part, k, x)
  {
  }

  lemma ShowDenotes(x: Item, k: Kind)
    requires Sane(k) && Fits(k, x) && forall n | n in k.names :: !AllDigits(n)
    ensures Denotes(Show(x, k), k, x) && ',' !in Show(x, k)
  {
    var rng, c := Itoa(x.from) + "-" + Itoa(x.to), Itoa(x.step);
    RangeShown(x, k);
    AtoiOfItoa(x.step);
    DashShown(Itoa(x.from), Itoa(x.to));
    SlashShown(rng, c);
    SlashDenotes(Show(x, k), rng, c, k, x);
  }

  function ShowAll(items: seq<Item>, k: Kind): (parts: seq<string>)
    requires Sane(k) && forall i | 0 <= i < |items| :: Fits(k, items[i])
    ensures |parts| == |items| && forall i | 0 <= i < |items| :: parts[i] == Show(items[i], k)
  {
    if items == [] then [] else [Show(items[0], k)] + ShowAll(items[1..], k)
  }

  /** Every list of items that fit a field can be written, and is read back as it was. */
  lemma RoundTrip(items: seq<Item>, k: Kind)
    requires Sane(k) && items != [] && forall n | n in k.names :: !AllDigits(n)
    requires forall i | 0 <= i < |items| :: Fits(k, items[i])
    ensures forall read :: ItemsOf(Join(ShowAll(items, k), ','), k, read) <==> read == items
  {
    var parts := ShowAll(items, k);
    forall i | 0 <= i < |parts| ensures ',' !in parts[i] && Denotes(parts[i], k, items[i]) {
      ShowDenotes(items[i], k);
    }
    var field := Join(parts, ',');
    SplitOfJoin(parts, ',');
    assert ItemsOf(field, k, items);
    forall read | ItemsOf(field, k, read) ensures read == items { OneReading(field, k, read, items); }
  }

  lemma {:induction false} OddVisits(v: int, step: int, w: nat)
    requires -1 <= v <= 59 && v % 2 == 1 && step == TWO63 - 1
    ensures w in Visited(v, 59, step) <==> w <= v && w % 2 == 1
    decreases v
  {
    if v == -1 {
      Wraps(v + step);
      assert Visited(v + step, 59, step) == {};
    } else {
      WrapVisits(Item(v, 59, step));
      assert Visited(v, 59, step) == {v, v + step - TWO64} + Visited(v - 2, 59, step);
      OddVisits(v - 2, step, w);
    }
  }

  lemma OddMarks(x: Item, b: nat)
    requires x.from == 59 && x.to == 59 && x.step == TWO63 - 1
    ensures Marks(x, 0, b) <==> b < 60 && b % 2 == 1
  {
    OddVisits(x.from, x.step, b);
    assert Fold(b, 0) == b;
  }

  /** Minute 59 with a step of 2^63 - 1 is accepted, and fires in every odd minute. */
  lemma HugeStepMarksOddMinutes(x: Item, b: nat)
    requires x == Item(59, 59, TWO63 - 1)
    ensures Denotes(Show(x, MINUTES), MINUTES, x)
    ensures Marks(x, 0, b) <==> b < 60 && b % 2 == 1
  {
    ShowDenotes(x, MINUTES);
    OddMarks(x, b);
  }

  lemma BareShown(n: nat, step: nat, k: Kind)
    requires Sane(k) && Fits(k, Item(n, k.hi, step)) && forall name | name in k.names :: !AllDigits(name)
    ensures Denotes(Itoa(n) + "/" + Itoa(step), k, Item(n, k.hi, step))
  {
    var a, b := Itoa(n), Itoa(step);
    AtoiOfItoa(n);
    AtoiOfItoa(step);
    assert forall i | 0 <= i < |a| :: IsDigit(a[i]);
    SlashShown(a, b);
    SlashDenotes(a + "/" + b, a, b, k, Item(n, k.hi, step));
  }

  /** A part that is one value and has no step denotes that value alone, if it lies within the field. */
  lemma BareDenotes(part: string, k: Kind, n: int, x: Item)
    requires Sane(k) && part != "*" && '-' !in part && '/' !in part && ValueOf(part, k.names) == Some(n)
    ensures Denotes(part, k, x) <==> x == Item(n, n, 1) && k.lo <= n <= k.hi
  {
  }

  /** The bits a single item of step one means: the values from its start to its end, and in a week Sunday for 7. */
  lemma UnitMeans(x: Item, k: Kind, b: nat)
    requires Sane(k) && Fits(k, x) && x.step == 1
    ensures Means(x, k.wrap, b) <==>
            if k.wrap == 7 && b == 0 then x.from == 0 || x.to == 7
            else x.from <= b <= x.to && (k.wrap == 7 ==> b < 7)
  {
    if x.from <= b <= x.to { assert InItem(x, b); }
    if k.wrap == 7 && x.to == 7 { assert InItem(x, 7) && Fold(7, 7) == 0; }
  }

  const DAY_THIRTY := Item(30, 31, TWO63 - 1)

  /** Day 30 with a step of 2^63 - 1 is accepted, and marks the day 0 that no month has. */
  lemma HugeStepMarksDayZero()
    ensures Denotes(Itoa(30) + "/" + Itoa(TWO63 - 1), DOMS, DAY_THIRTY) && Fits(DOMS, DAY_THIRTY)
    ensures Marks(DAY_THIRTY, 0, 0) && !Inside(DOMS, 0)
  {
    BareShown(30, TWO63 - 1, DOMS);
    ZeroIsVisited(DAY_THIRTY);
  }

  lemma ZeroIsVisited(x: Item)
    requires x == DAY_THIRTY
    ensures Marks(x, 0, 0)
  {
    LowVisits(x, 1);
    assert Rest(x) == 0;
    var b :| 0 <= b < 1 && b in Visited(x.from, x.to, x.step);
    assert Fold(b, 0) == 0;
  }
}
