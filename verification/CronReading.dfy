/**
 What whole expressions mean, down to the instants they fire at: fields that are numbers, names or
 stars, the macros, and what spelling does not matter.
 */
module CronReading {
  import opened CronExpression
  import opened CronMask
  import opened CronMeaning
  import opened CronParser
  import opened CronSchedule
  import opened Text
  import opened Tickets

  /** The word has exactly the bits from `lo` to `hi`. */
  ghost predicate Bits(m: bv64, lo: nat, hi: nat) { forall b: nat :: Has(m, b) <==> lo <= b <= hi }

  lemma {:induction false} WordOf(lo: nat, hi: nat) returns (m: bv64)
    requires lo <= hi < 64
    ensures Bits(m, lo, hi)
    decreases hi
  {
    if lo == hi {
      m := One(lo);
      forall b: nat ensures Has(m, b) <==> b == lo { OnlyBit(lo, b); }
    } else {
      var rest := WordOf(lo, hi - 1);
      m := rest | One(hi);
      forall b: nat ensures Has(m, b) <==> lo <= b <= hi { SetBit(rest, hi, b); }
    }
  }

  // ------------------------------------------------------------------ one field

  /** The bits of a field that is one item whose step does not wrap. */
  lemma ItemField(field: string, k: Kind, x: Item, m: bv64)
    requires Sane(k) && ',' !in field && Denotes(field, k, x) && Fits(k, x) && Sound(k, x)
    ensures FieldMask(field, k, m) <==> forall b: nat :: Has(m, b) <==> Means(x, k.wrap, b)
  {
    OnePart(field);
    assert ItemsOf(field, k, [x]);
    forall items | ItemsOf(field, k, items) ensures items == [x] { OneReading(field, k, items, [x]); }
    forall b: nat ensures MarkedBy([x], k.wrap, b) <==> Means(x, k.wrap, b) {
      FaithfulIffSound(k, x);
      assert [x][0] == x;
    }
  }

  /** A star stands for all values of the field; in a week 7 is Sunday again. */
  lemma StarField(k: Kind, m: bv64)
    requires Sane(k)
    ensures FieldMask("*", k, m) <==> Bits(m, k.lo, if k.wrap == 7 then 6 else k.hi)
  {
    var x := Item(k.lo, k.hi, 1);
    assert Denotes("*", k, x) by { assert '/' !in "*"; }
    ItemField("*", k, x, m);
    forall b: nat ensures Means(x, k.wrap, b) <==> k.lo <= b <= if k.wrap == 7 then 6 else k.hi {
      UnitMeans(x, k, b);
    }
  }

  lemma NoReading(field: string, k: Kind)
    requires ',' !in field && forall x :: !Denotes(field, k, x)
    ensures forall items :: !ItemsOf(field, k, items)
  {
    OnePart(field);
    assert Split(field, ',')[0] == field;
  }

  /** A field that is one value stands for that value, and is refused out of bounds. */
  lemma ValueField(field: string, k: Kind, n: int, m: bv64)
    requires Sane(k) && ',' !in field && field != "*" && '-' !in field && '/' !in field
    requires ValueOf(field, k.names) == Some(n)
    ensures FieldMask(field, k, m) <==>
            k.lo <= n <= k.hi && var b: nat := if k.wrap == 7 && n == 7 then 0 else n; Bits(m, b, b)
  {
    var x := Item(n, n, 1);
    forall y ensures Denotes(field, k, y) <==> y == x && k.lo <= n <= k.hi { BareDenotes(field, k, n, y); }
    if k.lo <= n <= k.hi {
      ItemField(field, k, x, m);
      forall b: nat ensures Means(x, k.wrap, b) <==> b == if k.wrap == 7 && n == 7 then 0 else n {
        UnitMeans(x, k, b);
      }
    } else {
      NoReading(field, k);
    }
  }

  /** A field that is a number, or, for `None`, a star. */
  function Word(x: Option<nat>): string { if x.None? then "*" else Itoa(x.value) }

  lemma WordIsPlain(x: Option<nat>)
    ensures IsWord(Word(x)) && ',' !in Word(x) && '-' !in Word(x) && '/' !in Word(x)
    ensures x.Some? ==> IsDigit(Word(x)[0])
  {
    if x.Some? {
      var w := Itoa(x.value);
      assert forall i | 0 <= i < |w| :: IsDigit(w[i]);
    }
  }

  ghost predicate Says(m: bv64, x: Option<nat>, lo: nat, hi: nat) {
    if x.None? then Bits(m, lo, hi) else lo <= x.value <= hi && Bits(m, x.value, x.value)
  }

  lemma WordField(x: Option<nat>, k: Kind, m: bv64)
    requires Sane(k) && k.wrap == 0 && forall n | n in k.names :: !AllDigits(n)
    ensures FieldMask(Word(x), k, m) <==> Says(m, x, k.lo, k.hi)
  {
    if x.None? {
      StarField(k, m);
    } else {
      NumberField(x.value, k, m);
    }
  }

  lemma NumberField(n: nat, k: Kind, m: bv64)
    requires Sane(k) && forall name | name in k.names :: !AllDigits(name)
    ensures FieldMask(Itoa(n), k, m) <==>
            k.lo <= n <= k.hi && var b := if k.wrap == 7 then Day(n) else n; Bits(m, b, b)
  {
    WordIsPlain(Some(n));
    if n < TWO63 {
      AtoiOfItoa(n);
      ValueField(Itoa(n), k, n, m);
    } else {
      HugeField(n, k, m);
    }
  }

  /** A number past 64 bits is none. */
  lemma HugeField(n: nat, k: Kind, m: bv64)
    requires Sane(k) && n >= TWO63 && forall name | name in k.names :: !AllDigits(name)
    ensures !FieldMask(Itoa(n), k, m)
  {
    var w := Itoa(n);
    WordIsPlain(Some(n));
    NumberOfItoa(n);
    assert Atoi(w).None?;
    NoReading(w, k);
  }

  lemma DashDenotes(a: string, b: string, k: Kind, x: int, y: int, it: Item)
    requires Sane(k) && '-' !in a && ValueOf(a, k.names) == Some(x) && ValueOf(b, k.names) == Some(y)
    requires var field := a + "-" + b; '/' !in field && ',' !in field
    ensures var field := a + "-" + b;
      Denotes(field, k, it) <==> k.lo <= x <= y <= k.hi && it == Item(x, y, 1)
  {
    var field := a + "-" + b;
    assert field[|a|] == '-';
    RangeIff(field, a, b, true, k, false, it.from, it.to);
  }

  /** Two values with a dash between stand for all from the one to the other, and for nothing if out of order. */
  lemma DashField(a: string, b: string, k: Kind, x: int, y: int, m: bv64)
    requires Sane(k) && '-' !in a && ValueOf(a, k.names) == Some(x) && ValueOf(b, k.names) == Some(y)
    requires var field := a + "-" + b; '/' !in field && ',' !in field
    requires k.wrap == 7 ==> y < 7
    ensures FieldMask(a + "-" + b, k, m) <==> k.lo <= x <= y <= k.hi && Bits(m, x, y)
  {
    var field := a + "-" + b;
    forall it ensures Denotes(field, k, it) <==> k.lo <= x <= y <= k.hi && it == Item(x, y, 1) {
      DashDenotes(a, b, k, x, y, it);
    }
    if k.lo <= x <= y <= k.hi {
      var it := Item(x, y, 1);
      ItemField(field, k, it, m);
      forall v: nat ensures Means(it, k.wrap, v) <==> x <= v <= y { UnitMeans(it, k, v); }
    } else {
      NoReading(field, k);
    }
  }

  lemma StepDenotes(rng: string, k: Kind, x: Item)
    requires Sane(k) && '/' !in rng && IsRange(rng, k, true, x.from, x.to) && 1 <= x.step < TWO63
    ensures Denotes(rng + "/" + Itoa(x.step), k, x)
  {
    var part := rng + "/" + Itoa(x.step);
    AtoiOfItoa(x.step);
    assert part[|rng|] == '/';
    SlashDenotes(part, rng, Itoa(x.step), k, x);
  }

  lemma StepMeans(x: Item, v: nat)
    requires x.step >= 1
    ensures Means(x, 0, v) <==> x.from <= v <= x.to && (v - x.from) % x.step == 0
  {
    if InItem(x, v) { assert Fold(v, 0) == v; }
  }

  /** A range with a step stands for every so-manieth value of the range. */
  lemma StepField(rng: string, k: Kind, x: Item, m: bv64)
    requires Sane(k) && k.wrap == 0 && '/' !in rng && ',' !in rng && IsRange(rng, k, true, x.from, x.to)
    requires k.lo <= x.from <= x.to <= k.hi && 1 <= x.step < HALF
    ensures FieldMask(rng + "/" + Itoa(x.step), k, m) <==>
            forall v: nat :: Has(m, v) <==> x.from <= v <= x.to && (v - x.from) % x.step == 0
  {
    var field := rng + "/" + Itoa(x.step);
    StepDenotes(rng, k, x);
    assert ',' !in Itoa(x.step) by { WordIsPlain(Some(x.step)); }
    ItemField(field, k, x, m);
    forall v: nat ensures Means(x, 0, v) <==> x.from <= v <= x.to && (v - x.from) % x.step == 0 { StepMeans(x, v); }
  }

  /** A star with a step starts at the least value. */
  lemma StarStep(n: nat, k: Kind, m: bv64)
    requires Sane(k) && k.wrap == 0 && 1 <= n < HALF
    ensures FieldMask("*" + "/" + Itoa(n), k, m) <==>
            forall v: nat :: Has(m, v) <==> k.lo <= v <= k.hi && (v - k.lo) % n == 0
  {
    StepField("*", k, Item(k.lo, k.hi, n), m);
  }

  /** One number with a step runs to the greatest value. */
  lemma NumberStep(a: nat, n: nat, k: Kind, m: bv64)
    requires Sane(k) && k.wrap == 0 && 1 <= n < HALF && forall name | name in k.names :: !AllDigits(name)
    requires k.lo <= a <= k.hi
    ensures FieldMask(Itoa(a) + "/" + Itoa(n), k, m) <==>
            forall v: nat :: Has(m, v) <==> a <= v <= k.hi && (v - a) % n == 0
  {
    WordIsPlain(Some(a));
    AtoiOfItoa(a);
    StepField(Itoa(a), k, Item(a, k.hi, n), m);
  }

  // ------------------------------------------------------------------ lists

  lemma Joined(x: seq<string>, y: seq<string>, z: seq<string>)
    ensures x + (y + z) == (x + y) + z
  {
  }

  lemma CutInTwo(a: string, i: nat, c: char, b: string)
    requires i < |a|
    ensures var t, rest := a + [c] + b, a[i + 1..] + [c] + b;
      t == a[..i] + [a[i]] + rest && t[..i] == a[..i] && t[i + 1..] == rest
  {
    CutAt(a, i);
  }

  lemma FirstPart(a: string, c: char, b: string)
    requires Index(a, c) < |a|
    ensures var i, t := Index(a, c), a + [c] + b;
      Split(t, c) == [a[..i]] + Split(a[i + 1..] + [c] + b, c) && Split(a, c) == [a[..i]] + Split(a[i + 1..], c)
  {
    var i := Index(a, c);
    CutInTwo(a, i, c, b);
    IndexOfCut(a[..i], c, a[i + 1..] + [c] + b);
  }

  lemma {:induction false} SplitAt(a: string, c: char, b: string)
    ensures Split(a + [c] + b, c) == Split(a, c) + Split(b, c)
    decreases |a|
  {
    var i := Index(a, c);
    if i == |a| {
      IndexOfCut(a, c, b);
      assert (a + [c] + b)[..i] == a && (a + [c] + b)[i + 1..] == b;
    } else {
      FirstPart(a, c, b);
      SplitAt(a[i + 1..], c, b);
      Joined([a[..i]], Split(a[i + 1..], c), Split(b, c));
    }
  }

  ghost predicate Reads(parts: seq<string>, k: Kind, items: seq<Item>) {
    |items| == |parts| && forall i | 0 <= i < |parts| :: Denotes(parts[i], k, items[i]) && Fits(k, items[i])
  }

  lemma ReadsApart(p: seq<string>, q: seq<string>, k: Kind, x: seq<Item>, y: seq<Item>)
    requires |x| == |p| && |y| == |q| && Reads(p + q, k, x + y)
    ensures Reads(p, k, x) && Reads(q, k, y)
  {
    forall i | 0 <= i < |p| ensures Denotes(p[i], k, x[i]) && Fits(k, x[i]) {
      assert (p + q)[i] == p[i] && (x + y)[i] == x[i];
    }
    forall i | 0 <= i < |q| ensures Denotes(q[i], k, y[i]) && Fits(k, y[i]) {
      assert (p + q)[|p| + i] == q[i] && (x + y)[|p| + i] == y[i];
    }
  }

  lemma ReadsTogether(p: seq<string>, q: seq<string>, k: Kind, x: seq<Item>, y: seq<Item>)
    requires |x| == |p| && |y| == |q| && Reads(p, k, x) && Reads(q, k, y)
    ensures Reads(p + q, k, x + y)
  {
    var r, z := p + q, x + y;
    forall i | 0 <= i < |r| ensures Denotes(r[i], k, z[i]) && Fits(k, z[i]) {
      if i < |p| {
        assert r[i] == p[i] && z[i] == x[i];
      } else {
        assert r[i] == q[i - |p|] && z[i] == y[i - |p|];
      }
    }
  }

  lemma ItemsJoin(a: string, b: string, k: Kind, x: seq<Item>, y: seq<Item>)
    requires |x| == |Split(a, ',')| && |y| == |Split(b, ',')|
    ensures ItemsOf(a + "," + b, k, x + y) <==> ItemsOf(a, k, x) && ItemsOf(b, k, y)
  {
    SplitAt(a, ',', b);
    var p, q := Split(a, ','), Split(b, ',');
    ReadsAre(a + "," + b, k, x + y);
    ReadsAre(a, k, x);
    ReadsAre(b, k, y);
    if Reads(p + q, k, x + y) { ReadsApart(p, q, k, x, y); }
    if Reads(p, k, x) && Reads(q, k, y) { ReadsTogether(p, q, k, x, y); }
  }

  lemma ReadsAre(field: string, k: Kind, items: seq<Item>)
    ensures ItemsOf(field, k, items) <==> Reads(Split(field, ','), k, items)
  {
  }

  lemma MarksJoin(x: seq<Item>, y: seq<Item>, wrap: nat, b: nat)
    ensures MarkedBy(x + y, wrap, b) <==> MarkedBy(x, wrap, b) || MarkedBy(y, wrap, b)
  {
    var xy := x + y;
    assert forall i | 0 <= i < |x| :: xy[i] == x[i];
    assert forall i | 0 <= i < |y| :: xy[|x| + i] == y[i];
    if i :| 0 <= i < |x| && Marks(x[i], wrap, b) { assert Marks(xy[i], wrap, b); }
    if i :| 0 <= i < |y| && Marks(y[i], wrap, b) { assert Marks(xy[|x| + i], wrap, b); }
    if i :| 0 <= i < |xy| && Marks(xy[i], wrap, b) {
      if i < |x| { assert Marks(x[i], wrap, b); } else { assert Marks(y[i - |x|], wrap, b); }
    }
  }

  /** The bits of both words together. */
  ghost predicate Union(m: bv64, x: bv64, y: bv64) { forall b: nat :: Has(m, b) <==> Has(x, b) || Has(y, b) }

  /** A list stands for all its parts together, and for nothing if one of them, an empty one say, stands for nothing. */
  lemma CommaField(a: string, b: string, k: Kind, m: bv64)
    requires Sane(k)
    ensures FieldMask(a + "," + b, k, m) <==> exists x, y :: FieldMask(a, k, x) && FieldMask(b, k, y) && Union(m, x, y)
    ensures !FieldMask("", k, m)
  {
    if FieldMask(a + "," + b, k, m) { CommaParts(a, b, k, m); }
    if x, y :| FieldMask(a, k, x) && FieldMask(b, k, y) && Union(m, x, y) { PartsComma(a, b, k, m, x, y); }
    assert Index("", ',') == 0;
    forall it ensures !Denotes("", k, it) {}
    NoReading("", k);
  }

  lemma PartsComma(a: string, b: string, k: Kind, m: bv64, x: bv64, y: bv64)
    requires FieldMask(a, k, x) && FieldMask(b, k, y) && Union(m, x, y)
    ensures FieldMask(a + "," + b, k, m)
  {
    var p: seq<Item> :| ItemsOf(a, k, p) && IsMask(x, AllMarks(p, k.wrap));
    var q: seq<Item> :| ItemsOf(b, k, q) && IsMask(y, AllMarks(q, k.wrap));
    ItemsJoin(a, b, k, p, q);
    forall v ensures Has(m, v) <==> v in AllMarks(p + q, k.wrap) { MarksJoin(p, q, k.wrap, v); }
    assert ItemsOf(a + "," + b, k, p + q) && IsMask(m, AllMarks(p + q, k.wrap));
  }

  lemma CommaParts(a: string, b: string, k: Kind, m: bv64)
    requires Sane(k) && FieldMask(a + "," + b, k, m)
    ensures exists x, y :: FieldMask(a, k, x) && FieldMask(b, k, y) && Union(m, x, y)
  {
    SplitAt(a, ',', b);
    var items: seq<Item> :| ItemsOf(a + "," + b, k, items) && IsMask(m, AllMarks(items, k.wrap));
    var n := |Split(a, ',')|;
    var p, q := items[..n], items[n..];
    assert items == p + q;
    ItemsJoin(a, b, k, p, q);
    var x := MaskOf(p, k);
    var y := MaskOf(q, k);
    forall v ensures Has(m, v) <==> Has(x, v) || Has(y, v) { MarksJoin(p, q, k.wrap, v); }
    assert FieldMask(a, k, x) && FieldMask(b, k, y) && Union(m, x, y);
  }

  lemma {:induction false} WordOfSet(s: iset<nat>, n: nat) returns (m: bv64)
    requires n <= 64 && forall b | b in s :: b < n
    ensures IsMask(m, s)
    decreases n
  {
    if n == 0 {
      m := 0;
      EmptyMask();
    } else {
      var rest := WordOfSet(s - iset{n - 1}, n - 1);
      m := rest;
      if n - 1 in s {
        m := rest | One(n - 1);
        forall b ensures Has(m, b) <==> b in s { SetBit(rest, n - 1, b); }
      }
    }
  }

  lemma MarksUnder60(k: Kind, x: Item, b: nat)
    requires Sane(k) && Fits(k, x) && Marks(x, k.wrap, b)
    ensures b < 60
  {
    var v :| v in Visited(x.from, x.to, x.step) && Fold(v, k.wrap) == b;
    VisitedAreBelow(x.from, x.to, x.step, v);
    FoldUnder60(k, x, v);
  }

  /** Every list of items has its word. */
  lemma MaskOf(items: seq<Item>, k: Kind) returns (m: bv64)
    requires Sane(k) && forall i | 0 <= i < |items| :: Fits(k, items[i])
    ensures IsMask(m, AllMarks(items, k.wrap))
  {
    forall b | b in AllMarks(items, k.wrap) ensures b < 60 {
      var i :| 0 <= i < |items| && Marks(items[i], k.wrap, b);
      MarksUnder60(k, items[i], b);
    }
    m := WordOfSet(AllMarks(items, k.wrap), 60);
  }

  // ------------------------------------------------------------------ numbers and stars

  /** The fields from the minute on, each a number or a star. */
  datatype Clock = Clock(minute: Option<nat>, hour: Option<nat>, day: Option<nat>, month: Option<nat>,
                         weekday: Option<nat>)

  function WordsOf(c: Clock): seq<string> {
    [Word(c.minute), Word(c.hour), Word(c.day), Word(c.month), Word(c.weekday)]
  }

  /** Sunday is 0 and 7. */
  function Day(w: nat): nat { if w == 7 then 0 else w }

  /** The schedule goes by that clock: each number is within its field, and each word has its bits and no others. */
  ghost predicate GoesBy(s: Schedule, c: Clock) {
    && Says(s.minutes, c.minute, 0, 59) && Says(s.hours, c.hour, 0, 23)
    && Says(s.doms, c.day, 1, 31) && Says(s.months, c.month, 1, 12)
    && (match c.weekday
        case None => Bits(s.dows, 0, 6)
        case Some(w) => w <= 7 && Bits(s.dows, Day(w), Day(w)))
    && s.domStar == c.day.None? && s.dowStar == c.weekday.None?
  }

  lemma StarSeen(x: Option<nat>)
    ensures IsWord(Word(x)) && (Word(x)[0] == '*' <==> x.None?)
  {
    WordIsPlain(x);
  }

  lemma WeekField(x: Option<nat>, m: bv64)
    ensures FieldMask(Word(x), DOWS, m) <==>
            match x
            case None => Bits(m, 0, 6)
            case Some(w) => w <= 7 && Bits(m, Day(w), Day(w))
  {
    NamesAreNoNumbers();
    if x.None? { StarField(DOWS, m); } else { NumberField(x.value, DOWS, m); }
  }

  lemma ClockWords(c: Clock, s: Schedule)
    ensures IsWord(Word(c.day)) && IsWord(Word(c.weekday)) && (DayAndTime(WordsOf(c), s) <==> GoesBy(s, c))
  {
    NamesAreNoNumbers();
    WordField(c.minute, MINUTES, s.minutes);
    WordField(c.hour, HOURS, s.hours);
    WordField(c.day, DOMS, s.doms);
    WordField(c.month, MONTHS, s.months);
    WeekField(c.weekday, s.dows);
    StarSeen(c.day);
    StarSeen(c.weekday);
  }

  /** Numbers and stars as an expression; `None` for the seconds is no field of seconds. */
  function Expression(seconds: Option<Option<nat>>, c: Clock): string {
    Join((if seconds.None? then [] else [Word(seconds.value)]) + WordsOf(c), ' ')
  }

  predicate IsMark(c: char) { IsDigit(c) || c == '*' }

  /** Digits and stars, with spaces at most between them. */
  predicate Bare(t: string) {
    t != "" && IsMark(t[0]) && IsMark(t[|t| - 1]) && forall i | 0 <= i < |t| :: IsMark(t[i]) || t[i] == ' '
  }

  lemma {:induction false} JoinIsBare(parts: seq<string>)
    requires parts != [] && forall i | 0 <= i < |parts| :: Bare(parts[i])
    ensures Bare(Join(parts, ' '))
    decreases |parts|
  {
    if |parts| > 1 {
      var a, rest := parts[0], Join(parts[1..], ' ');
      JoinIsBare(parts[1..]);
      var t := a + [' '] + rest;
      assert t[0] == a[0] && t[|t| - 1] == rest[|rest| - 1];
    }
  }

  lemma BareIsPlain(t: string)
    requires Bare(t)
    ensures Plain(t) == t && !IsMacro(t)
  {
    assert Lower(t) == t;
    assert TrimLeft(t) == t && TrimRight(t) == t;
    assert t[0] != '@';
  }

  lemma WordIsBare(x: Option<nat>)
    ensures Bare(Word(x)) && IsWord(Word(x))
  {
    WordIsPlain(x);
    if x.Some? { assert forall i | 0 <= i < |Word(x)| :: IsDigit(Word(x)[i]); }
  }

  /** Words of digits and stars, written with a space between them, are read as those words. */
  lemma BareWords(words: seq<string>)
    requires words != [] && forall i | 0 <= i < |words| :: Bare(words[i]) && IsWord(words[i])
    ensures !IsMacro(Join(words, ' ')) && FieldsOf(Join(words, ' ')) == words
  {
    JoinIsBare(words);
    BareIsPlain(Join(words, ' '));
    FieldsOfJoin(words);
  }

  lemma ClockIsBare(c: Clock)
    ensures forall i | 0 <= i < 5 :: Bare(WordsOf(c)[i]) && IsWord(WordsOf(c)[i])
  {
    WordIsBare(c.minute);
    WordIsBare(c.hour);
    WordIsBare(c.day);
    WordIsBare(c.month);
    WordIsBare(c.weekday);
  }

  lemma SixAreBare(sec: Option<nat>, c: Clock, words: seq<string>)
    requires words == [Word(sec)] + WordsOf(c)
    ensures |words| == 6 && words[0] == Word(sec) && words[1..] == WordsOf(c)
    ensures forall i | 0 <= i < |words| :: Bare(words[i]) && IsWord(words[i])
  {
    WordIsBare(sec);
    ClockIsBare(c);
    assert forall i | 0 < i < 6 :: words[i] == WordsOf(c)[i - 1];
  }

  /** What five or six such words parse as. */
  lemma BareParse(words: seq<string>, s: Schedule)
    requires |words| == 5 || |words| == 6
    requires forall i | 0 <= i < |words| :: Bare(words[i]) && IsWord(words[i])
    ensures Parses(Join(words, ' '), s) <==>
            if |words| == 5 then !s.hasSeconds && s.seconds == 0 && DayAndTime(words, s)
            else s.hasSeconds && FieldMask(words[0], SECONDS, s.seconds) && DayAndTime(words[1..], s)
  {
    BareWords(words);
  }

  /** Five fields: accepted exactly within their bounds, and then with exactly those numbers. */
  lemma FiveMean(c: Clock, s: Schedule)
    ensures Parses(Expression(None, c), s) <==> GoesBy(s, c) && !s.hasSeconds && s.seconds == 0
  {
    var words := WordsOf(c);
    assert [] + words == words;
    ClockIsBare(c);
    BareParse(words, s);
    ClockWords(c, s);
  }

  /** Six fields: the seconds come first. */
  lemma SixMean(sec: Option<nat>, c: Clock, s: Schedule)
    ensures Parses(Expression(Some(sec), c), s) <==> GoesBy(s, c) && s.hasSeconds && Says(s.seconds, sec, 0, 59)
  {
    var words := [Word(sec)] + WordsOf(c);
    SixAreBare(sec, c, words);
    BareParse(words, s);
    ClockWords(c, s);
    WordField(sec, SECONDS, s.seconds);
  }

  predicate Within(x: Option<nat>, lo: nat, hi: nat) { x.Some? ==> lo <= x.value <= hi }

  predicate InBounds(c: Clock) {
    && Within(c.minute, 0, 59) && Within(c.hour, 0, 23) && Within(c.day, 1, 31) && Within(c.month, 1, 12)
    && Within(c.weekday, 0, 7)
  }

  lemma SaysExists(x: Option<nat>, lo: nat, hi: nat) returns (m: bv64)
    requires lo <= hi < 64 && Within(x, lo, hi)
    ensures Says(m, x, lo, hi)
  {
    if x.None? { m := WordOf(lo, hi); } else { m := WordOf(x.value, x.value); }
  }

  lemma ClockExists(c: Clock) returns (s: Schedule)
    requires InBounds(c)
    ensures GoesBy(s, c) && !s.hasSeconds && s.seconds == 0
  {
    var minutes := SaysExists(c.minute, 0, 59);
    var hours := SaysExists(c.hour, 0, 23);
    var doms := SaysExists(c.day, 1, 31);
    var months := SaysExists(c.month, 1, 12);
    var dows := WordOf(0, 6);
    if c.weekday.Some? { dows := WordOf(Day(c.weekday.value), Day(c.weekday.value)); }
    s := Schedule(0, minutes, hours, doms, months, dows, c.day.None?, c.weekday.None?, false);
  }

  lemma GoesWithin(s: Schedule, c: Clock)
    requires GoesBy(s, c)
    ensures InBounds(c)
  {
  }

  lemma StandsForSome(expr: string, s: Schedule)
    requires Parses(expr, s)
    ensures Accepted(expr)
  {
  }

  /** Numbers and stars in five fields are accepted if and only if each number lies within its field. */
  lemma AcceptedIffInBounds(c: Clock)
    ensures Accepted(Expression(None, c)) <==> InBounds(c)
  {
    if s :| Parses(Expression(None, c), s) {
      FiveMean(c, s);
      GoesWithin(s, c);
    }
    if InBounds(c) {
      var s := ClockExists(c);
      FiveMean(c, s);
      StandsForSome(Expression(None, c), s);
    }
  }

  // ------------------------------------------------------------------ the macros

  lemma FiveJoined(a: string, b: string, c: string, d: string, e: string)
    ensures Join([a, b, c, d, e], ' ') == a + " " + b + " " + c + " " + d + " " + e
  {
    assert [a, b, c, d, e][1..] == [b, c, d, e] && [b, c, d, e][1..] == [c, d, e];
    assert [c, d, e][1..] == [d, e] && [d, e][1..] == [e];
    assert Join([d, e], ' ') == d + [' '] + e;
    assert Join([c, d, e], ' ') == c + [' '] + (d + [' '] + e);
    assert Join([b, c, d, e], ' ') == b + [' '] + (c + [' '] + (d + [' '] + e));
  }

  lemma SmallWords()
    ensures Word(None) == "*" && Word(Some(0)) == "0" && Word(Some(1)) == "1"
  {
  }

  lemma ClockText(c: Clock)
    ensures Expression(None, c) ==
            Word(c.minute) + " " + Word(c.hour) + " " + Word(c.day) + " " + Word(c.month) + " " + Word(c.weekday)
  {
    assert [] + WordsOf(c) == WordsOf(c);
    FiveJoined(Word(c.minute), Word(c.hour), Word(c.day), Word(c.month), Word(c.weekday));
  }

  /** The expression is accepted, and the schedules it stands for are those that go by the clock. */
  ghost predicate Stands(expr: string, c: Clock) {
    Accepted(expr) && forall s :: Parses(expr, s) <==> GoesBy(s, c) && !s.hasSeconds && s.seconds == 0
  }

  lemma FiveStand(c: Clock)
    requires InBounds(c)
    ensures Stands(Expression(None, c), c)
  {
    AcceptedIffInBounds(c);
    forall s ensures Parses(Expression(None, c), s) <==> GoesBy(s, c) && !s.hasSeconds && s.seconds == 0 {
      FiveMean(c, s);
    }
  }

  lemma SamePlain(a: string, b: string, s: Schedule)
    requires Plain(a) == Plain(b)
    ensures Parses(a, s) <==> Parses(b, s)
  {
  }

  /** A word that is spelled out as numbers and stars stands for what those stand for. */
  lemma SpelledOut(expr: string, c: Clock)
    requires InBounds(c) && Plain(expr) == Expression(None, c)
    ensures Stands(expr, c)
  {
    FiveStand(c);
    var words := WordsOf(c);
    assert [] + words == words;
    ClockIsBare(c);
    JoinIsBare(words);
    BareIsPlain(Join(words, ' '));
    forall s ensures Parses(expr, s) <==> Parses(Expression(None, c), s) { SamePlain(expr, Expression(None, c), s); }
  }

  /** `@yearly` is midnight of the first of January, `@monthly` of the first of each month. */
  lemma Firsts(expr: string)
    ensures Trim(Lower(expr)) in {"@yearly", "@annually"} ==>
              Stands(expr, Clock(Some(0), Some(0), Some(1), Some(1), None))
    ensures Trim(Lower(expr)) == "@monthly" ==> Stands(expr, Clock(Some(0), Some(0), Some(1), None, None))
  {
    SmallWords();
    if Trim(Lower(expr)) in {"@yearly", "@annually"} {
      var c := Clock(Some(0), Some(0), Some(1), Some(1), None);
      ClockText(c);
      SpelledOut(expr, c);
    } else if Trim(Lower(expr)) == "@monthly" {
      var c := Clock(Some(0), Some(0), Some(1), None, None);
      ClockText(c);
      SpelledOut(expr, c);
    }
  }

  /** `@daily` and `@midnight` are every midnight, `@weekly` that of each Sunday. */
  lemma Regulars(expr: string)
    ensures Trim(Lower(expr)) in {"@daily", "@midnight"} ==> Stands(expr, Clock(Some(0), Some(0), None, None, None))
    ensures Trim(Lower(expr)) == "@weekly" ==> Stands(expr, Clock(Some(0), Some(0), None, None, Some(0)))
  {
    SmallWords();
    if Trim(Lower(expr)) in {"@daily", "@midnight"} {
      var c := Clock(Some(0), Some(0), None, None, None);
      ClockText(c);
      SpelledOut(expr, c);
    } else if Trim(Lower(expr)) == "@weekly" {
      var c := Clock(Some(0), Some(0), None, None, Some(0));
      ClockText(c);
      SpelledOut(expr, c);
    }
  }

  /** `@hourly` is every full hour. */
  lemma Hourly(expr: string)
    ensures Trim(Lower(expr)) == "@hourly" ==> Stands(expr, Clock(Some(0), None, None, None, None))
  {
    SmallWords();
    if Trim(Lower(expr)) == "@hourly" {
      var c := Clock(Some(0), None, None, None, None);
      ClockText(c);
      SpelledOut(expr, c);
    }
  }

  /** No other word that starts with `@` is accepted. */
  lemma OtherMacros(expr: string)
    requires "@" <= Trim(Lower(expr))
    requires Trim(Lower(expr)) !in {"@yearly", "@annually", "@monthly", "@weekly", "@daily", "@midnight", "@hourly"}
    ensures !Accepted(expr)
  {
    assert Plain(expr) == Trim(Lower(expr)) && Plain(expr)[0] == '@';
  }

  // ------------------------------------------------------------------ when they fire

  lemma DayCut(d: int, r: int)
    requires 0 <= r < 86400
    ensures (d * 86400 + r) / 86400 == d && (d * 86400 + r) % 86400 == r
  {
  }

  lemma HourCut(h: int, r: int)
    requires 0 <= r < 3600
    ensures (h * 3600 + r) / 3600 == h && (h * 3600 + r) % 3600 == r
  {
  }

  lemma HourParts(d: int, h: nat, m: nat, sec: nat)
    requires h < 24 && m < 60 && sec < 60
    ensures var local := d * 86400 + h * 3600 + m * 60 + sec;
      local / 86400 == d && local % 86400 / 3600 == h && local % 3600 / 60 == m
  {
    var r := m * 60 + sec;
    DayCut(d, h * 3600 + r);
    HourCut(h, r);
    HourCut(d * 24 + h, r);
    assert d * 86400 + h * 3600 + r == (d * 24 + h) * 3600 + r;
  }

  /**
   When numbers and stars fire, in local time: at the whole minutes at which every number given is that of the
   clock; of a day of the month and a weekday, both given, either one will do.  Day 3 was a Sunday.
   */
  lemma ClockFires(s: Schedule, c: Clock, z: Zone, t: int)
    requires GoesBy(s, c) && !s.hasSeconds && Calendar(z)
    ensures var local := t + z.offset(t);
      var d := local / 86400;
      IsFire(s, z, t) <==>
        && t % 60 == 0
        && (c.minute.Some? ==> local % 3600 / 60 == c.minute.value)
        && (c.hour.Some? ==> local % 86400 / 3600 == c.hour.value)
        && (c.month.Some? ==> z.month(d) == c.month.value)
        && (c.day.Some? && c.weekday.None? ==> z.day(d) == c.day.value)
        && (c.day.None? && c.weekday.Some? ==> (d - 3 - c.weekday.value) % 7 == 0)
        && (c.day.Some? && c.weekday.Some? ==> z.day(d) == c.day.value || (d - 3 - c.weekday.value) % 7 == 0)
  {
    var d, h, m, sec, w := ClockOf(Local(z, t));
    FireIff(s, z, t, d, h, m, sec, w);
    HourParts(d, h, m, sec);
    if c.weekday.Some? { SameWeekday(d, w, c.weekday.value); }
  }

  lemma SameWeekday(d: int, w: nat, v: nat)
    requires w < 7 && v <= 7 && (d - 3 - w) % 7 == 0
    ensures (d - 3 - v) % 7 == 0 <==> w == Day(v)
  {
  }

  // ------------------------------------------------------------------ names

  lemma NameField(name: string, k: Kind, n: int, m: bv64)
    requires Sane(k) && name in k.names && k.names[name] == n && k.lo <= n <= k.hi && (k.wrap == 7 ==> n < 7)
    requires ',' !in name && '-' !in name && '/' !in name && name != "*"
    ensures FieldMask(name, k, m) <==> Bits(m, n, n)
  {
    ValueField(name, k, n, m);
  }

  lemma WeekdayNamed(w: nat, name: string, m: bv64)
    requires w < 7 && name == ["sun", "mon", "tue", "wed", "thu", "fri", "sat"][w]
    ensures FieldMask(name, DOWS, m) <==> Bits(m, w, w)
  {
    NameField(name, DOWS, w, m);
  }

  lemma MonthNamed(i: nat, name: string, m: bv64)
    requires 1 <= i <= 12
    requires name == ["jan", "feb", "mar", "apr", "may", "jun", "jul", "aug", "sep", "oct", "nov", "dec"][i - 1]
    ensures FieldMask(name, MONTHS, m) <==> Bits(m, i, i)
  {
    NameField(name, MONTHS, i, m);
  }

  lemma DayOfWeek(d: int, w: nat)
    requires w < 7 && (d - 3 - w) % 7 == 0
    ensures d % 7 == (3 + w) % 7
  {
  }

  lemma FiresOnOneDay(s: Schedule, z: Zone, t: int, w: nat)
    requires IsFire(s, z, t) && w < 7 && Bits(s.dows, w, w) && s.domStar && !s.dowStar
    ensures (t + z.offset(t)) / 86400 % 7 == (3 + w) % 7
  {
    var d, h, m, sec, v := ClockOf(Local(z, t));
    FiresOnItsWeekdays(s, z, t, v);
    assert v == w;
    DayOfWeek(d, w);
  }

  lemma ReadsDate(f: seq<string>, s: Schedule)
    requires (forall i | 0 <= i < |f| :: IsWord(f[i])) && WordsParse(f, s)
    ensures |f| >= 5 && FieldMask(f[|f| - 1], DOWS, s.dows) && FieldMask(f[|f| - 2], MONTHS, s.months)
    ensures s.domStar == (f[|f| - 3][0] == '*') && s.dowStar == (f[|f| - 1][0] == '*')
  {
  }

  lemma NamesTheDay(f: seq<string>, s: Schedule, w: nat)
    requires (forall i | 0 <= i < |f| :: IsWord(f[i])) && WordsParse(f, s) && "*" <= f[|f| - 3]
    requires w < 7 && f[|f| - 1] == ["sun", "mon", "tue", "wed", "thu", "fri", "sat"][w]
    ensures Bits(s.dows, w, w) && s.domStar && !s.dowStar
  {
    ReadsDate(f, s);
    WeekdayNamed(w, f[|f| - 1], s.dows);
  }

  /**
   With a star for the day of month and the name of a day for the weekday, every fire is on that day: for `mon`
   on the days 4, 11, 18 and so on of 1970, counted from 0.
   */
  lemma FiresOnTheNamedDay(expr: string, s: Schedule, z: Zone, t: int, w: nat, name: string)
    requires Parses(expr, s) && IsFire(s, z, t) && "*" <= FieldsOf(expr)[|FieldsOf(expr)| - 3]
    requires name == FieldsOf(expr)[|FieldsOf(expr)| - 1]
    requires w < 7 && name == ["sun", "mon", "tue", "wed", "thu", "fri", "sat"][w]
    ensures (t + z.offset(t)) / 86400 % 7 == (3 + w) % 7
  {
    NamesTheDay(FieldsOf(expr), s, w);
    FiresOnOneDay(s, z, t, w);
  }

  lemma FiresInOneMonth(s: Schedule, z: Zone, t: int, i: nat)
    requires IsFire(s, z, t) && Bits(s.months, i, i)
    ensures z.month((t + z.offset(t)) / 86400) == i
  {
    var d, h, m, sec, v := ClockOf(Local(z, t));
    FireIff(s, z, t, d, h, m, sec, v);
  }

  /** With the name of a month for the month, every fire is in that month. */
  lemma FiresInTheNamedMonth(expr: string, s: Schedule, z: Zone, t: int, i: nat, name: string)
    requires Parses(expr, s) && IsFire(s, z, t) && name == FieldsOf(expr)[|FieldsOf(expr)| - 2]
    requires 1 <= i <= 12
    requires name == ["jan", "feb", "mar", "apr", "may", "jun", "jul", "aug", "sep", "oct", "nov", "dec"][i - 1]
    ensures z.month((t + z.offset(t)) / 86400) == i
  {
    ReadsDate(FieldsOf(expr), s);
    MonthNamed(i, name, s.months);
    FiresInOneMonth(s, z, t, i);
  }

  // ------------------------------------------------------------------ spelling

  /** The same letter, a capital on the left. */
  predicate Capital(c: char, d: char) { 'A' <= c <= 'Z' && d as int == c as int + 32 }

  /** Capitals do not matter. */
  lemma CaseIsNothing(a: string, b: string, s: Schedule)
    requires |a| == |b| && forall i | 0 <= i < |a| :: a[i] == b[i] || Capital(a[i], b[i]) || Capital(b[i], a[i])
    ensures Parses(a, s) <==> Parses(b, s)
  {
    assert Lower(a) == Lower(b);
    SamePlain(a, b, s);
  }

  /** A blank, a tab, a line feed, a carriage return, a vertical tab or a form feed. */
  predicate IsBlank(c: char) { c as int in {32, 9, 10, 13, 11, 12} }

  predicate AllBlank(t: string) { forall i | 0 <= i < |t| :: IsBlank(t[i]) }

  lemma {:induction false} TrimLeftOf(pre: string, t: string)
    requires AllBlank(pre)
    ensures TrimLeft(pre + t) == TrimLeft(t)
    decreases |pre|
  {
    if pre == "" {
      assert pre + t == t;
    } else {
      assert (pre + t)[0] == pre[0] && (pre + t)[1..] == pre[1..] + t;
      TrimLeftOf(pre[1..], t);
    }
  }

  lemma {:induction false} TrimRightOf(t: string, post: string)
    requires AllBlank(post)
    ensures TrimRight(t + post) == TrimRight(t)
    decreases |post|
  {
    if post == "" {
      assert t + post == t;
    } else {
      var n := |post| - 1;
      assert (t + post)[|t| + n] == post[n] && (t + post)[..|t| + n] == t + post[..n];
      TrimRightOf(t, post[..n]);
    }
  }

  /** Trimming from the left either stops within `t` or goes through it. */
  lemma {:induction false} TrimLeftInto(t: string, post: string)
    ensures TrimLeft(t + post) == TrimLeft(t) + post || (TrimLeft(t) == "" && TrimLeft(t + post) == TrimLeft(post))
    decreases |t|
  {
    if t == "" {
      assert t + post == post;
    } else {
      assert (t + post)[0] == t[0] && (t + post)[1..] == t[1..] + post;
      if IsSpace(t[0]) { TrimLeftInto(t[1..], post); }
    }
  }

  lemma TrimAround(pre: string, t: string, post: string)
    requires AllBlank(pre) && AllBlank(post)
    ensures Trim(pre + t + post) == Trim(t)
  {
    assert pre + t + post == pre + (t + post);
    TrimLeftOf(pre, t + post);
    TrimLeftInto(t, post);
    TrimLeftOf(post, "");
    assert post + "" == post;
    TrimRightOf(TrimLeft(t), post);
  }

  lemma {:induction false} TrimLeftKeeps(t: string, i: nat) returns (k: nat)
    requires i < |t| && !IsBlank(t[i])
    ensures k < |TrimLeft(t)| && !IsBlank(TrimLeft(t)[k])
    decreases |t|
  {
    if IsSpace(t[0]) { k := TrimLeftKeeps(t[1..], i - 1); } else { k := i; }
  }

  lemma {:induction false} TrimRightKeeps(t: string, i: nat)
    requires i < |t| && !IsBlank(t[i])
    ensures TrimRight(t) != ""
    decreases |t|
  {
    if IsSpace(t[|t| - 1]) { TrimRightKeeps(t[..|t| - 1], i); }
  }

  /** What is left of a text is empty if and only if the text is all white space. */
  lemma TrimIsEmptyIff(t: string)
    ensures Trim(t) == "" <==> AllBlank(t)
  {
    if AllBlank(t) {
      TrimLeftOf(t, "");
      assert t + "" == t;
    } else {
      var i :| 0 <= i < |t| && !IsBlank(t[i]);
      var k := TrimLeftKeeps(t, i);
      TrimRightKeeps(TrimLeft(t), k);
    }
  }

  /** White space around an expression does not matter. */
  lemma SpaceAroundIsNothing(pre: string, expr: string, post: string, s: Schedule)
    requires AllBlank(pre) && AllBlank(post)
    ensures Parses(pre + expr + post, s) <==> Parses(expr, s)
  {
    assert Lower(pre + expr + post) == pre + Lower(expr) + post;
    TrimAround(pre, Lower(expr), post);
    SamePlain(pre + expr + post, expr, s);
  }

  /** One character of white space ends a word, and any more of it is passed over. */
  lemma {:induction false} BlankParts(a: string, c: char, b: string)
    requires IsBlank(c)
    ensures Fields(a + [c] + b) == Fields(a) + Fields(b)
    decreases |a|
  {
    var t := a + [c] + b;
    if a == "" {
      assert t[1..] == b;
    } else if IsSpace(a[0]) {
      assert t[0] == a[0] && t[1..] == a[1..] + [c] + b;
      BlankParts(a[1..], c, b);
    } else {
      var i := WordEnd(a);
      FirstWordOf(a, c, b);
      BlankParts(a[i..], c, b);
      Joined([a[..i]], Fields(a[i..]), Fields(b));
    }
  }

  lemma FirstWordOf(a: string, c: char, b: string)
    requires IsBlank(c) && a != "" && !IsSpace(a[0])
    ensures var i := WordEnd(a);
      && 0 < i && Fields(a + [c] + b) == [a[..i]] + Fields(a[i..] + [c] + b)
      && Fields(a) == [a[..i]] + Fields(a[i..])
  {
    var i, t := WordEnd(a), a + [c] + b;
    WordEndIn(a, c, b);
    assert t[0] == a[0] && t[..i] == a[..i] && t[i..] == a[i..] + [c] + b;
  }

  lemma {:induction false} WordEndIn(a: string, c: char, b: string)
    requires IsBlank(c)
    ensures WordEnd(a + [c] + b) == WordEnd(a)
    decreases |a|
  {
    if a != "" && !IsSpace(a[0]) {
      assert (a + [c] + b)[1..] == a[1..] + [c] + b;
      WordEndIn(a[1..], c, b);
    }
  }

  /** Nothing else parts words. */
  lemma OneWord(w: string)
    requires w != "" && forall i | 0 <= i < |w| :: !IsBlank(w[i])
    ensures Fields(w) == [w]
  {
    var i := WordEnd(w);
    assert i == |w|;
    WholeWord(w, i);
  }

  lemma WholeWord(w: string, i: nat)
    requires w != "" && !IsSpace(w[0]) && i == WordEnd(w) == |w|
    ensures Fields(w) == [w]
  {
    assert w[..i] == w && w[i..] == "";
  }
}
