/**
 Whole expressions: from text to schedule to fire times.
 */
module CronExpression {
  import opened CronMask
  import opened CronMeaning
  import opened CronParser
  import opened CronSchedule
  import opened Text
  import opened Tickets
  import CatchUp

  function Expand(e: string): string {
    if e == "@yearly" || e == "@annually" then "0 0 1 1 *"
    else if e == "@monthly" then "0 0 1 * *"
    else if e == "@weekly" then "0 0 * * 0"
    else if e == "@daily" || e == "@midnight" then "0 0 * * *"
    else if e == "@hourly" then "0 * * * *"
    else e
  }

  /** The fields of an expression, seconds first when there are six. */
  function Plain(expr: string): string { Expand(Trim(Lower(expr))) }

  function FieldsOf(expr: string): (words: seq<string>)
    ensures forall i | 0 <= i < |words| :: IsWord(words[i])
  {
    var words := Fields(Plain(expr));
    assert forall i | 0 <= i < |words| :: words[i] in words;
    words
  }

  predicate IsMacro(expr: string) { Plain(expr) != "" && Plain(expr)[0] == '@' }

  lemma ExpandBlank()
    ensures Expand("") == "" && Fields("") == []
  {
  }

  lemma BlankHasNoFields(expr: string)
    requires Trim(Lower(expr)) == ""
    ensures FieldsOf(expr) == []
  {
    ExpandBlank();
    assert Plain(expr) == "";
  }

  /** The five fields from the minute on. */
  ghost predicate DayAndTime(d: seq<string>, s: Schedule)
    requires |d| == 5 && IsWord(d[2]) && IsWord(d[4])
  {
    && FieldMask(d[0], MINUTES, s.minutes)
    && FieldMask(d[1], HOURS, s.hours)
    && FieldMask(d[2], DOMS, s.doms) && s.domStar == (d[2][0] == '*')
    && FieldMask(d[3], MONTHS, s.months)
    && FieldMask(d[4], DOWS, s.dows) && s.dowStar == (d[4][0] == '*')
  }

  ghost predicate WordsParse(f: seq<string>, s: Schedule)
    requires forall i | 0 <= i < |f| :: IsWord(f[i])
  {
    if |f| == 5 then !s.hasSeconds && s.seconds == 0 && DayAndTime(f, s)
    else if |f| == 6 then s.hasSeconds && FieldMask(f[0], SECONDS, s.seconds) && DayAndTime(f[1..], s)
    else false
  }

  /** `s` is a schedule the expression stands for. */
  ghost predicate Parses(expr: string, s: Schedule) { !IsMacro(expr) && WordsParse(FieldsOf(expr), s) }

  /** An accepted expression gives a schedule it stands for; a rejected one stands for none. */
  method Parse(expr: string) returns (r: Option<Schedule>)
    ensures r.Some? ==> Parses(expr, r.value)
    ensures r.None? ==> forall s :: !Parses(expr, s)
  {
    if Trim(Lower(expr)) == "" {
      BlankHasNoFields(expr);
      return None;
    }
    if IsMacro(expr) { return None; }
    var fields := FieldsOf(expr);
    if |fields| != 5 && |fields| != 6 { return None; }
    r := ParseWords(fields);
  }

  ghost predicate Accepted(expr: string) { exists s :: Parses(expr, s) }

  method Validate(expr: string) returns (ok: bool)
    ensures ok <==> Accepted(expr)
  {
    var s := Parse(expr);
    ok := s.Some?;
  }

  method ParseWords(fields: seq<string>) returns (r: Option<Schedule>)
    requires |fields| == 5 || |fields| == 6
    requires forall i | 0 <= i < |fields| :: IsWord(fields[i])
    ensures r.Some? ==> WordsParse(fields, r.value)
    ensures r.None? ==> forall s :: !WordsParse(fields, s)
  {
    var seconds: bv64 := 0;
    var i := 0;
    assert fields[0..] == fields;
    if |fields| == 6 {
      var word := ParseField(fields[0], SECONDS);
      if word.None? { return None; }
      seconds := word.value;
      i := 1;
    }
    r := ParseDayAndTime(fields, i, seconds);
  }

  method ParseDayAndTime(fields: seq<string>, i: nat, seconds: bv64) returns (r: Option<Schedule>)
    requires |fields| == i + 5 && IsWord(fields[i + 2]) && IsWord(fields[i + 4])
    ensures r.Some? ==> DayAndTime(fields[i..], r.value) && r.value.seconds == seconds && r.value.hasSeconds == (i == 1)
    ensures r.None? ==> forall s :: !DayAndTime(fields[i..], s)
  {
    ghost var d := fields[i..];
    assert d[0] == fields[i] && d[1] == fields[i + 1] && d[2] == fields[i + 2];
    assert d[3] == fields[i + 3] && d[4] == fields[i + 4];
    var minutes := ParseField(fields[i], MINUTES);
    if minutes.None? { return None; }
    var hours := ParseField(fields[i + 1], HOURS);
    if hours.None? { return None; }
    var doms := ParseField(fields[i + 2], DOMS);
    if doms.None? { return None; }
    var months := ParseField(fields[i + 3], MONTHS);
    if months.None? { return None; }
    var dows := ParseField(fields[i + 4], DOWS);
    if dows.None? { return None; }
    return Some(Schedule(seconds, minutes.value, hours.value, doms.value, months.value, dows.value,
                         fields[i + 2][0] == '*', fields[i + 4][0] == '*', i == 1));
  }

  // ------------------------------------------------------------------ a star

  lemma StarDenotes(k: Kind, x: Item)
    requires Denotes("*", k, x)
    ensures x == Item(k.lo, k.hi, 1)
  {
    assert '/' !in "*";
  }

  lemma StarIsFull(k: Kind, m: bv64, v: nat)
    requires Sane(k) && FieldMask("*", k, m) && k.wrap == 0 && k.lo <= v <= k.hi
    ensures Has(m, v)
  {
    var items: seq<Item> :| ItemsOf("*", k, items) && IsMask(m, AllMarks(items, k.wrap));
    assert Index("*", ',') == 1;
    assert Split("*", ',') == ["*"];
    StarDenotes(k, items[0]);
    assert InItem(items[0], v) && Fold(v, k.wrap) == v;
    MeantIsMarked(k, items[0], v);
    assert MarkedBy(items, k.wrap, v);
  }

  lemma SomeBit(field: string, k: Kind, m: bv64) returns (v: nat)
    requires Sane(k) && FieldMask(field, k, m) && k.wrap == 0
    ensures k.lo <= v <= k.hi && Has(m, v)
  {
    var items: seq<Item> :| ItemsOf(field, k, items) && IsMask(m, AllMarks(items, k.wrap));
    FirstIsMarked(k, items[0]);
    v := items[0].from;
    assert MarkedBy(items, k.wrap, v);
  }

  // ------------------------------------------------------------------ every accepted daily schedule fires

  /** A zone with one offset, a whole number of hours. */
  ghost predicate FixedHours(z: Zone) { forall t :: z.offset(t) == z.offset(0) && z.offset(0) % HOUR == 0 }

  predicate EveryDay(expr: string) {
    var f := FieldsOf(expr);
    |f| >= 3 && f[|f| - 3] == "*" && f[|f| - 2] == "*" && f[|f| - 1] == "*"
  }

  function NextAtTime(f: int, offset: int, tod: int): (t: int)
    requires 0 <= tod < DAY
    ensures f < t <= f + DAY && (t + offset) % DAY == tod
  {
    var d := (tod - (f + 1 + offset)) % DAY;
    assert (f + 1 + d + offset) % DAY == tod;
    f + 1 + d
  }

  lemma ClockAt(local: int, h: nat, m: nat, s: nat)
    requires h < 24 && m < 60 && s < 60 && local % DAY == h * HOUR + m * MINUTE + s
    ensures local / HOUR % 24 == h && local / MINUTE % 60 == m && local % 60 == s
  {
    var d := local / DAY;
    assert local == d * DAY + h * HOUR + m * MINUTE + s;
    assert local / MINUTE == d * 1440 + h * 60 + m;
    assert local / HOUR == d * 24 + h;
  }

  lemma FixedIsSteady(z: Zone)
    requires FixedHours(z)
    ensures Steady(z)
  {
    forall t ensures z.offset(t) % HOUR == 0 && z.offset(t) == z.offset(Floor(t, HOUR)) {
      assert z.offset(t) == z.offset(0) && z.offset(Floor(t, HOUR)) == z.offset(0);
    }
    WholeHoursAreSteady(z);
  }

  lemma FiresAt(s: Schedule, z: Zone, t: int, h: nat, m: nat, sec: nat)
    requires h < 24 && m < 60 && sec < 60 && z.offset(t) % HOUR == 0
    requires Local(z, t) % DAY == h * HOUR + m * MINUTE + sec
    requires Has(s.hours, h) && Has(s.minutes, m) && (if s.hasSeconds then Has(s.seconds, sec) else sec == 0)
    requires s.domStar && s.dowStar && Has(s.months, MonthOf(z, t))
    ensures IsFire(s, z, t)
  {
    ClockAt(Local(z, t), h, m, sec);
    WholeMinute(t, z.offset(t));
  }

  lemma WholeMinute(t: int, offset: int)
    requires offset % HOUR == 0
    ensures (t + offset) % 60 == t % MINUTE
  {
  }

  lemma FiresNext(s: Schedule, z: Zone, f: int, h: nat, m: nat, sec: nat) returns (t: int)
    requires h < 24 && m < 60 && sec < 60 && FixedHours(z)
    requires Has(s.hours, h) && Has(s.minutes, m) && (if s.hasSeconds then Has(s.seconds, sec) else sec == 0)
    requires s.domStar && s.dowStar && forall u :: Has(s.months, MonthOf(z, u))
    ensures f < t <= f + DAY && IsFire(s, z, t)
  {
    t := NextAtTime(f, z.offset(0), h * HOUR + m * MINUTE + sec);
    assert z.offset(t) == z.offset(0);
    FiresAt(s, z, t, h, m, sec);
  }

  lemma EveryMonth(months: bv64, z: Zone, t: int)
    requires FieldMask("*", MONTHS, months) && Calendar(z)
    ensures Has(months, MonthOf(z, t))
  {
    StarIsFull(MONTHS, months, MonthOf(z, t));
  }

  lemma TimeOfDay(d: seq<string>, s: Schedule) returns (h: nat, m: nat, sec: nat)
    requires |d| == 5 && FieldMask(d[0], MINUTES, s.minutes) && FieldMask(d[1], HOURS, s.hours)
    requires s.hasSeconds ==> exists field :: FieldMask(field, SECONDS, s.seconds)
    ensures h < 24 && m < 60 && sec < 60
    ensures Has(s.hours, h) && Has(s.minutes, m) && (if s.hasSeconds then Has(s.seconds, sec) else sec == 0)
  {
    h := SomeBit(d[1], HOURS, s.hours);
    m := SomeBit(d[0], MINUTES, s.minutes);
    sec := 0;
    if s.hasSeconds {
      var field :| FieldMask(field, SECONDS, s.seconds);
      sec := SomeBit(field, SECONDS, s.seconds);
    }
  }

  lemma FiresDaily(d: seq<string>, s: Schedule, z: Zone, f: int) returns (t: int)
    requires |d| == 5 && d[2] == "*" && d[3] == "*" && d[4] == "*"
    requires DayAndTime(d, s) && (s.hasSeconds ==> exists field :: FieldMask(field, SECONDS, s.seconds))
    requires Calendar(z) && FixedHours(z)
    ensures f < t <= f + DAY && IsFire(s, z, t)
  {
    var h, m, sec := TimeOfDay(d, s);
    forall u ensures Has(s.months, MonthOf(z, u)) { EveryMonth(s.months, z, u); }
    t := FiresNext(s, z, f, h, m, sec);
  }

  /**
   An accepted expression with `*` for day of month, month and day of week has its next fire
   within 24 hours of any instant, in a zone a whole number of hours from UTC.
   */
  lemma DailyWithin24Hours(expr: string, s: Schedule, z: Zone, from: int, limit: int)
    requires Parses(expr, s) && EveryDay(expr) && Calendar(z) && FixedHours(z)
    requires from + DAY * NS < limit
    ensures var r := Search(s, z, First(s, from), limit);
      r.Some? && from < r.value * NS <= from + DAY * NS && IsFire(s, z, r.value)
  {
    FixedIsSteady(z);
    var f := FieldsOf(expr);
    var t := FiresDaily(if |f| == 5 then f else f[1..], s, z, Seconds(from));
    NextIsLeast(s, z, from, limit);
    assert from < t * NS <= from + DAY * NS;
  }

  // ------------------------------------------------------------------ a star with more behind it

  lemma SomeFold(field: string, k: Kind, m: bv64) returns (v: nat)
    requires Sane(k) && FieldMask(field, k, m)
    ensures Has(m, v) && (if k.wrap == 0 then k.lo <= v <= k.hi else v < k.wrap)
  {
    var items: seq<Item> :| ItemsOf(field, k, items) && IsMask(m, AllMarks(items, k.wrap));
    FirstIsMarked(k, items[0]);
    v := Fold(items[0].from, k.wrap);
    assert MarkedBy(items, k.wrap, v);
  }

  ghost predicate FullDays(m: bv64) { forall d: nat | 1 <= d <= 31 :: Has(m, d) }

  ghost predicate FullWeek(m: bv64) { forall d: nat | d < 7 :: Has(m, d) }

  /**
   Vixie cron's rule for the two day fields: of two that do not start with a star either one will do; when
   one of them starts with a star, a day has to be listed by both.
   */
  predicate VixieRule(s: Schedule, day: nat, weekday: nat) {
    if s.domStar || s.dowStar then Has(s.doms, day) && Has(s.dows, weekday)
    else Has(s.doms, day) || Has(s.dows, weekday)
  }

  ghost predicate KeepsTheRule(s: Schedule) {
    forall day: nat, weekday: nat | 1 <= day <= 31 && weekday < 7 ::
      DayRule(s, day, weekday) <==> VixieRule(s, day, weekday)
  }

  /** The fields that start with a star list every day there is. */
  ghost predicate StarsAreFull(s: Schedule) { (s.domStar ==> FullDays(s.doms)) && (s.dowStar ==> FullWeek(s.dows)) }

  /** The words are those of the day fields, and a star is seen where a field starts with one. */
  ghost predicate ReadDays(s: Schedule, dom: string, dow: string) {
    && FieldMask(dom, DOMS, s.doms) && dom != "" && s.domStar == (dom[0] == '*')
    && FieldMask(dow, DOWS, s.dows) && dow != "" && s.dowStar == (dow[0] == '*')
  }

  lemma DayWords(f: seq<string>, s: Schedule)
    requires (forall i | 0 <= i < |f| :: IsWord(f[i])) && WordsParse(f, s)
    ensures |f| >= 5 && ReadDays(s, f[|f| - 3], f[|f| - 1])
  {
  }

  lemma RuleIff(s: Schedule, dom: string, dow: string)
    requires ReadDays(s, dom, dow)
    ensures KeepsTheRule(s) <==> StarsAreFull(s)
  {
    var day := SomeFold(dom, DOMS, s.doms);
    var weekday := SomeFold(dow, DOWS, s.dows);
    if KeepsTheRule(s) { RuleNeedsFull(s, day, weekday); }
  }

  lemma RuleNeedsFull(s: Schedule, day: nat, weekday: nat)
    requires 1 <= day <= 31 && Has(s.doms, day) && weekday < 7 && Has(s.dows, weekday)
    requires KeepsTheRule(s)
    ensures StarsAreFull(s)
  {
    forall d: nat | s.domStar && 1 <= d <= 31 ensures Has(s.doms, d) {
      assert DayRule(s, d, weekday) <==> VixieRule(s, d, weekday);
    }
    forall w: nat | s.dowStar && w < 7 ensures Has(s.dows, w) {
      assert DayRule(s, day, w) <==> VixieRule(s, day, w);
    }
  }

  lemma WordsRuleIff(f: seq<string>, s: Schedule)
    requires (forall i | 0 <= i < |f| :: IsWord(f[i])) && WordsParse(f, s)
    ensures StarsSeen(f, s) && (KeepsTheRule(s) <==> StarsAreFull(s))
  {
    DayWords(f, s);
    RuleIff(s, f[|f| - 3], f[|f| - 1]);
  }

  /** The stars of the schedule are those that the day fields start with. */
  predicate StarsSeen(f: seq<string>, s: Schedule) {
    |f| >= 5 && s.domStar == ("*" <= f[|f| - 3]) && s.dowStar == ("*" <= f[|f| - 1])
  }

  /**
   The code passes over what a day field that starts with a star lists.  So the days of an accepted
   expression are those of Vixie's rule if and only if each such field lists every day, as `*` alone does.
   */
  lemma VixieIff(expr: string, s: Schedule)
    requires Parses(expr, s)
    ensures StarsSeen(FieldsOf(expr), s) && (KeepsTheRule(s) <==> StarsAreFull(s))
  {
    WordsRuleIff(FieldsOf(expr), s);
  }

  lemma OnePart(field: string)
    requires ',' !in field
    ensures Split(field, ',') == [field]
  {
    var i := Index(field, ',');
    assert i == |field|;
  }

  lemma HalfOfDays(field: string, m: bv64)
    requires field == "*/2" && FieldMask(field, DOMS, m)
    ensures !Has(m, 2)
  {
    var items: seq<Item> :| ItemsOf(field, DOMS, items) && IsMask(m, AllMarks(items, 0));
    OnePart(field);
    SteppedStar(items[0]);
    TwoNotMeant(items[0]);
    if MarkedBy(items, 0, 2) { SoundIsFaithful(DOMS, items[0], 2); }
  }

  lemma TwoNotMeant(x: Item)
    requires x == Item(1, 31, 2)
    ensures !Means(x, 0, 2)
  {
  }

  lemma SteppedStar(x: Item)
    requires Denotes("*/2", DOMS, x)
    ensures x == Item(1, 31, 2)
  {
    var a: string, b: string :| IsSlash("*/2", a, b) && IsStepped(a, b, DOMS, x);
    SlashIsFirst("*/2", a, b);
    assert Index("*/2", '/') == 1;
    assert Number("2") == 2 && Atoi("2") == Some(2);
  }

  /** `*` followed by a step in the day of month: the second is not among its days, and yet nothing is left out. */
  lemma SteppedStarRestrictsNothing(expr: string, s: Schedule, z: Zone, t: int)
    requires Parses(expr, s)
    requires var f := FieldsOf(expr); f[|f| - 3] == "*/2" && f[|f| - 1] == "*"
    ensures !Has(s.doms, 2) && DayMatches(s, z, t)
  {
    HalfOfDays("*/2", s.doms);
  }

  // ------------------------------------------------------------------ writing an expression and reading it back

  ghost predicate Listed(items: seq<Item>, k: Kind) {
    items != [] && forall i | 0 <= i < |items| :: Fits(k, items[i])
  }

  /** Items for the minute, hour, day of month, month and day of week. */
  ghost predicate Five(d: seq<seq<Item>>) {
    && |d| == 5
    && Listed(d[0], MINUTES) && Listed(d[1], HOURS) && Listed(d[2], DOMS) && Listed(d[3], MONTHS) && Listed(d[4], DOWS)
  }

  /** Digits at both ends, and nothing but digits, the marks of a field and `sep` between. */
  predicate Tidy(t: string, sep: char) {
    && t != "" && IsDigit(t[0]) && IsDigit(t[|t| - 1])
    && forall i | 0 <= i < |t| :: IsDigit(t[i]) || t[i] in "-/," || t[i] == sep
  }

  lemma ShowIsTidy(x: Item, k: Kind)
    requires Sane(k) && Fits(k, x)
    ensures Tidy(Show(x, k), ',')
  {
    var a, b, c := Itoa(x.from), Itoa(x.to), Itoa(x.step);
    var t := Show(x, k);
    assert t == a + "-" + b + "/" + c;
    assert IsDigit(a[0]) && IsDigit(c[|c| - 1]) && t[|t| - 1] == c[|c| - 1];
    forall i | 0 <= i < |t| ensures IsDigit(t[i]) || t[i] in "-/," {
      assert t[i] in a || t[i] in "-" || t[i] in b || t[i] in "/" || t[i] in c;
    }
  }

  lemma {:induction false} JoinIsTidy(parts: seq<string>, sep: char)
    requires parts != [] && forall i | 0 <= i < |parts| :: Tidy(parts[i], ',')
    ensures Tidy(Join(parts, sep), sep)
    decreases |parts|
  {
    if |parts| > 1 {
      var a, rest := parts[0], Join(parts[1..], sep);
      JoinIsTidy(parts[1..], sep);
      var t := a + [sep] + rest;
      assert t[0] == a[0] && t[|t| - 1] == rest[|rest| - 1];
    }
  }

  /** A tidy text without white space: it starts with a digit, not with a star. */
  predicate TidyWord(w: string) { Tidy(w, ',') && IsWord(w) }

  predicate AllTidy(words: seq<string>) { forall i | 0 <= i < |words| :: TidyWord(words[i]) }

  lemma ShownIsTidy(items: seq<Item>, k: Kind)
    requires Sane(k) && Listed(items, k)
    ensures TidyWord(Join(ShowAll(items, k), ','))
  {
    var parts := ShowAll(items, k);
    forall i | 0 <= i < |parts| ensures Tidy(parts[i], ',') { ShowIsTidy(items[i], k); }
    JoinIsTidy(parts, ',');
  }

  function Field(items: seq<Item>, k: Kind): (w: string)
    requires Sane(k) && Listed(items, k)
    ensures TidyWord(w)
  {
    ShownIsTidy(items, k);
    Join(ShowAll(items, k), ',')
  }

  lemma FiveTidy(a: string, b: string, c: string, d: string, e: string)
    requires TidyWord(a) && TidyWord(b) && TidyWord(c) && TidyWord(d) && TidyWord(e)
    ensures AllTidy([a, b, c, d, e])
  {
  }

  function FiveWords(d: seq<seq<Item>>): (words: seq<string>)
    requires Five(d)
    ensures |words| == 5 && AllTidy(words)
  {
    var a, b, c := Field(d[0], MINUTES), Field(d[1], HOURS), Field(d[2], DOMS);
    var e, f := Field(d[3], MONTHS), Field(d[4], DOWS);
    FiveTidy(a, b, c, e, f);
    [a, b, c, e, f]
  }

  lemma TidyBefore(w: string, words: seq<string>)
    requires TidyWord(w) && AllTidy(words)
    ensures AllTidy([w] + words)
  {
  }

  function WordsFor(secs: seq<Item>, d: seq<seq<Item>>): (words: seq<string>)
    requires Five(d) && (secs != [] ==> Listed(secs, SECONDS))
    ensures |words| == (if secs == [] then 5 else 6) && AllTidy(words)
  {
    if secs == [] then FiveWords(d)
    else
      TidyBefore(Field(secs, SECONDS), FiveWords(d));
      [Field(secs, SECONDS)] + FiveWords(d)
  }

  /** The items as an expression: five fields, or six with a field of seconds in front. */
  function Written(secs: seq<Item>, d: seq<seq<Item>>): string
    requires Five(d) && (secs != [] ==> Listed(secs, SECONDS))
  {
    Join(WordsFor(secs, d), ' ')
  }

  lemma TidyIsPlain(t: string)
    requires Tidy(t, ' ')
    ensures Plain(t) == t && !IsMacro(t)
  {
    assert Lower(t) == t;
    assert TrimLeft(t) == t && TrimRight(t) == t;
    assert t[0] != '@';
  }

  lemma NamesAreNoNumbers()
    ensures forall n | n in MONTH_NAMES || n in DOW_NAMES :: !AllDigits(n)
  {
    forall n | n in MONTH_NAMES || n in DOW_NAMES ensures !AllDigits(n) { assert !IsDigit(n[0]); }
  }

  /** A field written from items has their word and no other. */
  lemma FieldReadsBack(items: seq<Item>, k: Kind, m: bv64)
    requires Sane(k) && Listed(items, k) && forall n | n in k.names :: !AllDigits(n)
    ensures FieldMask(Field(items, k), k, m) <==> IsMask(m, AllMarks(items, k.wrap))
  {
    RoundTrip(items, k);
    assert ItemsOf(Field(items, k), k, items);
  }

  /** The words of a schedule are those of the items, and no day field counts as a star. */
  ghost predicate Masks(d: seq<seq<Item>>, s: Schedule)
    requires |d| == 5
  {
    && IsMask(s.minutes, AllMarks(d[0], 0)) && IsMask(s.hours, AllMarks(d[1], 0))
    && IsMask(s.doms, AllMarks(d[2], 0)) && IsMask(s.months, AllMarks(d[3], 0)) && IsMask(s.dows, AllMarks(d[4], 7))
    && !s.domStar && !s.dowStar
  }

  lemma TimeReadsBack(d: seq<seq<Item>>, s: Schedule)
    requires Five(d)
    ensures FieldMask(Field(d[0], MINUTES), MINUTES, s.minutes) <==> IsMask(s.minutes, AllMarks(d[0], 0))
    ensures FieldMask(Field(d[1], HOURS), HOURS, s.hours) <==> IsMask(s.hours, AllMarks(d[1], 0))
  {
    FieldReadsBack(d[0], MINUTES, s.minutes);
    FieldReadsBack(d[1], HOURS, s.hours);
  }

  lemma DateReadsBack(d: seq<seq<Item>>, s: Schedule)
    requires Five(d)
    ensures FieldMask(Field(d[2], DOMS), DOMS, s.doms) <==> IsMask(s.doms, AllMarks(d[2], 0))
    ensures FieldMask(Field(d[3], MONTHS), MONTHS, s.months) <==> IsMask(s.months, AllMarks(d[3], 0))
    ensures FieldMask(Field(d[4], DOWS), DOWS, s.dows) <==> IsMask(s.dows, AllMarks(d[4], 7))
  {
    NamesAreNoNumbers();
    FieldReadsBack(d[2], DOMS, s.doms);
    FieldReadsBack(d[3], MONTHS, s.months);
    FieldReadsBack(d[4], DOWS, s.dows);
  }

  lemma FiveReadBack(d: seq<seq<Item>>, s: Schedule)
    requires Five(d)
    ensures var words := FiveWords(d); IsWord(words[2]) && IsWord(words[4]) && (DayAndTime(words, s) <==> Masks(d, s))
  {
    TimeReadsBack(d, s);
    DateReadsBack(d, s);
    FiveIff(d, FiveWords(d), s);
  }

  lemma FiveIff(d: seq<seq<Item>>, words: seq<string>, s: Schedule)
    requires |d| == 5 && |words| == 5 && IsWord(words[2]) && IsWord(words[4])
    requires words[2][0] != '*' && words[4][0] != '*'
    requires FieldMask(words[0], MINUTES, s.minutes) <==> IsMask(s.minutes, AllMarks(d[0], 0))
    requires FieldMask(words[1], HOURS, s.hours) <==> IsMask(s.hours, AllMarks(d[1], 0))
    requires FieldMask(words[2], DOMS, s.doms) <==> IsMask(s.doms, AllMarks(d[2], 0))
    requires FieldMask(words[3], MONTHS, s.months) <==> IsMask(s.months, AllMarks(d[3], 0))
    requires FieldMask(words[4], DOWS, s.dows) <==> IsMask(s.dows, AllMarks(d[4], 7))
    ensures DayAndTime(words, s) <==> Masks(d, s)
  {
  }

  lemma WrittenWords(secs: seq<Item>, d: seq<seq<Item>>)
    requires Five(d) && (secs != [] ==> Listed(secs, SECONDS))
    ensures !IsMacro(Written(secs, d)) && FieldsOf(Written(secs, d)) == WordsFor(secs, d)
  {
    var words := WordsFor(secs, d);
    JoinIsTidy(words, ' ');
    TidyIsPlain(Written(secs, d));
    FieldsOfJoin(words);
  }

  /** Any items that fit their fields can be written as an expression, which stands for exactly them. */
  lemma ExpressionRoundTrip(secs: seq<Item>, d: seq<seq<Item>>, s: Schedule)
    requires Five(d) && (secs != [] ==> Listed(secs, SECONDS))
    ensures Parses(Written(secs, d), s) <==>
              && Masks(d, s) && s.hasSeconds == (secs != [])
              && (if secs == [] then s.seconds == 0 else IsMask(s.seconds, AllMarks(secs, 0)))
  {
    WrittenWords(secs, d);
    var words := WordsFor(secs, d);
    FiveReadBack(d, s);
    if secs != [] {
      FieldReadsBack(secs, SECONDS, s.seconds);
      assert words[1..] == FiveWords(d);
    }
  }

  // ------------------------------------------------------------------ the schedule the scheduler catches up on

  /** `Next` as a function of the watermark is what catching up needs of it. */
  lemma SearchFinds(s: Schedule, z: Zone, limit: int -> int)
    requires s.hasSeconds ==> Steady(z)
    ensures CatchUp.Finds(t => IsFire(s, z, t), from => Search(s, z, First(s, from * NS), limit(from)))
  {
    var next := from => Search(s, z, First(s, from * NS), limit(from));
    var fire := t => IsFire(s, z, t);
    forall from | next(from).Some? ensures CatchUp.IsNext(fire, from, next(from).value) {
      NextIsLeast(s, z, from * NS, limit(from));
    }
  }

  ghost predicate InZone(tz: string, zones: string -> Option<Zone>, utc: Zone, z: Zone) {
    if tz == "" then z == utc else zones(tz) == Some(z)
  }

  method Locate(tz: string, zones: string -> Option<Zone>, utc: Zone) returns (r: Option<Zone>)
    ensures r.Some? ==> InZone(tz, zones, utc, r.value)
    ensures r.None? ==> tz != "" && zones(tz).None?
  {
    if tz == "" { return Some(utc); }
    return zones(tz);
  }

  /** `s` and `z` are a schedule the expression stands for and the zone of that name, and `r` answers for them. */
  ghost predicate AnswersFor(expr: string, tz: string, zones: string -> Option<Zone>, utc: Zone, now: int, limit: int,
                             s: Schedule, z: Zone, r: Option<int>)
  {
    Parses(expr, s) && InZone(tz, zones, utc, z) && Answers(s, z, now, limit, r)
  }

  /** The fire after `now`; no zone named means UTC. */
  method NextAfter(expr: string, tz: string, zones: string -> Option<Zone>, utc: Zone, now: int, limit: int)
    returns (r: Option<int>)
    ensures r.Some? ==> exists s, z :: AnswersFor(expr, tz, zones, utc, now, limit, s, z, r)
    ensures tz != "" && zones(tz).None? ==> r.None?
    ensures r.None? ==>
              || !Accepted(expr)
              || (tz != "" && zones(tz).None?)
              || exists s, z :: AnswersFor(expr, tz, zones, utc, now, limit, s, z, r)
  {
    var s := Parse(expr);
    if s.None? { return None; }
    var loc := Locate(tz, zones, utc);
    if loc.None? { return None; }
    r := Next(s.value, loc.value, now, limit);
    assert AnswersFor(expr, tz, zones, utc, now, limit, s.value, loc.value, r);
  }
}
