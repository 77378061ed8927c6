/**
 The search for the next fire time.  Times are whole seconds since the Unix epoch; the instants
 a search starts from and stops at are in nanoseconds.  Truncation to the minute or the hour
 works on absolute time, while the fields of a schedule are matched against local time: the
 search can jump over an hour or a minute only where the two agree.
 */
module CronSchedule {
  import opened CronMask
  import opened Tickets

  datatype Schedule = Schedule(
    seconds: bv64, minutes: bv64, hours: bv64, doms: bv64, months: bv64, dows: bv64,
    domStar: bool, dowStar: bool, hasSeconds: bool)

  /** A time zone: its offset at every instant, and the month and day of every local day number. */
  datatype Zone = Zone(offset: int -> int, month: int -> nat, day: int -> nat)

  ghost predicate Calendar(z: Zone) {
    forall d :: 1 <= z.month(d) <= 12 && 1 <= z.day(d) <= 31
  }

  const MINUTE: int := 60
  const HOUR: int := 3600
  const DAY: int := 86400

  function Local(z: Zone, t: int): int { t + z.offset(t) }

  function HourOf(z: Zone, t: int): nat { Local(z, t) / HOUR % 24 }

  function MinuteOf(z: Zone, t: int): nat { Local(z, t) / MINUTE % 60 }

  function SecondOf(z: Zone, t: int): nat { Local(z, t) % 60 }

  /** The first of January 1970 was a Thursday. */
  function WeekdayOf(z: Zone, t: int): nat { (Local(z, t) / DAY + 4) % 7 }

  function MonthOf(z: Zone, t: int): nat { z.month(Local(z, t) / DAY) }

  function DayOf(z: Zone, t: int): nat { z.day(Local(z, t) / DAY) }

  function Floor(t: int, unit: int): int
    requires unit > 0
  {
    t - t % unit
  }

  predicate DayMatches(s: Schedule, z: Zone, t: int) { DayRule(s, DayOf(z, t), WeekdayOf(z, t)) }

  predicate DayRule(s: Schedule, day: nat, weekday: nat) {
    var domOk := Has(s.doms, day);
    var dowOk := Has(s.dows, weekday);
    if s.domStar && s.dowStar then true
    else if s.domStar then dowOk
    else if s.dowStar then domOk
    else domOk || dowOk
  }

  predicate Matches(s: Schedule, z: Zone, t: int) {
    && Has(s.months, MonthOf(z, t))
    && Has(s.hours, HourOf(z, t))
    && Has(s.minutes, MinuteOf(z, t))
    && (s.hasSeconds ==> Has(s.seconds, SecondOf(z, t)))
    && DayMatches(s, z, t)
  }

  /** A fire: a matching instant on the grid of the schedule, seconds or (absolute) minutes. */
  predicate IsFire(s: Schedule, z: Zone, t: int) {
    (s.hasSeconds || t % MINUTE == 0) && Matches(s, z, t)
  }

  // ------------------------------------------------------------------ the search

  function First(s: Schedule, from: int): int {
    if s.hasSeconds then Seconds(from) + 1 else Floor(Seconds(from), MINUTE) + MINUTE
  }

  function Jump(s: Schedule, z: Zone, t: int): (u: int)
    ensures t < u
  {
    if !s.hasSeconds then t + MINUTE
    else if !Has(s.hours, HourOf(z, t)) then Floor(t, HOUR) + HOUR
    else if !Has(s.minutes, MinuteOf(z, t)) then Floor(t, MINUTE) + MINUTE
    else t + 1
  }

  /** Where the search that stands at `t` ends. */
  function Search(s: Schedule, z: Zone, t: int, limit: int): Option<int>
    decreases if t * NS < limit then limit - t * NS else 0
  {
    if t * NS >= limit then None
    else if Matches(s, z, t) then Some(t)
    else Search(s, z, Jump(s, z, t), limit)
  }

  /** `r` answers the question for the fire strictly after `now` and before `limit`. */
  ghost predicate Answers(s: Schedule, z: Zone, now: int, limit: int, r: Option<int>) {
    && r == Search(s, z, First(s, now), limit)
    && (r.Some? ==> IsFire(s, z, r.value) && now < r.value * NS < limit)
  }

  lemma FirstIsAfter(s: Schedule, from: int)
    ensures from < First(s, from) * NS && (s.hasSeconds || First(s, from) % MINUTE == 0)
  {
    assert Seconds(from) < First(s, from);
  }

  lemma JumpStaysAligned(s: Schedule, z: Zone, t: int)
    requires s.hasSeconds || t % MINUTE == 0
    ensures s.hasSeconds || Jump(s, z, t) % MINUTE == 0
  {
  }

  /** The next fire strictly after `from` and before `limit`. */
  method Next(s: Schedule, z: Zone, from: int, limit: int) returns (r: Option<int>)
    ensures Answers(s, z, from, limit, r)
  {
    var t := Floor(Seconds(from), MINUTE) + MINUTE;
    if s.hasSeconds { t := Seconds(from) + 1; }
    FirstIsAfter(s, from);
    while t * NS < limit
      invariant Search(s, z, t, limit) == Search(s, z, First(s, from), limit)
      invariant First(s, from) <= t && (s.hasSeconds || t % MINUTE == 0)
      decreases limit - t * NS
    {
      if Matches(s, z, t) { return Some(t); }
      ghost var next := Jump(s, z, t);
      JumpStaysAligned(s, z, t);
      if s.hasSeconds {
        if !Has(s.hours, HourOf(z, t)) {
          t := Floor(t, HOUR) + HOUR;
          assert t == next;
          continue;
        }
        if !Has(s.minutes, MinuteOf(z, t)) {
          t := Floor(t, MINUTE) + MINUTE;
          assert t == next;
          continue;
        }
        t := t + 1;
      } else {
        t := t + MINUTE;
      }
      assert t == next;
    }
    return None;
  }

  // ------------------------------------------------------------------ fires by the clock on the wall

  lemma ClockParts(local: int, d: int, h: nat, m: nat, sec: nat)
    requires h < 24 && m < 60 && sec < 60 && local == d * 86400 + h * 3600 + m * 60 + sec
    ensures local / DAY == d && local / HOUR % 24 == h && local / MINUTE % 60 == m && local % 60 == sec
  {
    assert local / MINUTE == d * 1440 + h * 60 + m;
    assert local / HOUR == d * 24 + h;
  }

  lemma WeekdayParts(d: int, w: nat)
    requires w < 7 && (d - 3 - w) % 7 == 0
    ensures (d + 4) % 7 == w
  {
  }

  /**
   What a fire is, by the local date and time: day `d` since the first of January 1970, a day `w` of the week
   from Sunday on (day 3 was a Sunday), `h` hours, `m` minutes and `sec` seconds into it.
   */
  lemma FireIff(s: Schedule, z: Zone, t: int, d: int, h: nat, m: nat, sec: nat, w: nat)
    requires h < 24 && m < 60 && sec < 60 && t + z.offset(t) == d * 86400 + h * 3600 + m * 60 + sec
    requires w < 7 && (d - 3 - w) % 7 == 0
    ensures IsFire(s, z, t) <==>
            && Has(s.months, z.month(d)) && Has(s.hours, h) && Has(s.minutes, m)
            && (if s.hasSeconds then Has(s.seconds, sec) else t % 60 == 0)
            && (if s.domStar then s.dowStar || Has(s.dows, w)
                else if s.dowStar then Has(s.doms, z.day(d))
                else Has(s.doms, z.day(d)) || Has(s.dows, w))
  {
    ClockParts(Local(z, t), d, h, m, sec);
    WeekdayParts(d, w);
  }

  /** Every instant has its place in that calendar. */
  lemma ClockOf(local: int) returns (d: int, h: nat, m: nat, sec: nat, w: nat)
    ensures h < 24 && m < 60 && sec < 60 && w < 7
    ensures local == d * 86400 + h * 3600 + m * 60 + sec && (d - 3 - w) % 7 == 0 && d == local / DAY
  {
    var r := local % DAY;
    d, h, m, sec := local / DAY, r / HOUR, r % HOUR / MINUTE, r % HOUR % MINUTE;
    w := (d - 3) % 7;
  }

  /** A schedule for days of the week fires on its days and no others. */
  lemma FiresOnItsWeekdays(s: Schedule, z: Zone, t: int, w: nat)
    requires s.domStar && !s.dowStar && IsFire(s, z, t)
    requires w < 7 && (Local(z, t) / DAY - 3 - w) % 7 == 0
    ensures Has(s.dows, w)
  {
    var d, h, m, sec, v := ClockOf(Local(z, t));
    WeekdayParts(d, w);
    WeekdayParts(d, v);
    FireIff(s, z, t, d, h, m, sec, v);
  }

  // ------------------------------------------------------------------ when the jumps lose nothing

  /** The local hour is one and the same throughout every UTC hour, and likewise the minute. */
  ghost predicate Steady(z: Zone) {
    && (forall t :: HourOf(z, t) == HourOf(z, Floor(t, HOUR)))
    && (forall t :: MinuteOf(z, t) == MinuteOf(z, Floor(t, MINUTE)))
  }

  /** The search from `from` to `limit` answers with the least fire between them, if there is one. */
  ghost predicate Exact(s: Schedule, z: Zone, from: int, limit: int) {
    match Search(s, z, First(s, from), limit)
    case Some(n) => from < n * NS < limit && IsFire(s, z, n) && forall t | from < t * NS && t < n :: !IsFire(s, z, t)
    case None => forall t | from < t * NS < limit :: !IsFire(s, z, t)
  }

  lemma WithinHour(t: int, u: int)
    requires t <= u < Floor(t, HOUR) + HOUR
    ensures Floor(u, HOUR) == Floor(t, HOUR)
  {
  }

  lemma WithinMinute(t: int, u: int)
    requires t <= u < Floor(t, MINUTE) + MINUTE
    ensures Floor(u, MINUTE) == Floor(t, MINUTE)
  {
  }

  lemma JumpLosesNothing(s: Schedule, z: Zone, t: int, u: int)
    requires s.hasSeconds ==> Steady(z)
    requires s.hasSeconds || t % MINUTE == 0
    requires !Matches(s, z, t) && t <= u < Jump(s, z, t)
    ensures !IsFire(s, z, u)
  {
    if !s.hasSeconds {
      MinuteGrid(t, u);
    } else if !Has(s.hours, HourOf(z, t)) {
      HourHolds(z, t, u);
    } else if !Has(s.minutes, MinuteOf(z, t)) {
      MinuteHolds(z, t, u);
    }
  }

  lemma MinuteGrid(t: int, u: int)
    requires t % MINUTE == 0 && t <= u < t + MINUTE
    ensures u == t || u % MINUTE != 0
  {
  }

  lemma HourHolds(z: Zone, t: int, u: int)
    requires Steady(z) && t <= u < Floor(t, HOUR) + HOUR
    ensures HourOf(z, u) == HourOf(z, t)
  {
    WithinHour(t, u);
    assert HourOf(z, u) == HourOf(z, Floor(u, HOUR)) && HourOf(z, t) == HourOf(z, Floor(t, HOUR));
  }

  lemma MinuteHolds(z: Zone, t: int, u: int)
    requires Steady(z) && t <= u < Floor(t, MINUTE) + MINUTE
    ensures MinuteOf(z, u) == MinuteOf(z, t)
  {
    WithinMinute(t, u);
    assert MinuteOf(z, u) == MinuteOf(z, Floor(u, MINUTE)) && MinuteOf(z, t) == MinuteOf(z, Floor(t, MINUTE));
  }

  lemma {:induction false} SearchIsLeast(s: Schedule, z: Zone, t: int, limit: int)
    requires s.hasSeconds ==> Steady(z)
    requires s.hasSeconds || t % MINUTE == 0
    ensures match Search(s, z, t, limit)
      case Some(n) => t <= n && n * NS < limit && IsFire(s, z, n) && forall u | t <= u < n :: !IsFire(s, z, u)
      case None => forall u | t <= u && u * NS < limit :: !IsFire(s, z, u)
    decreases if t * NS < limit then limit - t * NS else 0
  {
    if t * NS < limit && !Matches(s, z, t) {
      SearchIsLeast(s, z, Jump(s, z, t), limit);
      forall u | t <= u < Jump(s, z, t) ensures !IsFire(s, z, u) { JumpLosesNothing(s, z, t, u); }
    }
  }

  /** Minute schedules in any zone, second schedules in a steady one: the search is the naive search. */
  lemma NextIsLeast(s: Schedule, z: Zone, from: int, limit: int)
    requires s.hasSeconds ==> Steady(z)
    ensures Exact(s, z, from, limit)
  {
    var t0 := First(s, from);
    SearchIsLeast(s, z, t0, limit);
    forall u | from < u * NS && u < t0 ensures !IsFire(s, z, u) {
      assert Seconds(from) < u;
    }
  }

  const ALL: bv64 := 0xFFFF_FFFF_FFFF_FFFF

  lemma AllHas(v: nat)
    requires v < 64
    ensures Has(ALL, v)
  {
    OneNonZero(v);
    AllAnd(One(v));
  }

  lemma AllAnd(x: bv64)
    requires x != 0
    ensures Meets(ALL, x)
  {
  }

  /** A schedule that fires every second of the hours and minutes given. */
  function EverySecond(hours: bv64, minutes: bv64): Schedule {
    Schedule(ALL, minutes, hours, ALL, ALL, ALL, true, true, true)
  }

  lemma EverySecondFires(z: Zone, hours: bv64, minutes: bv64, t: int)
    requires Calendar(z)
    ensures IsFire(EverySecond(hours, minutes), z, t) <==> Has(hours, HourOf(z, t)) && Has(minutes, MinuteOf(z, t))
  {
    AllHas(MonthOf(z, t));
    AllHas(SecondOf(z, t));
  }

  lemma OnlyBit(b: nat, v: nat)
    requires b < 64
    ensures Has(One(b), v) <==> v == b
  {
    if v == b { OneNonZero(b); AllAndSelf(One(b)); } else { Apart(b, v); }
  }

  lemma AllAndSelf(x: bv64)
    requires x != 0
    ensures Meets(x, x)
  {
  }

  /** A search that stands at `u` and jumps over the fire at `t` does not find it in time. */
  lemma SkippedFireIsLost(s: Schedule, z: Zone, u: int, t: int)
    requires s.hasSeconds && !Matches(s, z, u) && u <= t < Jump(s, z, u) && IsFire(s, z, t)
    ensures !Exact(s, z, (u - 1) * NS, (t + 1) * NS)
  {
    var limit := (t + 1) * NS;
    assert First(s, (u - 1) * NS) == u;
    assert Search(s, z, Jump(s, z, u), limit) == None;
    assert Search(s, z, u, limit) == None;
    assert (u - 1) * NS < t * NS < limit;
  }

  /** An hour that changes inside a UTC hour is lost by a schedule for the later one. */
  lemma UnsteadyHourLoses(z: Zone, t: int)
    requires Calendar(z) && HourOf(z, t) != HourOf(z, Floor(t, HOUR))
    ensures !Exact(EverySecond(One(HourOf(z, t)), ALL), z, (Floor(t, HOUR) - 1) * NS, (t + 1) * NS)
  {
    var s := EverySecond(One(HourOf(z, t)), ALL);
    OnlyBit(HourOf(z, t), HourOf(z, Floor(t, HOUR)));
    OnlyBit(HourOf(z, t), HourOf(z, t));
    AllHas(MinuteOf(z, t));
    EverySecondFires(z, s.hours, ALL, t);
    SkippedFireIsLost(s, z, Floor(t, HOUR), t);
  }

  lemma MinuteJump(s: Schedule, z: Zone, t: int)
    requires s.hasSeconds && Has(s.hours, HourOf(z, Floor(t, MINUTE))) && !Has(s.minutes, MinuteOf(z, Floor(t, MINUTE)))
    ensures var u := Floor(t, MINUTE); !Matches(s, z, u) && u <= t < Jump(s, z, u)
  {
    assert Floor(Floor(t, MINUTE), MINUTE) == Floor(t, MINUTE);
  }

  lemma UnsteadyMinuteLoses(z: Zone, t: int)
    requires Calendar(z) && MinuteOf(z, t) != MinuteOf(z, Floor(t, MINUTE))
    ensures !Exact(EverySecond(ALL, One(MinuteOf(z, t))), z, (Floor(t, MINUTE) - 1) * NS, (t + 1) * NS)
  {
    var s := EverySecond(ALL, One(MinuteOf(z, t)));
    OnlyBit(MinuteOf(z, t), MinuteOf(z, Floor(t, MINUTE)));
    OnlyBit(MinuteOf(z, t), MinuteOf(z, t));
    AllHas(HourOf(z, t));
    AllHas(HourOf(z, Floor(t, MINUTE)));
    EverySecondFires(z, ALL, s.minutes, t);
    MinuteJump(s, z, t);
    SkippedFireIsLost(s, z, Floor(t, MINUTE), t);
  }

  /** The search is exact for every schedule with seconds if and only if the zone is steady. */
  lemma SearchExactIffSteady(z: Zone)
    requires Calendar(z)
    ensures (forall s: Schedule, from, limit | s.hasSeconds :: Exact(s, z, from, limit)) <==> Steady(z)
  {
    if Steady(z) {
      forall s: Schedule, from, limit | s.hasSeconds ensures Exact(s, z, from, limit) {
        NextIsLeast(s, z, from, limit);
      }
    } else if t :| HourOf(z, t) != HourOf(z, Floor(t, HOUR)) {
      UnsteadyHourLoses(z, t);
    } else {
      var t :| MinuteOf(z, t) != MinuteOf(z, Floor(t, MINUTE));
      UnsteadyMinuteLoses(z, t);
    }
  }

  lemma SameHour(t: int, offset: int)
    requires offset % HOUR == 0
    ensures (t + offset) / HOUR == (Floor(t, HOUR) + offset) / HOUR
  {
  }

  lemma SameMinute(t: int, offset: int)
    requires offset % MINUTE == 0
    ensures (t + offset) / MINUTE == (Floor(t, MINUTE) + offset) / MINUTE
  {
  }

  lemma MinuteWithinHour(t: int)
    ensures Floor(Floor(t, MINUTE), HOUR) == Floor(t, HOUR)
  {
    var h, r := t / HOUR, t % HOUR;
    assert Floor(t, MINUTE) == h * HOUR + Floor(r, MINUTE);
  }

  lemma HoursAreMinutes(offset: int)
    requires offset % HOUR == 0
    ensures offset % MINUTE == 0
  {
  }

  /** Offsets of whole hours that change only on the UTC hour are steady. */
  lemma WholeHoursAreSteady(z: Zone)
    requires forall t :: z.offset(t) % HOUR == 0 && z.offset(t) == z.offset(Floor(t, HOUR))
    ensures Steady(z)
  {
    forall t ensures HourOf(z, t) == HourOf(z, Floor(t, HOUR)) {
      SameHour(t, z.offset(t));
    }
    forall t ensures MinuteOf(z, t) == MinuteOf(z, Floor(t, MINUTE)) {
      MinuteWithinHour(t);
      HoursAreMinutes(z.offset(t));
      assert z.offset(t) == z.offset(Floor(t, HOUR)) == z.offset(Floor(t, MINUTE));
      SameMinute(t, z.offset(t));
    }
  }

  // ------------------------------------------------------------------ half an hour off

  /** India: five and a half hours ahead of UTC. */
  function HalfHourZone(month: int -> nat, day: int -> nat): Zone { Zone(_ => 19800, month, day) }

  const SIX_O_CLOCK: Schedule := Schedule(One(0), One(0), One(6), ALL, ALL, ALL, true, true, true)

  lemma SixFires(z: Zone, t: int)
    requires Calendar(z) && z == HalfHourZone(z.month, z.day)
    ensures IsFire(SIX_O_CLOCK, z, t) <==> t % DAY == 1800
    ensures Has(SIX_O_CLOCK.hours, HourOf(z, t)) <==> 1800 <= t % DAY < 5400
    ensures Has(SIX_O_CLOCK.minutes, MinuteOf(z, t)) <==> 1800 <= t % HOUR < 1860
  {
    OnlyBit(6, HourOf(z, t));
    OnlyBit(0, MinuteOf(z, t));
    OnlyBit(0, SecondOf(z, t));
    AllHas(MonthOf(z, t));
    HalfHourClock(t);
  }

  lemma HalfHourClock(t: int)
    ensures (t + 19800) / HOUR % 24 == 6 <==> 1800 <= t % DAY < 5400
    ensures (t + 19800) / MINUTE % 60 == 0 <==> 1800 <= t % HOUR < 1860
    ensures t % DAY % HOUR == t % HOUR && t % HOUR % MINUTE == t % MINUTE
    ensures (t + 19800) % 60 == t % MINUTE
  {
    HalfHourHours(t / DAY, t % DAY);
    HalfHourMinutes(t / HOUR, t % HOUR);
    HourWithinDay(t);
    MinuteOfHour(t);
    SecondKept(t);
  }

  lemma HalfHourHours(d: int, r: int)
    requires 0 <= r < DAY
    ensures (d * DAY + r + 19800) / HOUR % 24 == 6 <==> 1800 <= r < 5400
  {
    var q := (r + 19800) / HOUR;
    assert (d * DAY + r + 19800) / HOUR == 24 * d + q;
    assert 5 <= q <= 29;
  }

  lemma HalfHourMinutes(h: int, r: int)
    requires 0 <= r < HOUR
    ensures (h * HOUR + r + 19800) / MINUTE % 60 == 0 <==> 1800 <= r < 1860
  {
    var q := r / MINUTE;
    assert (h * HOUR + r + 19800) / MINUTE == 60 * (h + 5) + (q + 30);
    assert 30 <= q + 30 < 90;
  }

  lemma HourWithinDay(t: int)
    ensures t % DAY % HOUR == t % HOUR
  {
    var d, r := t / DAY, t % DAY;
    assert t == (24 * d + r / HOUR) * HOUR + r % HOUR;
  }

  lemma MinuteOfHour(t: int)
    ensures t % HOUR % MINUTE == t % MINUTE
  {
    var h, r := t / HOUR, t % HOUR;
    assert t == (60 * h + r / MINUTE) * MINUTE + r % MINUTE;
  }

  lemma SecondKept(t: int)
    ensures (t + 19800) % 60 == t % MINUTE
  {
  }

  lemma SixIsJumpedOver(z: Zone, t: int)
    requires Calendar(z) && z == HalfHourZone(z.month, z.day)
    requires t % DAY != 1800
    ensures Jump(SIX_O_CLOCK, z, t) % DAY != 1800
  {
    SixFires(z, t);
    HourStep(t);
    if 1800 <= t % DAY < 5400 {
      MinuteStep(t);
      SecondStep(t);
    }
  }

  lemma HourStep(t: int)
    ensures (Floor(t, HOUR) + HOUR) % DAY != 1800
  {
    var h := t / HOUR + 1;
    assert Floor(t, HOUR) + HOUR == h / 24 * DAY + h % 24 * HOUR;
  }

  lemma MinuteStep(t: int)
    requires 1800 <= t % DAY < 5400
    ensures (Floor(t, MINUTE) + MINUTE) % DAY != 1800
  {
    HourWithinDay(t);
    MinuteOfHour(t);
    MinuteOfHour(t % DAY);
    FloorAtLeast(t % DAY);
    DayRest(t / DAY, Floor(t % DAY, MINUTE) + MINUTE);
  }

  lemma FloorAtLeast(r: int)
    requires 1800 <= r
    ensures 1800 <= Floor(r, MINUTE)
  {
  }

  lemma DayRest(d: int, r: int)
    requires 0 <= r < DAY
    ensures (d * DAY + r) % DAY == r
  {
  }

  lemma SecondStep(t: int)
    requires 1800 <= t % DAY < 5400
    ensures (t + 1) % DAY != 1800
  {
  }

  /** A search that does not start on the very second never finds it, on any later day. */
  lemma {:induction false} SixIsMissed(z: Zone, t: int, limit: int)
    requires Calendar(z) && z == HalfHourZone(z.month, z.day)
    requires t % DAY != 1800
    ensures Search(SIX_O_CLOCK, z, t, limit) == None
    decreases if t * NS < limit then limit - t * NS else 0
  {
    if t * NS < limit {
      SixFires(z, t);
      SixIsJumpedOver(z, t);
      SixIsMissed(z, Jump(SIX_O_CLOCK, z, t), limit);
    }
  }

  lemma SixIsFound(z: Zone, t: int, limit: int)
    requires Calendar(z) && z == HalfHourZone(z.month, z.day)
    requires t % DAY == 1800
    ensures Search(SIX_O_CLOCK, z, t, limit) == if t * NS < limit then Some(t) else None
  {
    SixFires(z, t);
  }

  /** A job for six o'clock sharp is due every day; the search sees it only from the second before. */
  lemma SixOClockInIndia(z: Zone, from: int, limit: int)
    requires Calendar(z) && z == HalfHourZone(z.month, z.day)
    ensures forall t | t % DAY == 1800 :: IsFire(SIX_O_CLOCK, z, t)
    ensures var t := Seconds(from) + 1;
      Search(SIX_O_CLOCK, z, First(SIX_O_CLOCK, from), limit) ==
        if t % DAY == 1800 && t * NS < limit then Some(t) else None
  {
    forall t | t % DAY == 1800 ensures IsFire(SIX_O_CLOCK, z, t) { SixFires(z, t); }
    var t0 := First(SIX_O_CLOCK, from);
    if t0 % DAY == 1800 { SixIsFound(z, t0, limit); } else { SixIsMissed(z, t0, limit); }
  }
}
