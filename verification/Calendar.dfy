/** Week arithmetic: local days, week starts, and the count of WeeklyNet weeks.

    An instant is a number of Unix seconds.  A time zone is an offset function.  Everything finer
    than a second is dropped before a zone is consulted, as `time.Time` does, so an instant and its
    RFC 3339 whole-second text have the same local day.
  */
module Calendar {

  type DayOfWeek = d: int | 0 <= d < 7

  /** Seconds east of UTC, as a function of Unix seconds. */
  datatype Zone = Zone(offset: int -> int)

  /** The wall clock at an instant, as seconds since 1970-01-01 00:00 local. */
  function ToLocal(z: Zone, u: int): int {
    u + z.offset(u)
  }

  /** `time.Date`: looks the offset up twice, since the first guess may straddle a transition. */
  function FromLocal(z: Zone, l: int): int {
    l - z.offset(l - z.offset(l))
  }

  function LocalDay(z: Zone, u: int): int {
    ToLocal(z, u) / 86_400
  }

  /** 1970-01-01 was a Thursday and 2026-05-04, day 20577, is a Monday; Sunday is 0. */
  function WeekdayOf(day: int): DayOfWeek {
    (day + 4) % 7
  }

  function Midnight(z: Zone, day: int): int {
    FromLocal(z, day * 86_400)
  }

  /** `AddDate(0, 0, n)`: same wall clock, n calendar days later. */
  function AddDays(z: Zone, u: int, n: int): int {
    FromLocal(z, ToLocal(z, u) + n * 86_400)
  }

  predicate IsWeekday(z: Zone, target: DayOfWeek, u: int) {
    WeekdayOf(LocalDay(z, u)) == target
  }

  function DaysSince(day: int, target: DayOfWeek): int {
    (WeekdayOf(day) - target + 7) % 7
  }

  function WeekStart(z: Zone, target: DayOfWeek, u: int): int {
    var day := LocalDay(z, u);
    AddDays(z, Midnight(z, day), -DaysSince(day, target))
  }

  /** The calendar date a week start is formatted as. */
  function WeekDate(z: Zone, target: DayOfWeek, u: int): int {
    LocalDay(z, WeekStart(z, target, u))
  }

  /** The date of the week that traffic of a target day is filed under. */
  function WeekOfDay(z: Zone, day: int): int {
    LocalDay(z, AddDays(z, Midnight(z, day), 0))
  }

  /** Whatever the zone, target-weekday traffic is filed by its local day alone. */
  lemma TargetDayWeek(z: Zone, target: DayOfWeek, u: int)
    requires IsWeekday(z, target, u)
    ensures WeekDate(z, target, u) == WeekOfDay(z, LocalDay(z, u))
  {
  }

  // ----- the calendar specification

  /** `d` is the last `target` weekday that is not after `day`. */
  ghost predicate IsLatest(d: int, day: int, target: DayOfWeek) {
    && d <= day
    && WeekdayOf(d) == target
    && forall e :: d < e <= day ==> WeekdayOf(e) != target
  }

  function Latest(day: int, target: DayOfWeek): (d: int)
    ensures day - 6 <= d <= day
  {
    day - DaysSince(day, target)
  }

  lemma LatestWeekday(day: int, target: DayOfWeek)
    ensures WeekdayOf(Latest(day, target)) == target
  {
  }

  lemma LatestIsLatest(day: int, target: DayOfWeek)
    ensures IsLatest(Latest(day, target), day, target)
  {
    LatestWeekday(day, target);
    forall e | Latest(day, target) < e <= day ensures WeekdayOf(e) != target {
      if WeekdayOf(e) == target {
        SameWeekdayGap(Latest(day, target), e, target);
      }
    }
  }

  /** A target weekday is the latest of itself. */
  lemma LatestOfItself(day: int, target: DayOfWeek)
    requires WeekdayOf(day) == target
    ensures Latest(day, target) == day
  {
  }

  lemma LatestIsMonotone(a: int, b: int, target: DayOfWeek)
    requires a <= b
    ensures Latest(a, target) <= Latest(b, target)
    ensures (Latest(b, target) - Latest(a, target)) % 7 == 0
  {
    hide Latest, WeekdayOf;
    LatestWeekday(a, target);
    LatestWeekday(b, target);
    SameWeekdayGap(Latest(a, target), Latest(b, target), target);
  }

  // ----- zones

  /** The wall clock that `time.Date` ends up on when asked for `l`. */
  function Resolve(z: Zone, l: int): int {
    ToLocal(z, FromLocal(z, l))
  }

  predicate HasMidnight(z: Zone, day: int) {
    Resolve(z, day * 86_400) == day * 86_400
  }

  /** Every local midnight exists, and offsets never swing by a whole day. */
  ghost predicate Regular(z: Zone) {
    && (forall day :: HasMidnight(z, day))
    && (forall u, v :: z.offset(u) - z.offset(v) < 86_400)
  }

  /** Zones may skip wall-clock times, but skips are short, resolve to times that exist, and are
      more than a week apart. */
  ghost predicate Spaced(z: Zone) {
    && (forall l :: Resolve(z, Resolve(z, l)) == Resolve(z, l))
    && (forall l :: -21_600 <= Resolve(z, l) - l <= 21_600)
    && (forall l, m :: Resolve(z, l) != l && Resolve(z, m) != m && l <= m ==>
          m - l < 43_200 || 8 * 86_400 <= m - l)
  }

  function OneChange(at: int, before: int, after: int): Zone {
    Zone(u => if u < at then before else after)
  }

  /** A wall-clock time is skipped by a single change of offset exactly when it lies in the gap. */
  lemma OneChangeResolve(at: int, before: int, after: int, l: int)
    ensures Resolve(OneChange(at, before, after), l) ==
            if at + before <= l < at + after
            then (if l < at then l - (after - before) else l + (after - before))
            else l
  {
  }

  /** Zones with one change of at most six hours, either way, satisfy the `Spaced` assumption. */
  lemma OneChangeIsSpaced(at: int, before: int, after: int)
    requires -21_600 <= after - before <= 21_600
    ensures Spaced(OneChange(at, before, after))
  {
    var z := OneChange(at, before, after);
    forall l
      ensures Resolve(z, Resolve(z, l)) == Resolve(z, l) && -21_600 <= Resolve(z, l) - l <= 21_600
      ensures Resolve(z, l) != l ==> at + before <= l < at + after
    {
      OneChangeResolve(at, before, after, l);
      OneChangeResolve(at, before, after, Resolve(z, l));
    }
  }

  /** Zones whose one change of offset skips no midnight are regular. */
  lemma OneChangeIsRegular(at: int, before: int, after: int)
    requires forall day :: !(at + before <= day * 86_400 < at + after)
    requires -86_400 < after - before < 86_400
    ensures Regular(OneChange(at, before, after))
  {
    forall day ensures HasMidnight(OneChange(at, before, after), day) {
      OneChangeResolve(at, before, after, day * 86_400);
    }
  }

  /** Zones whose instants and wall clocks are in step: what `time.Date` makes of a skipped time is
      what it makes of the time it ends up on, and later existing times are later instants. */
  ghost predicate Orderly(z: Zone) {
    && Spaced(z)
    && (forall l :: FromLocal(z, Resolve(z, l)) == FromLocal(z, l))
    && (forall l, m :: Resolve(z, l) == l && Resolve(z, m) == m && l < m ==> FromLocal(z, l) < FromLocal(z, m))
  }

  lemma OneChangeIsOrderly(at: int, before: int, after: int)
    requires -21_600 <= after - before <= 21_600
    ensures Orderly(OneChange(at, before, after))
  {
    var z := OneChange(at, before, after);
    OneChangeIsSpaced(at, before, after);
    forall l ensures FromLocal(z, Resolve(z, l)) == FromLocal(z, l) {
      OneChangeResolve(at, before, after, l);
    }
    forall l, m | Resolve(z, l) == l && Resolve(z, m) == m && l < m ensures FromLocal(z, l) < FromLocal(z, m) {
      OneChangeResolve(at, before, after, l);
      OneChangeResolve(at, before, after, m);
    }
  }

  /** Instants that `time.Date` returns are in the order of the wall clocks they end up on. */
  lemma InstantsInOrder(z: Zone, l: int, m: int)
    requires Orderly(z)
    ensures FromLocal(z, l) < FromLocal(z, m) <==> Resolve(z, l) < Resolve(z, m)
  {
    hide FromLocal, Resolve;
    var a, b := Resolve(z, l), Resolve(z, m);
    assert Resolve(z, a) == a && Resolve(z, b) == b;
    assert FromLocal(z, a) == FromLocal(z, l) && FromLocal(z, b) == FromLocal(z, m);
  }

  // ----- week starts

  ghost predicate StartsOnLatest(z: Zone, target: DayOfWeek, u: int) {
    ToLocal(z, WeekStart(z, target, u)) == Latest(LocalDay(z, u), target) * 86_400
  }

  /** The week start is the local midnight of the latest target weekday exactly when neither that
      midnight nor the midnight of the day itself is skipped by a clock change. */
  lemma WeekStartCorrectIff(z: Zone, target: DayOfWeek, u: int)
    requires Spaced(z)
    ensures StartsOnLatest(z, target, u) <==>
            HasMidnight(z, LocalDay(z, u)) && HasMidnight(z, Latest(LocalDay(z, u), target))
  {
    var day := LocalDay(z, u);
    var delta := DaysSince(day, target);
    var y := Resolve(z, day * 86_400) - delta * 86_400;
    assert ToLocal(z, WeekStart(z, target, u)) == Resolve(z, y);
    if !HasMidnight(z, day) {
      if delta == 0 {
        assert y == Resolve(z, day * 86_400);
      } else {
        assert Resolve(z, y) == y;
      }
    }
  }

  /** A skipped midnight west of Greenwich: clocks jump from 00:00 to 01:00 on day 3 (a Sunday), and
      the week start of that Sunday falls on the Saturday before. */
  lemma SkippedMidnightMovesWeek()
    ensures var z := OneChange(3 * 86_400 + 18000, -18000, -14400);
            && Spaced(z)
            && IsWeekday(z, 0, 3 * 86_400 + 50000)
            && WeekDate(z, 0, 3 * 86_400 + 50000) == 2
            && WeekdayOf(WeekDate(z, 0, 3 * 86_400 + 50000)) == 6
  {
    OneChangeIsSpaced(3 * 86_400 + 18000, -18000, -14400);
    var z := OneChange(3 * 86_400 + 18000, -18000, -14400);
    assert LocalDay(z, 3 * 86_400 + 50000) == 3;
    assert Midnight(z, 3) == 3 * 86_400 + 14400;
    assert WeekStart(z, 0, 3 * 86_400 + 50000) == 3 * 86_400 + 14400;
  }

  lemma RegularWeekStart(z: Zone, target: DayOfWeek, u: int)
    requires Regular(z)
    ensures WeekStart(z, target, u) == Midnight(z, Latest(LocalDay(z, u), target))
    ensures WeekDate(z, target, u) == Latest(LocalDay(z, u), target)
    ensures StartsOnLatest(z, target, u)
  {
    var day := LocalDay(z, u);
    assert HasMidnight(z, day) && HasMidnight(z, Latest(day, target));
  }

  lemma WeekStartIdempotent(z: Zone, target: DayOfWeek, u: int)
    requires Regular(z)
    ensures WeekStart(z, target, WeekStart(z, target, u)) == WeekStart(z, target, u)
  {
    hide LocalDay, Latest, WeekStart, Midnight;
    RegularWeekStart(z, target, u);
    RegularWeekStart(z, target, WeekStart(z, target, u));
    var d := Latest(LocalDay(z, u), target);
    LatestWeekday(LocalDay(z, u), target);
    LatestOfItself(d, target);
  }

  lemma MidnightsAscend(z: Zone, a: int, b: int)
    requires Regular(z)
    ensures a < b <==> Midnight(z, a) < Midnight(z, b)
  {
    var u, v := a * 86_400 - z.offset(a * 86_400), b * 86_400 - z.offset(b * 86_400);
    assert z.offset(u) - z.offset(v) < 86_400 && z.offset(v) - z.offset(u) < 86_400;
  }

  /** The local day of an instant given in nanoseconds, fractions included. */
  function LocalDayOfNanos(z: Zone, nanos: int): int {
    (nanos + z.offset(nanos / 1_000_000_000) * 1_000_000_000) / (86_400 * 1_000_000_000)
  }

  /** Storing an instant keeps whole seconds only; its local day is unaffected. */
  lemma StoredInstantKeepsDay(z: Zone, nanos: int)
    ensures LocalDayOfNanos(z, nanos) == LocalDay(z, nanos / 1_000_000_000)
  {
    var u := nanos / 1_000_000_000;
    var l := u + z.offset(u);
    assert nanos + z.offset(u) * 1_000_000_000 == l * 1_000_000_000 + nanos % 1_000_000_000;
    var d := l / 86_400;
    assert l * 1_000_000_000 + nanos % 1_000_000_000 == d * (86_400 * 1_000_000_000) + ((l % 86_400) * 1_000_000_000 + nanos % 1_000_000_000);
  }

  // ----- the retention window

  function Cutoff(z: Zone, target: DayOfWeek, now: int, retainWeeks: nat): int {
    AddDays(z, WeekStart(z, target, now), -7 * retainWeeks)
  }

  predicate InWindow(z: Zone, target: DayOfWeek, now: int, retainWeeks: nat, observedAt: int) {
    && IsWeekday(z, target, observedAt)
    && !(WeekStart(z, target, observedAt) < Cutoff(z, target, now, retainWeeks))
  }

  lemma RegularCutoff(z: Zone, target: DayOfWeek, now: int, retainWeeks: nat)
    requires Regular(z)
    ensures Cutoff(z, target, now, retainWeeks) ==
            Midnight(z, Latest(LocalDay(z, now), target) - 7 * retainWeeks)
  {
    hide LocalDay, Latest, WeekStart, ToLocal, FromLocal;
    RegularWeekStart(z, target, now);
    var today := Latest(LocalDay(z, now), target);
    assert ToLocal(z, WeekStart(z, target, now)) + -7 * retainWeeks * 86_400 == (today - 7 * retainWeeks) * 86_400;
  }

  lemma CutoffMonotone(z: Zone, target: DayOfWeek, now: int, later: int, retainWeeks: nat)
    requires Regular(z) && LocalDay(z, now) <= LocalDay(z, later)
    ensures Cutoff(z, target, now, retainWeeks) <= Cutoff(z, target, later, retainWeeks)
  {
    hide LocalDay, Latest, WeekStart, Cutoff, Midnight, WeekdayOf;
    RegularCutoff(z, target, now, retainWeeks);
    RegularCutoff(z, target, later, retainWeeks);
    LatestIsMonotone(LocalDay(z, now), LocalDay(z, later), target);
    MidnightsAscend(z, Latest(LocalDay(z, later), target) - 7 * retainWeeks, Latest(LocalDay(z, now), target) - 7 * retainWeeks);
  }

  /** Traffic from a target weekday survives a prune for exactly six days plus the retained weeks. */
  lemma WindowInDays(z: Zone, target: DayOfWeek, now: int, retainWeeks: nat, observedAt: int)
    requires Regular(z)
    ensures InWindow(z, target, now, retainWeeks, observedAt) <==>
            && IsWeekday(z, target, observedAt)
            && LocalDay(z, now) <= LocalDay(z, observedAt) + 6 + 7 * retainWeeks
  {
    hide LocalDay, Latest, WeekStart, Cutoff, WeekdayOf, Midnight;
    if IsWeekday(z, target, observedAt) {
      var oldest := Latest(LocalDay(z, now), target) - 7 * retainWeeks;
      RegularCutoff(z, target, now, retainWeeks);
      OwnWeekStart(z, target, observedAt);
      MidnightsAscend(z, LocalDay(z, observedAt), oldest);
      WindowIsWholeWeeks(LocalDay(z, now), LocalDay(z, observedAt), target, retainWeeks);
    }
  }

  /** A target weekday is the start of its own week. */
  lemma OwnWeekStart(z: Zone, target: DayOfWeek, u: int)
    requires Regular(z) && IsWeekday(z, target, u)
    ensures WeekStart(z, target, u) == Midnight(z, LocalDay(z, u))
    ensures WeekDate(z, target, u) == LocalDay(z, u)
  {
    RegularWeekStart(z, target, u);
    LatestOfItself(LocalDay(z, u), target);
  }

  lemma WindowIsWholeWeeks(now: int, seen: int, target: DayOfWeek, retainWeeks: nat)
    requires WeekdayOf(seen) == target
    ensures Latest(now, target) - 7 * retainWeeks <= seen <==> now <= seen + 6 + 7 * retainWeeks
  {
    LatestWeekday(now, target);
    SameWeekdayGap(seen, Latest(now, target), target);
  }

  // ----- counting weeks

  /** Go's integer division, which truncates toward zero. */
  function Truncate(a: int, b: int): int
    requires b > 0
  {
    if a >= 0 then a / b else -((-a) / b)
  }

  function CountWeeks(z: Zone, target: DayOfWeek, trackFrom: int, through: int): int {
    var from := WeekStart(z, target, trackFrom);
    var to := WeekStart(z, target, through);
    if to < from then
      0
    else
      var elapsed := Midnight(z, LocalDay(z, to)) - Midnight(z, LocalDay(z, from));
      Truncate(Truncate(elapsed, 86_400), 7) + 1
  }

  /** The number of week buckets from the one of `trackFrom` to the one of `through`, inclusive. */
  function SeasonLength(z: Zone, target: DayOfWeek, trackFrom: int, through: int): int {
    var k := Latest(LocalDay(z, through), target) - Latest(LocalDay(z, trackFrom), target);
    if k < 0 then 0 else k / 7 + 1
  }

  /** How far the clocks moved forward between the first and the last week start. */
  function ClockShift(z: Zone, target: DayOfWeek, trackFrom: int, through: int): int {
    z.offset(WeekStart(z, target, through)) - z.offset(WeekStart(z, target, trackFrom))
  }

  /** Elapsed time is not a count of days: once clocks have moved forward since the season began,
      the count of a season of two weeks or more is one short.  Otherwise it is right. */
  lemma CountWeeksExactly(z: Zone, target: DayOfWeek, trackFrom: int, through: int)
    requires Regular(z)
    ensures var season := SeasonLength(z, target, trackFrom, through);
            var count := CountWeeks(z, target, trackFrom, through);
            && (count == season <==> season <= 1 || ClockShift(z, target, trackFrom, through) <= 0)
            && (count != season ==> count == season - 1)
  {
    hide LocalDay, Latest, CountWeeks, ClockShift, Truncate;
    var a := Latest(LocalDay(z, trackFrom), target);
    var b := Latest(LocalDay(z, through), target);
    CountBetween(z, target, trackFrom, through, a, b);
    LatestWeekday(LocalDay(z, trackFrom), target);
    LatestWeekday(LocalDay(z, through), target);
    SameWeekdayGap(a, b, target);
    if a <= b {
      ElapsedWeeks((b - a) / 7, b - a, ClockShift(z, target, trackFrom, through));
    }
  }

  /** The count, in terms of the two week-start days. */
  lemma CountBetween(z: Zone, target: DayOfWeek, trackFrom: int, through: int, a: int, b: int)
    requires Regular(z)
    requires a == Latest(LocalDay(z, trackFrom), target) && b == Latest(LocalDay(z, through), target)
    ensures var d := ClockShift(z, target, trackFrom, through);
            && -86_400 < d < 86_400
            && (a == b ==> d == 0)
            && CountWeeks(z, target, trackFrom, through) ==
               if b < a then 0 else Truncate(Truncate((b - a) * 86_400 - d, 86_400), 7) + 1
  {
    RegularWeekStart(z, target, trackFrom);
    RegularWeekStart(z, target, through);
    assert HasMidnight(z, a) && HasMidnight(z, b);
    MidnightsAscend(z, b, a);
  }

  /** Clocks that move from 02:00 to 03:00 on a Sunday, day 10, eight hours west of Greenwich. */
  function Pacific(): Zone {
    OneChange(10 * 86_400 + 36_000, -28_800, -25_200)
  }

  lemma PacificMidnights()
    ensures Pacific().offset(Midnight(Pacific(), 4)) == -28_800
    ensures Pacific().offset(Midnight(Pacific(), 11)) == -25_200
  {
    assert Midnight(Pacific(), 4) == 4 * 86_400 + 28_800;
    assert Midnight(Pacific(), 11) == 11 * 86_400 + 25_200;
  }

  lemma PacificIsRegular()
    ensures Regular(Pacific())
  {
    forall day ensures !(10 * 86_400 + 7_200 <= day * 86_400 < 10 * 86_400 + 10_800) {
      assert day <= 10 || day >= 11;
    }
    OneChangeIsRegular(10 * 86_400 + 36_000, -28_800, -25_200);
  }

  /** Two week starts in a row with clocks moved forward in between are counted as one week. */
  lemma TwoWeeksCountedAsOne(z: Zone, target: DayOfWeek, trackFrom: int, now: int)
    requires Regular(z)
    requires Latest(LocalDay(z, now), target) == Latest(LocalDay(z, trackFrom), target) + 7
    requires z.offset(Midnight(z, Latest(LocalDay(z, trackFrom), target))) <
             z.offset(Midnight(z, Latest(LocalDay(z, now), target)))
    ensures SeasonLength(z, target, trackFrom, now) == 2 && CountWeeks(z, target, trackFrom, now) == 1
  {
    hide LocalDay, Latest, WeekStart, Midnight, CountWeeks, Regular;
    RegularWeekStart(z, target, trackFrom);
    RegularWeekStart(z, target, now);
    CountWeeksExactly(z, target, trackFrom, now);
  }

  /** So a season of two Mondays with that Sunday in between is counted as one week. */
  lemma SpringForwardUndercounts(trackFrom: int, now: int)
    requires LocalDay(Pacific(), trackFrom) == 4 && LocalDay(Pacific(), now) == 11
    ensures Regular(Pacific())
    ensures SeasonLength(Pacific(), 1, trackFrom, now) == 2 && CountWeeks(Pacific(), 1, trackFrom, now) == 1
  {
    hide Pacific, LocalDay, Latest, Midnight, Regular, SeasonLength, CountWeeks;
    PacificIsRegular();
    PacificMidnights();
    LatestOfItself(4, 1);
    LatestOfItself(11, 1);
    TwoWeeksCountedAsOne(Pacific(), 1, trackFrom, now);
  }

  lemma SameWeekdayGap(a: int, b: int, target: DayOfWeek)
    requires WeekdayOf(a) == target == WeekdayOf(b)
    ensures (b - a) % 7 == 0
  {
  }

  lemma ElapsedWeeks(k: nat, days: nat, d: int)
    requires -86_400 < d < 86_400 && days == 7 * k
    requires k == 0 ==> d == 0
    ensures Truncate(Truncate(days * 86_400 - d, 86_400), 7) == if k >= 1 && d > 0 then k - 1 else k
  {
    var e := days * 86_400 - d;
    if k >= 1 && d > 0 {
      assert e == (days - 1) * 86_400 + (86_400 - d);
      assert e / 86_400 == days - 1;
    } else if k >= 1 {
      assert e / 86_400 == days;
    }
  }
}
