/** What happens when a clock change skips a midnight: to the retention window, to the week start of a
    week start, and to the count of weeks.
  */
module ClockChanges {
  import opened Calendar

  // ----- the window when a midnight is skipped

  /** How far a week start is from the midnight it stands for: as far as `time.Date` had to move from
      whichever of the two midnights it goes through is skipped. */
  function Skew(z: Zone, target: DayOfWeek, u: int): int {
    var day := LocalDay(z, u);
    if HasMidnight(z, day) then
      Resolve(z, Latest(day, target) * 86_400) - Latest(day, target) * 86_400
    else
      Resolve(z, day * 86_400) - day * 86_400
  }

  lemma WeekStartWallClock(z: Zone, target: DayOfWeek, u: int)
    ensures var day := LocalDay(z, u);
            ToLocal(z, WeekStart(z, target, u)) == Resolve(z, Resolve(z, day * 86_400) - DaysSince(day, target) * 86_400)
  {
    hide LocalDay, DaysSince;
  }

  lemma SkewedWeekStart(z: Zone, target: DayOfWeek, u: int)
    requires Spaced(z)
    ensures ToLocal(z, WeekStart(z, target, u)) == Latest(LocalDay(z, u), target) * 86_400 + Skew(z, target, u)
    ensures -21_600 <= Skew(z, target, u) <= 21_600
  {
    hide LocalDay, WeekdayOf, WeekStart, ToLocal, Resolve;
    var day := LocalDay(z, u);
    var delta := DaysSince(day, target);
    WeekStartWallClock(z, target, u);
    CloseToWallClock(z, day * 86_400);
    CloseToWallClock(z, Latest(day, target) * 86_400);
    assert Resolve(z, Resolve(z, day * 86_400)) == Resolve(z, day * 86_400);
    if !HasMidnight(z, day) && delta > 0 {
      SkipsAreApart(z, day * 86_400, Resolve(z, day * 86_400) - delta * 86_400);
    }
  }

  lemma ResolveTwice(z: Zone, l: int)
    requires Spaced(z)
    ensures Resolve(z, Resolve(z, l)) == Resolve(z, l)
  {
    hide Resolve;
  }

  /** Half a day to eight days before a skipped time nothing else is skipped. */
  lemma SkipsAreApart(z: Zone, m: int, l: int)
    requires Spaced(z) && Resolve(z, m) != m
    requires 43_200 <= m - l < 8 * 86_400
    ensures Resolve(z, l) == l
  {
    hide Resolve;
  }

  lemma CloseToWallClock(z: Zone, l: int)
    requires Spaced(z)
    ensures -21_600 <= Resolve(z, l) - l <= 21_600
  {
  }

  /** The oldest day whose traffic a prune started at `now` is meant to keep. */
  function OldestDay(z: Zone, target: DayOfWeek, now: int, retainWeeks: nat): int {
    Latest(LocalDay(z, now), target) - 7 * retainWeeks
  }

  /** The cutoff lands after the midnight it stands for. */
  predicate CutoffIsLate(z: Zone, target: DayOfWeek, now: int, retainWeeks: nat) {
    var oldest := OldestDay(z, target, now, retainWeeks) * 86_400;
    Resolve(z, oldest) < Resolve(z, oldest + Skew(z, target, now))
  }

  lemma CutoffWallClock(z: Zone, target: DayOfWeek, now: int, retainWeeks: nat)
    requires Spaced(z)
    ensures Cutoff(z, target, now, retainWeeks) ==
            FromLocal(z, OldestDay(z, target, now, retainWeeks) * 86_400 + Skew(z, target, now))
  {
    hide LocalDay, WeekStart, FromLocal, ToLocal, Skew, Latest;
    SkewedWeekStart(z, target, now);
  }

  lemma TargetDayWeekStart(z: Zone, target: DayOfWeek, u: int)
    requires Orderly(z) && IsWeekday(z, target, u)
    ensures WeekStart(z, target, u) == FromLocal(z, LocalDay(z, u) * 86_400)
  {
    hide LocalDay, FromLocal, WeekdayOf;
    var l := LocalDay(z, u) * 86_400;
    assert DaysSince(LocalDay(z, u), target) == 0;
    assert WeekStart(z, target, u) == FromLocal(z, Resolve(z, l));
  }

  /** In every orderly zone a prune keeps target-weekday traffic for exactly six days plus the
      retained weeks, except that it drops the oldest of these days when its cutoff lands late. */
  lemma WindowExactly(z: Zone, target: DayOfWeek, now: int, retainWeeks: nat, observedAt: int)
    requires Orderly(z)
    ensures InWindow(z, target, now, retainWeeks, observedAt) <==>
            && IsWeekday(z, target, observedAt)
            && LocalDay(z, now) <= LocalDay(z, observedAt) + 6 + 7 * retainWeeks
            && !(LocalDay(z, observedAt) == OldestDay(z, target, now, retainWeeks)
                 && CutoffIsLate(z, target, now, retainWeeks))
  {
    hide LocalDay, Latest, WeekStart, Cutoff, WeekdayOf, FromLocal, Resolve, Skew;
    if IsWeekday(z, target, observedAt) {
      var seen := LocalDay(z, observedAt);
      var oldest := OldestDay(z, target, now, retainWeeks);
      CutoffWallClock(z, target, now, retainWeeks);
      SkewedWeekStart(z, target, now);
      TargetDayWeekStart(z, target, observedAt);
      InstantsInOrder(z, seen * 86_400, oldest * 86_400 + Skew(z, target, now));
      WindowIsWholeWeeks(LocalDay(z, now), seen, target, retainWeeks);
      WholeWeeksApart(LocalDay(z, now), seen, target, retainWeeks);
      CloseToWallClock(z, seen * 86_400);
      CloseToWallClock(z, oldest * 86_400 + Skew(z, target, now));
    }
  }

  lemma WholeWeeksApart(now: int, seen: int, target: DayOfWeek, retainWeeks: nat)
    requires WeekdayOf(seen) == target
    ensures var oldest := Latest(now, target) - 7 * retainWeeks;
            seen == oldest || seen <= oldest - 7 || seen >= oldest + 7
  {
    LatestWeekday(now, target);
    SameWeekdayGap(seen, Latest(now, target), target);
  }

  /** No clock change comes close to the midnight of this day. */
  ghost predicate Untouched(z: Zone, day: int) {
    forall l :: day * 86_400 - 21_600 <= l <= day * 86_400 + 21_600 ==> Resolve(z, l) == l
  }

  /** Which skipped midnight makes the cutoff late: if the prune's own day has one, that of its week
      start, and else that of its own day; and only if it is skipped forward.  If both exist the
      cutoff is never late.  (A clock change close to the oldest day itself can hide the effect.) */
  lemma LateIffSkippedForward(z: Zone, target: DayOfWeek, now: int, retainWeeks: nat)
    requires Spaced(z)
    ensures var day := LocalDay(z, now);
            var start := Latest(day, target);
            && (HasMidnight(z, day) && HasMidnight(z, start) ==> !CutoffIsLate(z, target, now, retainWeeks))
            && (Untouched(z, OldestDay(z, target, now, retainWeeks)) ==>
                  (CutoffIsLate(z, target, now, retainWeeks) <==>
                     if HasMidnight(z, day) then Resolve(z, start * 86_400) > start * 86_400
                     else Resolve(z, day * 86_400) > day * 86_400))
  {
    hide Resolve, LocalDay, Latest, OldestDay;
    CloseToWallClock(z, LocalDay(z, now) * 86_400);
    CloseToWallClock(z, Latest(LocalDay(z, now), target) * 86_400);
  }

  /** With no retained weeks, that of the prune's own day, unless that is the target weekday. */
  lemma LateThisWeekIff(z: Zone, target: DayOfWeek, now: int)
    requires Spaced(z)
    ensures var day := LocalDay(z, now);
            CutoffIsLate(z, target, now, 0) <==>
            WeekdayOf(day) != target && Resolve(z, day * 86_400) > day * 86_400
  {
    hide LocalDay, Resolve, Spaced;
    var day := LocalDay(z, now);
    ResolveTwice(z, Latest(day, target) * 86_400);
    var start := Latest(day, target) * 86_400;
    var skew := Skew(z, target, now);
    CloseToWallClock(z, day * 86_400);
    if !HasMidnight(z, day) && WeekdayOf(day) != target {
      SkipsAreApart(z, day * 86_400, start);
      SkipsAreApart(z, day * 86_400, start + skew);
    }
  }

  /** Clocks east of Greenwich that jump from 00:00 to 01:00 on day 8, a Friday. */
  function EastGap(): Zone {
    OneChange(8 * 86_400 - 7200, 7200, 10800)
  }

  /** For example: a prune on that Friday counts all traffic of the Thursday before as older than
      its own week. */
  lemma SkippedMidnightShortensWindow(seen: int, now: int)
    requires LocalDay(EastGap(), seen) == 7 && LocalDay(EastGap(), now) == 8
    ensures Orderly(EastGap())
    ensures IsWeekday(EastGap(), 4, seen) && !InWindow(EastGap(), 4, now, 0, seen)
  {
    hide LocalDay, Orderly, CutoffIsLate, Resolve, WeekdayOf, InWindow, EastGap;
    EastGapSkips();
    WindowExactly(EastGap(), 4, now, 0, seen);
    OrderlyIsSpaced(EastGap());
    LateThisWeekIff(EastGap(), 4, now);
    LatestOfThursday();
  }

  /** On that Friday the cutoff of a prune that retains no weeks lands late, after Thursday's midnight. */
  lemma FridayIsLate(now: int)
    requires LocalDay(EastGap(), now) == 8
    ensures Orderly(EastGap()) && OldestDay(EastGap(), 4, now, 0) == 7 && CutoffIsLate(EastGap(), 4, now, 0)
  {
    hide LocalDay, Orderly, CutoffIsLate, Resolve, WeekdayOf, EastGap;
    EastGapSkips();
    OrderlyIsSpaced(EastGap());
    LateThisWeekIff(EastGap(), 4, now);
    LatestOfThursday();
  }

  lemma LatestOfThursday()
    ensures WeekdayOf(7) == 4 && WeekdayOf(8) == 5 && Latest(8, 4) == 7
  {
  }

  lemma EastGapSkips()
    ensures Orderly(EastGap()) && Resolve(EastGap(), 8 * 86_400) > 8 * 86_400
  {
    hide Orderly;
    OneChangeIsOrderly(8 * 86_400 - 7200, 7200, 10800);
    OneChangeResolve(8 * 86_400 - 7200, 7200, 10800, 8 * 86_400);
  }

  lemma OrderlyIsSpaced(z: Zone)
    requires Orderly(z)
    ensures Spaced(z)
  {
  }

  // ----- week starts of week starts

  /** The instant a week start is, from the wall clock it is found on. */
  lemma WeekStartFromSkew(z: Zone, target: DayOfWeek, u: int)
    requires Orderly(z)
    ensures WeekStart(z, target, u) == FromLocal(z, Latest(LocalDay(z, u), target) * 86_400 + Skew(z, target, u))
  {
    OrderlyIsSpaced(z);
    SkewedWeekStart(z, target, u);
    WeekStartIsResolved(z, target, u);
  }

  /** A week start is the instant that `time.Date` gives for its own wall clock. */
  lemma WeekStartIsResolved(z: Zone, target: DayOfWeek, u: int)
    requires Orderly(z)
    ensures WeekStart(z, target, u) == FromLocal(z, ToLocal(z, WeekStart(z, target, u)))
  {
    hide LocalDay, DaysSince, FromLocal, Midnight;
    var l := ToLocal(z, Midnight(z, LocalDay(z, u))) + -DaysSince(LocalDay(z, u), target) * 86_400;
    assert WeekStart(z, target, u) == FromLocal(z, l);
    assert ToLocal(z, WeekStart(z, target, u)) == Resolve(z, l);
  }

  lemma WeekStartDay(z: Zone, target: DayOfWeek, u: int)
    requires Spaced(z)
    ensures var start := Latest(LocalDay(z, u), target);
            LocalDay(z, WeekStart(z, target, u)) == if Skew(z, target, u) < 0 then start - 1 else start
  {
    hide ToLocal, WeekStart, Latest, Skew;
    SkewedWeekStart(z, target, u);
  }

  lemma DayBeforeTarget(day: int, target: DayOfWeek)
    requires WeekdayOf(day) == target
    ensures Latest(day - 1, target) == day - 7
  {
  }

  /** The week start of a week start is itself if and only if the instant's own day has its midnight
      or is the target weekday, and the midnight of that weekday is not skipped backward. */
  lemma WeekStartIdempotentIff(z: Zone, target: DayOfWeek, u: int)
    requires Orderly(z)
    ensures var day := LocalDay(z, u);
            var start := Latest(day, target) * 86_400;
            WeekStart(z, target, WeekStart(z, target, u)) == WeekStart(z, target, u) <==>
            (WeekdayOf(day) == target || HasMidnight(z, day)) && Resolve(z, start) >= start
  {
    hide Orderly, Spaced, LocalDay, WeekStart, WeekdayOf, Latest, Resolve, FromLocal, ToLocal;
    var day := LocalDay(z, u);
    var start := Latest(day, target);
    var v := WeekStart(z, target, u);
    OrderlyIsSpaced(z);
    LatestWeekday(day, target);
    WeekStartFromSkew(z, target, u);
    WeekStartDay(z, target, u);
    SkewedWeekStart(z, target, u);
    SkewedWeekStart(z, target, v);
    if Skew(z, target, u) < 0 {
      DayBeforeTarget(start, target);
    } else {
      TargetDayWeekStart(z, target, v);
      SameInstant(z, start * 86_400, start * 86_400 + Skew(z, target, u));
      SkewIsResolved(z, target, u);
    }
    SkewCases(z, target, u);
  }

  lemma SameInstant(z: Zone, l: int, m: int)
    requires Orderly(z)
    ensures FromLocal(z, l) == FromLocal(z, m) <==> Resolve(z, l) == Resolve(z, m)
  {
    hide Orderly, FromLocal, Resolve;
    InstantsInOrder(z, l, m);
    InstantsInOrder(z, m, l);
  }

  lemma SkewIsResolved(z: Zone, target: DayOfWeek, u: int)
    requires Spaced(z)
    ensures var l := Latest(LocalDay(z, u), target) * 86_400 + Skew(z, target, u); Resolve(z, l) == l
  {
    hide LocalDay, DaysSince, ToLocal, WeekStart, Skew;
    SkewedWeekStart(z, target, u);
    WeekStartWallClock(z, target, u);
    var y := Resolve(z, LocalDay(z, u) * 86_400) - DaysSince(LocalDay(z, u), target) * 86_400;
    ResolveTwice(z, y);
  }

  /** Of the two midnights at most one is skipped, unless they are the same. */
  lemma SkewCases(z: Zone, target: DayOfWeek, u: int)
    requires Spaced(z)
    ensures var day := LocalDay(z, u);
            var start := Latest(day, target);
            && (WeekdayOf(day) == target ==> day == start)
            && (WeekdayOf(day) == target || HasMidnight(z, day) ==>
                  Skew(z, target, u) == Resolve(z, start * 86_400) - start * 86_400)
            && (WeekdayOf(day) != target && !HasMidnight(z, day) ==>
                  HasMidnight(z, start) && Skew(z, target, u) == Resolve(z, day * 86_400) - day * 86_400 != 0)
  {
    hide LocalDay, Resolve;
    var day := LocalDay(z, u);
    if WeekdayOf(day) != target && !HasMidnight(z, day) {
      SkipsAreApart(z, day * 86_400, Latest(day, target) * 86_400);
    }
  }

  // ----- counting weeks when a midnight is skipped

  ghost predicate SmallSwings(z: Zone) {
    forall u, v :: z.offset(u) - z.offset(v) < 86_400
  }

  /** The midnight that weeks are counted from and to. */
  function CountedMidnight(z: Zone, target: DayOfWeek, u: int): int {
    Midnight(z, LocalDay(z, WeekStart(z, target, u)))
  }

  /** How far the wall clock at that midnight is behind the midnight of the calendar's week start. */
  function Early(z: Zone, target: DayOfWeek, u: int): int {
    Latest(LocalDay(z, u), target) * 86_400 - ToLocal(z, CountedMidnight(z, target, u))
  }

  /** How much less than whole weeks elapses between the two midnights. */
  function Shortfall(z: Zone, target: DayOfWeek, trackFrom: int, through: int): int {
    var from, to := CountedMidnight(z, target, trackFrom), CountedMidnight(z, target, through);
    z.offset(to) - z.offset(from) + Early(z, target, through) - Early(z, target, trackFrom)
  }

  /** The count loses a week: clocks have moved forward or the last week start lands early; or, in a
      season of one week, the week start moves backward within the week. */
  predicate CountIsShort(z: Zone, target: DayOfWeek, trackFrom: int, through: int) {
    var season := SeasonLength(z, target, trackFrom, through);
    if season <= 1 then season == 1 && Skew(z, target, through) < Skew(z, target, trackFrom)
    else Shortfall(z, target, trackFrom, through) > 0
  }

  /** A week start that lands on the day before makes the count start a day early; one that lands
      late does not matter beyond the hours it is late. */
  lemma EarlyFromSkew(z: Zone, target: DayOfWeek, u: int)
    requires Spaced(z)
    ensures var day := LocalDay(z, u);
            var skew := Skew(z, target, u);
            Early(z, target, u) ==
            if skew < 0 then 86_400 else if WeekdayOf(day) == target || HasMidnight(z, day) then -skew else 0
    ensures -21_600 <= Early(z, target, u) <= 86_400
  {
    hide LocalDay, Resolve, WeekdayOf, Latest, Skew, WeekStart, ToLocal, FromLocal;
    var day := LocalDay(z, u);
    var start := Latest(day, target);
    WeekStartDay(z, target, u);
    SkewedWeekStart(z, target, u);
    SkewCases(z, target, u);
    MidnightWallClock(z, start);
    MidnightWallClock(z, start - 1);
    if Skew(z, target, u) < 0 {
      var skipped := if WeekdayOf(day) == target || HasMidnight(z, day) then start else day;
      SkipsAreApart(z, skipped * 86_400, (start - 1) * 86_400);
    }
  }

  lemma MidnightWallClock(z: Zone, day: int)
    ensures ToLocal(z, Midnight(z, day)) == Resolve(z, day * 86_400)
  {
  }

  /** What elapses between the two midnights is whole weeks less the shortfall. */
  lemma ElapsedBetween(z: Zone, target: DayOfWeek, trackFrom: int, through: int)
    ensures CountedMidnight(z, target, through) - CountedMidnight(z, target, trackFrom) ==
            (Latest(LocalDay(z, through), target) - Latest(LocalDay(z, trackFrom), target)) * 86_400
            - Shortfall(z, target, trackFrom, through)
  {
    hide CountedMidnight, Latest, LocalDay;
  }

  lemma TruncatedWeeks(k: nat, days: nat, shortfall: int)
    requires -604_800 < shortfall < 604_800 && days == 7 * k
    ensures Truncate(Truncate(days * 86_400 - shortfall, 86_400), 7) == if k >= 1 && shortfall > 0 then k - 1 else k
  {
    var e := days * 86_400 - shortfall;
    if k >= 1 {
      var q := e / 86_400;
      assert e == q * 86_400 + e % 86_400;
      if shortfall > 0 {
        assert 7 * (k - 1) <= q < 7 * k;
      } else {
        assert 7 * k <= q < 7 * (k + 1);
      }
    }
  }

  /** The order of two week starts: by week, and within one week by their skews. */
  lemma WeekStartsInOrder(z: Zone, target: DayOfWeek, trackFrom: int, through: int)
    requires Orderly(z)
    ensures var a := Latest(LocalDay(z, trackFrom), target);
            var b := Latest(LocalDay(z, through), target);
            WeekStart(z, target, through) < WeekStart(z, target, trackFrom) <==>
            b < a || (a == b && Skew(z, target, through) < Skew(z, target, trackFrom))
  {
    hide Orderly, Spaced, LocalDay, WeekStart, Latest, Resolve, FromLocal, Skew;
    var a, b := Latest(LocalDay(z, trackFrom), target), Latest(LocalDay(z, through), target);
    OrderlyIsSpaced(z);
    WeekStartFromSkew(z, target, trackFrom);
    WeekStartFromSkew(z, target, through);
    SkewedWeekStart(z, target, trackFrom);
    SkewedWeekStart(z, target, through);
    SkewIsResolved(z, target, trackFrom);
    SkewIsResolved(z, target, through);
    InstantsInOrder(z, b * 86_400 + Skew(z, target, through), a * 86_400 + Skew(z, target, trackFrom));
  }

  lemma ShortfallIsSmall(z: Zone, target: DayOfWeek, trackFrom: int, through: int)
    requires Spaced(z) && SmallSwings(z)
    ensures -604_800 < Shortfall(z, target, trackFrom, through) < 604_800
  {
    var from, to := CountedMidnight(z, target, trackFrom), CountedMidnight(z, target, through);
    assert z.offset(to) - z.offset(from) < 86_400 && z.offset(from) - z.offset(to) < 86_400;
    hide Spaced, SmallSwings, CountedMidnight, Early;
    EarlyFromSkew(z, target, trackFrom);
    EarlyFromSkew(z, target, through);
  }

  /** In every orderly zone, midnights skipped or not, the count is the length of the season, or one
      less when it is short. */
  lemma CountWeeksIff(z: Zone, target: DayOfWeek, trackFrom: int, through: int)
    requires Orderly(z) && SmallSwings(z)
    ensures CountWeeks(z, target, trackFrom, through) ==
            SeasonLength(z, target, trackFrom, through)
            - if CountIsShort(z, target, trackFrom, through) then 1 else 0
  {
    hide *;
    var a, b := Latest(LocalDay(z, trackFrom), target), Latest(LocalDay(z, through), target);
    OrderlyIsSpaced(z);
    ShortfallIsSmall(z, target, trackFrom, through);
    WeekStartsInOrder(z, target, trackFrom, through);
    ElapsedBetween(z, target, trackFrom, through);
    LatestWeekday(LocalDay(z, trackFrom), target);
    LatestWeekday(LocalDay(z, through), target);
    SameWeekdayGap(a, b, target);
    CountIsOfMidnights(z, target, trackFrom, through);
    SeasonOf(z, target, trackFrom, through);
    ShortMeans(z, target, trackFrom, through);
    if a <= b {
      TruncatedWeeks((b - a) / 7, b - a, Shortfall(z, target, trackFrom, through));
    }
  }

  lemma ShortMeans(z: Zone, target: DayOfWeek, trackFrom: int, through: int)
    ensures CountIsShort(z, target, trackFrom, through) ==
            var season := SeasonLength(z, target, trackFrom, through);
            if season <= 1 then season == 1 && Skew(z, target, through) < Skew(z, target, trackFrom)
            else Shortfall(z, target, trackFrom, through) > 0
  {
  }

  lemma CountIsOfMidnights(z: Zone, target: DayOfWeek, trackFrom: int, through: int)
    ensures CountWeeks(z, target, trackFrom, through) ==
            if WeekStart(z, target, through) < WeekStart(z, target, trackFrom) then 0
            else Truncate(Truncate(CountedMidnight(z, target, through) - CountedMidnight(z, target, trackFrom), 86_400), 7) + 1
  {
    hide WeekStart, LocalDay, Midnight, Truncate;
  }

  /** Clocks four hours west of Greenwich that jump from 00:00 to 01:00 on day 10, a Sunday. */
  function WestGap(): Zone {
    OneChange(10 * 86_400 + 14_400, -14_400, -10_800)
  }

  /** A season that starts on the Sunday before: on the Sunday without midnight it is counted as one
      week, though clocks have not moved between the two week starts; and that day's week start, a
      Saturday, is not the start of its own week. */
  lemma SkippedSundayUndercounts(trackFrom: int, now: int)
    requires trackFrom == 3 * 86_400 + 50_000 && now == 10 * 86_400 + 50_000
    ensures Orderly(WestGap()) && SmallSwings(WestGap())
    ensures IsWeekday(WestGap(), 0, trackFrom) && IsWeekday(WestGap(), 0, now)
    ensures SeasonLength(WestGap(), 0, trackFrom, now) == 2 && CountWeeks(WestGap(), 0, trackFrom, now) == 1
    ensures ClockShift(WestGap(), 0, trackFrom, now) == 0
    ensures WeekStart(WestGap(), 0, WeekStart(WestGap(), 0, now)) != WeekStart(WestGap(), 0, now)
  {
    WestGapIsOrderly();
    WestGapDays();
    WestGapMidnights();
    WestGapSteps();
    hide *;
    SundaysAndSaturday();
    DaysSinceSunday(3);
    DaysSinceSunday(9);
    DaysSinceSunday(10);
    LatestOfItself(3, 0);
    LatestOfItself(10, 0);
    assert trackFrom == 309_200 && now == 914_000;
    var z := WestGap();
    WeekStartSteps(z, 0, trackFrom);
    WeekStartSteps(z, 0, now);
    WeekStartSteps(z, 0, WeekStart(z, 0, now));
    CountIsOfMidnights(z, 0, trackFrom, now);
    CountedFrom(z, 0, trackFrom);
    CountedFrom(z, 0, now);
    SeasonOf(z, 0, trackFrom, now);
    ShiftOf(z, 0, trackFrom, now);
    TargetDay(z, 0, trackFrom);
    TargetDay(z, 0, now);
    OneWeekLessAnHour();
  }

  lemma WestGapIsOrderly()
    ensures Orderly(WestGap()) && SmallSwings(WestGap())
  {
    OneChangeIsOrderly(10 * 86_400 + 14_400, -14_400, -10_800);
    hide Orderly;
  }

  lemma WestGapDays()
    ensures LocalDay(WestGap(), 309_200) == 3 && LocalDay(WestGap(), 914_000) == 10
    ensures LocalDay(WestGap(), 273_600) == 3 && LocalDay(WestGap(), 874_800) == 9
    ensures WestGap().offset(273_600) == WestGap().offset(874_800) == -14_400
  {
  }

  lemma WestGapMidnights()
    ensures Midnight(WestGap(), 3) == 273_600 && Midnight(WestGap(), 9) == 792_000 && Midnight(WestGap(), 10) == 874_800
  {
  }

  lemma WestGapSteps()
    ensures AddDays(WestGap(), 273_600, 0) == 273_600
    ensures AddDays(WestGap(), 874_800, 0) == 874_800
    ensures AddDays(WestGap(), 792_000, -6) == 273_600
  {
  }

  lemma SundaysAndSaturday()
    ensures WeekdayOf(3) == 0 && WeekdayOf(9) == 6 && WeekdayOf(10) == 0
  {
  }

  lemma DaysSinceSunday(day: int)
    ensures DaysSince(day, 0) == WeekdayOf(day)
  {
  }

  lemma OneWeekLessAnHour()
    ensures Truncate(Truncate(792_000 - 273_600, 86_400), 7) == 0
  {
  }

  // What the functions come to, one step at a time.

  lemma WeekStartSteps(z: Zone, target: DayOfWeek, u: int)
    ensures WeekStart(z, target, u) == AddDays(z, Midnight(z, LocalDay(z, u)), -DaysSince(LocalDay(z, u), target))
  {
  }

  lemma CountedFrom(z: Zone, target: DayOfWeek, u: int)
    ensures CountedMidnight(z, target, u) == Midnight(z, LocalDay(z, WeekStart(z, target, u)))
  {
  }

  lemma SeasonOf(z: Zone, target: DayOfWeek, trackFrom: int, through: int)
    ensures var k := Latest(LocalDay(z, through), target) - Latest(LocalDay(z, trackFrom), target);
            SeasonLength(z, target, trackFrom, through) == if k < 0 then 0 else k / 7 + 1
  {
  }

  lemma ShiftOf(z: Zone, target: DayOfWeek, trackFrom: int, through: int)
    ensures ClockShift(z, target, trackFrom, through) ==
            z.offset(WeekStart(z, target, through)) - z.offset(WeekStart(z, target, trackFrom))
  {
  }

  lemma TargetDay(z: Zone, target: DayOfWeek, u: int)
    ensures IsWeekday(z, target, u) <==> WeekdayOf(LocalDay(z, u)) == target
  {
  }
}
