/** What the leaderboard's numbers say about attendance: when the streak is the run of weeks attended,
    and when the two rings are full.
  */
module Attendance {
  import opened Calendar
  import opened ClockChanges
  import opened Tables
  import opened Protocol
  import opened Leaderboard
  import opened Season
  import Streaks

  // ----- streaks and attendance

  /** Zones without skipped midnights file every day under itself; zones that skip some file the days
      whose midnight is skipped backward under the day before. */
  lemma RegularFiling(z: Zone)
    requires Regular(z)
    ensures Streaks.FilesClose(Filing(z)) && forall day :: Filing(z)(day) == day
  {
    forall day ensures Filing(z)(day) == day {
      assert HasMidnight(z, day);
    }
  }

  predicate SkippedBack(z: Zone, day: int) {
    Resolve(z, day * 86_400) < day * 86_400
  }

  lemma SpacedFiling(z: Zone)
    requires Spaced(z)
    ensures Streaks.FilesClose(Filing(z))
    ensures forall day :: Filing(z)(day) == if SkippedBack(z, day) then day - 1 else day
  {
    forall day ensures Filing(z)(day) == if SkippedBack(z, day) then day - 1 else day {
      ResolveTwice(z, day * 86_400);
      CloseToWallClock(z, day * 86_400);
      WeekOfDayResolved(z, day);
      hide Resolve;
    }
  }

  lemma WeekOfDayResolved(z: Zone, day: int)
    ensures WeekOfDay(z, day) == Resolve(z, Resolve(z, day * 86_400)) / 86_400
  {
  }

  lemma FilingIs(z: Zone, day: int)
    ensures Filing(z)(day) == WeekOfDay(z, day)
  {
  }

  /** In zones of either kind the streak is the plain longest run of a user's weeks.  It is never
      longer than the longest run of days attended, `length` from `start`, and is that run if and only
      if all days of the run are filed alike. */
  lemma StreakIsAttendanceIff(rules: Rules, db: Db, iatas: set<string>, trackFrom: int, now: int,
                              rows: seq<Checkin>, seasonWeeks: int, e: Entry, length: nat, start: int)
    requires SeasonRows(rules, db, iatas, trackFrom, now, rows)
    requires IsEntryOf(rows, seasonWeeks, e)
    requires Streaks.FilesClose(Filing(rules.policy.zone))
    requires Streaks.IsLongestRun(DaysOf(rows, e.username), length, start)
    ensures Streaks.IsLongestRun(UserWeeks(rows, e.username), e.longestStreak, e.streakStart)
    ensures e.longestStreak <= length
    ensures e.longestStreak == length && e.streakStart == WeekOfDay(rules.policy.zone, start) <==>
            Streaks.FiledAlike(Filing(rules.policy.zone), start, length)
  {
    hide *;
    var z := rules.policy.zone;
    var w := Filing(z);
    var days, weeks := DaysOf(rows, e.username), UserWeeks(rows, e.username);
    FilingIs(z, start);
    EntryFacts(rows, seasonWeeks, e);
    UserInSeason(rules, db, iatas, trackFrom, now, rows, e.username);
    OnOneGrid(days, Latest(LocalDay(z, trackFrom), rules.policy.target));
    Streaks.FiledNotInterrupted(days, w);
    Streaks.LongestWhenUninterrupted(weeks, e.longestStreak, e.streakStart);
    Streaks.FiledStreakIff(days, w, length, start, e.longestStreak, e.streakStart);
  }

  /** In a regular zone, then, the streak is the longest run of days attended, and of weeks. */
  lemma StreakInRegularZone(rules: Rules, db: Db, iatas: set<string>, trackFrom: int, now: int,
                            rows: seq<Checkin>, seasonWeeks: int, e: Entry)
    requires SeasonRows(rules, db, iatas, trackFrom, now, rows)
    requires IsEntryOf(rows, seasonWeeks, e)
    requires Regular(rules.policy.zone)
    ensures UserWeeks(rows, e.username) == DaysOf(rows, e.username)
    ensures Streaks.IsLongestRun(DaysOf(rows, e.username), e.longestStreak, e.streakStart)
  {
    hide *;
    var z := rules.policy.zone;
    var days := DaysOf(rows, e.username);
    RegularFiling(z);
    EntryFacts(rows, seasonWeeks, e);
    UserInSeason(rules, db, iatas, trackFrom, now, rows, e.username);
    FiledUnderItself(days, Filing(z));
    OnOneGrid(days, Latest(LocalDay(z, trackFrom), rules.policy.target));
    Streaks.SameWeekdayNotInterrupted(days);
    Streaks.LongestWhenUninterrupted(days, e.longestStreak, e.streakStart);
  }

  /** Spelled out for zones that may skip midnights: the streak is the longest run of days attended if
      and only if the midnights of all its days are skipped backward, or of none. */
  lemma StreakInSpacedZone(rules: Rules, db: Db, iatas: set<string>, trackFrom: int, now: int,
                           rows: seq<Checkin>, seasonWeeks: int, e: Entry, length: nat, start: int)
    requires SeasonRows(rules, db, iatas, trackFrom, now, rows)
    requires IsEntryOf(rows, seasonWeeks, e)
    requires Spaced(rules.policy.zone)
    requires Streaks.IsLongestRun(DaysOf(rows, e.username), length, start)
    ensures e.longestStreak == length && e.streakStart == WeekOfDay(rules.policy.zone, start) <==>
            forall k :: 0 <= k < length ==>
              SkippedBack(rules.policy.zone, Streaks.WeekAt(start, k)) == SkippedBack(rules.policy.zone, start)
  {
    var z := rules.policy.zone;
    SpacedFiling(z);
    StreakIsAttendanceIff(rules, db, iatas, trackFrom, now, rows, seasonWeeks, e, length, start);
    hide SeasonRows, IsEntryOf, Spaced, SkippedBack, Filing, Streaks.IsLongestRun;
    var w := Filing(z);
    forall k | 0 <= k < length
      ensures w(Streaks.WeekAt(start, k)) - Streaks.WeekAt(start, k) == w(start) - start <==>
              SkippedBack(z, Streaks.WeekAt(start, k)) == SkippedBack(z, start)
    {
    }
  }

  /** Three Sundays in a row, the second without midnight: they are filed under weeks 3, 9 and 17, and
      the streak of three is counted as one. */
  lemma SkippedSundayBreaksStreak()
    ensures Spaced(WestGap()) && WeekdayOf(3) == 0
    ensures Streaks.Filed({3, 10, 17}, Filing(WestGap())) == {3, 9, 17}
    ensures Streaks.IsLongestRun({3, 10, 17}, 3, 3) && Streaks.IsLongestRun({3, 9, 17}, 1, 3)
  {
    WestGapFiling();
    var w := Filing(WestGap());
    assert w(3) == 3 && w(10) == 9 && w(17) == 17;
    hide Filing, WestGap, Spaced;
    assert Streaks.Filed({3, 10, 17}, w) == {w(3), w(10), w(17)};
    ThreeSundays();
    ThreeFiled();
  }

  lemma WestGapFiling()
    ensures Spaced(WestGap()) && WeekdayOf(3) == 0
    ensures WeekOfDay(WestGap(), 3) == 3 && WeekOfDay(WestGap(), 10) == 9 && WeekOfDay(WestGap(), 17) == 17
  {
    hide *;
    WestGapIsOrderly();
    OrderlyIsSpaced(WestGap());
    SundaysAndSaturday();
    WestGapMidnights();
    WestGapSteps();
    WestGapDays();
    LastSunday();
    WeekOfDaySteps(WestGap(), 3);
    WeekOfDaySteps(WestGap(), 10);
    WeekOfDaySteps(WestGap(), 17);
  }

  lemma LastSunday()
    ensures Midnight(WestGap(), 17) == 1_479_600 && AddDays(WestGap(), 1_479_600, 0) == 1_479_600
    ensures LocalDay(WestGap(), 1_479_600) == 17
  {
  }

  lemma WeekOfDaySteps(z: Zone, day: int)
    ensures WeekOfDay(z, day) == LocalDay(z, AddDays(z, Midnight(z, day), 0))
  {
  }

  lemma ThreeSundays()
    ensures Streaks.IsLongestRun({3, 10, 17}, 3, 3)
  {
    var days := {3, 10, 17};
    assert Streaks.WeeklyRun(days, 3, 3) by {
      assert Streaks.WeekAt(3, 0) in days && Streaks.WeekAt(3, 1) in days && Streaks.WeekAt(3, 2) in days;
    }
    forall s, n: nat | n >= 1 && Streaks.WeeklyRun(days, s, n) ensures n < 3 || (n == 3 && 3 <= s) {
      assert Streaks.WeekAt(s, 0) in days;
      assert n >= 4 ==> Streaks.WeekAt(s, 3) in days;
    }
  }

  lemma ThreeFiled()
    ensures Streaks.IsLongestRun({3, 9, 17}, 1, 3)
  {
    var weeks := {3, 9, 17};
    assert Streaks.WeekAt(3, 0) in weeks;
    forall s, n: nat | n >= 1 && Streaks.WeeklyRun(weeks, s, n) ensures n < 1 || (n == 1 && 3 <= s) {
      var first, second := Streaks.WeekAt(s, 0), Streaks.WeekAt(s, 1);
      assert first in weeks;
      assert n >= 2 ==> second in weeks;
    }
  }

  // ----- the attendance ring

  function RingFill(checkins: nat, trackedWeeks: int): int {
    if trackedWeeks <= 0 then 0
    else
      var p := checkins * 100 / trackedWeeks;
      if p > 100 then 100 else p
  }

  /** The ring shows whole per cents, rounded down, up to a hundred; and nothing without weeks. */
  lemma RingShowsPercent(checkins: nat, trackedWeeks: int)
    ensures var fill := RingFill(checkins, trackedWeeks);
            if trackedWeeks <= 0 then fill == 0
            else if checkins >= trackedWeeks then fill == 100
            else fill * trackedWeeks <= 100 * checkins < (fill + 1) * trackedWeeks
  {
    if trackedWeeks > 0 {
      FullRing(checkins, trackedWeeks);
      DivisionBounds(checkins * 100, trackedWeeks);
    }
  }

  lemma FullRing(checkins: nat, trackedWeeks: int)
    requires trackedWeeks > 0
    ensures 0 <= RingFill(checkins, trackedWeeks) <= 100
    ensures RingFill(checkins, trackedWeeks) == 100 <==> checkins >= trackedWeeks
  {
    QuotientAtLeast(checkins * 100, trackedWeeks, 100);
  }

  lemma QuotientAtLeast(a: nat, t: int, k: nat)
    requires t > 0
    ensures a / t >= k <==> a >= t * k
  {
    var q := a / t;
    DivisionBounds(a, t);
    if q >= k {
      ProductGrows(t, k, q);
    } else {
      ProductGrows(t, q + 1, k);
    }
  }

  lemma DivisionBounds(a: nat, t: int)
    requires t > 0
    ensures t * (a / t) <= a < t * (a / t + 1)
  {
  }

  lemma ProductGrows(t: int, x: int, y: int)
    requires t > 0 && x <= y
    ensures t * x <= t * y
  {
  }

  /** In a regular zone the ring of check-ins is full exactly for users who never missed a week, except
      in a season of two or more weeks since whose start clocks have moved forward: then missing one
      week still fills it.  The ring of the streak is full for the same users, except that then the
      week missed must be the first or the last. */
  lemma RingMeansAttendance(rules: Rules, db: Db, iatas: set<string>, trackFrom: int, now: int,
                            rows: seq<Checkin>, e: Entry)
    requires Regular(rules.policy.zone)
    requires SeasonRows(rules, db, iatas, trackFrom, now, rows)
    requires IsEntryOf(rows, SeasonWeeks(rules, trackFrom, now), e)
    ensures var season := SeasonLength(rules.policy.zone, rules.policy.target, trackFrom, now);
            var undercounted := season > 1 && ClockShift(rules.policy.zone, rules.policy.target, trackFrom, now) > 0;
            && e.seasonWeeks == (if undercounted then season - 1 else season)
            && (RingFill(e.mostCheckins, e.seasonWeeks) == 100 <==>
                  e.mostCheckins == season || (undercounted && e.mostCheckins == season - 1))
            && (RingFill(e.longestStreak, e.seasonWeeks) == 100 <==>
                  e.mostCheckins == season || (undercounted && e.longestStreak == season - 1))
  {
    hide *;
    EntrySeasonWeeks(rows, SeasonWeeks(rules, trackFrom, now), e);
    EntryInSeason(rules, db, iatas, trackFrom, now, rows, SeasonWeeks(rules, trackFrom, now), e);
    BoundsMean(rules, trackFrom, now, rows, e);
    FullAttendance(rules, db, iatas, trackFrom, now, rows, SeasonWeeks(rules, trackFrom, now), e);
    SeasonCount(rules, trackFrom, now);
    CountWeeksExactly(rules.policy.zone, rules.policy.target, trackFrom, now);
    FullRing(e.mostCheckins, SeasonWeeks(rules, trackFrom, now));
    FullRing(e.longestStreak, SeasonWeeks(rules, trackFrom, now));
  }

  lemma EntrySeasonWeeks(rows: seq<Checkin>, seasonWeeks: int, e: Entry)
    requires IsEntryOf(rows, seasonWeeks, e)
    ensures e.seasonWeeks == seasonWeeks
  {
  }

  /** In a regular zone a user with a check-in in every week of the season has a streak that long. */
  lemma FullAttendance(rules: Rules, db: Db, iatas: set<string>, trackFrom: int, now: int,
                       rows: seq<Checkin>, seasonWeeks: int, e: Entry)
    requires Regular(rules.policy.zone)
    requires SeasonRows(rules, db, iatas, trackFrom, now, rows)
    requires IsEntryOf(rows, seasonWeeks, e)
    ensures var season := SeasonLength(rules.policy.zone, rules.policy.target, trackFrom, now);
            e.mostCheckins == season <==> e.longestStreak == season
  {
    hide *;
    var z, target := rules.policy.zone, rules.policy.target;
    var days, weeks := DaysOf(rows, e.username), UserWeeks(rows, e.username);
    var first, season := Latest(LocalDay(z, trackFrom), target), SeasonAsNat(z, target, trackFrom, now);
    RegularFiling(z);
    EntryInSeason(rules, db, iatas, trackFrom, now, rows, seasonWeeks, e);
    BoundsMean(rules, trackFrom, now, rows, e);
    UserInSeason(rules, db, iatas, trackFrom, now, rows, e.username);
    FiledUnderItself(days, Filing(z));
    EntryFacts(rows, seasonWeeks, e);
    if e.mostCheckins == season {
      FullWeeks(days, first, season);
      OnOneGrid(days, first);
      Streaks.SameWeekdayNotInterrupted(weeks);
      Streaks.NotInterruptedRunsUnbroken(weeks, first, season);
      LongestAtLeast(weeks, e.longestStreak, e.streakStart, first, season);
    }
  }

  lemma BoundsMean(rules: Rules, trackFrom: int, now: int, rows: seq<Checkin>, e: Entry)
    requires InBounds(rules, trackFrom, now, rows, e)
    ensures 1 <= e.longestStreak <= e.mostCheckins == |UserWeeks(rows, e.username)|
    ensures e.mostCheckins <= SeasonLength(rules.policy.zone, rules.policy.target, trackFrom, now)
  {
  }

  lemma FiledUnderItself(days: set<int>, w: int -> int)
    requires forall d :: w(d) == d
    ensures Streaks.Filed(days, w) == days
  {
    forall d | d in days ensures d in Streaks.Filed(days, w) {
      assert w(d) == d;
    }
  }

  lemma EntryFacts(rows: seq<Checkin>, seasonWeeks: int, e: Entry)
    requires IsEntryOf(rows, seasonWeeks, e)
    ensures e.mostCheckins == |RowsOf(rows, e.username)|
    ensures Streaks.IsLongestUnbroken(UserWeeks(rows, e.username), e.longestStreak, e.streakStart)
  {
  }

  lemma LongestAtLeast(weeks: set<int>, best: nat, bestStart: int, start: int, length: nat)
    requires Streaks.IsLongestUnbroken(weeks, best, bestStart) && Streaks.Unbroken(weeks, start, length)
    ensures length <= best
  {
  }

  /** The weeks a season is counted to have in any orderly zone: one more if the week start it is
      counted from lands on the day before and so in an earlier week, one less if the count is short. */
  function CountedSeason(rules: Rules, trackFrom: int, now: int): int {
    var z, target := rules.policy.zone, rules.policy.target;
    SeasonLength(z, target, trackFrom, now)
      + (if Skew(z, target, trackFrom) < 0 then 1 else 0)
      - (if CountIsShort(z, target, WeekStart(z, target, trackFrom), now) then 1 else 0)
  }

  lemma CountedSeasonIs(rules: Rules, trackFrom: int, now: int)
    ensures var z, target := rules.policy.zone, rules.policy.target;
            CountedSeason(rules, trackFrom, now) ==
            SeasonLength(z, target, trackFrom, now)
              + (if Skew(z, target, trackFrom) < 0 then 1 else 0)
              - (if CountIsShort(z, target, WeekStart(z, target, trackFrom), now) then 1 else 0)
  {
  }

  lemma SeasonWeeksIs(rules: Rules, trackFrom: int, now: int)
    ensures var z, target := rules.policy.zone, rules.policy.target;
            var count := CountWeeks(z, target, WeekStart(z, target, trackFrom), now);
            SeasonWeeks(rules, trackFrom, now) == if count < 1 then 1 else count
  {
  }

  lemma SeasonFromWeekStart(z: Zone, target: DayOfWeek, trackFrom: int, now: int)
    requires Orderly(z) && SeasonLength(z, target, trackFrom, now) >= 1
    ensures SeasonLength(z, target, WeekStart(z, target, trackFrom), now) ==
            SeasonLength(z, target, trackFrom, now) + if Skew(z, target, trackFrom) < 0 then 1 else 0
  {
    OrderlyIsSpaced(z);
    hide *;
    var day := LocalDay(z, trackFrom);
    WeekStartDay(z, target, trackFrom);
    LatestWeekday(day, target);
    DayBeforeTarget(Latest(day, target), target);
    LatestOfItself(Latest(day, target), target);
    SeasonOf(z, target, trackFrom, now);
    SeasonOf(z, target, WeekStart(z, target, trackFrom), now);
    OneWeekMore(Latest(LocalDay(z, now), target) - Latest(day, target));
  }

  lemma OneWeekMore(days: int)
    ensures (days + 7) / 7 == days / 7 + 1
  {
  }

  /** In every orderly zone, midnights skipped or not: the season is counted as that many weeks, at
      least one, and the ring of check-ins is full exactly for users with as many; so for nobody when
      the count is one too many. */
  lemma RingInOrderlyZone(rules: Rules, db: Db, iatas: set<string>, trackFrom: int, now: int,
                          rows: seq<Checkin>, e: Entry)
    requires Orderly(rules.policy.zone) && SmallSwings(rules.policy.zone)
    requires SeasonRows(rules, db, iatas, trackFrom, now, rows)
    requires IsEntryOf(rows, SeasonWeeks(rules, trackFrom, now), e)
    ensures var season := SeasonLength(rules.policy.zone, rules.policy.target, trackFrom, now);
            var counted := CountedSeason(rules, trackFrom, now);
            && season - 1 <= counted <= season + 1
            && e.seasonWeeks == (if counted < 1 then 1 else counted)
            && (RingFill(e.mostCheckins, e.seasonWeeks) == 100 <==> e.mostCheckins >= counted)
            && (RingFill(e.longestStreak, e.seasonWeeks) == 100 <==> e.longestStreak >= counted)
            && (counted > season ==> RingFill(e.mostCheckins, e.seasonWeeks) < 100)
  {
    hide *;
    var z, target := rules.policy.zone, rules.policy.target;
    EntrySeasonWeeks(rows, SeasonWeeks(rules, trackFrom, now), e);
    EntryInSeason(rules, db, iatas, trackFrom, now, rows, SeasonWeeks(rules, trackFrom, now), e);
    BoundsMean(rules, trackFrom, now, rows, e);
    SeasonFromWeekStart(z, target, trackFrom, now);
    CountWeeksIff(z, target, WeekStart(z, target, trackFrom), now);
    CountedSeasonIs(rules, trackFrom, now);
    SeasonWeeksIs(rules, trackFrom, now);
    FullRing(e.mostCheckins, SeasonWeeks(rules, trackFrom, now));
    FullRing(e.longestStreak, SeasonWeeks(rules, trackFrom, now));
  }
}
