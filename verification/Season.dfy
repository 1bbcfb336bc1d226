/** End to end: from any history of the store to the numbers on the leaderboard. */
module Season {
  import opened Calendar
  import opened ClockChanges
  import opened Tables
  import opened Views
  import opened Protocol
  import opened Provenance
  import opened Leaderboard
  import opened Sets
  import Streaks

  /** Every check-in is dated on the target weekday, and filed under the week of its date. */
  ghost predicate FiledByDate(rules: Rules, db: Db) {
    forall c :: c in db.checkins ==>
      WeekdayOf(c.checkinDate) == rules.policy.target && c.weekStart == WeekOfDay(rules.policy.zone, c.checkinDate)
  }

  lemma HistoryIsFiled(rules: Rules, s: Sys)
    requires WellFormed(s.db) && Prov(rules, s)
    ensures FiledByDate(rules, s.db)
  {
    hide LocalDay, WeekOfDay, WeekDate, WeekdayOf;
    forall c | c in s.db.checkins
      ensures WeekdayOf(c.checkinDate) == rules.policy.target && c.weekStart == WeekOfDay(rules.policy.zone, c.checkinDate)
    {
      assert HasRaw(s.db, c.hash);
      var r :| r in s.db.raw && r.hash == c.hash;
      assert IngestedRow(rules, r) && Reports(rules, r, c);
      TargetDayWeek(rules.policy.zone, rules.policy.target, r.observedAt);
    }
  }

  // ----- counting weeks

  /** At most one week per seven days fits between two dates. */
  lemma {:induction false} WeeksFit(weeks: set<int>, first: int, n: nat)
    requires forall w :: w in weeks ==> first <= w <= first + 7 * (n - 1) && (w - first) % 7 == 0
    ensures |weeks| <= n
    decreases n
  {
    if n == 0 {
      assert forall w :: w !in weeks;
      assert weeks == {};
    } else {
      var last := first + 7 * (n - 1);
      var rest := weeks - {last};
      forall w | w in rest ensures w <= first + 7 * (n - 2) {
        assert w != last;
      }
      WeeksFit(rest, first, n - 1);
      assert weeks <= rest + {last};
      SubsetSize(weeks, rest + {last});
    }
  }

  /** As many weeks as fit are all of them. */
  lemma {:induction false} FullWeeks(weeks: set<int>, first: int, n: nat)
    requires forall w :: w in weeks ==> first <= w <= first + 7 * (n - 1) && (w - first) % 7 == 0
    requires |weeks| == n
    ensures Streaks.WeeklyRun(weeks, first, n)
    decreases n
  {
    if n > 0 {
      var last := first + 7 * (n - 1);
      var rest := weeks - {last};
      forall w | w in rest ensures w <= first + 7 * (n - 2) {
        assert w != last;
      }
      WeeksFit(rest, first, n - 1);
      assert last !in weeks ==> rest == weeks;
      FullWeeks(rest, first, n - 1);
      forall k | 0 <= k < n ensures Streaks.WeekAt(first, k) in weeks {
        if k < n - 1 {
          assert Streaks.WeekAt(first, k) in rest;
        }
      }
    }
  }

  lemma {:induction false} RunFits(weeks: set<int>, start: int, length: nat)
    requires Streaks.WeeklyRun(weeks, start, length)
    ensures length <= |weeks|
    decreases length
  {
    if length > 0 {
      var last := Streaks.WeekAt(start, length - 1);
      assert last in weeks;
      forall k | 0 <= k < length - 1 ensures Streaks.WeekAt(start, k) in weeks - {last} {
        assert Streaks.WeekAt(start, k) in weeks;
      }
      RunFits(weeks - {last}, start, length - 1);
    }
  }

  // ----- one user's rows

  /** The rows of a query: each row of the view once, in some order. */
  ghost predicate Lists(rows: seq<Checkin>, view: set<Checkin>) {
    && (forall c :: c in rows <==> c in view)
    && (forall i, j :: 0 <= i < j < |rows| ==> rows[i] != rows[j])
  }

  ghost predicate DistinctWeeks(rows: seq<Checkin>) {
    forall i, j :: 0 <= i < j < |rows| ==> rows[i].weekStart != rows[j].weekStart
  }

  lemma {:induction false} OwnRows(rows: seq<Checkin>, user: string)
    ensures forall c :: c in RowsOf(rows, user) <==> c in rows && c.username == user
  {
    if rows != [] {
      OwnRows(rows[1..], user);
      assert rows == [rows[0]] + rows[1..];
    }
  }

  /** One check-in per user and week makes one user's rows distinct in their weeks. */
  lemma {:induction false} OwnWeeksDistinct(rows: seq<Checkin>, user: string, all: set<Checkin>)
    requires forall c :: c in rows ==> c in all
    requires forall c, d | c in all && d in all :: c.weekStart == d.weekStart && c.username == d.username ==> c == d
    requires forall i, j :: 0 <= i < j < |rows| ==> rows[i] != rows[j]
    ensures DistinctWeeks(RowsOf(rows, user))
  {
    if rows != [] {
      OwnWeeksDistinct(rows[1..], user, all);
      OwnRows(rows[1..], user);
      var rest := RowsOf(rows[1..], user);
      forall i | 0 <= i < |rest| ensures rows[0].username == user ==> rest[i].weekStart != rows[0].weekStart {
        assert rest[i] in rest;
        assert rest[i] in rows[1..];
      }
    }
  }

  lemma {:induction false} DistinctCount(own: seq<Checkin>)
    requires DistinctWeeks(own)
    ensures |Streaks.Elements(WeeksOf(own))| == |own|
    ensures forall w :: w in Streaks.Elements(WeeksOf(own)) <==> exists c :: c in own && c.weekStart == w
  {
    if own != [] {
      DistinctCount(own[1..]);
      var rest := Streaks.Elements(WeeksOf(own[1..]));
      assert own == [own[0]] + own[1..];
      assert Streaks.Elements(WeeksOf(own)) == rest + {own[0].weekStart};
      assert own[0].weekStart !in rest;
    }
  }

  // ----- the leaderboard's numbers

  function SeasonWeeks(rules: Rules, trackFrom: int, now: int): int {
    var count := CountWeeks(rules.policy.zone, rules.policy.target,
                            WeekStart(rules.policy.zone, rules.policy.target, trackFrom), now);
    if count < 1 then 1 else count
  }

  /** Counting from a week start is counting from any instant of that week. */
  lemma SeasonCount(rules: Rules, trackFrom: int, now: int)
    requires Regular(rules.policy.zone)
    ensures SeasonWeeks(rules, trackFrom, now) ==
            var count := CountWeeks(rules.policy.zone, rules.policy.target, trackFrom, now);
            if count < 1 then 1 else count
  {
    hide WeekStart, LocalDay, Midnight, Truncate;
    WeekStartIdempotent(rules.policy.zone, rules.policy.target, trackFrom);
  }

  /** What readers may rely on about a store at time `now`, in any zone. */
  ghost predicate InSeason(rules: Rules, db: Db, now: int) {
    && WellFormed(db) && FiledByDate(rules, db)
    && forall c :: c in db.checkins ==> c.checkinDate <= LocalDay(rules.policy.zone, now)
  }

  /** Every history gives such a store, if no check-in is dated after now. */
  lemma HistoryInSeason(rules: Rules, states: seq<Sys>, steps: seq<Step>, now: int)
    requires Run(rules, states, steps)
    requires Prov(rules, states[0])
    requires forall c :: c in states[|steps|].db.checkins ==> c.checkinDate <= LocalDay(rules.policy.zone, now)
    ensures InSeason(rules, states[|steps|].db, now)
  {
    InvAlways(rules, states, steps, |steps|);
    ProvAlways(rules, states, steps, |steps|);
    HistoryIsFiled(rules, states[|steps|]);
  }

  lemma CheckinIsDated(rules: Rules, db: Db, now: int, c: Checkin)
    requires InSeason(rules, db, now) && c in db.checkins
    ensures WeekdayOf(c.checkinDate) == rules.policy.target && c.checkinDate <= LocalDay(rules.policy.zone, now)
    ensures c.weekStart == WeekOfDay(rules.policy.zone, c.checkinDate)
  {
  }

  lemma DayInSeason(rules: Rules, db: Db, trackFrom: int, now: int, c: Checkin)
    requires InSeason(rules, db, now) && c in db.checkins
    requires c.checkinDate >= LocalDay(rules.policy.zone, trackFrom)
    ensures var first := Latest(LocalDay(rules.policy.zone, trackFrom), rules.policy.target);
            var season := SeasonLength(rules.policy.zone, rules.policy.target, trackFrom, now);
            first <= c.checkinDate <= first + 7 * (season - 1) && (c.checkinDate - first) % 7 == 0
  {
    hide *;
    var z, target := rules.policy.zone, rules.policy.target;
    CheckinIsDated(rules, db, now, c);
    SeasonOf(z, target, trackFrom, now);
    LatestIsMonotone(LocalDay(z, trackFrom), c.checkinDate, target);
    LatestIsMonotone(c.checkinDate, LocalDay(z, now), target);
    LatestIsMonotone(LocalDay(z, trackFrom), LocalDay(z, now), target);
    LatestOfItself(c.checkinDate, target);
  }

  function DatesOf(rows: seq<Checkin>): seq<int> {
    if rows == [] then [] else [rows[0].checkinDate] + DatesOf(rows[1..])
  }

  /** The days a user attended, and the weeks they are filed under. */
  function DaysOf(rows: seq<Checkin>, user: string): set<int> {
    Streaks.Elements(DatesOf(RowsOf(rows, user)))
  }

  function UserWeeks(rows: seq<Checkin>, user: string): set<int> {
    Streaks.Elements(WeeksOf(RowsOf(rows, user)))
  }

  function Filing(z: Zone): int -> int {
    (day: int) => WeekOfDay(z, day)
  }

  lemma {:induction false} WeeksAreFiled(own: seq<Checkin>, z: Zone)
    requires forall c :: c in own ==> c.weekStart == WeekOfDay(z, c.checkinDate)
    ensures Streaks.Elements(WeeksOf(own)) == Streaks.Filed(Streaks.Elements(DatesOf(own)), Filing(z))
  {
    hide WeekOfDay;
    if own != [] {
      WeeksAreFiled(own[1..], z);
      assert own == [own[0]] + own[1..];
      assert own[0] in own;
      var w := Filing(z);
      assert Streaks.Elements(WeeksOf(own)) == {own[0].weekStart} + Streaks.Elements(WeeksOf(own[1..]));
      assert Streaks.Elements(DatesOf(own)) == {own[0].checkinDate} + Streaks.Elements(DatesOf(own[1..]));
      assert w(own[0].checkinDate) == own[0].weekStart;
    }
  }

  lemma {:induction false} DatesAre(own: seq<Checkin>)
    ensures forall d :: d in Streaks.Elements(DatesOf(own)) ==> exists c :: c in own && c.checkinDate == d
  {
    if own != [] {
      DatesAre(own[1..]);
      assert own == [own[0]] + own[1..];
      forall d | d in Streaks.Elements(DatesOf(own)) ensures exists c :: c in own && c.checkinDate == d {
        if d == own[0].checkinDate {
          assert own[0] in own;
        } else {
          assert d in Streaks.Elements(DatesOf(own[1..]));
          var c :| c in own[1..] && c.checkinDate == d;
          assert c in own;
        }
      }
    }
  }

  /** The rows of a season: what the query returns, over a store in season. */
  ghost predicate SeasonRows(rules: Rules, db: Db, iatas: set<string>, trackFrom: int, now: int, rows: seq<Checkin>) {
    InSeason(rules, db, now) && Lists(rows, SinceView(db, iatas, LocalDay(rules.policy.zone, trackFrom)))
  }

  /** What one user's rows come to: distinct weeks, one per row, filed from days of the season. */
  lemma UserInSeason(rules: Rules, db: Db, iatas: set<string>, trackFrom: int, now: int, rows: seq<Checkin>, user: string)
    requires SeasonRows(rules, db, iatas, trackFrom, now, rows)
    ensures var z, target := rules.policy.zone, rules.policy.target;
            var first, season := Latest(LocalDay(z, trackFrom), target), SeasonLength(z, target, trackFrom, now);
            && |UserWeeks(rows, user)| == |RowsOf(rows, user)|
            && UserWeeks(rows, user) == Streaks.Filed(DaysOf(rows, user), Filing(z))
            && forall d :: d in DaysOf(rows, user) ==> first <= d <= first + 7 * (season - 1) && (d - first) % 7 == 0
  {
    hide Latest, SeasonLength, LocalDay, WeekOfDay, Filing, RowsOf, WeeksOf, DatesOf, Streaks.Elements, Streaks.Filed;
    var z, target := rules.policy.zone, rules.policy.target;
    var first, season := Latest(LocalDay(z, trackFrom), target), SeasonLength(z, target, trackFrom, now);
    var own := RowsOf(rows, user);
    OwnRows(rows, user);
    OwnWeeksDistinct(rows, user, db.checkins);
    DistinctCount(own);
    WeeksAreFiled(own, z);
    DatesAre(own);
    forall d | d in DaysOf(rows, user) ensures first <= d <= first + 7 * (season - 1) && (d - first) % 7 == 0 {
      var c :| c in own && c.checkinDate == d;
      DayInSeason(rules, db, trackFrom, now, c);
    }
  }

  ghost predicate InBounds(rules: Rules, trackFrom: int, now: int, rows: seq<Checkin>, e: Entry) {
    && 1 <= e.longestStreak <= e.mostCheckins == |UserWeeks(rows, e.username)|
    && e.mostCheckins <= SeasonLength(rules.policy.zone, rules.policy.target, trackFrom, now)
  }

  /** One entry's numbers. */
  lemma EntryInSeason(rules: Rules, db: Db, iatas: set<string>, trackFrom: int, now: int,
                      rows: seq<Checkin>, seasonWeeks: int, e: Entry)
    requires SeasonRows(rules, db, iatas, trackFrom, now, rows)
    requires IsEntryOf(rows, seasonWeeks, e)
    ensures InBounds(rules, trackFrom, now, rows, e)
  {
    hide Latest, SeasonLength, LocalDay, SeasonRows, RowsOf, WeeksOf, DatesOf, Filing, Streaks.Elements, Streaks.Filed;
    var z, target := rules.policy.zone, rules.policy.target;
    UserInSeason(rules, db, iatas, trackFrom, now, rows, e.username);
    WeeksFit(DaysOf(rows, e.username), Latest(LocalDay(z, trackFrom), target), SeasonAsNat(z, target, trackFrom, now));
    Streaks.FiledSize(DaysOf(rows, e.username), Filing(z));
    RunFits(UserWeeks(rows, e.username), e.streakStart, e.longestStreak);
  }

  function SeasonAsNat(z: Zone, target: DayOfWeek, trackFrom: int, now: int): (n: nat)
    ensures n == SeasonLength(z, target, trackFrom, now)
  {
    SeasonLength(z, target, trackFrom, now)
  }

  /** For every user on the board, in any zone: the streak is at least one week and no longer than the
      number of check-ins, which is the number of distinct weeks, which is at most the weeks of the
      season. */
  lemma BoardIsInSeason(rules: Rules, db: Db, iatas: set<string>, trackFrom: int, now: int,
                        rows: seq<Checkin>, board: seq<Entry>)
    requires SeasonRows(rules, db, iatas, trackFrom, now, rows)
    requires IsBoard(rows, SeasonWeeks(rules, trackFrom, now), board)
    ensures forall e :: e in board ==> InBounds(rules, trackFrom, now, rows, e)
  {
    hide SeasonRows, InBounds, IsEntryOf, SeasonWeeks;
    forall e | e in board ensures InBounds(rules, trackFrom, now, rows, e) {
      EntryInSeason(rules, db, iatas, trackFrom, now, rows, SeasonWeeks(rules, trackFrom, now), e);
    }
  }

  lemma OnOneGrid(weeks: set<int>, first: int)
    requires forall w :: w in weeks ==> (w - first) % 7 == 0
    ensures Streaks.SameWeekday(weeks)
  {
    forall x, y | x in weeks && y in weeks ensures (x - y) % 7 == 0 {
      assert (x - first) % 7 == 0 && (y - first) % 7 == 0;
    }
  }
}
