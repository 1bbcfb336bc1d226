/** The leaderboard: grouping check-ins by user, scoring, and ranking.

    The result is specified without reference to any order of users, and shown to be the only list
    that meets the specification, so it cannot depend on the order a Go map is walked in.
  */
module Leaderboard {
  import opened Text
  import opened Tables
  import Streaks

  datatype Entry = Entry(
    username: string, displayName: string, mostCheckins: nat, seasonWeeks: int, longestStreak: nat, streakStart: int)

  // ----- what the board should say

  function RowsOf(rows: seq<Checkin>, user: string): seq<Checkin> {
    if rows == [] then []
    else if rows[0].username == user then [rows[0]] + RowsOf(rows[1..], user)
    else RowsOf(rows[1..], user)
  }

  function WeeksOf(rows: seq<Checkin>): seq<int> {
    if rows == [] then [] else [rows[0].weekStart] + WeeksOf(rows[1..])
  }

  function FirstDisplayName(rows: seq<Checkin>): string {
    if rows == [] then "" else if rows[0].displayName != "" then rows[0].displayName else FirstDisplayName(rows[1..])
  }

  function FirstNonEmpty(a: string, b: string): string {
    if a != "" then a else b
  }

  function Users(rows: seq<Checkin>): set<string> {
    set r | r in rows :: r.username
  }

  /** The one entry a user should have. */
  ghost predicate IsEntryOf(rows: seq<Checkin>, seasonWeeks: int, e: Entry) {
    var own := RowsOf(rows, e.username);
    && e.username in Users(rows)
    && e.displayName == FirstNonEmpty(FirstDisplayName(own), e.username)
    && e.mostCheckins == |own|
    && e.seasonWeeks == seasonWeeks
    && Streaks.IsLongestUnbroken(Streaks.Elements(WeeksOf(own)), e.longestStreak, e.streakStart)
  }

  /** More check-ins first, then the longer streak, then the user name. */
  predicate Ahead(a: Entry, b: Entry) {
    if a.mostCheckins != b.mostCheckins then a.mostCheckins > b.mostCheckins
    else if a.longestStreak != b.longestStreak then a.longestStreak > b.longestStreak
    else Before(a.username, b.username)
  }

  predicate Ranked(s: seq<Entry>) {
    forall i, j :: 0 <= i < j < |s| ==> Ahead(s[i], s[j])
  }

  predicate HasEntry(board: seq<Entry>, user: string) {
    exists e :: e in board && e.username == user
  }

  ghost predicate IsBoard(rows: seq<Checkin>, seasonWeeks: int, board: seq<Entry>) {
    && Ranked(board)
    && (forall u :: u in Users(rows) ==> HasEntry(board, u))
    && (forall e :: e in board ==> IsEntryOf(rows, seasonWeeks, e))
  }

  // ----- ranking is a strict total order

  lemma AheadIsTransitive(a: Entry, b: Entry, c: Entry)
    requires Ahead(a, b) && Ahead(b, c)
    ensures Ahead(a, c)
  {
    if a.mostCheckins == b.mostCheckins == c.mostCheckins && a.longestStreak == b.longestStreak == c.longestStreak {
      BeforeIsTransitive(a.username, b.username, c.username);
    }
  }

  lemma AheadIsTotal(a: Entry, b: Entry)
    requires a.username != b.username
    ensures Ahead(a, b) || Ahead(b, a)
  {
    BeforeIsTotal(a.username, b.username);
  }

  lemma AheadIsStrict(a: Entry, b: Entry)
    ensures !(Ahead(a, b) && Ahead(b, a))
    ensures !Ahead(a, a)
  {
    BeforeIsTotal(a.username, b.username);
    BeforeIsTotal(a.username, a.username);
  }

  lemma EntriesAgree(rows: seq<Checkin>, seasonWeeks: int, a: Entry, b: Entry)
    requires IsEntryOf(rows, seasonWeeks, a) && IsEntryOf(rows, seasonWeeks, b) && a.username == b.username
    ensures a == b
  {
  }

  lemma HeadIsElement<T>(s: seq<T>)
    requires s != []
    ensures s[0] in s
  {
  }

  /** Two ranked lists of the same entries are the same list. */
  lemma {:induction false} RankedIsUnique(a: seq<Entry>, b: seq<Entry>)
    requires Ranked(a) && Ranked(b)
    requires forall e :: e in a <==> e in b
    ensures a == b
    decreases |a|
  {
    if a == [] {
      if b != [] {
        HeadIsElement(b);
      }
    } else {
      HeadIsElement(a);
      HeadIsElement(b);
      HeadsAgree(a, b);
      TailsAgree(a, b);
      RankedIsUnique(a[1..], b[1..]);
    }
  }

  lemma HeadsAgree(a: seq<Entry>, b: seq<Entry>)
    requires Ranked(a) && Ranked(b) && a != [] && b != []
    requires a[0] in b && b[0] in a
    ensures a[0] == b[0]
  {
    var i :| 0 <= i < |a| && a[i] == b[0];
    var j :| 0 <= j < |b| && b[j] == a[0];
    AheadIsStrict(a[0], b[0]);
  }

  lemma TailsAgree(a: seq<Entry>, b: seq<Entry>)
    requires Ranked(a) && Ranked(b) && a != [] && b != [] && a[0] == b[0]
    requires forall e :: e in a <==> e in b
    ensures Ranked(a[1..]) && Ranked(b[1..])
    ensures forall e :: e in a[1..] <==> e in b[1..]
  {
    AheadIsStrict(a[0], a[0]);
    assert a == [a[0]] + a[1..] && b == [b[0]] + b[1..];
    assert a[0] !in a[1..] && b[0] !in b[1..];
    forall e ensures e in a[1..] <==> e in b[1..] {
      assert e in a <==> e == a[0] || e in a[1..];
      assert e in b <==> e == b[0] || e in b[1..];
    }
  }

  /** The specification has at most one solution. */
  lemma BoardIsUnique(rows: seq<Checkin>, seasonWeeks: int, a: seq<Entry>, b: seq<Entry>)
    requires IsBoard(rows, seasonWeeks, a) && IsBoard(rows, seasonWeeks, b)
    ensures a == b
  {
    SameEntries(rows, seasonWeeks, a, b);
    SameEntries(rows, seasonWeeks, b, a);
    RankedIsUnique(a, b);
  }

  lemma SameEntries(rows: seq<Checkin>, seasonWeeks: int, a: seq<Entry>, b: seq<Entry>)
    requires IsBoard(rows, seasonWeeks, a) && IsBoard(rows, seasonWeeks, b)
    ensures forall e :: e in a ==> e in b
  {
  }

  /** What the order of a board means: nobody has more check-ins than someone above, of those with as
      many nobody has a longer streak, and of those with as long a one the lesser name comes first. */
  lemma HigherMeans(rows: seq<Checkin>, seasonWeeks: int, board: seq<Entry>, i: nat, j: nat)
    requires IsBoard(rows, seasonWeeks, board) && i < j < |board|
    ensures board[i].mostCheckins >= board[j].mostCheckins
    ensures board[i].mostCheckins == board[j].mostCheckins ==> board[i].longestStreak >= board[j].longestStreak
    ensures board[i].mostCheckins == board[j].mostCheckins && board[i].longestStreak == board[j].longestStreak ==>
              Before(board[i].username, board[j].username)
  {
  }

  /** The name shown is the first display name, in row order, that is not empty; else the user name. */
  lemma NameShown(rows: seq<Checkin>, seasonWeeks: int, e: Entry)
    requires IsEntryOf(rows, seasonWeeks, e)
    ensures (exists i :: IsFirstNamed(rows, e.username, i) && rows[i].displayName == e.displayName)
            || ((forall r :: r in rows && r.username == e.username ==> r.displayName == "") && e.displayName == e.username)
  {
    FirstNameOf(rows, e.username);
    if FirstDisplayName(RowsOf(rows, e.username)) != "" {
      var i :| IsFirstNamed(rows, e.username, i) && rows[i].displayName == FirstDisplayName(RowsOf(rows, e.username));
    }
  }

  predicate IsFirstNamed(rows: seq<Checkin>, user: string, i: int) {
    && 0 <= i < |rows| && rows[i].username == user && rows[i].displayName != ""
    && forall j :: 0 <= j < i && rows[j].username == user ==> rows[j].displayName == ""
  }

  lemma {:induction false} FirstNameOf(rows: seq<Checkin>, user: string)
    ensures var name := FirstDisplayName(RowsOf(rows, user));
            if name == "" then forall r :: r in rows && r.username == user ==> r.displayName == ""
            else exists i :: IsFirstNamed(rows, user, i) && rows[i].displayName == name
  {
    if rows != [] {
      FirstNameOf(rows[1..], user);
      assert rows == [rows[0]] + rows[1..];
      var name := FirstDisplayName(RowsOf(rows, user));
      if rows[0].username == user && rows[0].displayName != "" {
        assert IsFirstNamed(rows, user, 0);
      } else if name != "" {
        var i :| IsFirstNamed(rows[1..], user, i) && rows[1..][i].displayName == name;
        assert forall j :: 0 < j < |rows| ==> rows[j] == rows[1..][j - 1];
        assert IsFirstNamed(rows, user, i + 1);
      }
    }
  }

  // ----- every check-in is counted once

  function Total(board: seq<Entry>): nat {
    if board == [] then 0 else board[0].mostCheckins + Total(board[1..])
  }

  function Without(rows: seq<Checkin>, user: string): seq<Checkin> {
    if rows == [] then []
    else if rows[0].username == user then Without(rows[1..], user)
    else [rows[0]] + Without(rows[1..], user)
  }

  lemma {:induction false} WithoutKeepsOthers(rows: seq<Checkin>, user: string, other: string)
    requires other != user
    ensures RowsOf(Without(rows, user), other) == RowsOf(rows, other)
    ensures |RowsOf(rows, user)| + |Without(rows, user)| == |rows|
  {
    if rows != [] {
      WithoutKeepsOthers(rows[1..], user, other);
    }
  }

  lemma {:induction false} WithoutUsers(rows: seq<Checkin>, user: string)
    ensures Users(Without(rows, user)) == Users(rows) - {user}
  {
    if rows != [] {
      WithoutUsers(rows[1..], user);
      assert rows == [rows[0]] + rows[1..];
      assert Users(rows) == {rows[0].username} + Users(rows[1..]);
      if rows[0].username != user {
        assert Users([rows[0]] + Without(rows[1..], user)) == {rows[0].username} + Users(Without(rows[1..], user));
      }
    }
  }

  /** Distinct entries, one for every user, each with that user's number of rows. */
  ghost predicate CountsRows(rows: seq<Checkin>, board: seq<Entry>) {
    && (forall i, j :: 0 <= i < j < |board| ==> board[i].username != board[j].username)
    && (forall u :: u in Users(rows) ==> HasEntry(board, u))
    && (forall e :: e in board ==> e.username in Users(rows) && e.mostCheckins == |RowsOf(rows, e.username)|)
  }

  lemma HeadIsUser(rows: seq<Checkin>)
    requires rows != []
    ensures rows[0].username in Users(rows)
  {
  }

  lemma {:induction false} TotalsAddUp(rows: seq<Checkin>, board: seq<Entry>)
    requires CountsRows(rows, board)
    ensures Total(board) == |rows|
    decreases |board|
  {
    if board == [] {
      if rows != [] {
        HeadIsUser(rows);
      }
    } else {
      var user := board[0].username;
      var rest := Without(rows, user);
      WithoutUsers(rows, user);
      CountsRest(rows, board);
      TotalsAddUp(rest, board[1..]);
      WithoutKeepsOthers(rows, user, user + "x");
    }
  }

  lemma CountsRest(rows: seq<Checkin>, board: seq<Entry>)
    requires CountsRows(rows, board) && board != []
    ensures CountsRows(Without(rows, board[0].username), board[1..])
  {
    var user := board[0].username;
    WithoutUsers(rows, user);
    assert board == [board[0]] + board[1..];
    forall e | e in board[1..] ensures e.username != user && e.mostCheckins == |RowsOf(Without(rows, user), e.username)| {
      var i :| 0 <= i < |board[1..]| && board[1..][i] == e;
      assert board[i + 1] == e;
      WithoutKeepsOthers(rows, user, e.username);
    }
  }

  lemma BoardCountsRows(rows: seq<Checkin>, seasonWeeks: int, board: seq<Entry>)
    requires IsBoard(rows, seasonWeeks, board)
    ensures CountsRows(rows, board)
  {
    forall i, j | 0 <= i < j < |board| ensures board[i].username != board[j].username {
      assert board[i] in board && board[j] in board;
      if board[i].username == board[j].username {
        EntriesAgree(rows, seasonWeeks, board[i], board[j]);
        AheadIsStrict(board[i], board[j]);
      }
    }
  }

  /** One entry per user, and the totals add up to the number of check-ins. */
  lemma BoardTotals(rows: seq<Checkin>, seasonWeeks: int, board: seq<Entry>)
    requires IsBoard(rows, seasonWeeks, board)
    ensures Total(board) == |rows|
    ensures forall i, j :: 0 <= i < j < |board| ==> board[i].username != board[j].username
  {
    BoardCountsRows(rows, seasonWeeks, board);
    TotalsAddUp(rows, board);
  }

  // ----- ranking a list of entries

  function Place(e: Entry, s: seq<Entry>): (r: seq<Entry>)
    ensures forall x :: x in r <==> x == e || x in s
  {
    if s == [] || Ahead(e, s[0]) then [e] + s else [s[0]] + Place(e, s[1..])
  }

  function Rank(s: seq<Entry>): (r: seq<Entry>)
    ensures forall x :: x in r <==> x in s
  {
    if s == [] then [] else Place(s[0], Rank(s[1..]))
  }

  lemma {:induction false} PlaceRanks(e: Entry, s: seq<Entry>)
    requires Ranked(s)
    requires forall x :: x in s ==> x.username != e.username
    ensures Ranked(Place(e, s))
  {
    if s == [] {
    } else if Ahead(e, s[0]) {
      forall i | 0 <= i < |s| ensures Ahead(e, s[i]) {
        if i > 0 {
          AheadIsTransitive(e, s[0], s[i]);
        }
      }
    } else {
      AheadIsTotal(e, s[0]);
      var rest := Place(e, s[1..]);
      PlaceRanks(e, s[1..]);
      forall i | 0 <= i < |rest| ensures Ahead(s[0], rest[i]) {
        assert rest[i] in rest;
      }
    }
  }

  lemma {:induction false} RankRanks(s: seq<Entry>)
    requires forall i, j :: 0 <= i < j < |s| ==> s[i].username != s[j].username
    ensures Ranked(Rank(s))
  {
    if s != [] {
      RankRanks(s[1..]);
      forall x | x in Rank(s[1..]) ensures x.username != s[0].username {
        assert x in s[1..];
      }
      PlaceRanks(s[0], Rank(s[1..]));
    }
  }

  // ----- the computation

  /** The running totals of one user. */
  class UserState {
    var displayName: string
    var total: nat
    var weeks: seq<int>

    constructor (displayName: string)
      ensures this.displayName == displayName && total == 0 && weeks == []
    {
      this.displayName, total, weeks := displayName, 0, [];
    }
  }

  ghost predicate Summarises(s: UserState, own: seq<Checkin>)
    reads s
  {
    s.displayName == FirstDisplayName(own) && s.total == |own| && s.weeks == WeeksOf(own)
  }

  /** Every user seen so far has a state of its own that sums up that user's rows. */
  ghost predicate Grouped(byUser: map<string, UserState>, rows: seq<Checkin>)
    reads byUser.Values
  {
    && byUser.Keys == Users(rows)
    && (forall u, v :: u in byUser && v in byUser && u != v ==> byUser[u] != byUser[v])
    && (forall u :: u in byUser ==> Summarises(byUser[u], RowsOf(rows, u)))
  }

  lemma {:induction false} RowsOfNext(rows: seq<Checkin>, c: Checkin, user: string)
    ensures RowsOf(rows + [c], user) == if c.username == user then RowsOf(rows, user) + [c] else RowsOf(rows, user)
  {
    if rows != [] {
      assert (rows + [c])[1..] == rows[1..] + [c];
      RowsOfNext(rows[1..], c, user);
    } else {
      assert rows + [c] == [c];
    }
  }

  lemma {:induction false} SummaryNext(own: seq<Checkin>, c: Checkin)
    ensures WeeksOf(own + [c]) == WeeksOf(own) + [c.weekStart]
    ensures FirstDisplayName(own + [c]) == FirstNonEmpty(FirstDisplayName(own), c.displayName)
    ensures |WeeksOf(own)| == |own|
  {
    if own != [] {
      assert (own + [c])[1..] == own[1..] + [c];
      SummaryNext(own[1..], c);
    } else {
      assert own + [c] == [c];
    }
  }

  lemma {:induction false} NoRows(rows: seq<Checkin>, user: string)
    ensures RowsOf(rows, user) == [] <==> user !in Users(rows)
  {
    if rows != [] {
      NoRows(rows[1..], user);
      assert rows == [rows[0]] + rows[1..];
      assert Users(rows) == {rows[0].username} + Users(rows[1..]);
    }
  }

  lemma NoSummary()
    ensures WeeksOf([]) == [] && FirstDisplayName([]) == ""
  {
  }

  lemma UsersNext(rows: seq<Checkin>, c: Checkin)
    ensures Users(rows + [c]) == Users(rows) + {c.username}
  {
  }

  method AddRow(byUser: map<string, UserState>, ghost rows: seq<Checkin>, c: Checkin) returns (byUser': map<string, UserState>)
    requires Grouped(byUser, rows)
    modifies byUser.Values
    ensures Grouped(byUser', rows + [c])
    ensures fresh(byUser'.Values - byUser.Values)
  {
    hide RowsOf, WeeksOf, FirstDisplayName, Users;
    NoRows(rows, c.username);
    NoSummary();
    SummaryNext(RowsOf(rows, c.username), c);
    UsersNext(rows, c);
    forall u ensures RowsOf(rows + [c], u) == if c.username == u then RowsOf(rows, u) + [c] else RowsOf(rows, u) {
      RowsOfNext(rows, c, u);
    }
    byUser' := byUser;
    var entry;
    if c.username in byUser {
      entry := byUser[c.username];
    } else {
      entry := new UserState(c.displayName);
      byUser' := byUser[c.username := entry];
    }
    if entry.displayName == "" {
      entry.displayName := c.displayName;
    }
    entry.total := entry.total + 1;
    entry.weeks := entry.weeks + [c.weekStart];
  }

  method EntryFor(user: string, state: UserState, seasonWeeks: int, ghost rows: seq<Checkin>) returns (e: Entry)
    requires user in Users(rows) && Summarises(state, RowsOf(rows, user))
    ensures e.username == user && IsEntryOf(rows, seasonWeeks, e)
  {
    var weeks := new int[|state.weeks|](i requires 0 <= i < |state.weeks| reads state => state.weeks[i]);
    assert weeks[..] == state.weeks;
    NoRows(rows, user);
    SummaryNext(RowsOf(rows, user), RowsOf(rows, user)[0]);
    var longest, streakStart := Streaks.LongestWeeklyStreak(weeks);
    e := Entry(user, FirstNonEmpty(state.displayName, user), state.total, seasonWeeks, longest, streakStart);
  }

  method GroupByUser(rows: seq<Checkin>) returns (byUser: map<string, UserState>)
    ensures Grouped(byUser, rows) && fresh(byUser.Values)
  {
    hide RowsOf, WeeksOf, FirstDisplayName, Summarises;
    byUser := map[];
    var i := 0;
    while i < |rows|
      invariant 0 <= i <= |rows|
      invariant Grouped(byUser, rows[..i])
      invariant fresh(byUser.Values)
    {
      byUser := AddRow(byUser, rows[..i], rows[i]);
      assert rows[..i + 1] == rows[..i] + [rows[i]];
      i := i + 1;
    }
    assert rows[..|rows|] == rows;
  }

  /** Every user but those still pending has exactly one entry, and it is the right one. */
  ghost predicate Scored(rows: seq<Checkin>, seasonWeeks: int, users: set<string>, pending: set<string>, results: seq<Entry>) {
    && (forall e :: e in results ==> IsEntryOf(rows, seasonWeeks, e) && e.username in users && e.username !in pending)
    && (forall u :: u in users && u !in pending ==> HasEntry(results, u))
    && (forall k, l :: 0 <= k < l < |results| ==> results[k].username != results[l].username)
  }

  lemma ScoreNext(rows: seq<Checkin>, seasonWeeks: int, users: set<string>, pending: set<string>, results: seq<Entry>, e: Entry)
    requires Scored(rows, seasonWeeks, users, pending, results)
    requires e.username in pending && pending <= users && IsEntryOf(rows, seasonWeeks, e)
    ensures Scored(rows, seasonWeeks, users, pending - {e.username}, results + [e])
  {
  }

  lemma ScoredIsBoard(rows: seq<Checkin>, seasonWeeks: int, results: seq<Entry>)
    requires Scored(rows, seasonWeeks, Users(rows), {}, results)
    ensures IsBoard(rows, seasonWeeks, Rank(results))
  {
    RankRanks(results);
    forall u | u in Users(rows) ensures HasEntry(Rank(results), u) {
      assert HasEntry(results, u);
      var e :| e in results && e.username == u;
      assert e in Rank(results);
    }
  }

  /** Scores and ranks; users are taken from the map in no particular order. */
  method Compute(rows: seq<Checkin>, seasonWeeks: int) returns (results: seq<Entry>)
    ensures IsBoard(rows, seasonWeeks, results)
  {
    hide RowsOf, WeeksOf, FirstDisplayName, IsEntryOf, Summarises, IsBoard;
    var byUser := GroupByUser(rows);
    results := [];
    var pending := byUser.Keys;
    while pending != {}
      invariant pending <= byUser.Keys && Grouped(byUser, rows)
      invariant Scored(rows, seasonWeeks, Users(rows), pending, results)
      decreases |pending|
    {
      var user :| user in pending;
      var e := EntryFor(user, byUser[user], seasonWeeks, rows);
      ScoreNext(rows, seasonWeeks, Users(rows), pending, results, e);
      results := results + [e];
      pending := pending - {user};
    }
    ScoredIsBoard(rows, seasonWeeks, results);
    results := Rank(results);
  }
}
