/** The longest weekly streak: sorting, compacting in place, and scanning.

    Week starts are dates read back from the store, that is whole days.
  */
module Streaks {
  import opened Sets

  // ----- what a streak is

  function WeekAt(start: int, k: nat): int {
    start + 7 * k
  }

  /** A week every seven days from `start`, `length` of them. */
  ghost predicate WeeklyRun(weeks: set<int>, start: int, length: nat) {
    forall k :: 0 <= k < length ==> WeekAt(start, k) in weeks
  }

  /** From the first week of the run to the last, the set holds nothing else. */
  ghost predicate Unbroken(weeks: set<int>, start: int, length: nat) {
    && WeeklyRun(weeks, start, length)
    && forall z :: z in weeks && start <= z <= start + 7 * (length - 1) ==> (z - start) % 7 == 0
  }

  /** The longest unbroken run, and the earliest start of one that long. */
  ghost predicate IsLongestUnbroken(weeks: set<int>, best: nat, start: int) {
    && 1 <= best && Unbroken(weeks, start, best)
    && forall s, n: nat :: n >= 1 && Unbroken(weeks, s, n) ==> n < best || (n == best && start <= s)
  }

  ghost predicate IsLongestRun(weeks: set<int>, best: nat, start: int) {
    && 1 <= best && WeeklyRun(weeks, start, best)
    && forall s, n: nat :: n >= 1 && WeeklyRun(weeks, s, n) ==> n < best || (n == best && start <= s)
  }

  ghost predicate SameWeekday(weeks: set<int>) {
    forall x, y :: x in weeks && y in weeks ==> (x - y) % 7 == 0
  }

  /** Two weeks seven days apart with another entry between them. */
  ghost predicate Interrupted(weeks: set<int>) {
    exists x, z :: x in weeks && x + 7 in weeks && z in weeks && x < z < x + 7
  }

  lemma SameWeekdayNotInterrupted(weeks: set<int>)
    requires SameWeekday(weeks)
    ensures !Interrupted(weeks)
  {
  }

  lemma NotInterruptedRunsUnbroken(weeks: set<int>, start: int, length: nat)
    requires !Interrupted(weeks) && WeeklyRun(weeks, start, length)
    ensures Unbroken(weeks, start, length)
  {
    forall z | z in weeks && start <= z <= start + 7 * (length - 1) ensures (z - start) % 7 == 0 {
      var k := (z - start) / 7;
      var x := WeekAt(start, k);
      assert x in weeks;
      assert k + 1 < length ==> WeekAt(start, k + 1) == x + 7;
    }
  }

  /** Without interruptions the scan's answer is the plain longest run. */
  lemma LongestWhenUninterrupted(weeks: set<int>, best: nat, start: int)
    requires !Interrupted(weeks)
    ensures IsLongestUnbroken(weeks, best, start) <==> IsLongestRun(weeks, best, start)
  {
    forall s, n: nat | WeeklyRun(weeks, s, n) ensures Unbroken(weeks, s, n) {
      NotInterruptedRunsUnbroken(weeks, s, n);
    }
  }

  /** The scan agrees with the plain longest run on every part of a set of weeks exactly when no
      entry falls between two weeks seven days apart, as happens if the net's weekday is changed. */
  lemma AgreesIffUninterrupted(weeks: set<int>)
    ensures (forall part, best: nat, start :: part <= weeks && IsLongestUnbroken(part, best, start) ==>
               IsLongestRun(part, best, start)) <==> !Interrupted(weeks)
  {
    if !Interrupted(weeks) {
      forall part, best: nat, start | part <= weeks && IsLongestUnbroken(part, best, start)
        ensures IsLongestRun(part, best, start)
      {
        assert !Interrupted(part);
        LongestWhenUninterrupted(part, best, start);
      }
    } else {
      var x, z :| x in weeks && x + 7 in weeks && z in weeks && x < z < x + 7;
      ThreeWeeks(x, z);
      assert {x, z, x + 7} <= weeks;
    }
  }

  lemma ThreeWeeks(x: int, z: int)
    requires x < z < x + 7
    ensures IsLongestUnbroken({x, z, x + 7}, 1, x)
    ensures !IsLongestRun({x, z, x + 7}, 1, x)
  {
    var weeks := {x, z, x + 7};
    assert WeeklyRun(weeks, x, 2) by {
      assert WeekAt(x, 0) in weeks && WeekAt(x, 1) in weeks;
    }
    forall s, n: nat | n >= 1 && Unbroken(weeks, s, n) ensures n == 1 && x <= s {
      assert WeekAt(s, 0) in weeks;
      assert z in weeks;
      var second := WeekAt(s, 1);
      assert n >= 2 ==> second in weeks;
    }
    assert WeekAt(x, 0) in weeks;
  }

  lemma LongestIsUnique(weeks: set<int>, a: nat, s: int, b: nat, t: int)
    requires IsLongestUnbroken(weeks, a, s) && IsLongestUnbroken(weeks, b, t)
    ensures a == b && s == t
  {
  }

  /** For any given set of weeks: the scan finds the plain longest run if and only if no entry falls
      between the weeks of that run. */
  lemma ScanFindsLongestIff(weeks: set<int>, best: nat, bestStart: int, length: nat, start: int)
    requires IsLongestUnbroken(weeks, best, bestStart) && IsLongestRun(weeks, length, start)
    ensures best == length && bestStart == start <==> Unbroken(weeks, start, length)
  {
    if Unbroken(weeks, start, length) {
      UnbrokenLongest(weeks, length, start);
      LongestIsUnique(weeks, best, bestStart, length, start);
    }
  }

  lemma UnbrokenLongest(weeks: set<int>, length: nat, start: int)
    requires IsLongestRun(weeks, length, start) && Unbroken(weeks, start, length)
    ensures IsLongestUnbroken(weeks, length, start)
  {
    forall s, n: nat | n >= 1 && Unbroken(weeks, s, n) ensures n < length || (n == length && start <= s) {
      assert WeeklyRun(weeks, s, n);
    }
  }

  // ----- days filed under weeks

  /** The weeks that days are filed under. */
  function Filed(days: set<int>, w: int -> int): set<int> {
    set d | d in days :: w(d)
  }

  /** Every day is filed under itself or under the day before. */
  ghost predicate FilesClose(w: int -> int) {
    forall d :: w(d) == d || w(d) == d - 1
  }

  /** All days of a run are filed alike. */
  ghost predicate FiledAlike(w: int -> int, start: int, length: nat) {
    forall k :: 0 <= k < length ==> w(WeekAt(start, k)) - WeekAt(start, k) == w(start) - start
  }

  /** Days on one weekday never interrupt each other, however they are filed. */
  lemma FiledNotInterrupted(days: set<int>, w: int -> int)
    requires SameWeekday(days) && FilesClose(w)
    ensures !Interrupted(Filed(days, w))
  {
    forall x, z | x in Filed(days, w) && x + 7 in Filed(days, w) && z in Filed(days, w) ensures !(x < z < x + 7) {
      var a :| a in days && w(a) == x;
      var b :| b in days && w(b) == x + 7;
      var c :| c in days && w(c) == z;
      assert (c - a) % 7 == 0 && (b - a) % 7 == 0;
      hide *;
      NoneBetween(a, b, c, x, z, w);
    }
  }

  lemma NoneBetween(a: int, b: int, c: int, x: int, z: int, w: int -> int)
    requires w(a) == x && w(b) == x + 7 && w(c) == z
    requires (c - a) % 7 == 0 && (b - a) % 7 == 0
    requires FilesClose(w)
    ensures !(x < z < x + 7)
  {
    assert b == a + 7;
    assert -6 <= c - a <= 8 ==> c == a || c == b;
  }

  /** A run of weeks comes from a run of days, all filed alike. */
  lemma RunOfFiled(days: set<int>, w: int -> int, start: int, length: nat) returns (first: int)
    requires SameWeekday(days) && FilesClose(w)
    requires length >= 1 && WeeklyRun(Filed(days, w), start, length)
    ensures first in days && w(first) == start
    ensures WeeklyRun(days, first, length) && FiledAlike(w, first, length)
  {
    assert WeekAt(start, 0) in Filed(days, w);
    first :| first in days && w(first) == start;
    forall k | 0 <= k < length ensures WeekAt(first, k) in days && w(WeekAt(first, k)) == WeekAt(start, k) {
      assert WeekAt(start, k) in Filed(days, w);
      var d :| d in days && w(d) == WeekAt(start, k);
      assert (d - first) % 7 == 0;
      SameDay(d, first, k, w, start);
    }
  }

  lemma SameDay(d: int, first: int, k: nat, w: int -> int, start: int)
    requires FilesClose(w) && w(first) == start && w(d) == WeekAt(start, k) && (d - first) % 7 == 0
    ensures d == WeekAt(first, k)
  {
    assert -1 <= d - first - 7 * k <= 1;
  }

  lemma {:induction false} FiledSize(days: set<int>, w: int -> int)
    ensures |Filed(days, w)| <= |days|
    decreases days
  {
    if days == {} {
      assert Filed(days, w) == {};
    } else {
      var d := AnElement(days);
      FiledSize(days - {d}, w);
      assert Filed(days, w) == Filed(days - {d}, w) + {w(d)};
    }
  }

  lemma FiledRun(days: set<int>, w: int -> int, start: int, length: nat)
    requires WeeklyRun(days, start, length) && FiledAlike(w, start, length)
    ensures WeeklyRun(Filed(days, w), w(start), length)
  {
    forall k | 0 <= k < length ensures WeekAt(w(start), k) in Filed(days, w) {
      assert WeekAt(start, k) in days;
      assert w(WeekAt(start, k)) == WeekAt(w(start), k);
    }
  }

  /** The longest run of weeks is never longer than the longest run of days, and is that run, start
      included, if and only if all its days are filed alike. */
  lemma FiledStreakIff(days: set<int>, w: int -> int, length: nat, start: int, best: nat, bestStart: int)
    requires SameWeekday(days) && FilesClose(w)
    requires IsLongestRun(days, length, start) && IsLongestRun(Filed(days, w), best, bestStart)
    ensures best <= length
    ensures best == length && bestStart == w(start) <==> FiledAlike(w, start, length)
  {
    var first := RunOfFiled(days, w, bestStart, best);
    assert WeekAt(start, 0) in days;
    assert (first - start) % 7 == 0;
    if FiledAlike(w, start, length) {
      FiledRun(days, w, start, length);
    }
  }

  // ----- sorting

  predicate Sorted(s: seq<int>) {
    forall i, j :: 0 <= i < j < |s| ==> s[i] <= s[j]
  }

  predicate StrictlyAscending(s: seq<int>) {
    forall i, j :: 0 <= i < j < |s| ==> s[i] < s[j]
  }

  function InsertInto(x: int, s: seq<int>): (r: seq<int>)
    ensures |r| == |s| + 1
    ensures forall y :: y in r <==> y == x || y in s
  {
    if s == [] || x <= s[0] then [x] + s else [s[0]] + InsertInto(x, s[1..])
  }

  function Sort(s: seq<int>): (r: seq<int>)
    ensures |r| == |s|
    ensures forall y :: y in r <==> y in s
  {
    if s == [] then [] else InsertInto(s[0], Sort(s[1..]))
  }

  lemma {:induction false} InsertSorted(x: int, s: seq<int>)
    requires Sorted(s)
    ensures Sorted(InsertInto(x, s))
  {
    if s != [] && s[0] < x {
      InsertSorted(x, s[1..]);
      var rest := InsertInto(x, s[1..]);
      assert forall i :: 0 <= i < |rest| ==> rest[i] in rest;
      assert forall y :: y in s[1..] ==> s[0] <= y;
    }
  }

  lemma {:induction false} SortSorts(s: seq<int>)
    ensures Sorted(Sort(s))
  {
    if s != [] {
      SortSorts(s[1..]);
      InsertSorted(s[0], Sort(s[1..]));
    }
  }

  // ----- runs of neighbours in the sorted list

  /** `length` neighbours from index `a`, each seven days after the one before. */
  ghost predicate StepRun(d: seq<int>, a: nat, length: nat) {
    && a + length <= |d|
    && forall k :: 0 <= k < length ==> d[a + k] == d[a] + 7 * k
  }

  function Elements(d: seq<int>): set<int> {
    set x | x in d
  }

  lemma {:induction false} StepRunIsUnbroken(d: seq<int>, a: nat, length: nat)
    requires StrictlyAscending(d) && length >= 1
    requires StepRun(d, a, length)
    ensures Unbroken(Elements(d), d[a], length)
  {
    forall k | 0 <= k < length ensures WeekAt(d[a], k) in Elements(d) {
      assert d[a + k] in d;
    }
    forall z | z in Elements(d) && d[a] <= z <= d[a] + 7 * (length - 1) ensures (z - d[a]) % 7 == 0 {
      var i :| 0 <= i < |d| && d[i] == z;
      assert d[a + (length - 1)] == d[a] + 7 * (length - 1);
      assert a <= i <= a + (length - 1);
      assert d[a + (i - a)] == d[a] + 7 * (i - a);
    }
  }

  lemma UnbrokenStart(d: seq<int>, start: int) returns (a: nat)
    requires Unbroken(Elements(d), start, 1)
    ensures a < |d| && d[a] == start && StepRun(d, a, 1)
  {
    assert WeekAt(start, 0) in Elements(d);
    a :| 0 <= a < |d| && d[a] == start;
  }

  /** The week after the last of a step run, if the run goes on, is the next element of the list. */
  lemma NextInStepRun(d: seq<int>, start: int, length: nat, a: nat)
    requires StrictlyAscending(d) && length >= 1
    requires Unbroken(Elements(d), start, length + 1)
    requires a < |d| && d[a] == start && StepRun(d, a, length)
    ensures StepRun(d, a, length + 1)
  {
    var last := WeekAt(start, length);
    assert last in Elements(d);
    var i :| 0 <= i < |d| && d[i] == last;
    var p := a + (length - 1);
    assert d[p] == start + 7 * (length - 1);
    assert i > p;
    var next := d[p + 1];
    assert next in Elements(d) && d[p] < next <= d[i];
    assert (next - start) % 7 == 0;
  }

  lemma {:induction false} UnbrokenIsStepRun(d: seq<int>, start: int, length: nat) returns (a: nat)
    requires StrictlyAscending(d) && length >= 1
    requires Unbroken(Elements(d), start, length)
    ensures a < |d| && d[a] == start && StepRun(d, a, length)
    decreases length
  {
    if length == 1 {
      a := UnbrokenStart(d, start);
    } else {
      assert Unbroken(Elements(d), start, length - 1);
      a := UnbrokenIsStepRun(d, start, length - 1);
      NextInStepRun(d, start, length - 1, a);
    }
  }

  /** Best run among neighbours seen so far. */
  ghost predicate BestSoFar(d: seq<int>, i: nat, best: nat, start: int) {
    && (exists a: nat :: a + best <= i && a < |d| && d[a] == start && StepRun(d, a, best))
    && forall a: nat, n: nat :: n >= 1 && a + n <= i && StepRun(d, a, n) ==> n < best || (n == best && start <= d[a])
  }

  /** The run that ends just before index `i` cannot be extended to the left. */
  ghost predicate CurrentRun(d: seq<int>, i: nat, current: nat, start: int) {
    && 1 <= current <= i <= |d|
    && StepRun(d, i - current, current)
    && d[i - current] == start
    && (i - current > 0 ==> d[i - current] - d[i - current - 1] != 7)
  }

  lemma StepInRun(d: seq<int>, a: nat, n: nat, p: nat)
    requires StepRun(d, a, n) && a < p < a + n
    ensures d[p] - d[p - 1] == 7
  {
    assert d[a + (p - a)] == d[a] + 7 * (p - a) && d[a + (p - 1 - a)] == d[a] + 7 * (p - 1 - a);
  }

  lemma CurrentIsLongestEnding(d: seq<int>, i: nat, current: nat, start: int, a: nat, n: nat)
    requires CurrentRun(d, i, current, start)
    requires n >= 1 && a + n == i && StepRun(d, a, n)
    ensures n <= current
  {
    if n > current {
      StepInRun(d, a, n, i - current);
    }
  }

  lemma ExtendCurrent(d: seq<int>, i: nat, current: nat, start: int)
    requires i < |d| && CurrentRun(d, i, current, start)
    ensures d[i] - d[i - 1] == 7 ==> CurrentRun(d, i + 1, current + 1, start)
    ensures d[i] - d[i - 1] != 7 ==> CurrentRun(d, i + 1, 1, d[i])
  {
    var a := i - current;
    assert d[a + (current - 1)] == d[a] + 7 * (current - 1);
  }

  lemma UpdateBest(d: seq<int>, i: nat, current: nat, currentStart: int, best: nat, start: int)
    requires StrictlyAscending(d) && 1 <= best
    requires CurrentRun(d, i + 1, current, currentStart)
    requires BestSoFar(d, i, best, start) && start <= currentStart
    ensures if current > best then BestSoFar(d, i + 1, current, currentStart) else BestSoFar(d, i + 1, best, start)
  {
    var newBest, newStart := if current > best then current else best, if current > best then currentStart else start;
    forall a: nat, n: nat | n >= 1 && a + n <= i + 1 && StepRun(d, a, n)
      ensures n < newBest || (n == newBest && newStart <= d[a])
    {
      if a + n == i + 1 {
        CurrentIsLongestEnding(d, i + 1, current, currentStart, a, n);
      }
    }
    assert current > best ==> StepRun(d, i + 1 - current, current);
  }

  /** Where the scan stands before index `i`. */
  ghost predicate Scanned(d: seq<int>, i: nat, current: nat, currentStart: int, best: nat, start: int) {
    && 1 <= best && start <= currentStart
    && CurrentRun(d, i, current, currentStart)
    && BestSoFar(d, i, best, start)
  }

  lemma ScanStarts(d: seq<int>)
    requires d != []
    ensures Scanned(d, 1, 1, d[0], 1, d[0])
  {
  }

  lemma ScanStep(d: seq<int>, i: nat, current: nat, currentStart: int, best: nat, start: int)
    requires StrictlyAscending(d) && i < |d| && Scanned(d, i, current, currentStart, best, start)
    ensures i >= 1
    ensures var c := if d[i] - d[i - 1] == 7 then current + 1 else 1;
            var s := if d[i] - d[i - 1] == 7 then currentStart else d[i];
            Scanned(d, i + 1, c, s, if c > best then c else best, if c > best then s else start)
  {
    var c := if d[i] - d[i - 1] == 7 then current + 1 else 1;
    var s := if d[i] - d[i - 1] == 7 then currentStart else d[i];
    ExtendCurrent(d, i, current, currentStart);
    assert currentStart == d[i - current] < d[i];
    UpdateBest(d, i, c, s, best, start);
  }

  lemma ScanEnds(d: seq<int>, current: nat, currentStart: int, best: nat, start: int)
    requires StrictlyAscending(d) && Scanned(d, |d|, current, currentStart, best, start)
    ensures IsLongestUnbroken(Elements(d), best, start)
  {
    var a: nat :| a + best <= |d| && a < |d| && d[a] == start && StepRun(d, a, best);
    StepRunIsUnbroken(d, a, best);
    forall s, n: nat | n >= 1 && Unbroken(Elements(d), s, n) ensures n < best || (n == best && start <= s) {
      var b := UnbrokenIsStepRun(d, s, n);
    }
  }

  // ----- the algorithm

  /** Sorts in place; the order of equal days does not matter. */
  method SortWeeks(weeks: array<int>)
    modifies weeks
    ensures Sorted(weeks[..]) && Elements(weeks[..]) == Elements(old(weeks[..]))
  {
    var sorted := Sort(weeks[..]);
    SortSorts(weeks[..]);
    forall i | 0 <= i < weeks.Length {
      weeks[i] := sorted[i];
    }
    assert weeks[..] == sorted;
  }

  /** Compacts a sorted array into its own first `n` cells while still reading the cell before the
      current one: what is read is never a cell already overwritten with something else. */
  method Compact(weeks: array<int>) returns (n: nat)
    requires weeks.Length > 0 && Sorted(weeks[..])
    modifies weeks
    ensures 0 < n <= weeks.Length
    ensures StrictlyAscending(weeks[..n]) && Elements(weeks[..n]) == Elements(old(weeks[..]))
  {
    ghost var sorted := weeks[..];
    n := 1;
    var i := 1;
    while i < weeks.Length
      invariant 1 <= n <= i <= weeks.Length
      invariant forall k :: i - 1 <= k < weeks.Length ==> weeks[k] == sorted[k]
      invariant weeks[n - 1] == sorted[i - 1]
      invariant StrictlyAscending(weeks[..n])
      invariant Elements(weeks[..n]) == Elements(sorted[..i])
    {
      assert sorted[i - 1] <= sorted[i];
      assert Elements(sorted[..i + 1]) == Elements(sorted[..i]) + {sorted[i]} by {
        assert sorted[..i + 1] == sorted[..i] + [sorted[i]];
      }
      if weeks[i] != weeks[i - 1] {
        ghost var kept := weeks[..n];
        weeks[n] := weeks[i];
        n := n + 1;
        assert weeks[..n] == kept + [sorted[i]];
      } else {
        assert sorted[i] in weeks[..n] by {
          assert weeks[..n][n - 1] == sorted[i];
        }
      }
      i := i + 1;
    }
    assert sorted[..weeks.Length] == sorted;
  }

  /** One pass over the compacted weeks, comparing neighbours. */
  method ScanRuns(dedup: seq<int>) returns (best: nat, bestStart: int)
    requires dedup != [] && StrictlyAscending(dedup)
    ensures IsLongestUnbroken(Elements(dedup), best, bestStart)
  {
    hide *;
    best, bestStart := 1, dedup[0];
    var current, currentStart := 1, dedup[0];
    ScanStarts(dedup);
    var i := 1;
    while i < |dedup|
      invariant 1 <= i <= |dedup|
      invariant Scanned(dedup, i, current, currentStart, best, bestStart)
    {
      ScanStep(dedup, i, current, currentStart, best, bestStart);
      if dedup[i] - dedup[i - 1] == 7 {
        current := current + 1;
      } else {
        current := 1;
        currentStart := dedup[i];
      }
      if current > best {
        best := current;
        bestStart := currentStart;
      }
      i := i + 1;
    }
    ScanEnds(dedup, current, currentStart, best, bestStart);
  }

  /** The longest unbroken run of weeks and the earliest start of one that long, whatever the order
      and multiplicity of the input. */
  method LongestWeeklyStreak(weeks: array<int>) returns (best: nat, bestStart: int)
    modifies weeks
    ensures weeks.Length == 0 ==> best == 0
    ensures weeks.Length > 0 ==> IsLongestUnbroken(Elements(old(weeks[..])), best, bestStart)
  {
    hide *;
    if weeks.Length == 0 {
      return 0, 0;
    }
    SortWeeks(weeks);
    var n := Compact(weeks);
    best, bestStart := ScanRuns(weeks[..n]);
  }
}
