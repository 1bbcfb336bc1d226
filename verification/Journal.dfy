/** What the log of the database says about one message: which statements were run for it, how often
    each was tried, and that a message handled without trouble is stored with all it calls for.
  */
module Journal {
  import opened Calendar
  import opened Tables
  import opened Protocol
  import opened Lateness
  import opened Store

  /** The statement a handler runs as its first, second, third or fourth. */
  function StatementAt(rules: Rules, d: Delivery, k: nat, at: int): Statement
    requires k >= 2 ==> rules.candidateOf(d.payloadHex).Some?
  {
    if k == 0 then RawInsert(d.hash, d.iata, d.payloadHex, d.observedAt)
    else if k == 1 then ObservationInsert(Observation(d.hash, d.observer, d.observedAt))
    else if k == 2 then LinkInsert(LinkOf(rules, d, at))
    else CheckinInsert(CheckinOf(rules, d, at))
  }

  /** One statement with its retries, at most sixteen tries in all: busy every time before the last;
      then it succeeds, or fails for another reason, or has been busy sixteen times, or the context
      is done. */
  ghost predicate Tried(events: seq<Event>, s: Statement, ok: bool) {
    && 1 <= |events| <= 16
    && (forall i :: 0 <= i < |events| - 1 ==> events[i] == Ran(s, Busy))
    && var last := events[|events| - 1];
       if ok then last == Ran(s, NoError)
       else (last == Stopped && |events| >= 2)
            || (last.Ran? && last.statement == s && last.err != NoError && (last.err == Busy ==> |events| == 16))
  }

  /** The script says of each statement in turn what the log says of it. */
  ghost predicate Faithful(rules: Rules, d: Delivery, before: seq<Event>, log: seq<Event>, script: seq<Attempt>, marks: seq<nat>) {
    && |script| <= 4 && |marks| == |script| + 1
    && before <= log && marks[0] == |before| && marks[|script|] == |log|
    && forall k :: 0 <= k < |script| ==> Told(rules, d, log, script, marks, k)
  }

  /** The log between two marks is about one statement and its retries. */
  ghost predicate Told(rules: Rules, d: Delivery, log: seq<Event>, script: seq<Attempt>, marks: seq<nat>, k: nat)
    requires k < |script| && |marks| == |script| + 1
  {
    && marks[k] <= marks[k + 1] <= |log|
    && (k >= 2 ==> rules.candidateOf(d.payloadHex).Some?)
    && Tried(log[marks[k]..marks[k + 1]], StatementAt(rules, d, k, script[k].at), script[k].ok)
  }

  lemma FaithfulStart(rules: Rules, d: Delivery, log: seq<Event>)
    ensures Faithful(rules, d, log, log, [], [|log|])
  {
  }

  lemma FaithfulNext(rules: Rules, d: Delivery, before: seq<Event>, mid: seq<Event>, log: seq<Event>,
                     script: seq<Attempt>, marks: seq<nat>, a: Attempt)
    requires Faithful(rules, d, before, mid, script, marks) && |script| < 4
    requires |script| >= 2 ==> rules.candidateOf(d.payloadHex).Some?
    requires mid <= log && Tried(log[|mid|..], StatementAt(rules, d, |script|, a.at), a.ok)
    ensures Faithful(rules, d, before, log, script + [a], marks + [|log|])
  {
    hide Tried, StatementAt, Told;
    var script', marks' := script + [a], marks + [|log|];
    forall k | 0 <= k < |script'| ensures Told(rules, d, log, script', marks', k) {
      if k < |script| {
        ToldStill(rules, d, mid, log, script, marks, script', marks', k);
      } else {
        ToldLast(rules, d, |mid|, log, script', marks', k);
      }
    }
  }

  lemma ToldStill(rules: Rules, d: Delivery, mid: seq<Event>, log: seq<Event>, script: seq<Attempt>, marks: seq<nat>,
                  script': seq<Attempt>, marks': seq<nat>, k: nat)
    requires k < |script| && |marks| == |script| + 1 && |marks'| == |script'| + 1
    requires mid <= log && script <= script' && marks <= marks'
    requires Told(rules, d, mid, script, marks, k)
    ensures Told(rules, d, log, script', marks', k)
  {
    hide Tried, StatementAt;
    assert log[marks[k]..marks[k + 1]] == mid[marks[k]..marks[k + 1]];
  }

  lemma ToldLast(rules: Rules, d: Delivery, from: nat, log: seq<Event>, script: seq<Attempt>, marks: seq<nat>, k: nat)
    requires k < |script| && |marks| == |script| + 1 && marks[k] == from <= |log| && marks[k + 1] == |log|
    requires k >= 2 ==> rules.candidateOf(d.payloadHex).Some?
    requires Tried(log[from..], StatementAt(rules, d, k, script[k].at), script[k].ok)
    ensures Told(rules, d, log, script, marks, k)
  {
    hide Tried, StatementAt;
    assert log[from..|log|] == log[from..];
  }

  /** Nothing has gone wrong since `before`. */
  ghost predicate Untroubled(before: seq<Event>, log: seq<Event>) {
    before <= log && forall i :: |before| <= i < |log| ==> ErrorOf(log[i]) == NoError
  }

  lemma UntroubledIsOk(rules: Rules, d: Delivery, before: seq<Event>, log: seq<Event>, script: seq<Attempt>, marks: seq<nat>)
    requires Faithful(rules, d, before, log, script, marks) && Untroubled(before, log)
    ensures forall k :: 0 <= k < |script| ==> Succeeded(script, k)
  {
    forall k | 0 <= k < |script| ensures script[k].ok {
      MarksAscend(rules, d, before, log, script, marks, k);
      assert Told(rules, d, log, script, marks, k);
      var events := log[marks[k]..marks[k + 1]];
      assert events[|events| - 1] == log[marks[k + 1] - 1];
    }
  }

  lemma {:induction false} MarksAscend(rules: Rules, d: Delivery, before: seq<Event>, log: seq<Event>,
                                       script: seq<Attempt>, marks: seq<nat>, k: nat)
    requires Faithful(rules, d, before, log, script, marks) && k <= |script|
    ensures |before| <= marks[k]
  {
    if k > 0 {
      MarksAscend(rules, d, before, log, script, marks, k - 1);
      assert Told(rules, d, log, script, marks, k - 1);
    }
  }

  /** What handling a delivery has done, read off the tables: everything its packet calls for, unless
      the log has an error. */
  ghost predicate Stores(rules: Rules, d: Delivery, before: Db, after: Db) {
    && HasRaw(after, d.hash) && HasObservation(after, d.hash, d.observer)
    && (rules.candidateOf(d.payloadHex).Some? ==>
          var week, user := WeekDate(rules.policy.zone, rules.policy.target, d.observedAt),
                            rules.candidateOf(d.payloadHex).value.username;
          && HasLink(after, week, user, d.hash)
          && HasCheckin(after, week, user)
          && (!HasCheckin(before, week, user) ==> exists c :: c in after.checkins && IsCheckinOf(rules, d, c)))
  }

  /** A new packet handled without any error is stored with all it calls for. */
  lemma UntroubledStores(rules: Rules, db: Db, d: Delivery, before: seq<Event>, log: seq<Event>,
                         script: seq<Attempt>, marks: seq<nat>)
    requires WellFormed(db) && !HasRaw(db, d.hash)
    requires Faithful(rules, d, before, log, script, marks) && Untroubled(before, log)
    requires Settle(rules, db, Handler(d, AtRaw), script).1.pc.Finished?
    ensures Stores(rules, d, db, Settle(rules, db, Handler(d, AtRaw), script).0)
  {
    UntroubledIsOk(rules, d, before, log, script, marks);
    hide WellFormed, Faithful, Untroubled, Settle, HasRaw, HasObservation, HasLink, HasCheckin, IsCheckinOf, WeekDate;
    if rules.candidateOf(d.payloadHex).Some? {
      MessageOutcomes(rules, db, d, script);
    } else {
      OtherOutcomes(rules, db, d, script);
    }
  }
}
