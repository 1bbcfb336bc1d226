/** The timeliness assumption is needed, and redelivery is harmless. */
module Lateness {
  import opened Calendar
  import opened ClockChanges
  import opened Tables
  import opened Retention
  import opened Protocol

  /** One handler has stored its raw row and its observation and is about to insert its link. */
  function Waiting(d: Delivery, pruner: Pruner): Sys {
    Sys(Db([Row(1, d)], {}, {ObservationOf(d)}, {}, 2, 1), map[0 := Handler(d, AtLink)], pruner, [], {})
  }

  /** The same handler, done: link and check-in are stored while the row waits to be deleted. */
  function Done(rules: Rules, d: Delivery, at: int, pruner: Pruner): Sys
    requires rules.candidateOf(d.payloadHex).Some?
  {
    Sys(Db([Row(1, d)], {CheckinOf(rules, d, at).(id := 1)}, {ObservationOf(d)}, {LinkOf(rules, d, at)}, 2, 2),
        map[0 := Handler(d, Finished(true))], pruner, [], {})
  }

  /** Nothing but this message and a prune started at this time. */
  ghost predicate Concerns(s: Sys, d: Delivery, now: int) {
    && (forall id :: id in s.handlers ==> s.handlers[id].d == d)
    && (s.pruner.Pruning? ==> s.pruner.now == now)
  }

  ghost predicate AllConcern(states: seq<Sys>, d: Delivery, now: int) {
    forall i :: 0 <= i < |states| ==> Concerns(states[i], d, now)
  }

  lemma WaitingConcerns(d: Delivery, now: int)
    ensures forall pruner: Pruner :: pruner == Idle || (pruner.Pruning? && pruner.now == now) ==> Concerns(Waiting(d, pruner), d, now)
  {
  }

  lemma OneMoreConcerns(states: seq<Sys>, states': seq<Sys>, d: Delivery, now: int)
    requires AllConcern(states, d, now) && states <= states' && |states'| == |states| + 1
    requires Concerns(states'[|states|], d, now)
    ensures AllConcern(states', d, now)
  {
    forall i | 0 <= i < |states'| ensures Concerns(states'[i], d, now) {
      assert i < |states| ==> states'[i] == states[i];
    }
  }

  /** One more step of a run about one message and one prune. */
  lemma TellMore(rules: Rules, states: seq<Sys>, steps: seq<Step>, step: Step, d: Delivery, now: int)
    returns (states': seq<Sys>, steps': seq<Step>)
    requires Follows(rules, states, steps) && |states| == |steps| + 1 && AllConcern(states, d, now)
    requires Enabled(rules, states[|steps|], step)
    requires Concerns(Apply(rules, states[|steps|], step), d, now)
    ensures Follows(rules, states', steps') && |steps'| == |steps| + 1 && |states'| == |states| + 1
    ensures AllConcern(states', d, now) && states <= states'
    ensures states'[|steps'|] == Apply(rules, states[|steps|], step)
  {
    hide *;
    states', steps' := OneMore(rules, states, steps, step);
    OneMoreConcerns(states, states', d, now);
  }

  /** A handler at its first statement, and at its second. */
  function Arrived(d: Delivery): Sys {
    START.(handlers := map[0 := Handler(d, AtRaw)])
  }

  function RowStored(d: Delivery): Sys {
    Sys(Db([Row(1, d)], {}, {}, {}, 2, 1), map[0 := Handler(d, AtObservation(true))], Idle, [], {})
  }

  lemma FirstSteps(rules: Rules, d: Delivery, at: int)
    requires Accepted(rules, d)
    ensures Init(START) && Enabled(rules, START, Deliver(0, d)) && Apply(rules, START, Deliver(0, d)) == Arrived(d)
    ensures Enabled(rules, Arrived(d), Handle(0, true, at)) && Apply(rules, Arrived(d), Handle(0, true, at)) == RowStored(d)
    ensures forall now :: Concerns(START, d, now) && Concerns(Arrived(d), d, now) && Concerns(RowStored(d), d, now)
  {
  }

  lemma ObservationStored(rules: Rules, d: Delivery, at: int)
    requires rules.candidateOf(d.payloadHex).Some?
    ensures Enabled(rules, RowStored(d), Handle(0, true, at))
    ensures Apply(rules, RowStored(d), Handle(0, true, at)) == Waiting(d, Idle)
  {
    assert Row(1, d) in RowStored(d).db.raw && HasRaw(RowStored(d).db, d.hash);
  }

  lemma JustBegun(rules: Rules, d: Delivery, now: int)
    requires Init(START) && Concerns(START, d, now)
    ensures Follows(rules, [START], []) && AllConcern([START], d, now)
  {
  }

  lemma HandlerStarts(rules: Rules, d: Delivery, now: int, at: int) returns (states: seq<Sys>, steps: seq<Step>)
    requires Accepted(rules, d) && rules.candidateOf(d.payloadHex).Some?
    ensures Follows(rules, states, steps) && |steps| == 3 && |states| == 4 && AllConcern(states, d, now)
    ensures states[3] == Waiting(d, Idle)
  {
    hide *;
    FirstSteps(rules, d, at);
    ObservationStored(rules, d, at);
    WaitingConcerns(d, now);
    JustBegun(rules, d, now);
    states, steps := [START], [];
    states, steps := TellMore(rules, states, steps, Deliver(0, d), d, now);
    states, steps := TellMore(rules, states, steps, Handle(0, true, at), d, now);
    states, steps := TellMore(rules, states, steps, Handle(0, true, at), d, now);
  }

  lemma PruneReadsRow(rules: Rules, d: Delivery, now: int)
    requires !InWindow(rules.policy.zone, rules.policy.target, now, rules.policy.retainWeeks, d.observedAt)
    ensures Enabled(rules, Waiting(d, Idle), StartPrune(now))
    ensures Apply(rules, Waiting(d, Idle), StartPrune(now)) == Waiting(d, Pruning(now, {}, 0, []))
    ensures Enabled(rules, Waiting(d, Pruning(now, {}, 0, [])), Scan(SCAN_BATCH))
    ensures Apply(rules, Waiting(d, Pruning(now, {}, 0, [])), Scan(SCAN_BATCH)) == Waiting(d, Pruning(now, {}, 0, [1]))
  {
    assert ProtectedHashes(Waiting(d, Idle).db) == {};
    assert Above([Row(1, d)], 0) == [Row(1, d)];
    assert Doomed(rules.policy, now, {}, [Row(1, d)]) == [1];
  }

  lemma HandlerEnds(rules: Rules, d: Delivery, at: int, pruner: Pruner)
    returns (middle: Sys)
    requires rules.candidateOf(d.payloadHex).Some?
    ensures Enabled(rules, Waiting(d, pruner), Handle(0, true, at))
    ensures Apply(rules, Waiting(d, pruner), Handle(0, true, at)) == middle
    ensures Enabled(rules, middle, Handle(0, true, at))
    ensures Apply(rules, middle, Handle(0, true, at)) == Done(rules, d, at, pruner)
    ensures forall now :: pruner.Pruning? && pruner.now == now ==>
              Concerns(middle, d, now) && Concerns(Done(rules, d, at, pruner), d, now)
  {
    var s := Waiting(d, pruner);
    middle := s.(db := s.db.(links := {LinkOf(rules, d, at)}), handlers := map[0 := Handler(d, AtCheckin)]);
    assert Row(1, d) in s.db.raw;
    assert HasRaw(s.db, d.hash) && HasRaw(middle.db, d.hash);
  }

  lemma PruneDeletesRow(rules: Rules, d: Delivery, now: int, at: int)
    requires rules.candidateOf(d.payloadHex).Some?
    ensures var s := Done(rules, d, at, Pruning(now, {}, 0, [1]));
            && HasCheckin(s.db, WeekOf(rules, d), rules.candidateOf(d.payloadHex).value.username)
            && Enabled(rules, s, Delete(DELETE_CHUNK))
            && Concerns(Apply(rules, s, Delete(DELETE_CHUNK)), d, now)
            && Apply(rules, s, Delete(DELETE_CHUNK)).db.checkins == {}
            && Apply(rules, s, Delete(DELETE_CHUNK)).db.links == {}
  {
  }

  /** Whenever a prune starts for which a message still in flight is out of the window, the check-in
      its handler goes on to store can be deleted again. */
  lemma LateHandlerLosesCheckin(rules: Rules, d: Delivery, now: int, at: int)
    returns (states: seq<Sys>, steps: seq<Step>)
    requires Accepted(rules, d) && rules.candidateOf(d.payloadHex).Some?
    requires !InWindow(rules.policy.zone, rules.policy.target, now, rules.policy.retainWeeks, d.observedAt)
    ensures Follows(rules, states, steps)
    ensures |steps| == 8 && |states| == 9 && AllConcern(states, d, now)
    ensures HasCheckin(states[7].db, WeekOf(rules, d), rules.candidateOf(d.payloadHex).value.username)
    ensures states[8].db.checkins == {} && states[8].db.links == {}
  {
    hide *;
    var pruner := Pruning(now, {}, 0, [1]);
    states, steps := HandlerStarts(rules, d, now, at);
    PruneReadsRow(rules, d, now);
    var middle := HandlerEnds(rules, d, at, pruner);
    PruneDeletesRow(rules, d, now, at);
    WaitingConcerns(d, now);
    states, steps := TellMore(rules, states, steps, StartPrune(now), d, now);
    states, steps := TellMore(rules, states, steps, Scan(SCAN_BATCH), d, now);
    states, steps := TellMore(rules, states, steps, Handle(0, true, at), d, now);
    states, steps := TellMore(rules, states, steps, Handle(0, true, at), d, now);
    states, steps := TellMore(rules, states, steps, Delete(DELETE_CHUNK), d, now);
  }

  // ----- what timeliness means in days

  /** In every orderly zone, midnights skipped or not: no prune starts more than six days and the
      retained weeks after a message still being handled, nor, when its cutoff lands late, while a
      message from the oldest of these days is. */
  lemma TimelyExactly(rules: Rules, s: Sys)
    requires Orderly(rules.policy.zone)
    requires forall id :: id in s.handlers ==> Accepted(rules, s.handlers[id].d)
    ensures Timely(rules, s) <==> TimelyInDays(rules, s) && NoneOnLateDay(rules, s)
  {
    hide Orderly, LocalDay, OldestDay, CutoffIsLate, InWindow;
    if s.pruner.Pruning? {
      forall id | id in s.handlers {
        WindowExactly(rules.policy.zone, rules.policy.target, s.pruner.now, rules.policy.retainWeeks,
                      s.handlers[id].d.observedAt);
      }
    }
  }

  ghost predicate NoneOnLateDay(rules: Rules, s: Sys) {
    s.pruner.Pruning? && CutoffIsLate(rules.policy.zone, rules.policy.target, s.pruner.now, rules.policy.retainWeeks) ==>
      forall id :: id in s.handlers && InFlight(s.handlers[id]) ==>
        LocalDay(rules.policy.zone, s.handlers[id].d.observedAt)
          != OldestDay(rules.policy.zone, rules.policy.target, s.pruner.now, rules.policy.retainWeeks)
  }

  /** The day bound alone does not protect a message from the oldest day when the cutoff lands late:
      there is a run that keeps the bound throughout and loses its check-in. */
  lemma DayBoundIsNotEnough(rules: Rules, d: Delivery, now: int, at: int)
    returns (states: seq<Sys>, steps: seq<Step>)
    requires Orderly(rules.policy.zone)
    requires Accepted(rules, d) && rules.candidateOf(d.payloadHex).Some?
    requires CutoffIsLate(rules.policy.zone, rules.policy.target, now, rules.policy.retainWeeks)
    requires LocalDay(rules.policy.zone, d.observedAt) ==
             OldestDay(rules.policy.zone, rules.policy.target, now, rules.policy.retainWeeks)
    ensures Follows(rules, states, steps) && |steps| == 8 && |states| == 9
    ensures forall s :: s in states ==> TimelyInDays(rules, s)
    ensures HasCheckin(states[7].db, WeekOf(rules, d), rules.candidateOf(d.payloadHex).value.username)
    ensures states[8].db.checkins == {} && states[8].db.links == {}
  {
    hide Orderly, LocalDay, CutoffIsLate, InWindow, Follows, HasCheckin, WeekOf, Latest;
    WindowExactly(rules.policy.zone, rules.policy.target, now, rules.policy.retainWeeks, d.observedAt);
    states, steps := LateHandlerLosesCheckin(rules, d, now, at);
  }

  /** For example, with no retained weeks: a message late on a Thursday and a prune on the Friday whose
      midnight is skipped. */
  lemma LostOverSkippedMidnight(rules: Rules, d: Delivery, now: int, at: int)
    returns (states: seq<Sys>, steps: seq<Step>)
    requires rules.policy == Policy(EastGap(), 4, 0)
    requires Accepted(rules, d) && rules.candidateOf(d.payloadHex).Some?
    requires LocalDay(EastGap(), d.observedAt) == 7 && LocalDay(EastGap(), now) == 8
    ensures Follows(rules, states, steps) && |steps| == 8 && |states| == 9
    ensures forall s :: s in states ==> TimelyInDays(rules, s)
    ensures HasCheckin(states[7].db, WeekOf(rules, d), rules.candidateOf(d.payloadHex).value.username)
    ensures states[8].db.checkins == {}
  {
    hide *;
    FridayIsLate(now);
    states, steps := DayBoundIsNotEnough(rules, d, now, at);
  }

  // ----- one message, start to finish

  datatype Attempt = Attempt(ok: bool, at: int)

  /** A handler run without interruption; it stops early where the script does. */
  function Settle(rules: Rules, db: Db, h: Handler, script: seq<Attempt>): (r: (Db, Handler))
    decreases |script|
  {
    if script == [] || !InFlight(h) then
      (db, h)
    else
      Settle(rules, AdvanceDb(rules, db, h, script[0].ok, script[0].at),
             h.(pc := AdvancePc(rules, db, h, script[0].ok, script[0].at)), script[1..])
  }

  /** Delivering a packet that is already stored changes no raw row, link or check-in, whatever fails. */
  lemma {:induction false} RedeliveryChangesNothing(rules: Rules, db: Db, h: Handler, script: seq<Attempt>)
    requires HasRaw(db, h.d.hash)
    requires h.pc == AtRaw || h.pc == AtObservation(false) || h.pc == Finished(false)
    ensures var after := Settle(rules, db, h, script).0;
            after.raw == db.raw && after.links == db.links && after.checkins == db.checkins
    decreases |script|
  {
    if script != [] && InFlight(h) {
      var db' := AdvanceDb(rules, db, h, script[0].ok, script[0].at);
      assert db'.raw == db.raw;
      assert HasRaw(db', h.d.hash);
      RedeliveryChangesNothing(rules, db', h.(pc := AdvancePc(rules, db, h, script[0].ok, script[0].at)), script[1..]);
    }
  }

  lemma HandleKeepsTimely(rules: Rules, s: Sys, id: nat, ok: bool, at: int)
    requires Timely(rules, s) && Enabled(rules, s, Handle(id, ok, at))
    ensures Timely(rules, Apply(rules, s, Handle(id, ok, at)))
  {
  }

  lemma SettleStep(rules: Rules, s: Sys, id: nat, script: seq<Attempt>)
    requires id in s.handlers && script != [] && InFlight(s.handlers[id])
    ensures Enabled(rules, s, Handle(id, script[0].ok, script[0].at))
    ensures var s' := Apply(rules, s, Handle(id, script[0].ok, script[0].at));
            && id in s'.handlers
            && Settle(rules, s.db, s.handlers[id], script) == Settle(rules, s'.db, s'.handlers[id], script[1..])
  {
  }

  lemma SettleStops(rules: Rules, db: Db, h: Handler, script: seq<Attempt>)
    requires script == [] || !InFlight(h)
    ensures Settle(rules, db, h, script) == (db, h)
  {
  }

  /** A handler run on its own is a stretch of a run of the whole system: any run can go on with it,
      so what holds of every run holds of it. */
  lemma {:induction false} SettleIsARun(rules: Rules, states: seq<Sys>, steps: seq<Step>, id: nat, script: seq<Attempt>)
    returns (states': seq<Sys>, steps': seq<Step>)
    requires Run(rules, states, steps) && |states| == |steps| + 1
    requires id in states[|steps|].handlers && Timely(rules, states[|steps|])
    ensures Run(rules, states', steps') && states <= states' && steps <= steps' && |states'| == |steps'| + 1
    ensures var s, s' := states[|steps|], states'[|steps'|];
            id in s'.handlers && Settle(rules, s.db, s.handlers[id], script) == (s'.db, s'.handlers[id])
    decreases |script|
  {
    hide *;
    var s := states[|steps|];
    if script == [] || !InFlight(s.handlers[id]) {
      SettleStops(rules, s.db, s.handlers[id], script);
      states', steps' := states, steps;
    } else {
      var step := Handle(id, script[0].ok, script[0].at);
      SettleStep(rules, s, id, script);
      HandleKeepsTimely(rules, s, id, script[0].ok, script[0].at);
      states', steps' := Extend(rules, states, steps, step);
      RunShape(rules, states', steps');
      states', steps' := SettleIsARun(rules, states', steps', id, script[1..]);
    }
  }

  /** Keys, foreign keys and links of check-ins hold, and no check-in or link has gone. */
  ghost predicate Kept(before: Db, after: Db) {
    && WellFormed(after) && CheckinsLinked(after)
    && before.checkins <= after.checkins && before.links <= after.links
  }

  /** A handler leaves a store in order in order, however far it gets. */
  lemma {:induction false} SettleKeepsStore(rules: Rules, db: Db, h: Handler, script: seq<Attempt>)
    requires WellFormed(db) && CheckinsLinked(db) && HandlerOk(rules, db, h)
    ensures Kept(db, Settle(rules, db, h, script).0)
    decreases |script|
  {
    hide WellFormed, CheckinsLinked, HandlerOk, AdvanceDb, AdvancePc;
    if script != [] && InFlight(h) {
      var ok, at := script[0].ok, script[0].at;
      AdvanceGrows(rules, db, h, ok, at);
      AdvanceKeepsHandler(rules, db, h, ok, at);
      AdvanceKeepsLinked(rules, db, h, ok, at);
      SettleKeepsStore(rules, AdvanceDb(rules, db, h, ok, at), h.(pc := AdvancePc(rules, db, h, ok, at)), script[1..]);
    }
  }

  // ----- what one message leaves behind

  predicate Succeeded(script: seq<Attempt>, k: nat) {
    k < |script| && script[k].ok
  }

  lemma SettleNext(rules: Rules, db: Db, h: Handler, script: seq<Attempt>)
    requires InFlight(h) && Settle(rules, db, h, script).1.pc.Finished?
    ensures script != []
    ensures Settle(rules, db, h, script) ==
            Settle(rules, AdvanceDb(rules, db, h, script[0].ok, script[0].at),
                   h.(pc := AdvancePc(rules, db, h, script[0].ok, script[0].at)), script[1..])
  {
  }

  /** The last statement: the check-in is there afterwards exactly if the user already had one that
      week or the statement succeeded. */
  lemma CheckinOutcomes(rules: Rules, db: Db, d: Delivery, script: seq<Attempt>)
    requires rules.candidateOf(d.payloadHex).Some? && HasRaw(db, d.hash) && !HasCheckinPacket(db, d.hash)
    requires Settle(rules, db, Handler(d, AtCheckin), script).1.pc.Finished?
    ensures script != []
    ensures var after := Settle(rules, db, Handler(d, AtCheckin), script).0;
            var week, user := WeekOf(rules, d), rules.candidateOf(d.payloadHex).value.username;
            && after == db.(checkins := after.checkins, nextCheckinId := after.nextCheckinId)
            && (HasCheckin(after, week, user) <==> HasCheckin(db, week, user) || Succeeded(script, 0))
            && (Succeeded(script, 0) && !HasCheckin(db, week, user) ==> exists c :: c in after.checkins && IsCheckinOf(rules, d, c))
  {
    var h := Handler(d, AtCheckin);
    SettleNext(rules, db, h, script);
    SettleStops(rules, AdvanceDb(rules, db, h, script[0].ok, script[0].at), Handler(d, Finished(true)), script[1..]);
    var week, user := WeekOf(rules, d), rules.candidateOf(d.payloadHex).value.username;
    var after := Settle(rules, db, h, script).0;
    hide Settle, WeekOf, LocalDay;
    assert after == AdvanceDb(rules, db, h, script[0].ok, script[0].at);
    if script[0].ok && !HasCheckin(db, week, user) {
      var c := CheckinOf(rules, d, script[0].at).(id := db.nextCheckinId);
      assert c in after.checkins && IsCheckinOf(rules, d, c);
    }
  }

  /** From the link on: a link that fails takes the check-in with it. */
  lemma LinkOutcomes(rules: Rules, db: Db, d: Delivery, script: seq<Attempt>)
    requires rules.candidateOf(d.payloadHex).Some? && HasRaw(db, d.hash) && !HasCheckinPacket(db, d.hash)
    requires !HasLink(db, WeekOf(rules, d), rules.candidateOf(d.payloadHex).value.username, d.hash)
    requires Settle(rules, db, Handler(d, AtLink), script).1.pc.Finished?
    ensures script != [] && (Succeeded(script, 0) ==> |script| >= 2)
    ensures var after := Settle(rules, db, Handler(d, AtLink), script).0;
            var week, user := WeekOf(rules, d), rules.candidateOf(d.payloadHex).value.username;
            && after.raw == db.raw && after.observations == db.observations
            && (HasLink(after, week, user, d.hash) <==> Succeeded(script, 0))
            && (HasCheckin(after, week, user) <==> HasCheckin(db, week, user) || (Succeeded(script, 0) && Succeeded(script, 1)))
            && (Succeeded(script, 0) && Succeeded(script, 1) && !HasCheckin(db, week, user) ==>
                  exists c :: c in after.checkins && IsCheckinOf(rules, d, c))
  {
    hide WeekOf, IsCheckinOf, LocalDay;
    var h := Handler(d, AtLink);
    SettleNext(rules, db, h, script);
    var db' := AdvanceDb(rules, db, h, script[0].ok, script[0].at);
    LinkStored(rules, db, d, script[0].ok, script[0].at);
    hide Settle;
    if script[0].ok {
      CheckinOutcomes(rules, db', d, script[1..]);
    } else {
      SettleStops(rules, db', Handler(d, Finished(true)), script[1..]);
    }
  }

  lemma LinkStored(rules: Rules, db: Db, d: Delivery, ok: bool, at: int)
    requires rules.candidateOf(d.payloadHex).Some? && HasRaw(db, d.hash)
    requires !HasLink(db, WeekOf(rules, d), rules.candidateOf(d.payloadHex).value.username, d.hash)
    ensures var after := AdvanceDb(rules, db, Handler(d, AtLink), ok, at);
            && after == db.(links := after.links)
            && (HasLink(after, WeekOf(rules, d), rules.candidateOf(d.payloadHex).value.username, d.hash) <==> ok)
            && AdvancePc(rules, db, Handler(d, AtLink), ok, at) == (if ok then AtCheckin else Finished(true))
  {
    hide WeekOf;
    if ok {
      assert LinkOf(rules, d, at) in AdvanceDb(rules, db, Handler(d, AtLink), ok, at).links;
    }
  }

  lemma ObservationStatement(rules: Rules, db: Db, d: Delivery, ok: bool, at: int)
    requires rules.candidateOf(d.payloadHex).Some? && HasRaw(db, d.hash) && !HasObservation(db, d.hash, d.observer)
    ensures var after := AdvanceDb(rules, db, Handler(d, AtObservation(true)), ok, at);
            && after == db.(observations := after.observations)
            && (HasObservation(after, d.hash, d.observer) <==> ok)
            && AdvancePc(rules, db, Handler(d, AtObservation(true)), ok, at) == AtLink
  {
    if ok {
      assert ObservationOf(d) in AdvanceDb(rules, db, Handler(d, AtObservation(true)), ok, at).observations;
    }
  }

  lemma RawStatement(rules: Rules, db: Db, d: Delivery, ok: bool, at: int)
    requires !HasRaw(db, d.hash)
    ensures var after := AdvanceDb(rules, db, Handler(d, AtRaw), ok, at);
            && after == db.(raw := after.raw, nextRawId := after.nextRawId)
            && (HasRaw(after, d.hash) <==> ok)
            && AdvancePc(rules, db, Handler(d, AtRaw), ok, at) == (if ok then AtObservation(true) else Finished(false))
  {
    if ok {
      assert RawPacket(db.nextRawId, d.hash, d.iata, d.payloadHex, d.observedAt) in AdvanceDb(rules, db, Handler(d, AtRaw), ok, at).raw;
    }
  }

  lemma NewHashHasNothing(db: Db, hash: string)
    requires WellFormed(db) && !HasRaw(db, hash)
    ensures !HasCheckinPacket(db, hash)
    ensures forall observer :: !HasObservation(db, hash, observer)
    ensures forall week, user :: !HasLink(db, week, user, hash)
  {
  }

  /** What a message with a new packet that carries a check-in leaves in the store, statement by
      statement: a failed raw insert stops everything, a failed observation nothing else, a failed
      link the check-in. */
  lemma MessageOutcomes(rules: Rules, db: Db, d: Delivery, script: seq<Attempt>)
    requires WellFormed(db) && !HasRaw(db, d.hash) && rules.candidateOf(d.payloadHex).Some?
    requires Settle(rules, db, Handler(d, AtRaw), script).1.pc.Finished?
    ensures script != [] && (Succeeded(script, 0) ==> |script| >= 3 && (Succeeded(script, 2) ==> |script| >= 4))
    ensures var after := Settle(rules, db, Handler(d, AtRaw), script).0;
            var week, user := WeekOf(rules, d), rules.candidateOf(d.payloadHex).value.username;
            && (HasRaw(after, d.hash) <==> Succeeded(script, 0))
            && (HasObservation(after, d.hash, d.observer) <==> Succeeded(script, 0) && Succeeded(script, 1))
            && (HasLink(after, week, user, d.hash) <==> Succeeded(script, 0) && Succeeded(script, 2))
            && (HasCheckin(after, week, user) <==>
                  HasCheckin(db, week, user) || (Succeeded(script, 0) && Succeeded(script, 2) && Succeeded(script, 3)))
            && (Succeeded(script, 0) && Succeeded(script, 2) && Succeeded(script, 3) && !HasCheckin(db, week, user) ==>
                  exists c :: c in after.checkins && IsCheckinOf(rules, d, c))
  {
    hide WellFormed, Settle, AdvanceDb, AdvancePc, WeekOf, IsCheckinOf;
    NewHashHasNothing(db, d.hash);
    assert !HasObservation(db, d.hash, d.observer);
    assert !HasLink(db, WeekOf(rules, d), rules.candidateOf(d.payloadHex).value.username, d.hash);
    var h := Handler(d, AtRaw);
    SettleNext(rules, db, h, script);
    RawStatement(rules, db, d, script[0].ok, script[0].at);
    var db1 := AdvanceDb(rules, db, h, script[0].ok, script[0].at);
    var rest := script[1..];
    if !script[0].ok {
      SettleStops(rules, db1, Handler(d, Finished(false)), rest);
    } else {
      var h1 := Handler(d, AtObservation(true));
      SettleNext(rules, db1, h1, rest);
      ObservationStatement(rules, db1, d, rest[0].ok, rest[0].at);
      LinkOutcomes(rules, AdvanceDb(rules, db1, h1, rest[0].ok, rest[0].at), d, rest[1..]);
      ShiftedScript(script);
    }
  }

  /** A new packet that carries no check-in leaves its row and its observation, and nothing else. */
  lemma OtherOutcomes(rules: Rules, db: Db, d: Delivery, script: seq<Attempt>)
    requires WellFormed(db) && !HasRaw(db, d.hash) && rules.candidateOf(d.payloadHex).None?
    requires Settle(rules, db, Handler(d, AtRaw), script).1.pc.Finished?
    ensures script != [] && (Succeeded(script, 0) ==> |script| >= 2)
    ensures var after := Settle(rules, db, Handler(d, AtRaw), script).0;
            && (HasRaw(after, d.hash) <==> Succeeded(script, 0))
            && (HasObservation(after, d.hash, d.observer) <==> Succeeded(script, 0) && Succeeded(script, 1))
            && after.links == db.links && after.checkins == db.checkins
  {
    hide WellFormed, Settle, WeekOf;
    NewHashHasNothing(db, d.hash);
    assert !HasObservation(db, d.hash, d.observer);
    var h := Handler(d, AtRaw);
    SettleNext(rules, db, h, script);
    RawStatement(rules, db, d, script[0].ok, script[0].at);
    var db1 := AdvanceDb(rules, db, h, script[0].ok, script[0].at);
    var rest := script[1..];
    if !script[0].ok {
      SettleStops(rules, db1, Handler(d, Finished(false)), rest);
    } else {
      var h1 := Handler(d, AtObservation(true));
      SettleNext(rules, db1, h1, rest);
      var db2 := AdvanceDb(rules, db1, h1, rest[0].ok, rest[0].at);
      SettleStops(rules, db2, Handler(d, Finished(true)), rest[1..]);
      if rest[0].ok {
        assert ObservationOf(d) in db2.observations;
      }
    }
  }

  lemma ShiftedScript(script: seq<Attempt>)
    requires |script| >= 2
    ensures Succeeded(script, 1) == Succeeded(script[1..], 0)
    ensures Succeeded(script, 2) == Succeeded(script[1..][1..], 0) && Succeeded(script, 3) == Succeeded(script[1..][1..], 1)
  {
  }
}
