/** A packet filed under its old week: why a restore must not run beside a prune. */
module Misfiling {
  import opened Calendar
  import opened Tables
  import opened Views
  import opened Retention
  import opened Protocol
  import opened Lateness
  import opened Provenance

  /** A system whose store has raw rows and links only. */
  function Stage(raw: seq<RawPacket>, next: nat, links: set<Link>, handlers: map<nat, Handler>, pruner: Pruner,
                 restoring: seq<RawPacket>, missed: set<string>): Sys
  {
    Sys(Db(raw, {}, {}, links, next, 1), handlers, pruner, restoring, missed)
  }

  /** Where the story stands after its first four steps, and after its first eight. */
  function Read(d: Delivery): Sys {
    Stage([Row(1, d)], 2, {}, map[0 := Handler(d, Finished(true))], Idle, [Row(1, d)], {d.hash})
  }

  function Forgotten(d: Delivery): Sys {
    Stage([], 2, {}, map[0 := Handler(d, Finished(true))], Idle, [Row(1, d)], {d.hash})
  }

  /** Its handler dies after its first statement, and a restore reads the row. */
  lemma HandlerDies(rules: Rules, d: Delivery)
    ensures Enabled(rules, RowStored(d), Crash(0)) && Apply(rules, RowStored(d), Crash(0)) == Read(d).(restoring := [])
    ensures Enabled(rules, Read(d).(restoring := []), StartRestore([Row(1, d)]))
    ensures Apply(rules, Read(d).(restoring := []), StartRestore([Row(1, d)])) == Read(d)
  {
  }

  lemma NoPruneIsTimely(rules: Rules, s: Sys)
    requires s.pruner.Idle?
    ensures Timely(rules, s)
  {
  }

  /** The packet arrives, is stored, and its handler dies; a restore reads it. */
  lemma PacketIsStored(rules: Rules, d: Delivery, at: int) returns (states: seq<Sys>, steps: seq<Step>)
    requires Accepted(rules, d)
    ensures Run(rules, states, steps) && |steps| == 4 && states[0] == START
    ensures |states| == 5 && states[4] == Read(d)
  {
    NoPruneIsTimely(rules, START);
    NoPruneIsTimely(rules, Arrived(d));
    NoPruneIsTimely(rules, RowStored(d));
    NoPruneIsTimely(rules, Read(d).(restoring := []));
    FirstSteps(rules, d, at);
    HandlerDies(rules, d);
    EmptyStoreHasProvenance(rules);
    StartOfRun(rules, START);
    hide *;
    states, steps := [START], [];
    states, steps := Extend(rules, states, steps, Deliver(0, d));
    states, steps := Extend(rules, states, steps, Handle(0, true, at));
    states, steps := Extend(rules, states, steps, Crash(0));
    states, steps := Extend(rules, states, steps, StartRestore([Row(1, d)]));
    RunShape(rules, states, steps);
  }

  /** A prune comes and deletes the row. */
  lemma PacketIsPruned(rules: Rules, d: Delivery, now: int, handlers: map<nat, Handler>, missed: set<string>)
    requires !InWindow(rules.policy.zone, rules.policy.target, now, rules.policy.retainWeeks, d.observedAt)
    ensures var r := Row(1, d);
            var scanning := Stage([r], 2, {}, handlers, Pruning(now, {}, 0, []), [r], missed);
            var deleting := Stage([r], 2, {}, handlers, Pruning(now, {}, 0, [1]), [r], missed);
            && Apply(rules, Stage([r], 2, {}, handlers, Idle, [r], missed), StartPrune(now)) == scanning
            && Apply(rules, scanning, Scan(SCAN_BATCH)) == deleting
            && Apply(rules, deleting, Delete(DELETE_CHUNK)) ==
               Stage([], 2, {}, handlers, Pruning(now, {}, 0, []), [r], missed)
  {
    var r := Row(1, d);
    assert ProtectedHashes(Stage([r], 2, {}, handlers, Idle, [r], missed).db) == {};
    assert Above([r], 0) == [r];
    assert Doomed(rules.policy, now, {}, [r]) == [1];
    assert Chunk([1], DELETE_CHUNK) == {1};
    assert RemoveIds([r], {1}) == [];
  }

  /** The packet arrives again, in another week, and the restore then links the row it had read. */
  lemma PacketIsBack(rules: Rules, d: Delivery, e: Delivery, at: int, handlers: map<nat, Handler>, missed: set<string>)
    requires Accepted(rules, d) && rules.candidateOf(d.payloadHex).Some? && d.hash == e.hash
    requires 1 !in handlers
    ensures var back := Stage([], 2, {}, handlers[1 := Handler(e, AtRaw)], Idle, [Row(1, d)], missed);
            var stored := Stage([Row(2, e)], 3, {}, handlers[1 := Handler(e, AtObservation(true))], Idle, [Row(1, d)], missed);
            && Apply(rules, back, Handle(1, true, at)) == stored
            && Apply(rules, stored, RestoreRow(true, at)) ==
               Stage([Row(2, e)], 3, {LinkOf(rules, d, at)}, stored.handlers, Idle, [], missed)
  {
    var stored := Stage([Row(2, e)], 3, {}, handlers[1 := Handler(e, AtObservation(true))], Idle, [Row(1, d)], missed);
    assert Row(2, e) in stored.db.raw && HasRaw(stored.db, d.hash);
  }

  lemma LinkIsMisfiled(rules: Rules, d: Delivery, e: Delivery, at: int, s: Sys)
    requires rules.candidateOf(d.payloadHex).Some?
    requires s.db.raw == [Row(2, e)] && s.db.links == {LinkOf(rules, d, at)}
    requires d.hash == e.hash && WeekOf(rules, d) != WeekOf(rules, e)
    ensures !LinksDue(rules, s.db)
    ensures !(LinkKeys(s.db) <= QualifyingKeys(rules, s.db.raw))
  {
    var l := LinkOf(rules, d, at);
    assert l in s.db.links && Row(2, e) in s.db.raw;
    assert (l.weekStart, l.username, l.hash) in LinkKeys(s.db);
  }

  lemma PruneRuns(rules: Rules, states: seq<Sys>, steps: seq<Step>, d: Delivery, now: int)
    returns (states': seq<Sys>, steps': seq<Step>)
    requires Run(rules, states, steps) && states[|steps|] == Read(d)
    requires !InWindow(rules.policy.zone, rules.policy.target, now, rules.policy.retainWeeks, d.observedAt)
    ensures Run(rules, states', steps') && |steps'| == |steps| + 4 && states'[|steps'|] == Forgotten(d)
    ensures states'[0] == states[0]
  {
    PacketIsPruned(rules, d, now, Read(d).handlers, {d.hash});
    hide InWindow, DeleteRaw, AfterScan, Run;
    states', steps' := Extend(rules, states, steps, StartPrune(now));
    states', steps' := Extend(rules, states', steps', Scan(SCAN_BATCH));
    states', steps' := Extend(rules, states', steps', Delete(DELETE_CHUNK));
    states', steps' := Extend(rules, states', steps', EndPrune);
  }

  lemma PacketReturns(rules: Rules, states: seq<Sys>, steps: seq<Step>, d: Delivery, e: Delivery, at: int)
    returns (states': seq<Sys>, steps': seq<Step>)
    requires Run(rules, states, steps) && states[|steps|] == Forgotten(d)
    requires Accepted(rules, d) && Accepted(rules, e) && d.hash == e.hash && rules.candidateOf(d.payloadHex).Some?
    ensures Run(rules, states', steps') && |steps'| == |steps| + 3 && states'[0] == states[0]
    ensures states'[|steps'|].db.raw == [Row(2, e)] && states'[|steps'|].db.links == {LinkOf(rules, d, at)}
  {
    PacketIsBack(rules, d, e, at, Forgotten(d).handlers, {d.hash});
    hide InWindow, WeekOf, Accepted, AdvanceDb, AdvancePc, Run;
    states', steps' := Extend(rules, states, steps, Deliver(1, e));
    states', steps' := Extend(rules, states', steps', Handle(1, true, at));
    states', steps' := Extend(rules, states', steps', RestoreRow(true, at));
  }

  /** A restore reads a row, a prune deletes it, the packet arrives again in another week, and the
      restore files it under the old week: the link says what no stored packet says. */
  lemma ReingestedPacketIsMisfiled(rules: Rules, d: Delivery, e: Delivery, now: int, at: int)
    returns (states: seq<Sys>, steps: seq<Step>)
    requires Accepted(rules, d) && Accepted(rules, e) && d.hash == e.hash
    requires rules.candidateOf(d.payloadHex).Some? && WeekOf(rules, d) != WeekOf(rules, e)
    requires !InWindow(rules.policy.zone, rules.policy.target, now, rules.policy.retainWeeks, d.observedAt)
    ensures Run(rules, states, steps) && states[0] == START && |steps| == 11
    ensures LinksDue(rules, states[0].db) && !LinksDue(rules, states[11].db)
    ensures !(LinkKeys(states[11].db) <= QualifyingKeys(rules, states[11].db.raw))
  {
    hide *;
    states, steps := PacketIsStored(rules, d, at);
    states, steps := PruneRuns(rules, states, steps, d, now);
    states, steps := PacketReturns(rules, states, steps, d, e, at);
    RunShape(rules, states, steps);
    LinkIsMisfiled(rules, d, e, at, states[11]);
    EmptyStoreHasProvenance(rules);
  }
}
