/** Which links a prune can take, and which it cannot.

    A handler's link is safe for good.  A restore can make a link for a row that waits to be deleted;
    exactly such links are at risk, until the prune ends.
  */
module LinkSafety {
  import opened Calendar
  import opened Tables
  import opened Retention
  import opened Protocol

  // ----- safe links stay

  lemma HandleKeepsSafe(rules: Rules, s: Sys, id: nat, ok: bool, at: int, l: Link)
    requires Inv(rules, s) && Enabled(rules, s, Handle(id, ok, at))
    requires LinkSafe(rules, s, l)
    ensures LinkSafe(rules, Apply(rules, s, Handle(id, ok, at)), l)
  {
    AdvanceGrows(rules, s.db, s.handlers[id], ok, at);
    AdvanceNewRows(rules, s.db, s.handlers[id], ok, at);
    assert HasRaw(s.db, l.hash);
  }

  lemma StepKeepsSafe(rules: Rules, s: Sys, step: Step, l: Link)
    requires Inv(rules, s) && Enabled(rules, s, step)
    requires LinkSafe(rules, s, l)
    ensures LinkSafe(rules, Apply(rules, s, step), l)
  {
    match step
    case Handle(id, ok, at) => HandleKeepsSafe(rules, s, id, ok, at, l);
    case Delete(n) => DeleteCascadesNothing(rules, s, n);
    case _ =>
  }

  /** A safe link is never lost, whatever is interleaved: handlers, prunes and restores. */
  lemma {:induction false} NoLinkLost(rules: Rules, states: seq<Sys>, steps: seq<Step>, i: nat, j: nat, l: Link)
    requires Run(rules, states, steps) && i <= j < |states|
    requires LinkSafe(rules, states[i], l)
    ensures LinkSafe(rules, states[j], l) && l in states[j].db.links
  {
    hide *;
    RunShape(rules, states, steps);
    if i < j {
      NoLinkLost(rules, states, steps, i, j - 1, l);
      RunFacts(rules, states, steps, j - 1);
      InvAlways(rules, states, steps, j - 1);
      StepKeepsSafe(rules, states[j - 1], steps[j - 1], l);
    }
    SafeIsStored(rules, states[j], l);
  }

  lemma SafeIsStored(rules: Rules, s: Sys, l: Link)
    requires LinkSafe(rules, s, l)
    ensures l in s.db.links
  {
  }

  // ----- where links come from

  /** The link a handler has just stored is safe. */
  lemma HandlerLinkIsSafe(rules: Rules, s: Sys, id: nat, ok: bool, at: int, l: Link)
    requires Inv(rules, s) && Timely(rules, s) && Enabled(rules, s, Handle(id, ok, at))
    requires l in Apply(rules, s, Handle(id, ok, at)).db.links && l !in s.db.links
    ensures LinkSafe(rules, Apply(rules, s, Handle(id, ok, at)), l)
  {
    var s' := Apply(rules, s, Handle(id, ok, at));
    var h := s.handlers[id];
    AdvanceNewRows(rules, s.db, h, ok, at);
    forall r | r in s'.db.raw && r.hash == l.hash ensures r in s.db.raw && Records(r, h.d) {
      OwnRowIsTheRow(rules, s.db, h.d, r);
    }
  }

  /** Links that handlers make are never lost, however many restores and prunes run beside them. */
  lemma HandlerLinkNeverLost(rules: Rules, states: seq<Sys>, steps: seq<Step>, i: nat, j: nat)
    requires Run(rules, states, steps) && i < j < |states| && steps[i].Handle?
    ensures states[i + 1].db.links - states[i].db.links <= states[j].db.links
  {
    hide *;
    RunShape(rules, states, steps);
    RunFacts(rules, states, steps, i);
    InvAlways(rules, states, steps, i);
    forall l | l in states[i + 1].db.links - states[i].db.links ensures l in states[j].db.links {
      HandlerLinkIsSafe(rules, states[i], steps[i].id, steps[i].ok, steps[i].at, l);
      NoLinkLost(rules, states, steps, i + 1, j, l);
    }
  }

  /** A link that a restore has just stored is safe if and only if no prune is under way or the row
      it was made for is retained by it. */
  lemma RestoredLinkSafeIff(rules: Rules, s: Sys, ok: bool, at: int, l: Link)
    requires Inv(rules, s) && Enabled(rules, s, RestoreRow(ok, at))
    requires l in Apply(rules, s, RestoreRow(ok, at)).db.links && l !in s.db.links
    ensures l.hash == s.restoring[0].hash
    ensures LinkSafe(rules, Apply(rules, s, RestoreRow(ok, at)), l) <==>
            || s.pruner.Idle?
            || exists r :: r in s.db.raw && r.hash == l.hash && Retain(rules.policy, s.pruner.now, s.pruner.protected, r)
  {
    var r :| r in s.db.raw && r.hash == l.hash;
  }

  /** Step `k` is a restore that stores `l` for a row which the prune under way does not retain. */
  ghost predicate Rash(rules: Rules, states: seq<Sys>, steps: seq<Step>, k: nat, l: Link)
    requires k < |steps| && k + 1 < |states|
  {
    && steps[k].RestoreRow?
    && l !in states[k].db.links && l in states[k + 1].db.links
    && states[k].pruner.Pruning?
    && forall r :: r in states[k].db.raw && r.hash == l.hash ==>
         !Retain(rules.policy, states[k].pruner.now, states[k].pruner.protected, r)
  }

  lemma NewLinkUnsafe(rules: Rules, s: Sys, step: Step, l: Link)
    requires Inv(rules, s) && Timely(rules, s) && Enabled(rules, s, step)
    requires l in Apply(rules, s, step).db.links && l !in s.db.links
    requires !LinkSafe(rules, Apply(rules, s, step), l)
    ensures step.RestoreRow? && s.pruner.Pruning?
    ensures forall r :: r in s.db.raw && r.hash == l.hash ==> !Retain(rules.policy, s.pruner.now, s.pruner.protected, r)
  {
    match step
    case Handle(id, ok, at) => HandlerLinkIsSafe(rules, s, id, ok, at, l);
    case RestoreRow(ok, at) => RestoredLinkSafeIff(rules, s, ok, at, l);
    case _ =>
  }

  lemma InitIsSafe(rules: Rules, s: Sys, l: Link)
    requires Init(s) && l in s.db.links
    ensures LinkSafe(rules, s, l)
  {
  }

  /** A link at risk was stored by a restore, during a prune, for a row that prune does not retain. */
  lemma {:induction false} UnsafeIsRash(rules: Rules, states: seq<Sys>, steps: seq<Step>, i: nat, l: Link)
    returns (k: nat)
    requires Run(rules, states, steps) && i < |states|
    requires l in states[i].db.links && !LinkSafe(rules, states[i], l)
    ensures k < i <= |steps| && |states| == |steps| + 1 && Rash(rules, states, steps, k, l)
  {
    hide *;
    RunShape(rules, states, steps);
    k := i;
    if i == 0 {
      InitIsSafe(rules, states[0], l);
      assert false;
    } else {
      RunFacts(rules, states, steps, i - 1);
      InvAlways(rules, states, steps, i - 1);
      if l in states[i - 1].db.links {
        if LinkSafe(rules, states[i - 1], l) {
          StepKeepsSafe(rules, states[i - 1], steps[i - 1], l);
        }
        k := UnsafeIsRash(rules, states, steps, i - 1, l);
      } else {
        NewLinkUnsafe(rules, states[i - 1], steps[i - 1], l);
        RashStep(rules, states, steps, i - 1, l);
        k := i - 1;
      }
    }
  }

  lemma RashStep(rules: Rules, states: seq<Sys>, steps: seq<Step>, k: nat, l: Link)
    requires k < |steps| && k + 1 < |states|
    requires steps[k].RestoreRow? && states[k].pruner.Pruning?
    requires l !in states[k].db.links && l in states[k + 1].db.links
    requires forall r :: r in states[k].db.raw && r.hash == l.hash ==>
               !Retain(rules.policy, states[k].pruner.now, states[k].pruner.protected, r)
    ensures Rash(rules, states, steps, k, l)
  {
  }

  /** Only such links are ever lost. */
  lemma LostLinkIsRash(rules: Rules, states: seq<Sys>, steps: seq<Step>, i: nat, j: nat, l: Link) returns (k: nat)
    requires Run(rules, states, steps) && i <= j < |states|
    requires l in states[i].db.links && l !in states[j].db.links
    ensures k < i <= |steps| && |states| == |steps| + 1 && Rash(rules, states, steps, k, l)
  {
    if LinkSafe(rules, states[i], l) {
      NoLinkLost(rules, states, steps, i, j, l);
    }
    k := UnsafeIsRash(rules, states, steps, i, l);
  }

  // ----- unsafe links can go

  /** Every row the scan has passed is retained. */
  ghost predicate Passed(rules: Rules, s: Sys) {
    s.pruner.Pruning? ==>
      && s.pruner.lastId < s.db.nextRawId
      && forall r :: r in s.db.raw && r.id <= s.pruner.lastId ==> Retain(rules.policy, s.pruner.now, s.pruner.protected, r)
  }

  /** A batch without rows to delete can be passed, and is then behind the scan. */
  lemma BatchPassed(rules: Rules, s: Sys, limit: nat)
    requires Inv(rules, s) && Passed(rules, s) && Enabled(rules, s, Scan(limit))
    requires var rows := Batch(s.db.raw, s.pruner.lastId, limit);
             rows != [] && Doomed(rules.policy, s.pruner.now, s.pruner.protected, rows) == []
    ensures var rows := Batch(s.db.raw, s.pruner.lastId, limit);
            && rows[|rows| - 1] in s.db.raw
            && |Above(s.db.raw, rows[|rows| - 1].id)| < |Above(s.db.raw, s.pruner.lastId)|
            && forall r :: r in s.db.raw && r.id <= rows[|rows| - 1].id ==>
                 Retain(rules.policy, s.pruner.now, s.pruner.protected, r)
  {
    hide WellFormed, HandlersOk, PendingDoomed, CheckinsRetained, CheckinsLinked, Retain, Batch, Above, Doomed, Ascending;
    var rows := Batch(s.db.raw, s.pruner.lastId, limit);
    AscendingRaw(s.db);
    assert WellFormed(s.db);
    BatchIsAbove(s.db.raw, s.pruner.lastId, limit);
    assert rows[|rows| - 1] in rows;
    forall r | r in s.db.raw && s.pruner.lastId < r.id <= rows[|rows| - 1].id
      ensures Retain(rules.policy, s.pruner.now, s.pruner.protected, r)
    {
      BatchSkipsNothing(s.db.raw, s.pruner.lastId, limit, r);
      assert r.id !in Doomed(rules.policy, s.pruner.now, s.pruner.protected, rows);
    }
    AdvanceShrinksAbove(s.db.raw, s.pruner.lastId, rows[|rows| - 1].id);
  }

  lemma BatchIsAbove(raw: seq<RawPacket>, after: int, limit: nat)
    ensures forall r :: r in Batch(raw, after, limit) ==> r in Above(raw, after)
  {
  }

  lemma AscendingRaw(db: Db)
    ensures WellFormed(db) ==> Ascending(db.raw) && forall r :: r in db.raw ==> r.id < db.nextRawId
  {
  }

  lemma StepKeepsPassed(rules: Rules, s: Sys, step: Step)
    requires Inv(rules, s) && Passed(rules, s) && Enabled(rules, s, step)
    ensures Passed(rules, Apply(rules, s, step))
  {
    match step
    case Handle(id, ok, at) =>
      AdvanceGrows(rules, s.db, s.handlers[id], ok, at);
      AdvanceNewRows(rules, s.db, s.handlers[id], ok, at);
    case Scan(limit) =>
      var rows := Batch(s.db.raw, s.pruner.lastId, limit);
      if rows != [] && Doomed(rules.policy, s.pruner.now, s.pruner.protected, rows) == [] {
        BatchPassed(rules, s, limit);
      }
    case _ =>
  }

  lemma {:induction false} PassedAlways(rules: Rules, states: seq<Sys>, steps: seq<Step>, i: nat)
    requires Run(rules, states, steps) && i < |states|
    ensures Passed(rules, states[i])
  {
    if i > 0 {
      hide *;
      RunShape(rules, states, steps);
      RunFacts(rules, states, steps, i - 1);
      PassedAlways(rules, states, steps, i - 1);
      InvAlways(rules, states, steps, i - 1);
      StepKeepsPassed(rules, states[i - 1], steps[i - 1]);
    }
  }

  lemma PrunerBefore(rules: Rules, s: Sys, step: Step)
    requires Enabled(rules, s, step) && Apply(rules, s, step).pruner.Pruning?
    ensures var after := Apply(rules, s, step).pruner;
            if s.pruner.Pruning? then after.now == s.pruner.now && after.protected == s.pruner.protected
            else step == StartPrune(after.now) && after.protected == ProtectedHashes(s.db)
  {
  }

  lemma InitIsIdle(s: Sys)
    requires Init(s)
    ensures s.pruner.Idle?
  {
  }

  /** Every prune under way was started by a step of the run, and works from the snapshot of that time. */
  lemma {:induction false} PruneBegan(rules: Rules, states: seq<Sys>, steps: seq<Step>, k: nat) returns (i: nat)
    requires Run(rules, states, steps) && k < |states| && states[k].pruner.Pruning?
    ensures i < k && i < |steps| && i < |states|
    ensures steps[i] == StartPrune(states[k].pruner.now) && states[k].pruner.protected == ProtectedHashes(states[i].db)
  {
    hide *;
    RunShape(rules, states, steps);
    i := k;
    var s := states[k];
    if k == 0 {
      InitIsIdle(s);
      assert false;
    } else {
      RunFacts(rules, states, steps, k - 1);
      PrunerBefore(rules, states[k - 1], steps[k - 1]);
      if states[k - 1].pruner.Pruning? {
        i := PruneBegan(rules, states, steps, k - 1);
      } else {
        i := k - 1;
      }
    }
  }

  lemma LastScan(rules: Rules, s: Sys, limit: nat)
    requires Passed(rules, s) && Enabled(rules, s, Scan(limit)) && Apply(rules, s, Scan(limit)).pruner.Idle?
    ensures forall r :: r in Apply(rules, s, Scan(limit)).db.raw ==>
              Retain(rules.policy, s.pruner.now, s.pruner.protected, r)
  {
    forall r | r in s.db.raw ensures r.id <= s.pruner.lastId {
      if s.pruner.lastId < r.id {
        BatchFindsSome(s.db.raw, s.pruner.lastId, limit, r);
      }
    }
  }

  /** A prune that ends by its own scan, whatever ran beside it, leaves only rows that its cutoff or
      the snapshot it started from retains. */
  lemma FinishedPruneLeavesRetained(rules: Rules, states: seq<Sys>, steps: seq<Step>, k: nat) returns (i: nat)
    requires Run(rules, states, steps) && k < |steps| && steps[k].Scan?
    requires k + 1 < |states| && states[k + 1].pruner.Idle?
    ensures i < k && steps[i].StartPrune?
    ensures forall r :: r in states[k + 1].db.raw ==>
              Retain(rules.policy, steps[i].now, ProtectedHashes(states[i].db), r)
  {
    RunFacts(rules, states, steps, k);
    PassedAlways(rules, states, steps, k);
    LastScan(rules, states[k], steps[k].limit);
    i := PruneBegan(rules, states, steps, k);
  }

  predicate PruneStep(step: Step) {
    step == Scan(SCAN_BATCH) || step == Delete(DELETE_CHUNK)
  }

  /** The run goes on with steps of the prune only. */
  ghost predicate PrunesOn(states: seq<Sys>, steps: seq<Step>, states': seq<Sys>, steps': seq<Step>) {
    states <= states' && steps <= steps' && forall k :: |steps| <= k < |steps'| ==> PruneStep(steps'[k])
  }

  lemma OneStep(rules: Rules, states: seq<Sys>, steps: seq<Step>, step: Step)
    returns (states': seq<Sys>, steps': seq<Step>)
    requires Run(rules, states, steps) && PruneStep(step)
    requires Timely(rules, states[|steps|]) && Enabled(rules, states[|steps|], step)
    ensures Run(rules, states', steps') && PrunesOn(states, steps, states', steps')
    ensures |states'| == |steps'| + 1 && states'[|steps'|] == Apply(rules, states[|steps|], step)
    ensures Timely(rules, states'[|steps'|])
  {
    RunShape(rules, states, steps);
    PruneStepIsTimely(rules, states[|steps|], step);
    hide Run, Timely, Enabled, Apply, PruneStep;
    states', steps' := Extend(rules, states, steps, step);
    RunShape(rules, states', steps');
  }

  lemma PruneStepIsTimely(rules: Rules, s: Sys, step: Step)
    requires Timely(rules, s) && PruneStep(step) && Enabled(rules, s, step)
    ensures Timely(rules, Apply(rules, s, step))
  {
  }

  lemma OnAndOn(states: seq<Sys>, steps: seq<Step>, states1: seq<Sys>, steps1: seq<Step>, states2: seq<Sys>, steps2: seq<Step>)
    requires PrunesOn(states, steps, states1, steps1) && PrunesOn(states1, steps1, states2, steps2)
    ensures PrunesOn(states, steps, states2, steps2)
  {
  }

  /** A state with the pending rows deleted. */
  function Flushed(s: Sys): Sys
    requires s.pruner.Pruning?
  {
    s.(db := DeleteRaw(s.db, IdSet(s.pruner.pending)), pruner := s.pruner.(pending := []))
  }

  lemma FlushChunk(rules: Rules, s: Sys)
    requires s.pruner.Pruning? && s.pruner.pending != []
    ensures var s' := Apply(rules, s, Delete(DELETE_CHUNK));
            s'.pruner.Pruning? && |s'.pruner.pending| < |s.pruner.pending| && Flushed(s') == Flushed(s)
  {
    var p := s.pruner.pending;
    DeleteRawTwice(s.db, Chunk(p, DELETE_CHUNK), IdSet(Remaining(p, DELETE_CHUNK)));
    assert p == (if DELETE_CHUNK < |p| then p[..DELETE_CHUNK] else p) + Remaining(p, DELETE_CHUNK);
    assert IdSet(p) == Chunk(p, DELETE_CHUNK) + IdSet(Remaining(p, DELETE_CHUNK));
  }

  lemma FlushNothing(s: Sys)
    requires s.pruner.Pruning? && s.pruner.pending == []
    ensures Flushed(s) == s
  {
    DeleteNothing(s.db);
    assert IdSet([]) == {};
  }

  lemma DeleteEnabled(rules: Rules, s: Sys)
    requires s.pruner.Pruning? && s.pruner.pending != []
    ensures Enabled(rules, s, Delete(DELETE_CHUNK)) && PruneStep(Delete(DELETE_CHUNK))
  {
  }

  lemma PrunesOnNothing(states: seq<Sys>, steps: seq<Step>)
    ensures PrunesOn(states, steps, states, steps)
  {
  }

  /** Left to itself the prune deletes everything that is pending. */
  lemma {:induction false} Flush(rules: Rules, states: seq<Sys>, steps: seq<Step>)
    returns (states': seq<Sys>, steps': seq<Step>)
    requires Run(rules, states, steps) && |states| == |steps| + 1
    requires Timely(rules, states[|steps|]) && states[|steps|].pruner.Pruning?
    ensures Run(rules, states', steps') && PrunesOn(states, steps, states', steps')
    ensures |states'| == |steps'| + 1 && states'[|steps'|] == Flushed(states[|steps|])
    ensures Timely(rules, states'[|steps'|])
    decreases |states[|steps|].pruner.pending|
  {
    hide *;
    var s := states[|steps|];
    if s.pruner.pending == [] {
      FlushNothing(s);
      PrunesOnNothing(states, steps);
      states', steps' := states, steps;
    } else {
      DeleteEnabled(rules, s);
      FlushChunk(rules, s);
      var states1, steps1 := OneStep(rules, states, steps, Delete(DELETE_CHUNK));
      states', steps' := Flush(rules, states1, steps1);
      OnAndOn(states, steps, states1, steps1, states', steps');
    }
  }

  /** A scan either moves past a retained batch or finds rows to delete, and comes closer to every
      row it has not reached. */
  lemma ScanFinds(rules: Rules, s: Sys, r: RawPacket)
    requires Inv(rules, s) && Passed(rules, s) && s.pruner.Pruning? && s.pruner.pending == []
    requires r in s.db.raw && !Retain(rules.policy, s.pruner.now, s.pruner.protected, r)
    ensures Enabled(rules, s, Scan(SCAN_BATCH)) && PruneStep(Scan(SCAN_BATCH))
    ensures var s' := Apply(rules, s, Scan(SCAN_BATCH));
            && s'.pruner.Pruning? && s'.db == s.db
            && s'.pruner.now == s.pruner.now && s'.pruner.protected == s.pruner.protected
            && |Above(Flushed(s').db.raw, s'.pruner.lastId)| < |Above(s.db.raw, s.pruner.lastId)|
  {
    hide Inv, Retain, Batch, Above, Doomed;
    var rows := Batch(s.db.raw, s.pruner.lastId, SCAN_BATCH);
    BatchIsAbove(s.db.raw, s.pruner.lastId, SCAN_BATCH);
    BatchFindsSome(s.db.raw, s.pruner.lastId, SCAN_BATCH, r);
    var doomed := Doomed(rules.policy, s.pruner.now, s.pruner.protected, rows);
    if doomed == [] {
      BatchPassed(rules, s, SCAN_BATCH);
      FlushNothing(Apply(rules, s, Scan(SCAN_BATCH)));
    } else {
      assert doomed[0] in doomed;
      assert doomed[0] in IdSet(doomed);
      DeletionShrinksAbove(s.db.raw, IdSet(doomed), s.pruner.lastId);
    }
  }

  lemma BatchFindsSome(raw: seq<RawPacket>, after: int, limit: nat, r: RawPacket)
    requires r in raw && after < r.id && limit > 0
    ensures Batch(raw, after, limit) != []
  {
    assert r in Above(raw, after);
  }

  /** After a flush the link is gone, or it and the row it refers to are as they were. */
  lemma StillThere(rules: Rules, s: Sys, l: Link, r: RawPacket)
    requires Inv(rules, s) && s.pruner.Pruning?
    requires r in s.db.raw && r.hash == l.hash && l in s.db.links
    ensures l in Flushed(s).db.links ==> r in Flushed(s).db.raw
  {
  }

  lemma {:induction false} PruneTakes(rules: Rules, states: seq<Sys>, steps: seq<Step>, l: Link, r: RawPacket)
    returns (states': seq<Sys>, steps': seq<Step>)
    requires Run(rules, states, steps) && |states| == |steps| + 1
    requires var s := states[|steps|];
             && Timely(rules, s) && s.pruner.Pruning? && s.pruner.pending == []
             && l in s.db.links && r in s.db.raw && r.hash == l.hash
             && !Retain(rules.policy, s.pruner.now, s.pruner.protected, r)
    ensures Run(rules, states', steps') && PrunesOn(states, steps, states', steps')
    ensures |states'| == |steps'| + 1 && l !in states'[|steps'|].db.links
    decreases |Above(states[|steps|].db.raw, states[|steps|].pruner.lastId)|
  {
    hide *;
    var s := states[|steps|];
    InvAlways(rules, states, steps, |steps|);
    PassedAlways(rules, states, steps, |steps|);
    ScanFinds(rules, s, r);
    var states1, steps1 := OneStep(rules, states, steps, Scan(SCAN_BATCH));
    InvAlways(rules, states1, steps1, |steps1|);
    StillThere(rules, states1[|steps1|], l, r);
    FlushedPruner(states1[|steps1|]);
    var states2, steps2 := Flush(rules, states1, steps1);
    OnAndOn(states, steps, states1, steps1, states2, steps2);
    if l !in states2[|steps2|].db.links {
      states', steps' := states2, steps2;
    } else {
      states', steps' := PruneTakes(rules, states2, steps2, l, r);
      OnAndOn(states, steps, states2, steps2, states', steps');
    }
  }

  lemma FlushedPruner(s: Sys)
    requires s.pruner.Pruning?
    ensures Flushed(s).pruner == s.pruner.(pending := [])
  {
  }

  lemma UnsafeMeans(rules: Rules, s: Sys, l: Link) returns (r: RawPacket)
    requires l in s.db.links && !LinkSafe(rules, s, l)
    ensures s.pruner.Pruning? && r in s.db.raw && r.hash == l.hash
    ensures !Retain(rules.policy, s.pruner.now, s.pruner.protected, r)
  {
    r :| r in s.db.raw && r.hash == l.hash && !Retain(rules.policy, s.pruner.now, s.pruner.protected, r);
  }

  /** Whatever led to it, a link that is not safe is deleted if the prune simply carries on. */
  lemma UnsafeLinkGoes(rules: Rules, states: seq<Sys>, steps: seq<Step>, l: Link)
    returns (states': seq<Sys>, steps': seq<Step>)
    requires Run(rules, states, steps) && |states| == |steps| + 1 && Timely(rules, states[|steps|])
    requires l in states[|steps|].db.links && !LinkSafe(rules, states[|steps|], l)
    ensures Run(rules, states', steps') && PrunesOn(states, steps, states', steps')
    ensures |states'| == |steps'| + 1 && l !in states'[|steps'|].db.links
  {
    hide *;
    var s := states[|steps|];
    var r := UnsafeMeans(rules, s, l);
    InvAlways(rules, states, steps, |steps|);
    StillThere(rules, s, l, r);
    FlushedPruner(s);
    var states1, steps1 := Flush(rules, states, steps);
    if l !in states1[|steps1|].db.links {
      states', steps' := states1, steps1;
    } else {
      states', steps' := PruneTakes(rules, states1, steps1, l, r);
      OnAndOn(states, steps, states1, steps1, states', steps');
    }
  }

  /** Exactly the safe links survive every continuation of a run. */
  lemma LinkStaysIffSafe(rules: Rules, states: seq<Sys>, steps: seq<Step>, l: Link)
    requires Run(rules, states, steps) && Timely(rules, states[|steps|]) && l in states[|steps|].db.links
    ensures LinkSafe(rules, states[|steps|], l) <==>
            forall states': seq<Sys>, steps': seq<Step> :: Run(rules, states', steps') && states <= states' && steps <= steps' ==>
              l in states'[|steps'|].db.links
  {
    RunShape(rules, states, steps);
    if LinkSafe(rules, states[|steps|], l) {
      forall states': seq<Sys>, steps': seq<Step> | Run(rules, states', steps') && states <= states' && steps <= steps'
        ensures l in states'[|steps'|].db.links
      {
        NoLinkLost(rules, states', steps', |steps|, |steps'|, l);
      }
    } else {
      var states', steps' := UnsafeLinkGoes(rules, states, steps, l);
    }
  }

  // ----- a restore racing a prune

  /** One raw packet, read by the pruner and by the restore run, and perhaps linked since. */
  function Race(r: RawPacket, links: set<Link>, pruner: Pruner, restoring: seq<RawPacket>): Sys {
    Sys(Db([r], {}, {}, links, 2, 1), map[], pruner, restoring, {})
  }

  lemma RaceBegins(rules: Rules, r: RawPacket, now: int)
    requires r.id == 1
    requires !InWindow(rules.policy.zone, rules.policy.target, now, rules.policy.retainWeeks, r.observedAt)
    ensures Init(Race(r, {}, Idle, []))
    ensures Apply(rules, Race(r, {}, Idle, []), StartPrune(now)) == Race(r, {}, Pruning(now, {}, 0, []), [])
    ensures Enabled(rules, Race(r, {}, Pruning(now, {}, 0, []), []), Scan(SCAN_BATCH))
    ensures Apply(rules, Race(r, {}, Pruning(now, {}, 0, []), []), Scan(SCAN_BATCH)) ==
            Race(r, {}, Pruning(now, {}, 0, [1]), [])
  {
    var s := Race(r, {}, Pruning(now, {}, 0, []), []);
    assert ProtectedHashes(Race(r, {}, Idle, []).db) == {};
    RaceScan(rules, s, r);
  }

  lemma RaceEnds(rules: Rules, r: RawPacket, now: int, at: int)
    requires r.id == 1 && RestoreLink(rules, r, at).Some?
    ensures var waiting := Pruning(now, {}, 0, [1]);
            var linked := Race(r, {RestoreLink(rules, r, at).value}, waiting, []);
            && Enabled(rules, Race(r, {}, waiting, []), StartRestore([r]))
            && Apply(rules, Race(r, {}, waiting, []), StartRestore([r])) == Race(r, {}, waiting, [r])
            && Enabled(rules, Race(r, {}, waiting, [r]), RestoreRow(true, at))
            && Apply(rules, Race(r, {}, waiting, [r]), RestoreRow(true, at)) == linked
            && Enabled(rules, linked, Delete(DELETE_CHUNK))
            && Apply(rules, linked, Delete(DELETE_CHUNK)).db.links == {}
  {
    var db := Race(r, {}, Idle, []).db;
    assert r in db.raw && HasRaw(db, r.hash);
    assert Chunk([1], DELETE_CHUNK) == {1};
    assert r.hash in HashesOf(db.raw, {1});
  }

  lemma NobodyIsLate(rules: Rules, r: RawPacket, links: set<Link>, pruner: Pruner, restoring: seq<RawPacket>)
    ensures Timely(rules, Race(r, links, pruner, restoring))
  {
  }

  /** A restore run at the same time as a prune can make a link that the prune then deletes: links
      alone are not safe from a prune while rows they were rebuilt from wait to be deleted. */
  lemma RestoreRacesPrune(rules: Rules, r: RawPacket, now: int, at: int)
    returns (states: seq<Sys>, steps: seq<Step>)
    requires r.id == 1 && RestoreLink(rules, r, at).Some?
    requires !InWindow(rules.policy.zone, rules.policy.target, now, rules.policy.retainWeeks, r.observedAt)
    ensures Run(rules, states, steps) && |steps| == 5
    ensures states[4].db.links == {RestoreLink(rules, r, at).value}
    ensures states[5].db.links == {}
  {
    var waiting := Pruning(now, {}, 0, [1]);
    var link := RestoreLink(rules, r, at).value;
    RaceBegins(rules, r, now);
    RaceEnds(rules, r, now, at);
    NobodyIsLate(rules, r, {}, Idle, []);
    NobodyIsLate(rules, r, {}, Pruning(now, {}, 0, []), []);
    NobodyIsLate(rules, r, {}, waiting, []);
    NobodyIsLate(rules, r, {}, waiting, [r]);
    NobodyIsLate(rules, r, {link}, waiting, []);
    assert Enabled(rules, Race(r, {}, Idle, []), StartPrune(now));
    StartOfRun(rules, Race(r, {}, Idle, []));
    hide Run, Enabled, Apply, Timely, Init, RestoreLink, InWindow;
    states, steps := [Race(r, {}, Idle, [])], [];
    states, steps := Extend(rules, states, steps, StartPrune(now));
    states, steps := Extend(rules, states, steps, Scan(SCAN_BATCH));
    states, steps := Extend(rules, states, steps, StartRestore([r]));
    states, steps := Extend(rules, states, steps, RestoreRow(true, at));
    states, steps := Extend(rules, states, steps, Delete(DELETE_CHUNK));
  }

  lemma RaceScan(rules: Rules, s: Sys, r: RawPacket)
    requires s.db.raw == [r] && r.id == 1
    requires s.pruner.Pruning? && s.pruner.protected == {} && s.pruner.lastId == 0 && s.pruner.pending == []
    requires !InWindow(rules.policy.zone, rules.policy.target, s.pruner.now, rules.policy.retainWeeks, r.observedAt)
    ensures AfterScan(rules, s, SCAN_BATCH) == s.pruner.(pending := [1])
  {
    assert Above([r], 0) == [r];
    assert Doomed(rules.policy, s.pruner.now, {}, [r]) == [1];
  }
}
