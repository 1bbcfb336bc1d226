/** Where rows come from: under a fixed configuration every check-in is due to the raw row it refers
    to, and every qualifying raw row has its link unless the link insert was missed.  Links are due to
    their rows too, unless a restore files a packet under the week it had before it was pruned.
    Rebuilding links from raw rows is exact for the same reason.
  */
module Provenance {
  import opened Calendar
  import opened Tables
  import opened Views
  import opened Protocol

  ghost predicate IngestedRow(rules: Rules, r: RawPacket) {
    && IsWeekday(rules.policy.zone, rules.policy.target, r.observedAt)
    && rules.decodes(r.payloadHex)
    && r.hash == rules.hashOf(r.payloadHex)
  }

  /** Row `r` carries a check-in of this user in this week. */
  predicate Due(rules: Rules, r: RawPacket, week: int, username: string) {
    && rules.candidateOf(r.payloadHex).Some?
    && rules.candidateOf(r.payloadHex).value.username == username
    && WeekDate(rules.policy.zone, rules.policy.target, r.observedAt) == week
  }

  ghost predicate RowsIngested(rules: Rules, s: Sys) {
    && (forall r :: r in s.db.raw ==> IngestedRow(rules, r))
    && (forall r :: r in s.restoring ==> IngestedRow(rules, r))
  }

  ghost predicate LinksDue(rules: Rules, db: Db) {
    forall l, r :: l in db.links && r in db.raw && l.hash == r.hash ==> Due(rules, r, l.weekStart, l.username)
  }

  ghost predicate CheckinsDue(rules: Rules, db: Db) {
    forall c, r :: c in db.checkins && r in db.raw && c.hash == r.hash ==>
      Reports(rules, r, c)
  }

  /** The check-in says what its packet says: week, date, region, user, display name and message. */
  ghost predicate Reports(rules: Rules, r: RawPacket, c: Checkin) {
    && Due(rules, r, c.weekStart, c.username)
    && c.checkinDate == LocalDay(rules.policy.zone, r.observedAt)
    && SaysWhat(c, rules.candidateOf(r.payloadHex).value)
    && c.iata == r.iata
  }

  ghost predicate Pending(s: Sys, hash: string) {
    exists id :: id in s.handlers && OwesLink(s.handlers[id].pc) && s.handlers[id].d.hash == hash
  }

  ghost predicate Accounted(rules: Rules, s: Sys, r: RawPacket) {
    || rules.candidateOf(r.payloadHex).None?
    || r.hash in s.missed
    || Pending(s, r.hash)
    || HasLink(s.db, WeekDate(rules.policy.zone, rules.policy.target, r.observedAt),
               rules.candidateOf(r.payloadHex).value.username, r.hash)
  }

  /** Every row that carries a check-in has its link, will get it, or is on record as missed. */
  ghost predicate RowsAccounted(rules: Rules, s: Sys) {
    forall r :: r in s.db.raw ==> Accounted(rules, s, r)
  }

  ghost predicate Prov(rules: Rules, s: Sys) {
    && RowsIngested(rules, s)
    && CheckinsDue(rules, s.db)
    && RowsAccounted(rules, s)
  }

  lemma EmptyStoreHasProvenance(rules: Rules)
    ensures Init(START) && Prov(rules, START) && LinksDue(rules, START.db)
  {
  }

  lemma HandleKeepsDue(rules: Rules, s: Sys, id: nat, ok: bool, at: int)
    requires Inv(rules, s) && Prov(rules, s) && Enabled(rules, s, Handle(id, ok, at))
    ensures var s' := Apply(rules, s, Handle(id, ok, at));
            RowsIngested(rules, s') && CheckinsDue(rules, s'.db)
  {
    var s' := Apply(rules, s, Handle(id, ok, at));
    var h := s.handlers[id];
    AdvanceGrows(rules, s.db, h, ok, at);
    AdvanceNewRows(rules, s.db, h, ok, at);
    forall c, r | c in s'.db.checkins && r in s'.db.raw && c.hash == r.hash
      ensures Reports(rules, r, c)
    {
      if c in s.db.checkins {
        assert HasRaw(s.db, c.hash);
      } else {
        OwnRowIsTheRow(rules, s.db, h.d, r);
      }
    }
  }

  lemma HandleKeepsAccounts(rules: Rules, s: Sys, id: nat, ok: bool, at: int)
    requires Inv(rules, s) && Prov(rules, s) && Enabled(rules, s, Handle(id, ok, at))
    ensures RowsAccounted(rules, Apply(rules, s, Handle(id, ok, at)))
  {
    var s' := Apply(rules, s, Handle(id, ok, at));
    var h := s.handlers[id];
    AdvanceGrows(rules, s.db, h, ok, at);
    AdvanceNewRows(rules, s.db, h, ok, at);
    AdvanceKeepsHandler(rules, s.db, h, ok, at);
    forall r | r in s'.db.raw ensures Accounted(rules, s', r) {
      if r !in s.db.raw {
        assert OwesLink(s'.handlers[id].pc);
      } else if h.d.hash == r.hash && OwesLink(h.pc) {
        OwnRowIsTheRow(rules, s.db, h.d, r);
        assert s'.handlers[id].d == h.d;
      } else if Pending(s, r.hash) {
        var i :| i in s.handlers && OwesLink(s.handlers[i].pc) && s.handlers[i].d.hash == r.hash;
        assert s'.handlers[i] == s.handlers[i];
      }
    }
  }

  lemma CrashKeepsProv(rules: Rules, s: Sys, id: nat)
    requires Prov(rules, s) && Enabled(rules, s, Crash(id))
    ensures Prov(rules, Apply(rules, s, Crash(id)))
  {
    var s' := Apply(rules, s, Crash(id));
    forall r | r in s'.db.raw ensures Accounted(rules, s', r) {
      assert Accounted(rules, s, r);
      if Pending(s, r.hash) {
        var i :| i in s.handlers && OwesLink(s.handlers[i].pc) && s.handlers[i].d.hash == r.hash;
        assert i != id ==> s'.handlers[i] == s.handlers[i];
      }
    }
  }

  lemma DeliverKeepsProv(rules: Rules, s: Sys, id: nat, d: Delivery)
    requires Prov(rules, s) && Enabled(rules, s, Deliver(id, d))
    ensures Prov(rules, Apply(rules, s, Deliver(id, d)))
  {
    var s' := Apply(rules, s, Deliver(id, d));
    forall r | r in s'.db.raw ensures Accounted(rules, s', r) {
      assert Accounted(rules, s, r);
      if Pending(s, r.hash) {
        var i :| i in s.handlers && OwesLink(s.handlers[i].pc) && s.handlers[i].d.hash == r.hash;
        assert s'.handlers[i] == s.handlers[i];
      }
    }
  }

  lemma DeleteKeepsProv(rules: Rules, s: Sys, n: nat)
    requires Inv(rules, s) && Prov(rules, s) && Enabled(rules, s, Delete(n))
    ensures Prov(rules, Apply(rules, s, Delete(n)))
  {
    var s' := Apply(rules, s, Delete(n));
    forall r | r in s'.db.raw ensures Accounted(rules, s', r) {
      assert Accounted(rules, s, r);
      assert Pending(s, r.hash) ==> Pending(s', r.hash);
      SurvivorKeepsChildren(s.db, Chunk(s.pruner.pending, n), r);
    }
  }

  lemma SurvivorKeepsChildren(db: Db, ids: set<nat>, r: RawPacket)
    requires RawKeys(db) && r in DeleteRaw(db, ids).raw
    ensures forall l :: l in db.links && l.hash == r.hash ==> l in DeleteRaw(db, ids).links
  {
  }

  lemma RestoreKeepsProv(rules: Rules, s: Sys, ok: bool, at: int)
    requires Prov(rules, s) && Enabled(rules, s, RestoreRow(ok, at))
    ensures Prov(rules, Apply(rules, s, RestoreRow(ok, at)))
  {
    var s' := Apply(rules, s, RestoreRow(ok, at));
    forall r | r in s'.db.raw ensures Accounted(rules, s', r) {
      assert Accounted(rules, s, r);
      assert Pending(s, r.hash) ==> Pending(s', r.hash);
    }
  }

  lemma StepKeepsProv(rules: Rules, s: Sys, step: Step)
    requires Inv(rules, s) && Prov(rules, s) && Enabled(rules, s, step)
    ensures Prov(rules, Apply(rules, s, step))
  {
    match step
    case Deliver(id, d) => DeliverKeepsProv(rules, s, id, d);
    case Handle(id, ok, at) => HandleKeepsDue(rules, s, id, ok, at); HandleKeepsAccounts(rules, s, id, ok, at);
    case Crash(id) => CrashKeepsProv(rules, s, id);
    case Delete(n) => DeleteKeepsProv(rules, s, n);
    case RestoreRow(ok, at) => RestoreKeepsProv(rules, s, ok, at);
    case _ =>
      var s' := Apply(rules, s, step);
      assert forall h :: Pending(s, h) ==> Pending(s', h);
      assert forall r :: Accounted(rules, s, r) ==> Accounted(rules, s', r);
  }

  /** In every run, whatever fails: every raw row lies on the target weekday and decodes to its hash,
      every check-in says what its packet says, and every row has its link, will get it, or is on
      record as missed. */
  lemma {:induction false} ProvAlways(rules: Rules, states: seq<Sys>, steps: seq<Step>, i: nat)
    requires Run(rules, states, steps) && i < |states|
    requires Prov(rules, states[0])
    ensures Prov(rules, states[i])
  {
    hide *;
    if i > 0 {
      RunShape(rules, states, steps);
      RunFacts(rules, states, steps, i - 1);
      ProvAlways(rules, states, steps, i - 1);
      InvAlways(rules, states, steps, i - 1);
      StepKeepsProv(rules, states[i - 1], steps[i - 1]);
    }
  }

  // ----- links

  /** The packet a restore is about to link is not stored, or is stored with the link it was read for:
      it has not been pruned and ingested again in another week since. */
  ghost predicate SnapshotCurrent(rules: Rules, s: Sys, step: Step) {
    step.RestoreRow? && s.restoring != [] ==>
      forall r :: r in s.db.raw && r.hash == s.restoring[0].hash ==>
        RestoreLink(rules, r, 0) == RestoreLink(rules, s.restoring[0], 0)
  }

  lemma HandleKeepsLinksDue(rules: Rules, s: Sys, id: nat, ok: bool, at: int)
    requires Inv(rules, s) && LinksDue(rules, s.db) && Enabled(rules, s, Handle(id, ok, at))
    ensures LinksDue(rules, Apply(rules, s, Handle(id, ok, at)).db)
  {
    var s' := Apply(rules, s, Handle(id, ok, at));
    var h := s.handlers[id];
    AdvanceNewRows(rules, s.db, h, ok, at);
    forall l, r | l in s'.db.links && r in s'.db.raw && l.hash == r.hash
      ensures Due(rules, r, l.weekStart, l.username)
    {
      if l in s.db.links {
        assert HasRaw(s.db, l.hash);
      } else {
        OwnRowIsTheRow(rules, s.db, h.d, r);
      }
    }
  }

  /** A link stored by a restore is due to its row if and only if the snapshot is current. */
  lemma RestoredLinkIsDueIff(rules: Rules, s: Sys, at: int)
    requires RowsIngested(rules, s) && LinksDue(rules, s.db) && Enabled(rules, s, RestoreRow(true, at))
    requires var link := RestoreLink(rules, s.restoring[0], at);
             link.Some? && LinkOutcome(s.db, link.value) == Stored
    ensures LinksDue(rules, Apply(rules, s, RestoreRow(true, at)).db) <==> SnapshotCurrent(rules, s, RestoreRow(true, at))
  {
    var s' := Apply(rules, s, RestoreRow(true, at));
    var link := RestoreLink(rules, s.restoring[0], at).value;
    assert link in s'.db.links;
    forall r | r in s.db.raw && r.hash == link.hash
      ensures Due(rules, r, link.weekStart, link.username) <==>
              RestoreLink(rules, r, 0) == RestoreLink(rules, s.restoring[0], 0)
    {
      assert IngestedRow(rules, r);
    }
  }

  lemma StepKeepsLinksDue(rules: Rules, s: Sys, step: Step)
    requires Inv(rules, s) && RowsIngested(rules, s) && LinksDue(rules, s.db)
    requires Enabled(rules, s, step) && SnapshotCurrent(rules, s, step)
    ensures LinksDue(rules, Apply(rules, s, step).db)
  {
    match step
    case Handle(id, ok, at) => HandleKeepsLinksDue(rules, s, id, ok, at);
    case RestoreRow(ok, at) =>
      var link := RestoreLink(rules, s.restoring[0], at);
      if ok && link.Some? && LinkOutcome(s.db, link.value) == Stored {
        RestoredLinkIsDueIff(rules, s, at);
      }
    case _ =>
  }

  lemma ProvFacts(rules: Rules, s: Sys)
    requires Prov(rules, s)
    ensures RowsIngested(rules, s)
  {
  }

  /** Every link says what its packet says, as long as restores work on a current snapshot. */
  lemma {:induction false} LinksDueAlways(rules: Rules, states: seq<Sys>, steps: seq<Step>, i: nat)
    requires Run(rules, states, steps) && i < |states|
    requires Prov(rules, states[0]) && LinksDue(rules, states[0].db)
    requires forall k :: 0 <= k < |steps| && k < i ==> SnapshotCurrent(rules, states[k], steps[k])
    ensures LinksDue(rules, states[i].db)
  {
    hide *;
    if i > 0 {
      RunShape(rules, states, steps);
      RunFacts(rules, states, steps, i - 1);
      LinksDueAlways(rules, states, steps, i - 1);
      InvAlways(rules, states, steps, i - 1);
      ProvAlways(rules, states, steps, i - 1);
      ProvFacts(rules, states[i - 1]);
      StepKeepsLinksDue(rules, states[i - 1], steps[i - 1]);
    }
  }

  /** No chunk is deleted while a restore is under way. */
  ghost predicate Undisturbed(states: seq<Sys>, steps: seq<Step>) {
    forall k :: 0 <= k < |steps| && k < |states| && steps[k].Delete? ==> states[k].restoring == []
  }

  /** The rows a restore still has to go through are stored. */
  ghost predicate RestoringStored(s: Sys) {
    forall r :: r in s.restoring ==> r in s.db.raw
  }

  lemma StepKeepsRestoring(rules: Rules, s: Sys, step: Step)
    requires Inv(rules, s) && Enabled(rules, s, step) && RestoringStored(s)
    requires step.Delete? ==> s.restoring == []
    ensures RestoringStored(Apply(rules, s, step))
    ensures SnapshotCurrent(rules, s, step)
  {
    match step
    case Handle(id, ok, at) => AdvanceGrows(rules, s.db, s.handlers[id], ok, at);
    case RestoreRow(ok, at) => assert s.restoring[0] in s.restoring;
    case _ =>
  }

  lemma InitRestoring(s: Sys)
    requires Init(s)
    ensures RestoringStored(s)
  {
  }

  /** What an operator has to see to: that no prune deletes rows while a restore is under way. */
  lemma {:induction false} UndisturbedIsCurrent(rules: Rules, states: seq<Sys>, steps: seq<Step>, i: nat)
    requires Run(rules, states, steps) && i < |states| && Undisturbed(states, steps)
    ensures RestoringStored(states[i])
    ensures i < |steps| ==> SnapshotCurrent(rules, states[i], steps[i])
  {
    hide Run, Inv, Init, Apply, Enabled, SnapshotCurrent, RestoringStored;
    RunShape(rules, states, steps);
    if i == 0 {
      InitRestoring(states[0]);
    } else {
      UndisturbedIsCurrent(rules, states, steps, i - 1);
      RunFacts(rules, states, steps, i - 1);
      InvAlways(rules, states, steps, i - 1);
      StepKeepsRestoring(rules, states[i - 1], steps[i - 1]);
    }
    if i < |steps| {
      RunFacts(rules, states, steps, i);
      InvAlways(rules, states, steps, i);
      StepKeepsRestoring(rules, states[i], steps[i]);
    }
  }

  // ----- fresh check-ins are shown

  /** A check-in that a handler has just stored is shown in its week, unfiltered and to everyone who
      filters by the region its message came from. */
  lemma FreshCheckinIsShown(rules: Rules, db: Db, h: Handler, ok: bool, at: int, c: Checkin)
    requires WellFormed(db) && HandlerOk(rules, db, h)
    requires c in AdvanceDb(rules, db, h, ok, at).checkins && c !in db.checkins
    ensures var after := AdvanceDb(rules, db, h, ok, at);
            && ShownInWeek(after, {}, WeekOf(rules, h.d), c) && ShownInWeek(after, {h.d.iata}, WeekOf(rules, h.d), c)
            && c in SinceView(after, {h.d.iata}, LocalDay(rules.policy.zone, h.d.observedAt))
  {
    hide WeekOf, LocalDay;
    var after := AdvanceDb(rules, db, h, ok, at);
    AdvanceNewRows(rules, db, h, ok, at);
    AdvanceGrows(rules, db, h, ok, at);
    AdvanceKeepsHandler(rules, db, h, ok, at);
    assert IsCheckinOf(rules, h.d, c) && h.pc == AtCheckin;
    var l :| l in db.links && l.weekStart == WeekOf(rules, h.d) && l.username == c.username && l.hash == h.d.hash;
    var r :| r in db.raw && Records(r, h.d);
    assert HeardIn(after, c.weekStart, c.username, h.d.iata);
    assert h.d.iata in {h.d.iata};
    FilterSelectsRegions(after, {h.d.iata}, c.checkinDate, c);
    UnfilteredViews(after, c.weekStart, c.checkinDate, c);
  }

  // ----- rebuilding the links

  /** The links a restore makes from these rows. */
  function QualifyingKeys(rules: Rules, raw: seq<RawPacket>): set<(int, string, string)> {
    set r | r in raw && RestoreLink(rules, r, 0).Some? ::
      (RestoreLink(rules, r, 0).value.weekStart, RestoreLink(rules, r, 0).value.username, r.hash)
  }

  ghost predicate Quiet(s: Sys) {
    forall id :: id in s.handlers ==> !InFlight(s.handlers[id])
  }

  lemma LinksQualify(rules: Rules, db: Db)
    requires WellFormed(db)
    requires forall r :: r in db.raw ==> IngestedRow(rules, r)
    ensures LinkKeys(db) <= QualifyingKeys(rules, db.raw) <==> LinksDue(rules, db)
  {
    if LinkKeys(db) <= QualifyingKeys(rules, db.raw) {
      forall l, r | l in db.links && r in db.raw && l.hash == r.hash
        ensures Due(rules, r, l.weekStart, l.username)
      {
        assert (l.weekStart, l.username, l.hash) in LinkKeys(db);
      }
    }
  }

  lemma MissingIsMissed(rules: Rules, s: Sys, r: RawPacket)
    requires RowsAccounted(rules, s) && Quiet(s)
    requires r in s.db.raw && RestoreLink(rules, r, 0).Some?
    ensures var l := RestoreLink(rules, r, 0).value;
            (l.weekStart, l.username, l.hash) in LinkKeys(s.db) || r.hash in s.missed
  {
  }

  /** At the end of any history with no handler in flight, rebuilding from raw rows gives back every
      link there is exactly when each link is due to its row; what it adds is one link for each
      qualifying row whose link insert was missed. */
  lemma RebuildIsExact(rules: Rules, states: seq<Sys>, steps: seq<Step>)
    requires Run(rules, states, steps)
    requires Prov(rules, states[0])
    ensures var s := states[|steps|];
            && (LinkKeys(s.db) <= QualifyingKeys(rules, s.db.raw) <==> LinksDue(rules, s.db))
            && (Quiet(s) ==> forall key :: key in QualifyingKeys(rules, s.db.raw) - LinkKeys(s.db) ==> key.2 in s.missed)
            && (Quiet(s) && s.missed == {} ==>
                  (LinkKeys(s.db) == QualifyingKeys(rules, s.db.raw) <==> LinksDue(rules, s.db)))
  {
    var s := states[|steps|];
    ProvAlways(rules, states, steps, |steps|);
    InvAlways(rules, states, steps, |steps|);
    LinksQualify(rules, s.db);
    if Quiet(s) {
      forall r | r in s.db.raw && RestoreLink(rules, r, 0).Some? {
        MissingIsMissed(rules, s, r);
      }
    }
  }

  /** So it is, if no prune deleted rows while an earlier restore was under way. */
  lemma UndisturbedRebuild(rules: Rules, states: seq<Sys>, steps: seq<Step>)
    requires Run(rules, states, steps) && Undisturbed(states, steps)
    requires Prov(rules, states[0]) && LinksDue(rules, states[0].db)
    ensures LinksDue(rules, states[|steps|].db)
    ensures var s := states[|steps|];
            && LinkKeys(s.db) <= QualifyingKeys(rules, s.db.raw)
            && (Quiet(s) && s.missed == {} ==> LinkKeys(s.db) == QualifyingKeys(rules, s.db.raw))
  {
    hide *;
    RunShape(rules, states, steps);
    forall k | 0 <= k < |steps| ensures SnapshotCurrent(rules, states[k], steps[k]) {
      UndisturbedIsCurrent(rules, states, steps, k);
    }
    LinksDueAlways(rules, states, steps, |steps|);
    RebuildIsExact(rules, states, steps);
  }
}
