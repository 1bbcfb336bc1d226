/** Order does not matter: once error-free, prune-free ingest has caught up, what readers see is a
    function of the set of deliveries alone, whatever the order, repetition or interleaving.
  */
module Convergence {
  import opened Tables
  import opened Views
  import opened Protocol
  import opened Provenance
  import opened Lateness

  /** Only messages arriving and handlers moving, with every statement succeeding. */
  ghost predicate CleanStep(step: Step) {
    step.Deliver? || (step.Handle? && step.ok)
  }

  ghost predicate CleanRun(rules: Rules, states: seq<Sys>, steps: seq<Step>) {
    && Run(rules, states, steps)
    && states[0] == START
    && forall k :: 0 <= k < |steps| ==> CleanStep(steps[k])
  }

  function Deliveries(s: Sys): set<Delivery> {
    set id | id in s.handlers :: s.handlers[id].d
  }

  /** All deliveries of one packet fall in one week. */
  ghost predicate OneWeekPerHash(rules: Rules, ds: set<Delivery>) {
    forall d, e :: d in ds && e in ds && d.hash == e.hash ==> WeekOf(rules, d) == WeekOf(rules, e)
  }

  /** Each delivery of the one set has one in the other of the same packet, by the same observer, in
      the same week; time and region may differ, as they do when a message is delivered again. */
  ghost predicate Covered(rules: Rules, ds: set<Delivery>, es: set<Delivery>) {
    forall d :: d in ds ==> exists e :: e in es && SameSighting(rules, d, e)
  }

  ghost predicate SameSighting(rules: Rules, d: Delivery, e: Delivery) {
    d.hash == e.hash && d.observer == e.observer && WeekOf(rules, d) == WeekOf(rules, e)
  }

  // ----- what the deliveries alone determine

  function ExpectedCheckins(rules: Rules, ds: set<Delivery>): set<(int, string)> {
    set d | d in ds && rules.candidateOf(d.payloadHex).Some? ::
      (WeekOf(rules, d), rules.candidateOf(d.payloadHex).value.username)
  }

  /** Everyone who saw any packet of this user's in this week. */
  function ExpectedObservers(rules: Rules, ds: set<Delivery>, week: int, username: string): set<string> {
    set d, e | d in ds && e in ds && d.hash == e.hash && rules.candidateOf(d.payloadHex).Some?
               && WeekOf(rules, d) == week && rules.candidateOf(d.payloadHex).value.username == username :: e.observer
  }

  // ----- invariant of clean runs

  predicate Inserted(pc: Pc) {
    pc == AtObservation(true) || pc == AtLink || pc == AtCheckin || pc == Finished(true)
  }

  ghost predicate Progress(rules: Rules, db: Db, h: Handler) {
    && (h.pc != AtRaw ==> HasRaw(db, h.d.hash))
    && (h.pc != AtRaw && !h.pc.AtObservation? ==> HasObservation(db, h.d.hash, h.d.observer))
    && (Inserted(h.pc) && (h.pc == AtCheckin || h.pc.Finished?) && rules.candidateOf(h.d.payloadHex).Some? ==>
          HasLink(db, WeekOf(rules, h.d), rules.candidateOf(h.d.payloadHex).value.username, h.d.hash))
    && (h.pc == Finished(true) && rules.candidateOf(h.d.payloadHex).Some? ==>
          HasCheckin(db, WeekOf(rules, h.d), rules.candidateOf(h.d.payloadHex).value.username))
  }

  ghost predicate Origin(s: Sys, hash: string) {
    exists id :: id in s.handlers && Inserted(s.handlers[id].pc) && s.handlers[id].d.hash == hash
  }

  ghost predicate ObservedBy(s: Sys, o: Observation) {
    exists id :: id in s.handlers && s.handlers[id].d.hash == o.hash && s.handlers[id].d.observer == o.observer
  }

  ghost predicate LinkedBy(rules: Rules, s: Sys, l: Link) {
    exists id :: id in s.handlers && IsLinkOf(rules, s.handlers[id].d, l)
  }

  ghost predicate CheckedInBy(rules: Rules, s: Sys, c: Checkin) {
    exists id :: id in s.handlers && IsCheckinOf(rules, s.handlers[id].d, c)
  }

  ghost predicate Traced(rules: Rules, s: Sys) {
    && (forall r :: r in s.db.raw ==> Origin(s, r.hash))
    && (forall o :: o in s.db.observations ==> ObservedBy(s, o))
    && (forall l :: l in s.db.links ==> LinkedBy(rules, s, l))
    && (forall c :: c in s.db.checkins ==> CheckedInBy(rules, s, c))
  }

  ghost predicate AllProgress(rules: Rules, s: Sys) {
    forall id :: id in s.handlers ==> Progress(rules, s.db, s.handlers[id])
  }

  lemma GrowthKeepsProgress(rules: Rules, before: Db, after: Db, h: Handler)
    requires Grows(before, after) && before.observations <= after.observations && before.checkins <= after.checkins
    requires Progress(rules, before, h)
    ensures Progress(rules, after, h)
  {
  }

  lemma AdvanceGrowsAll(rules: Rules, db: Db, h: Handler, ok: bool, at: int)
    ensures var after := AdvanceDb(rules, db, h, ok, at);
            && Grows(db, after) && db.observations <= after.observations && db.checkins <= after.checkins
  {
  }

  /** A check-in insert can be ignored only because the user already has a check-in that week. */
  lemma CheckinIsThere(rules: Rules, s: Sys, id: nat, at: int)
    requires HashDetermines(rules)
    requires Inv(rules, s) && Traced(rules, s) && OneWeekPerHash(rules, Deliveries(s))
    requires id in s.handlers && s.handlers[id].pc == AtCheckin
    ensures var h := s.handlers[id];
            HasCheckin(AdvanceDb(rules, s.db, h, true, at), WeekOf(rules, h.d), rules.candidateOf(h.d.payloadHex).value.username)
  {
    var h := s.handlers[id];
    var after := AdvanceDb(rules, s.db, h, true, at);
    var c := CheckinOf(rules, h.d, at);
    assert HasRaw(s.db, h.d.hash);
    if CheckinOutcome(s.db, c) == Stored {
      assert c.(id := s.db.nextCheckinId) in after.checkins;
    } else if HasCheckinPacket(s.db, c.hash) {
      var b :| b in s.db.checkins && b.hash == c.hash;
      var j :| j in s.handlers && IsCheckinOf(rules, s.handlers[j].d, b);
      assert s.handlers[j].d in Deliveries(s) && h.d in Deliveries(s);
      assert Accepted(rules, s.handlers[j].d) && Accepted(rules, h.d);
      assert b.weekStart == c.weekStart && b.username == c.username;
    }
  }

  lemma HandleKeepsProgress(rules: Rules, s: Sys, id: nat, at: int)
    requires HashDetermines(rules)
    requires Inv(rules, s) && Traced(rules, s) && AllProgress(rules, s) && OneWeekPerHash(rules, Deliveries(s))
    requires Enabled(rules, s, Handle(id, true, at))
    ensures AllProgress(rules, Apply(rules, s, Handle(id, true, at)))
  {
    var s' := Apply(rules, s, Handle(id, true, at));
    var h := s.handlers[id];
    AdvanceGrowsAll(rules, s.db, h, true, at);
    forall i | i in s'.handlers ensures Progress(rules, s'.db, s'.handlers[i]) {
      GrowthKeepsProgress(rules, s.db, s'.db, s.handlers[i]);
      if i == id {
        MoverProgresses(rules, s, id, at);
      }
    }
  }

  lemma MoverProgresses(rules: Rules, s: Sys, id: nat, at: int)
    requires HashDetermines(rules)
    requires Inv(rules, s) && Traced(rules, s) && AllProgress(rules, s) && OneWeekPerHash(rules, Deliveries(s))
    requires Enabled(rules, s, Handle(id, true, at))
    ensures var s' := Apply(rules, s, Handle(id, true, at)); Progress(rules, s'.db, s'.handlers[id])
  {
    hide WellFormed, PendingDoomed, CheckinsRetained, CheckinsLinked, Traced;
    var s' := Apply(rules, s, Handle(id, true, at));
    var h := s.handlers[id];
    AdvanceGrowsAll(rules, s.db, h, true, at);
    GrowthKeepsProgress(rules, s.db, s'.db, h);
    assert Progress(rules, s.db, h) && HandlerOk(rules, s.db, h);
    match h.pc
    case AtRaw => InsertRawWellFormed(s.db, h.d.hash, h.d.iata, h.d.payloadHex, h.d.observedAt);
    case AtObservation(_) => assert ObservationOf(h.d) in s'.db.observations || HasObservation(s.db, h.d.hash, h.d.observer);
    case AtLink => assert LinkOf(rules, h.d, at) in s'.db.links || LinkOutcome(s.db, LinkOf(rules, h.d, at)) == Ignored;
    case AtCheckin => CheckinIsThere(rules, s, id, at);
    case Finished(_) =>
  }

  lemma TracesSurvive(rules: Rules, s: Sys, s': Sys)
    requires forall id :: id in s.handlers ==>
               id in s'.handlers && s'.handlers[id].d == s.handlers[id].d
               && (Inserted(s.handlers[id].pc) ==> Inserted(s'.handlers[id].pc))
    ensures forall hash :: Origin(s, hash) ==> Origin(s', hash)
    ensures forall o :: ObservedBy(s, o) ==> ObservedBy(s', o)
    ensures forall l :: LinkedBy(rules, s, l) ==> LinkedBy(rules, s', l)
    ensures forall c :: CheckedInBy(rules, s, c) ==> CheckedInBy(rules, s', c)
  {
  }

  lemma HandleKeepsTraces(rules: Rules, s: Sys, id: nat, at: int)
    requires Inv(rules, s) && Traced(rules, s) && Enabled(rules, s, Handle(id, true, at))
    ensures Traced(rules, Apply(rules, s, Handle(id, true, at)))
  {
    hide WellFormed, PendingDoomed, CheckinsRetained, CheckinsLinked, OwnRow, HasLink, WeekOf;
    var s' := Apply(rules, s, Handle(id, true, at));
    var h := s.handlers[id];
    assert HandlerOk(rules, s.db, h);
    AdvanceNewRows(rules, s.db, h, true, at);
    TracesSurvive(rules, s, s');
    assert s'.handlers[id].d == h.d;
    forall r | r in s'.db.raw && r !in s.db.raw ensures Origin(s', r.hash) {
      assert s'.handlers[id].pc == AtObservation(true);
    }
    forall o | o in s'.db.observations && o !in s.db.observations ensures ObservedBy(s', o) {
      assert o == ObservationOf(s'.handlers[id].d);
    }
  }

  lemma StepKeepsClean(rules: Rules, s: Sys, step: Step)
    requires HashDetermines(rules)
    requires Inv(rules, s) && Traced(rules, s) && AllProgress(rules, s)
    requires Enabled(rules, s, step) && CleanStep(step)
    requires OneWeekPerHash(rules, Deliveries(s))
    ensures Traced(rules, Apply(rules, s, step)) && AllProgress(rules, Apply(rules, s, step))
  {
    match step
    case Deliver(_, _) => TracesSurvive(rules, s, Apply(rules, s, step));
    case Handle(id, _, at) => HandleKeepsTraces(rules, s, id, at); HandleKeepsProgress(rules, s, id, at);
  }

  lemma DeliveriesGrow(rules: Rules, s: Sys, step: Step)
    requires Enabled(rules, s, step)
    ensures Deliveries(s) <= Deliveries(Apply(rules, s, step))
  {
    var s' := Apply(rules, s, step);
    forall id | id in s.handlers ensures s.handlers[id].d in Deliveries(s') {
      assert id in s'.handlers && s'.handlers[id].d == s.handlers[id].d;
    }
  }

  lemma CleanRunFacts(rules: Rules, states: seq<Sys>, steps: seq<Step>)
    requires CleanRun(rules, states, steps)
    ensures Run(rules, states, steps) && states != [] && states[0] == START && |states| == |steps| + 1
    ensures forall i :: 0 <= i < |steps| ==> CleanStep(steps[i]) && Enabled(rules, states[i], steps[i])
    ensures forall i :: 0 <= i < |steps| ==> states[i + 1] == Apply(rules, states[i], steps[i])
  {
  }

  lemma StartIsClean(rules: Rules)
    ensures Traced(rules, START) && AllProgress(rules, START)
  {
  }

  lemma FewerDeliveries(rules: Rules, ds: set<Delivery>, es: set<Delivery>)
    requires ds <= es && OneWeekPerHash(rules, es)
    ensures OneWeekPerHash(rules, ds)
  {
  }

  lemma {:induction false} CleanAlways(rules: Rules, states: seq<Sys>, steps: seq<Step>, i: nat)
    requires HashDetermines(rules)
    requires CleanRun(rules, states, steps) && i < |states|
    requires OneWeekPerHash(rules, Deliveries(states[i]))
    ensures Traced(rules, states[i]) && AllProgress(rules, states[i])
  {
    hide *;
    CleanRunFacts(rules, states, steps);
    if i == 0 {
      StartIsClean(rules);
    } else {
      var s, step := states[i - 1], steps[i - 1];
      DeliveriesGrow(rules, s, step);
      FewerDeliveries(rules, Deliveries(s), Deliveries(states[i]));
      CleanAlways(rules, states, steps, i - 1);
      InvAlways(rules, states, steps, i - 1);
      StepKeepsClean(rules, s, step);
    }
  }

  ghost predicate AllAccepted(rules: Rules, ds: set<Delivery>) {
    forall d :: d in ds ==> Accepted(rules, d)
  }

  lemma DeliveriesAccepted(rules: Rules, s: Sys)
    requires Inv(rules, s)
    ensures AllAccepted(rules, Deliveries(s))
  {
    forall id | id in s.handlers ensures Accepted(rules, s.handlers[id].d) {
      assert HandlerOk(rules, s.db, s.handlers[id]);
    }
  }

  // ----- the result

  lemma CheckinsAsExpected(rules: Rules, s: Sys)
    requires HashDetermines(rules)
    requires Traced(rules, s) && AllProgress(rules, s) && Inv(rules, s)
    requires Quiet(s) && OneWeekPerHash(rules, Deliveries(s))
    ensures CheckinKeys(s.db) == ExpectedCheckins(rules, Deliveries(s))
  {
    hide Inv, HashDetermines, AllProgress, OneWeekPerHash, Quiet, WeekOf, HasLink, HasObservation;
    forall c | c in s.db.checkins
      ensures (c.weekStart, c.username) in ExpectedCheckins(rules, Deliveries(s))
    {
      var id :| id in s.handlers && IsCheckinOf(rules, s.handlers[id].d, c);
      assert s.handlers[id].d in Deliveries(s);
    }
    forall d | d in Deliveries(s) && rules.candidateOf(d.payloadHex).Some?
      ensures (WeekOf(rules, d), rules.candidateOf(d.payloadHex).value.username) in CheckinKeys(s.db)
    {
      var id := Inserter(rules, s, d);
      var c :| c in s.db.checkins && c.weekStart == WeekOf(rules, d) && c.username == rules.candidateOf(d.payloadHex).value.username;
    }
  }

  /** A message that has been handled left its packet and its observation, whoever stored them. */
  lemma Handled(rules: Rules, s: Sys, d: Delivery)
    requires Traced(rules, s) && AllProgress(rules, s)
    requires Quiet(s) && d in Deliveries(s)
    ensures Origin(s, d.hash) && HasObservation(s.db, d.hash, d.observer)
  {
    hide Accepted, WeekOf, LinkedBy, CheckedInBy, ObservedBy, Origin;
    var own :| own in s.handlers && s.handlers[own].d == d;
    assert Progress(rules, s.db, s.handlers[own]);
    var r :| r in s.db.raw && r.hash == d.hash;
  }

  /** The handler that stored the packet of `d` did for it what `d`'s own handler would have done. */
  lemma Inserter(rules: Rules, s: Sys, d: Delivery) returns (id: nat)
    requires HashDetermines(rules)
    requires Traced(rules, s) && AllProgress(rules, s) && Inv(rules, s)
    requires Quiet(s) && OneWeekPerHash(rules, Deliveries(s))
    requires d in Deliveries(s)
    ensures id in s.handlers && s.handlers[id].pc == Finished(true) && s.handlers[id].d.hash == d.hash
    ensures HasObservation(s.db, d.hash, d.observer)
    ensures rules.candidateOf(d.payloadHex).Some? ==>
              && HasLink(s.db, WeekOf(rules, d), rules.candidateOf(d.payloadHex).value.username, d.hash)
              && HasCheckin(s.db, WeekOf(rules, d), rules.candidateOf(d.payloadHex).value.username)
  {
    Handled(rules, s, d);
    DeliveriesAccepted(rules, s);
    hide Inv, Traced, WeekOf, HasLink, HasCheckin, HasObservation;
    id :| id in s.handlers && Inserted(s.handlers[id].pc) && s.handlers[id].d.hash == d.hash;
    var e := s.handlers[id].d;
    assert e in Deliveries(s);
    assert Progress(rules, s.db, s.handlers[id]);
    assert Accepted(rules, d) && Accepted(rules, e);
    assert rules.candidateOf(d.payloadHex) == rules.candidateOf(e.payloadHex);
  }

  lemma ObserversAsExpected(rules: Rules, s: Sys, week: int, username: string)
    requires HashDetermines(rules)
    requires Traced(rules, s) && AllProgress(rules, s) && Inv(rules, s)
    requires Quiet(s) && OneWeekPerHash(rules, Deliveries(s))
    ensures Observers(s.db, week, username) == ExpectedObservers(rules, Deliveries(s), week, username)
  {
    hide Inv, AllProgress, OneWeekPerHash, Quiet, WeekOf, HasCheckin;
    DeliveriesAccepted(rules, s);
    forall l, o | l in s.db.links && o in s.db.observations && l.weekStart == week && l.username == username && o.hash == l.hash
      ensures o.observer in ExpectedObservers(rules, Deliveries(s), week, username)
    {
      var i :| i in s.handlers && IsLinkOf(rules, s.handlers[i].d, l);
      var j :| j in s.handlers && s.handlers[j].d.hash == o.hash && s.handlers[j].d.observer == o.observer;
      assert s.handlers[i].d in Deliveries(s) && s.handlers[j].d in Deliveries(s);
    }
    forall d, e | d in Deliveries(s) && e in Deliveries(s) && d.hash == e.hash && rules.candidateOf(d.payloadHex).Some?
                  && WeekOf(rules, d) == week && rules.candidateOf(d.payloadHex).value.username == username
      ensures e.observer in Observers(s.db, week, username)
    {
      var i := Inserter(rules, s, d);
      var j := Inserter(rules, s, e);
      var l :| l in s.db.links && l.weekStart == week && l.username == username && l.hash == d.hash;
      var o :| o in s.db.observations && o.hash == e.hash && o.observer == e.observer;
    }
  }

  lemma CoveredFacts(rules: Rules, ds: set<Delivery>, es: set<Delivery>)
    requires HashDetermines(rules) && AllAccepted(rules, ds) && AllAccepted(rules, es)
    requires Covered(rules, ds, es)
    ensures ExpectedCheckins(rules, ds) <= ExpectedCheckins(rules, es)
    ensures OneWeekPerHash(rules, es) ==> OneWeekPerHash(rules, ds)
  {
    forall d | d in ds ensures exists e :: e in es && SameSighting(rules, d, e)
                                       && rules.candidateOf(e.payloadHex) == rules.candidateOf(d.payloadHex) {
      var e :| e in es && SameSighting(rules, d, e);
      assert Accepted(rules, d) && Accepted(rules, e);
    }
  }

  lemma CoveredObservers(rules: Rules, ds: set<Delivery>, es: set<Delivery>, week: int, username: string)
    requires HashDetermines(rules) && AllAccepted(rules, ds) && AllAccepted(rules, es)
    requires Covered(rules, ds, es)
    ensures ExpectedObservers(rules, ds, week, username) <= ExpectedObservers(rules, es, week, username)
  {
    forall d, f | d in ds && f in ds && d.hash == f.hash && rules.candidateOf(d.payloadHex).Some?
                  && WeekOf(rules, d) == week && rules.candidateOf(d.payloadHex).value.username == username
      ensures f.observer in ExpectedObservers(rules, es, week, username)
    {
      var e :| e in es && SameSighting(rules, d, e);
      var g :| g in es && SameSighting(rules, f, g);
      assert Accepted(rules, d) && Accepted(rules, e);
      assert rules.candidateOf(d.payloadHex) == rules.candidateOf(e.payloadHex);
    }
  }

  /** What a caught-up clean run ends with, as a function of its deliveries. */
  lemma EndsAsExpected(rules: Rules, states: seq<Sys>, steps: seq<Step>)
    requires HashDetermines(rules)
    requires CleanRun(rules, states, steps) && Quiet(states[|steps|])
    requires OneWeekPerHash(rules, Deliveries(states[|steps|]))
    ensures var s := states[|steps|];
            && AllAccepted(rules, Deliveries(s))
            && CheckinKeys(s.db) == ExpectedCheckins(rules, Deliveries(s))
            && forall week, username ::
                 Observers(s.db, week, username) == ExpectedObservers(rules, Deliveries(s), week, username)
  {
    hide *;
    CleanRunFacts(rules, states, steps);
    var s := states[|steps|];
    InvAlways(rules, states, steps, |steps|);
    CleanAlways(rules, states, steps, |steps|);
    DeliveriesAccepted(rules, s);
    CheckinsAsExpected(rules, s);
    forall week, username
      ensures Observers(s.db, week, username) == ExpectedObservers(rules, Deliveries(s), week, username)
    {
      ObserversAsExpected(rules, s, week, username);
    }
  }

  /** Two stores fed the same sightings, in any order, interleaving and multiplicity, end with the
      same check-ins, and each check-in with the same observers. */
  lemma Converge(rules: Rules, states: seq<Sys>, steps: seq<Step>, states': seq<Sys>, steps': seq<Step>)
    requires HashDetermines(rules)
    requires CleanRun(rules, states, steps) && CleanRun(rules, states', steps')
    requires Quiet(states[|steps|]) && Quiet(states'[|steps'|])
    requires Covered(rules, Deliveries(states[|steps|]), Deliveries(states'[|steps'|]))
    requires Covered(rules, Deliveries(states'[|steps'|]), Deliveries(states[|steps|]))
    requires OneWeekPerHash(rules, Deliveries(states[|steps|]))
    ensures CheckinKeys(states[|steps|].db) == CheckinKeys(states'[|steps'|].db)
    ensures CheckinKeys(states[|steps|].db) == ExpectedCheckins(rules, Deliveries(states[|steps|]))
    ensures forall week, username ::
              Observers(states[|steps|].db, week, username) == Observers(states'[|steps'|].db, week, username)
  {
    hide *;
    CleanRunFacts(rules, states, steps);
    CleanRunFacts(rules, states', steps');
    var ds, es := Deliveries(states[|steps|]), Deliveries(states'[|steps'|]);
    InvAlways(rules, states, steps, |steps|);
    InvAlways(rules, states', steps', |steps'|);
    DeliveriesAccepted(rules, states[|steps|]);
    DeliveriesAccepted(rules, states'[|steps'|]);
    CoveredFacts(rules, ds, es);
    CoveredFacts(rules, es, ds);
    EndsAsExpected(rules, states, steps);
    EndsAsExpected(rules, states', steps');
    forall week, username
      ensures Observers(states[|steps|].db, week, username) == Observers(states'[|steps'|].db, week, username)
    {
      CoveredObservers(rules, ds, es, week, username);
      CoveredObservers(rules, es, ds, week, username);
    }
  }

  // ----- the one-week assumption is needed

  function AllOk(at: int): seq<Attempt> {
    [Attempt(true, at), Attempt(true, at), Attempt(true, at), Attempt(true, at)]
  }

  /** The store after one message arrives at an empty store and nothing fails. */
  lemma FirstMessage(rules: Rules, d: Delivery, at: int)
    requires Accepted(rules, d) && rules.candidateOf(d.payloadHex).Some?
    ensures var db := Settle(rules, EMPTY, Handler(d, AtRaw), AllOk(at)).0;
            && HasRaw(db, d.hash)
            && CheckinKeys(db) == {(WeekOf(rules, d), rules.candidateOf(d.payloadHex).value.username)}
  {
    var row := RawPacket(1, d.hash, d.iata, d.payloadHex, d.observedAt);
    var c := CheckinOf(rules, d, at).(id := 1);
    var db1 := EMPTY.(raw := [row], nextRawId := 2);
    var db2 := db1.(observations := {ObservationOf(d)});
    var db3 := db2.(links := {LinkOf(rules, d, at)});
    var db4 := db3.(checkins := {c}, nextCheckinId := 2);
    FirstStatements(rules, d, at);
    hide AdvanceDb, AdvancePc, HasRaw;
    var one, two, three := AllOk(at)[3..], AllOk(at)[2..], AllOk(at)[1..];
    assert three[1..] == two && two[1..] == one;
    assert Settle(rules, db3, Handler(d, AtCheckin), one).0 == db4;
    assert Settle(rules, db2, Handler(d, AtLink), two).0 == db4;
    assert Settle(rules, db1, Handler(d, AtObservation(true)), three).0 == db4;
    assert c in db4.checkins;
  }

  lemma FirstStatements(rules: Rules, d: Delivery, at: int)
    requires rules.candidateOf(d.payloadHex).Some?
    ensures var row := RawPacket(1, d.hash, d.iata, d.payloadHex, d.observedAt);
            var db1 := EMPTY.(raw := [row], nextRawId := 2);
            var db2 := db1.(observations := {ObservationOf(d)});
            var db3 := db2.(links := {LinkOf(rules, d, at)});
            var db4 := db3.(checkins := {CheckinOf(rules, d, at).(id := 1)}, nextCheckinId := 2);
            && AdvanceDb(rules, EMPTY, Handler(d, AtRaw), true, at) == db1
            && AdvancePc(rules, EMPTY, Handler(d, AtRaw), true, at) == AtObservation(true)
            && AdvanceDb(rules, db1, Handler(d, AtObservation(true)), true, at) == db2
            && AdvancePc(rules, db1, Handler(d, AtObservation(true)), true, at) == AtLink
            && AdvanceDb(rules, db2, Handler(d, AtLink), true, at) == db3
            && AdvancePc(rules, db2, Handler(d, AtLink), true, at) == AtCheckin
            && AdvanceDb(rules, db3, Handler(d, AtCheckin), true, at) == db4
            && AdvancePc(rules, db3, Handler(d, AtCheckin), true, at) == Finished(true)
            && HasRaw(db4, d.hash)
  {
  }

  /** One packet delivered in two weeks counts for the week it was delivered in first. */
  lemma FirstWeekWins(rules: Rules, d: Delivery, e: Delivery, at: int, script: seq<Attempt>, script': seq<Attempt>)
    requires Accepted(rules, d) && Accepted(rules, e) && HashDetermines(rules)
    requires d.hash == e.hash && rules.candidateOf(d.payloadHex).Some?
    ensures var de := Settle(rules, Settle(rules, EMPTY, Handler(d, AtRaw), AllOk(at)).0, Handler(e, AtRaw), script).0;
            var ed := Settle(rules, Settle(rules, EMPTY, Handler(e, AtRaw), AllOk(at)).0, Handler(d, AtRaw), script').0;
            CheckinKeys(de) == CheckinKeys(ed) <==> WeekOf(rules, d) == WeekOf(rules, e)
  {
    FirstMessage(rules, d, at);
    FirstMessage(rules, e, at);
    var afterD := Settle(rules, EMPTY, Handler(d, AtRaw), AllOk(at)).0;
    var afterE := Settle(rules, EMPTY, Handler(e, AtRaw), AllOk(at)).0;
    RedeliveryChangesNothing(rules, afterD, Handler(e, AtRaw), script);
    RedeliveryChangesNothing(rules, afterE, Handler(d, AtRaw), script');
    var key := (WeekOf(rules, d), rules.candidateOf(d.payloadHex).value.username);
    assert CheckinKeys(Settle(rules, afterD, Handler(e, AtRaw), script).0) == {key};
    assert key in {key};
  }
}
