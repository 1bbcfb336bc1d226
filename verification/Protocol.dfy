/** The database as a concurrent system: any number of message handlers, one pruner and one restore
    run, interleaved one SQL statement at a time.

    Every statement may fail, a handler may die between statements, deliveries repeat at will, and
    the pruner works from a snapshot of protected hashes and from ids it read earlier.
  */
module Protocol {
  import opened Wrappers
  import opened Calendar
  import opened Tables
  import opened Retention

  datatype Candidate = Candidate(username: string, displayName: string, message: string)

  /** A fixed configuration: retention policy, and what decoding, hashing and check-in extraction do
      to a packet's hex text. */
  datatype Rules = Rules(
    policy: Policy,
    decodes: string -> bool,
    hashOf: string -> string,
    candidateOf: string -> Option<Candidate>)

  /** Packets with one hash carry one check-in (proved of the decoder in `Extraction`). */
  ghost predicate HashDetermines(rules: Rules) {
    forall a, b :: rules.decodes(a) && rules.decodes(b) && rules.hashOf(a) == rules.hashOf(b) ==>
      rules.candidateOf(a) == rules.candidateOf(b)
  }

  /** A message that passed the weekday guard and decoded. */
  datatype Delivery = Delivery(hash: string, iata: string, observer: string, payloadHex: string, observedAt: int)

  predicate Accepted(rules: Rules, d: Delivery) {
    && IsWeekday(rules.policy.zone, rules.policy.target, d.observedAt)
    && rules.decodes(d.payloadHex)
    && d.hash == rules.hashOf(d.payloadHex)
  }

  function WeekOf(rules: Rules, d: Delivery): int {
    WeekDate(rules.policy.zone, rules.policy.target, d.observedAt)
  }

  function ObservationOf(d: Delivery): Observation {
    Observation(d.hash, d.observer, d.observedAt)
  }

  function LinkOf(rules: Rules, d: Delivery, at: int): Link
    requires rules.candidateOf(d.payloadHex).Some?
  {
    Link(WeekOf(rules, d), rules.candidateOf(d.payloadHex).value.username, d.hash, at)
  }

  function CheckinOf(rules: Rules, d: Delivery, at: int): Checkin
    requires rules.candidateOf(d.payloadHex).Some?
  {
    var c := rules.candidateOf(d.payloadHex).value;
    Checkin(0, d.hash, c.username, c.displayName, c.message, d.iata,
            LocalDay(rules.policy.zone, d.observedAt), WeekOf(rules, d), at)
  }

  /** The raw row of a delivery, under a given id. */
  function Row(id: nat, d: Delivery): RawPacket {
    RawPacket(id, d.hash, d.iata, d.payloadHex, d.observedAt)
  }

  // ----- handlers

  /** The next statement of a handler; `inserted` says whether its raw row was new. */
  datatype Pc = AtRaw | AtObservation(inserted: bool) | AtLink | AtCheckin | Finished(inserted: bool)

  datatype Handler = Handler(d: Delivery, pc: Pc)

  /** One statement of a handler: `ok` is false when the database refuses to run it, `at` is the clock. */
  function AdvanceDb(rules: Rules, db: Db, h: Handler, ok: bool, at: int): Db {
    if !ok then db
    else match h.pc
      case AtRaw => InsertRaw(db, h.d.hash, h.d.iata, h.d.payloadHex, h.d.observedAt)
      case AtObservation(_) => InsertObservation(db, ObservationOf(h.d))
      case AtLink => if rules.candidateOf(h.d.payloadHex).Some? then InsertLink(db, LinkOf(rules, h.d, at)) else db
      case AtCheckin => if rules.candidateOf(h.d.payloadHex).Some? then InsertCheckin(db, CheckinOf(rules, h.d, at)) else db
      case Finished(_) => db
  }

  /** Where the handler goes next.  A failed observation does not stop it; a duplicate raw row does. */
  function AdvancePc(rules: Rules, db: Db, h: Handler, ok: bool, at: int): Pc {
    var candidate := rules.candidateOf(h.d.payloadHex);
    match h.pc
    case AtRaw => if ok then AtObservation(!HasRaw(db, h.d.hash)) else Finished(false)
    case AtObservation(inserted) =>
      if !inserted then Finished(false) else if candidate.None? then Finished(true) else AtLink
    case AtLink =>
      if ok && candidate.Some? && LinkOutcome(db, LinkOf(rules, h.d, at)) != Refused then AtCheckin else Finished(true)
    case AtCheckin => Finished(true)
    case Finished(_) => h.pc
  }

  /** A handler stopped here leaves its raw row without the link it would have made. */
  predicate OwesLink(pc: Pc) {
    pc == AtObservation(true) || pc == AtLink
  }

  // ----- the whole system

  datatype Pruner = Idle | Pruning(now: int, protected: set<string>, lastId: int, pending: seq<nat>)

  datatype Sys = Sys(
    db: Db,
    handlers: map<nat, Handler>,
    pruner: Pruner,
    restoring: seq<RawPacket>,
    missed: set<string>)  // hashes whose link insert failed or whose handler died before it

  datatype Step =
    | Deliver(id: nat, d: Delivery)
    | Handle(id: nat, ok: bool, at: int)
    | Crash(id: nat)
    | StartPrune(now: int)
    | Scan(limit: nat)
    | Delete(n: nat)
    | EndPrune
    | StartRestore(rows: seq<RawPacket>)
    | RestoreRow(ok: bool, at: int)

  predicate InFlight(h: Handler) {
    !h.pc.Finished?
  }

  predicate Enabled(rules: Rules, s: Sys, step: Step) {
    match step
    case Deliver(id, d) => id !in s.handlers && Accepted(rules, d)
    case Handle(id, ok, at) => id in s.handlers && InFlight(s.handlers[id])
    case Crash(id) => id in s.handlers && InFlight(s.handlers[id])
    case StartPrune(now) => s.pruner.Idle?
    case Scan(limit) => s.pruner.Pruning? && s.pruner.pending == [] && limit > 0
    case Delete(n) => s.pruner.Pruning? && s.pruner.pending != [] && n > 0
    case EndPrune => s.pruner.Pruning?
    case StartRestore(rows) => forall r :: r in rows ==> r in s.db.raw
    case RestoreRow(ok, at) => s.restoring != []
  }

  function RestoreLink(rules: Rules, r: RawPacket, at: int): Option<Link> {
    if rules.decodes(r.payloadHex) && rules.candidateOf(r.payloadHex).Some?
       && IsWeekday(rules.policy.zone, rules.policy.target, r.observedAt)
    then
      Some(Link(WeekDate(rules.policy.zone, rules.policy.target, r.observedAt),
                rules.candidateOf(r.payloadHex).value.username, r.hash, at))
    else
      None
  }

  function Chunk(pending: seq<nat>, n: nat): set<nat> {
    IdSet(if n < |pending| then pending[..n] else pending)
  }

  function Remaining(pending: seq<nat>, n: nat): (rest: seq<nat>)
    ensures forall i :: i in rest ==> i in pending
  {
    if n < |pending| then pending[n..] else []
  }

  function AfterScan(rules: Rules, s: Sys, limit: nat): Pruner
    requires s.pruner.Pruning?
  {
    var rows := Batch(s.db.raw, s.pruner.lastId, limit);
    if rows == [] then
      Idle
    else
      var doomed := Doomed(rules.policy, s.pruner.now, s.pruner.protected, rows);
      if doomed == [] then s.pruner.(lastId := rows[|rows| - 1].id) else s.pruner.(pending := doomed)
  }

  function Apply(rules: Rules, s: Sys, step: Step): Sys
    requires Enabled(rules, s, step)
  {
    match step
    case Deliver(id, d) => s.(handlers := s.handlers[id := Handler(d, AtRaw)])
    case Handle(id, ok, at) =>
      var h := s.handlers[id];
      var next := h.(pc := AdvancePc(rules, s.db, h, ok, at));
      s.(db := AdvanceDb(rules, s.db, h, ok, at),
         handlers := s.handlers[id := next],
         missed := if h.pc == AtLink && next.pc.Finished? then s.missed + {h.d.hash} else s.missed)
    case Crash(id) =>
      var h := s.handlers[id];
      s.(handlers := s.handlers[id := h.(pc := Finished(h.pc != AtRaw && h.pc != AtObservation(false)))],
         missed := if OwesLink(h.pc) then s.missed + {h.d.hash} else s.missed)
    case StartPrune(now) => s.(pruner := Pruning(now, ProtectedHashes(s.db), 0, []))
    case Scan(limit) => s.(pruner := AfterScan(rules, s, limit))
    case Delete(n) =>
      s.(db := DeleteRaw(s.db, Chunk(s.pruner.pending, n)),
         pruner := s.pruner.(pending := Remaining(s.pruner.pending, n)))
    case EndPrune => s.(pruner := Idle)
    case StartRestore(rows) => s.(restoring := rows)
    case RestoreRow(ok, at) =>
      var link := RestoreLink(rules, s.restoring[0], at);
      s.(restoring := s.restoring[1..],
         db := if ok && link.Some? then InsertLink(s.db, link.value) else s.db)
  }

  /** No handler is so late that the prune under way has closed the window on its message. */
  ghost predicate Timely(rules: Rules, s: Sys) {
    s.pruner.Pruning? ==>
      forall id :: id in s.handlers && InFlight(s.handlers[id]) ==>
        InWindow(rules.policy.zone, rules.policy.target, s.pruner.now, rules.policy.retainWeeks, s.handlers[id].d.observedAt)
  }

  /** In days: a prune never starts more than six days and the retained weeks after a message that is
      still being handled. */
  ghost predicate TimelyInDays(rules: Rules, s: Sys) {
    s.pruner.Pruning? ==>
      forall id :: id in s.handlers && InFlight(s.handlers[id]) ==>
        LocalDay(rules.policy.zone, s.pruner.now)
          <= LocalDay(rules.policy.zone, s.handlers[id].d.observedAt) + 6 + 7 * rules.policy.retainWeeks
  }

  /** In a regular zone the two are the same. */
  lemma TimelyIsInDays(rules: Rules, s: Sys)
    requires Regular(rules.policy.zone)
    requires forall id :: id in s.handlers ==> Accepted(rules, s.handlers[id].d)
    ensures Timely(rules, s) <==> TimelyInDays(rules, s)
  {
    if s.pruner.Pruning? {
      forall id | id in s.handlers {
        WindowInDays(rules.policy.zone, rules.policy.target, s.pruner.now, rules.policy.retainWeeks,
                     s.handlers[id].d.observedAt);
      }
    }
  }

  // ----- the invariant

  ghost predicate OwnRow(db: Db, d: Delivery) {
    exists r :: r in db.raw && Records(r, d)
  }

  predicate Records(r: RawPacket, d: Delivery) {
    r.hash == d.hash && r.observedAt == d.observedAt && r.payloadHex == d.payloadHex && r.iata == d.iata
  }

  ghost predicate HandlerOk(rules: Rules, db: Db, h: Handler) {
    && Accepted(rules, h.d)
    && (OwesLink(h.pc) || h.pc == AtCheckin ==> OwnRow(db, h.d))
    && (h.pc == AtLink || h.pc == AtCheckin ==> rules.candidateOf(h.d.payloadHex).Some?)
    && (h.pc == AtCheckin ==>
          HasLink(db, WeekOf(rules, h.d), rules.candidateOf(h.d.payloadHex).value.username, h.d.hash))
  }

  ghost predicate HandlersOk(rules: Rules, s: Sys) {
    forall id :: id in s.handlers ==> HandlerOk(rules, s.db, s.handlers[id])
  }

  /** Every id waiting to be deleted belongs to a row not retained, or to no row at all. */
  ghost predicate PendingDoomed(rules: Rules, s: Sys) {
    s.pruner.Pruning? ==>
      && (forall i :: i in s.pruner.pending ==> i < s.db.nextRawId)
      && (forall r :: r in s.db.raw && r.id in s.pruner.pending ==>
            !Retain(rules.policy, s.pruner.now, s.pruner.protected, r))
  }

  /** Rows that check-ins refer to are retained by the prune under way. */
  ghost predicate CheckinsRetained(rules: Rules, s: Sys) {
    s.pruner.Pruning? ==>
      forall c, r :: c in s.db.checkins && r in s.db.raw && r.hash == c.hash ==>
        Retain(rules.policy, s.pruner.now, s.pruner.protected, r)
  }

  /** A stored link that the prune under way, if any, cannot take: the row it refers to is retained. */
  ghost predicate LinkSafe(rules: Rules, s: Sys, l: Link) {
    && l in s.db.links
    && (s.pruner.Pruning? ==>
          forall r :: r in s.db.raw && r.hash == l.hash ==> Retain(rules.policy, s.pruner.now, s.pruner.protected, r))
  }

  /** Every check-in has a link with its own hash. */
  ghost predicate CheckinsLinked(db: Db) {
    forall c :: c in db.checkins ==> HasLink(db, c.weekStart, c.username, c.hash)
  }

  ghost predicate Inv(rules: Rules, s: Sys) {
    && WellFormed(s.db)
    && HandlersOk(rules, s)
    && PendingDoomed(rules, s)
    && CheckinsRetained(rules, s)
    && CheckinsLinked(s.db)
  }

  /** No handlers, no prune: a store that has just been opened. */
  ghost predicate Init(s: Sys) {
    && WellFormed(s.db)
    && CheckinsLinked(s.db)
    && s.handlers == map[]
    && s.pruner == Idle
    && s.restoring == []
    && s.missed == {}
  }

  /** The empty store. */
  const START: Sys := Sys(EMPTY, map[], Idle, [], {})

  // ----- each step keeps the invariant

  /** Statements that only add rows keep rows, links and handlers' facts in place. */
  ghost predicate Grows(before: Db, after: Db) {
    && (forall r :: r in before.raw ==> r in after.raw)
    && before.links <= after.links
  }

  lemma GrowthKeepsHandler(rules: Rules, before: Db, after: Db, h: Handler)
    requires Grows(before, after)
    requires HandlerOk(rules, before, h)
    ensures HandlerOk(rules, after, h)
  {
  }

  lemma AdvanceGrows(rules: Rules, db: Db, h: Handler, ok: bool, at: int)
    requires WellFormed(db)
    ensures WellFormed(AdvanceDb(rules, db, h, ok, at))
    ensures Grows(db, AdvanceDb(rules, db, h, ok, at))
    ensures db.checkins <= AdvanceDb(rules, db, h, ok, at).checkins
    ensures db.nextRawId <= AdvanceDb(rules, db, h, ok, at).nextRawId
  {
    match h.pc
    case AtRaw => InsertRawWellFormed(db, h.d.hash, h.d.iata, h.d.payloadHex, h.d.observedAt);
    case AtObservation(_) => InsertObservationWellFormed(db, ObservationOf(h.d));
    case AtLink =>
      if rules.candidateOf(h.d.payloadHex).Some? {
        InsertLinkWellFormed(db, LinkOf(rules, h.d, at));
      }
    case AtCheckin =>
      if rules.candidateOf(h.d.payloadHex).Some? {
        InsertCheckinWellFormed(db, CheckinOf(rules, h.d, at));
      }
    case Finished(_) =>
  }

  /** The handler that moved still satisfies its own facts. */
  lemma AdvanceKeepsHandler(rules: Rules, db: Db, h: Handler, ok: bool, at: int)
    requires WellFormed(db)
    requires HandlerOk(rules, db, h)
    ensures HandlerOk(rules, AdvanceDb(rules, db, h, ok, at), h.(pc := AdvancePc(rules, db, h, ok, at)))
  {
    var after := AdvanceDb(rules, db, h, ok, at);
    AdvanceGrows(rules, db, h, ok, at);
    GrowthKeepsHandler(rules, db, after, h);
    if h.pc == AtRaw && ok && !HasRaw(db, h.d.hash) {
      assert RawPacket(db.nextRawId, h.d.hash, h.d.iata, h.d.payloadHex, h.d.observedAt) in after.raw;
    }
    if h.pc == AtLink && ok {
      assert LinkOf(rules, h.d, at) in after.links ||
             HasLink(db, WeekOf(rules, h.d), rules.candidateOf(h.d.payloadHex).value.username, h.d.hash);
    }
  }

  ghost predicate IsCheckinOf(rules: Rules, d: Delivery, c: Checkin) {
    && rules.candidateOf(d.payloadHex).Some?
    && c.hash == d.hash
    && c.weekStart == WeekOf(rules, d)
    && c.checkinDate == LocalDay(rules.policy.zone, d.observedAt)
    && SaysWhat(c, rules.candidateOf(d.payloadHex).value)
    && c.iata == d.iata
  }

  /** The check-in row carries the extracted user, display name and message. */
  predicate SaysWhat(c: Checkin, candidate: Candidate) {
    c.username == candidate.username && c.displayName == candidate.displayName && c.message == candidate.message
  }

  ghost predicate IsLinkOf(rules: Rules, d: Delivery, l: Link) {
    && rules.candidateOf(d.payloadHex).Some?
    && l.hash == d.hash
    && l.weekStart == WeekOf(rules, d)
    && l.username == rules.candidateOf(d.payloadHex).value.username
  }

  ghost predicate IsRowOf(db: Db, d: Delivery, r: RawPacket) {
    r.id == db.nextRawId && Records(r, d)
  }

  /** New check-ins and links refer to the handler's own row; a new raw row is referred to by nothing. */
  lemma AdvanceNewRows(rules: Rules, db: Db, h: Handler, ok: bool, at: int)
    requires WellFormed(db)
    requires HandlerOk(rules, db, h)
    ensures var after := AdvanceDb(rules, db, h, ok, at);
            && (forall c | c in after.checkins && c !in db.checkins :: h.pc == AtCheckin && IsCheckinOf(rules, h.d, c))
            && (forall l | l in after.links && l !in db.links :: h.pc == AtLink && IsLinkOf(rules, h.d, l))
            && (forall r | r in after.raw && r !in db.raw :: h.pc == AtRaw && !HasRaw(db, r.hash) && IsRowOf(db, h.d, r))
  {
  }

  lemma HandleKeepsHandlers(rules: Rules, s: Sys, id: nat, ok: bool, at: int)
    requires Inv(rules, s) && Enabled(rules, s, Handle(id, ok, at))
    ensures HandlersOk(rules, Apply(rules, s, Handle(id, ok, at)))
  {
    var s' := Apply(rules, s, Handle(id, ok, at));
    AdvanceGrows(rules, s.db, s.handlers[id], ok, at);
    forall i | i in s'.handlers ensures HandlerOk(rules, s'.db, s'.handlers[i]) {
      if i == id {
        AdvanceKeepsHandler(rules, s.db, s.handlers[id], ok, at);
      } else {
        GrowthKeepsHandler(rules, s.db, s'.db, s.handlers[i]);
      }
    }
  }

  /** In a well-formed store the row with a handler's hash is the row that handler inserted. */
  lemma OwnRowIsTheRow(rules: Rules, db: Db, d: Delivery, r: RawPacket)
    requires RawKeys(db) && OwnRow(db, d)
    requires r in db.raw && r.hash == d.hash
    ensures Records(r, d)
  {
  }

  lemma HandleKeepsRetained(rules: Rules, s: Sys, id: nat, ok: bool, at: int)
    requires Inv(rules, s) && Timely(rules, s) && Enabled(rules, s, Handle(id, ok, at))
    ensures PendingDoomed(rules, Apply(rules, s, Handle(id, ok, at)))
    ensures CheckinsRetained(rules, Apply(rules, s, Handle(id, ok, at)))
  {
    var s' := Apply(rules, s, Handle(id, ok, at));
    var h := s.handlers[id];
    AdvanceGrows(rules, s.db, h, ok, at);
    AdvanceNewRows(rules, s.db, h, ok, at);
    if s.pruner.Pruning? {
      forall r | r in s'.db.raw && r.hash == h.d.hash && (h.pc == AtLink || h.pc == AtCheckin)
        ensures Retain(rules.policy, s.pruner.now, s.pruner.protected, r)
      {
        assert r in s.db.raw;
        OwnRowIsTheRow(rules, s.db, h.d, r);
      }
      forall c, r | c in s'.db.checkins && r in s'.db.raw && r.hash == c.hash
        ensures Retain(rules.policy, s.pruner.now, s.pruner.protected, r)
      {
        if c in s.db.checkins {
          assert HasRaw(s.db, c.hash);
        }
      }
    }
  }

  lemma AdvanceKeepsLinked(rules: Rules, db: Db, h: Handler, ok: bool, at: int)
    requires WellFormed(db) && CheckinsLinked(db)
    requires HandlerOk(rules, db, h)
    ensures CheckinsLinked(AdvanceDb(rules, db, h, ok, at))
  {
    var after := AdvanceDb(rules, db, h, ok, at);
    AdvanceGrows(rules, db, h, ok, at);
    AdvanceNewRows(rules, db, h, ok, at);
    forall c | c in after.checkins ensures HasLink(after, c.weekStart, c.username, c.hash) {
      assert HasLink(db, c.weekStart, c.username, c.hash);
    }
  }

  /** Rows about to be deleted are not retained, so deleting them removes no retained row's children. */
  lemma DeleteSparesRetained(rules: Rules, s: Sys, n: nat)
    requires Inv(rules, s) && Enabled(rules, s, Delete(n))
    ensures forall r :: r in s.db.raw && Retain(rules.policy, s.pruner.now, s.pruner.protected, r) ==>
              && r in Apply(rules, s, Delete(n)).db.raw
              && r.hash !in HashesOf(s.db.raw, Chunk(s.pruner.pending, n))
  {
  }

  /** No check-in is ever lost to a prune, and each safe link survives, whatever other links there are. */
  lemma DeleteCascadesNothing(rules: Rules, s: Sys, n: nat)
    requires Inv(rules, s) && Enabled(rules, s, Delete(n))
    ensures Apply(rules, s, Delete(n)).db.checkins == s.db.checkins
    ensures forall l :: LinkSafe(rules, s, l) ==> l in Apply(rules, s, Delete(n)).db.links
  {
    DeleteSparesRetained(rules, s, n);
    var after := Apply(rules, s, Delete(n)).db;
    forall c | c in s.db.checkins ensures c in after.checkins {
      assert HasRaw(s.db, c.hash);
    }
    forall l | LinkSafe(rules, s, l) ensures l in after.links {
      assert HasRaw(s.db, l.hash);
    }
  }

  lemma DeleteKeepsHandlers(rules: Rules, s: Sys, n: nat)
    requires Inv(rules, s) && Timely(rules, s) && Enabled(rules, s, Delete(n))
    ensures HandlersOk(rules, Apply(rules, s, Delete(n)))
    ensures CheckinsLinked(Apply(rules, s, Delete(n)).db)
  {
    var after := Apply(rules, s, Delete(n)).db;
    DeleteSparesRetained(rules, s, n);
    DeleteCascadesNothing(rules, s, n);
    forall id | id in s.handlers ensures HandlerOk(rules, after, s.handlers[id]) {
      var h := s.handlers[id];
      if OwesLink(h.pc) || h.pc == AtCheckin {
        var r :| r in s.db.raw && Records(r, h.d);
        assert r in after.raw;
      }
    }
    forall c | c in after.checkins ensures HasLink(after, c.weekStart, c.username, c.hash) {
      assert HasLink(s.db, c.weekStart, c.username, c.hash) && HasRaw(s.db, c.hash);
    }
  }

  lemma DeleteKeepsInv(rules: Rules, s: Sys, n: nat)
    requires Inv(rules, s) && Timely(rules, s) && Enabled(rules, s, Delete(n))
    ensures Inv(rules, Apply(rules, s, Delete(n)))
  {
    DeleteRawWellFormed(s.db, Chunk(s.pruner.pending, n));
    DeleteKeepsHandlers(rules, s, n);
  }

  lemma HandleKeepsInv(rules: Rules, s: Sys, id: nat, ok: bool, at: int)
    requires Inv(rules, s) && Timely(rules, s) && Enabled(rules, s, Handle(id, ok, at))
    ensures Inv(rules, Apply(rules, s, Handle(id, ok, at)))
  {
    AdvanceGrows(rules, s.db, s.handlers[id], ok, at);
    HandleKeepsHandlers(rules, s, id, ok, at);
    HandleKeepsRetained(rules, s, id, ok, at);
    AdvanceKeepsLinked(rules, s.db, s.handlers[id], ok, at);
  }

  lemma PruneBookkeepingKeepsInv(rules: Rules, s: Sys, step: Step)
    requires step.StartPrune? || step.Scan? || step.EndPrune?
    requires Inv(rules, s) && Enabled(rules, s, step)
    ensures Inv(rules, Apply(rules, s, step))
  {
    var s' := Apply(rules, s, step);
    if step.Scan? && s'.pruner.Pruning? && s'.pruner.pending != [] {
      forall r | r in s.db.raw && r.id in s'.pruner.pending
        ensures !Retain(rules.policy, s.pruner.now, s.pruner.protected, r)
      {
        var q :| q in s.db.raw && q.id == r.id && !Retain(rules.policy, s.pruner.now, s.pruner.protected, q);
        IdsAreUnique(s.db.raw, q, r);
      }
    }
  }

  lemma RestoreKeepsInv(rules: Rules, s: Sys, ok: bool, at: int)
    requires Inv(rules, s) && Enabled(rules, s, RestoreRow(ok, at))
    ensures Inv(rules, Apply(rules, s, RestoreRow(ok, at)))
  {
    var s' := Apply(rules, s, RestoreRow(ok, at));
    var link := RestoreLink(rules, s.restoring[0], at);
    if ok && link.Some? {
      InsertLinkWellFormed(s.db, link.value);
    }
    forall id | id in s'.handlers ensures HandlerOk(rules, s'.db, s'.handlers[id]) {
      GrowthKeepsHandler(rules, s.db, s'.db, s.handlers[id]);
    }
    forall c | c in s'.db.checkins ensures HasLink(s'.db, c.weekStart, c.username, c.hash) {
      assert HasLink(s.db, c.weekStart, c.username, c.hash);
    }
  }

  lemma StepKeepsInv(rules: Rules, s: Sys, step: Step)
    requires Inv(rules, s) && Timely(rules, s) && Enabled(rules, s, step)
    ensures Inv(rules, Apply(rules, s, step))
  {
    match step
    case Handle(id, ok, at) => HandleKeepsInv(rules, s, id, ok, at);
    case Delete(n) => DeleteKeepsInv(rules, s, n);
    case StartPrune(_) => PruneBookkeepingKeepsInv(rules, s, step);
    case Scan(_) => PruneBookkeepingKeepsInv(rules, s, step);
    case EndPrune => PruneBookkeepingKeepsInv(rules, s, step);
    case RestoreRow(ok, at) => RestoreKeepsInv(rules, s, ok, at);
    case _ =>
  }

  // ----- whole runs

  /** Steps from an initial state, whatever the timing. */
  ghost predicate Follows(rules: Rules, states: seq<Sys>, steps: seq<Step>) {
    && |states| == |steps| + 1
    && Init(states[0])
    && forall i | 0 <= i < |steps| ::
         && Enabled(rules, states[i], steps[i])
         && states[i + 1] == Apply(rules, states[i], steps[i])
  }

  ghost predicate Run(rules: Rules, states: seq<Sys>, steps: seq<Step>) {
    && Follows(rules, states, steps)
    && forall i | 0 <= i < |steps| :: Timely(rules, states[i])
  }

  lemma RunFacts(rules: Rules, states: seq<Sys>, steps: seq<Step>, i: nat)
    requires Run(rules, states, steps) && i < |steps|
    ensures Timely(rules, states[i]) && Enabled(rules, states[i], steps[i])
    ensures states[i + 1] == Apply(rules, states[i], steps[i])
  {
  }

  lemma StartOfRun(rules: Rules, s: Sys)
    requires Init(s)
    ensures Run(rules, [s], [])
  {
  }

  lemma OneMore(rules: Rules, states: seq<Sys>, steps: seq<Step>, step: Step)
    returns (states': seq<Sys>, steps': seq<Step>)
    requires Follows(rules, states, steps) && Enabled(rules, states[|steps|], step)
    ensures Follows(rules, states', steps') && |steps'| == |steps| + 1 && |states'| == |states| + 1
    ensures states <= states' && steps' == steps + [step]
    ensures states'[|steps'|] == Apply(rules, states[|steps|], step)
  {
    states' := states + [Apply(rules, states[|steps|], step)];
    steps' := steps + [step];
  }

  lemma Extend(rules: Rules, states: seq<Sys>, steps: seq<Step>, step: Step)
    returns (states': seq<Sys>, steps': seq<Step>)
    requires Run(rules, states, steps)
    requires Timely(rules, states[|steps|]) && Enabled(rules, states[|steps|], step)
    ensures Run(rules, states', steps') && |steps'| == |steps| + 1
    ensures states <= states' && steps' == steps + [step]
    ensures states'[|steps'|] == Apply(rules, states[|steps|], step)
  {
    states', steps' := OneMore(rules, states, steps, step);
  }

  lemma RunShape(rules: Rules, states: seq<Sys>, steps: seq<Step>)
    requires Run(rules, states, steps)
    ensures |states| == |steps| + 1 && Init(states[0])
  {
  }

  lemma InitInv(rules: Rules, s: Sys)
    requires Init(s)
    ensures Inv(rules, s)
  {
  }

  lemma InvMeans(rules: Rules, s: Sys)
    requires Inv(rules, s)
    ensures WellFormed(s.db) && OnePerUserAndWeek(s.db) && CheckinsLinked(s.db)
  {
  }

  lemma {:induction false} InvAlways(rules: Rules, states: seq<Sys>, steps: seq<Step>, i: nat)
    requires Run(rules, states, steps) && i < |states|
    ensures Inv(rules, states[i])
  {
    hide *;
    RunShape(rules, states, steps);
    if i == 0 {
      InitInv(rules, states[0]);
    } else {
      RunFacts(rules, states, steps, i - 1);
      InvAlways(rules, states, steps, i - 1);
      StepKeepsInv(rules, states[i - 1], steps[i - 1]);
    }
  }

  /** In every run, whatever is interleaved and whatever fails: keys and foreign keys hold, there is
      one check-in per user and week, every check-in has its link, and no check-in is ever lost. */
  lemma {:induction false} NoCheckinLost(rules: Rules, states: seq<Sys>, steps: seq<Step>, i: nat, j: nat)
    requires Run(rules, states, steps) && i <= j < |states|
    ensures WellFormed(states[j].db) && OnePerUserAndWeek(states[j].db) && CheckinsLinked(states[j].db)
    ensures states[i].db.checkins <= states[j].db.checkins
  {
    hide *;
    RunShape(rules, states, steps);
    InvAlways(rules, states, steps, j);
    InvMeans(rules, states[j]);
    if i < j {
      RunFacts(rules, states, steps, j - 1);
      NoCheckinLost(rules, states, steps, i, j - 1);
      InvAlways(rules, states, steps, j - 1);
      StepKeepsCheckins(rules, states[j - 1], steps[j - 1]);
    }
  }

  lemma StepKeepsCheckins(rules: Rules, s: Sys, step: Step)
    requires Inv(rules, s) && Enabled(rules, s, step)
    ensures s.db.checkins <= Apply(rules, s, step).db.checkins
  {
    match step
    case Handle(id, ok, at) => AdvanceGrows(rules, s.db, s.handlers[id], ok, at);
    case Delete(n) => DeleteCascadesNothing(rules, s, n);
    case _ =>
  }
}
