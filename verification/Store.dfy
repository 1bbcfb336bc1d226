/** The SQLite store as an object: statements that may fail, migration, and pruning.

    A statement either takes effect or reports an error and changes nothing.  Which of the two
    happens is left open, so every contract holds whatever the database does.  A log of what the
    database reported says that no error is made up and no statement is skipped.
  */
module Store {
  import opened Calendar
  import opened Tables
  import opened Retention
  import opened Views

  const RETENTION_BUSY_MAX: nat := 8

  datatype Error = NoError | Busy | Broken | Cancelled

  datatype Statement =
    | RawInsert(hash: string, iata: string, payloadHex: string, observedAt: int)
    | ObservationInsert(observation: Observation)
    | LinkInsert(link: Link)
    | CheckinInsert(checkin: Checkin)

  /** What the database reported: of an INSERT, of a DELETE, of any other request; or that the caller's
      context was found to be done. */
  datatype Event =
    | Ran(statement: Statement, err: Error)
    | Deleted(ids: seq<nat>, err: Error)
    | Asked(err: Error)
    | Stopped

  function ErrorOf(e: Event): Error {
    match e
    case Ran(_, err) => err
    case Deleted(_, err) => err
    case Asked(err) => err
    case Stopped => Cancelled
  }

  /** Since `before`, the last thing reported was this error. */
  ghost predicate Reported(before: seq<Event>, log: seq<Event>, err: Error) {
    before < log && ErrorOf(log[|log| - 1]) == err
  }

  /** If it was a DELETE that was busy, it had been tried nine times. */
  ghost predicate NineTimesBusy(before: seq<Event>, log: seq<Event>) {
    Reported(before, log, Busy) && log[|log| - 1].Deleted? ==>
      |before| + 9 <= |log| && forall i :: |log| - 9 <= i < |log| ==> log[i] == log[|log| - 1]
  }

  lemma ReportedSince(before: seq<Event>, mid: seq<Event>, log: seq<Event>, err: Error)
    requires before <= mid && Reported(mid, log, err)
    ensures Reported(before, log, err)
    ensures NineTimesBusy(mid, log) ==> NineTimesBusy(before, log)
  {
  }

  lemma JustReported(before: seq<Event>, mid: seq<Event>, e: Event)
    requires before <= mid && !e.Deleted?
    ensures Reported(before, mid + [e], ErrorOf(e)) && NineTimesBusy(before, mid + [e])
  {
  }

  lemma ErrorsAre(err: Error)
    ensures ErrorOf(Asked(err)) == err && ErrorOf(Stopped) == Cancelled
  {
  }

  function OutcomeOf(db: Db, s: Statement): Outcome {
    match s
    case RawInsert(hash, _, _, _) => if HasRaw(db, hash) then Ignored else Stored
    case ObservationInsert(o) => ObservationOutcome(db, o)
    case LinkInsert(l) => LinkOutcome(db, l)
    case CheckinInsert(c) => CheckinOutcome(db, c)
  }

  function EffectOf(db: Db, s: Statement): Db {
    match s
    case RawInsert(hash, iata, payloadHex, observedAt) => InsertRaw(db, hash, iata, payloadHex, observedAt)
    case ObservationInsert(o) => InsertObservation(db, o)
    case LinkInsert(l) => InsertLink(db, l)
    case CheckinInsert(c) => InsertCheckin(db, c)
  }

  // ----- what a prune removes

  /** The rows a prune started at `now` finds on a quiet store. */
  ghost function DoomedIds(p: Policy, now: int, db: Db): set<nat> {
    set r | r in db.raw && !Retain(p, now, ProtectedHashes(db), r) :: r.id
  }

  ghost function Pruned(p: Policy, now: int, db: Db): Db {
    DeleteRaw(db, DoomedIds(p, now, db))
  }

  lemma DoomedRow(p: Policy, now: int, db: Db, r: RawPacket)
    requires Ascending(db.raw) && r in db.raw
    ensures r.id in DoomedIds(p, now, db) <==> !Retain(p, now, ProtectedHashes(db), r)
  {
  }

  lemma DoomedIsUnprotected(p: Policy, now: int, db: Db, ids: set<nat>)
    requires Ascending(db.raw) && ids <= DoomedIds(p, now, db)
    ensures Unprotected(db, ids)
  {
  }

  /** A prune leaves exactly the rows to be retained, loses no check-in and no link, and readers
      cannot tell that it ran. */
  lemma PruneLeavesRetained(p: Policy, now: int, db: Db)
    requires WellFormed(db)
    ensures var after := Pruned(p, now, db);
            && (forall r :: r in after.raw <==> r in db.raw && Retain(p, now, ProtectedHashes(db), r))
            && after.checkins == db.checkins && after.links == db.links
            && ProtectedHashes(after) == ProtectedHashes(db)
            && SameViews(db, after)
  {
    var ids := DoomedIds(p, now, db);
    DoomedIsUnprotected(p, now, db, ids);
    DeletionKeepsProtected(db, ids);
    UnprotectedDeletionInvisible(db, ids);
    forall r | r in db.raw ensures r.id in ids <==> !Retain(p, now, ProtectedHashes(db), r) {
      DoomedRow(p, now, db, r);
    }
  }

  lemma LaterCutoffDoomsMore(p: Policy, now: int, later: int, db: Db)
    requires Cutoff(p.zone, p.target, now, p.retainWeeks) <= Cutoff(p.zone, p.target, later, p.retainWeeks)
    ensures DoomedIds(p, now, db) <= DoomedIds(p, later, db)
  {
  }

  /** Pruning now and again with a later or the same cutoff is the same as pruning with the later
      cutoff; in particular pruning twice at one time is pruning once. */
  lemma LaterPruneAbsorbs(p: Policy, now: int, later: int, db: Db)
    requires WellFormed(db)
    requires Cutoff(p.zone, p.target, now, p.retainWeeks) <= Cutoff(p.zone, p.target, later, p.retainWeeks)
    ensures Pruned(p, later, Pruned(p, now, db)) == Pruned(p, later, db)
  {
    var a, b := DoomedIds(p, now, db), DoomedIds(p, later, db);
    var after := Pruned(p, now, db);
    var c := DoomedIds(p, later, after);
    PruneLeavesRetained(p, now, db);
    LaterCutoffDoomsMore(p, now, later, db);
    assert c <= b;
    DeleteRawTwice(db, a, c);
    forall r | r in db.raw ensures r.id in a + c <==> r.id in b {
      DoomedRow(p, now, db, r);
      DoomedRow(p, later, db, r);
      if r.id in b && r.id !in a {
        assert r in after.raw;
        assert r.id in c;
      }
    }
    DeleteSame(db, a + c, b);
  }

  /** In a regular zone a later day, or the same, has a later cutoff, or the same. */
  lemma LaterDayAbsorbs(p: Policy, now: int, later: int, db: Db)
    requires WellFormed(db)
    requires Regular(p.zone) && LocalDay(p.zone, now) <= LocalDay(p.zone, later)
    ensures Pruned(p, later, Pruned(p, now, db)) == Pruned(p, later, db)
  {
    hide *;
    CutoffMonotone(p.zone, p.target, now, later, p.retainWeeks);
    LaterPruneAbsorbs(p, now, later, db);
  }

  // ----- migration

  /** Tables as an older version may have left them: everything but one check-in per user and week,
      and links not yet filled in. */
  ghost predicate Legacy(db: Db) {
    && RawKeys(db) && ForeignKeys(db)
    && (forall c :: c in db.checkins ==> c.id < db.nextCheckinId)
    && (forall c, d :: c in db.checkins && d in db.checkins && c.id == d.id ==> c == d)
    && (forall c, d :: c in db.checkins && d in db.checkins && c.hash == d.hash ==> c == d)
    && (forall o, p | o in db.observations && p in db.observations ::
          o.hash == p.hash && o.observer == p.observer ==> o == p)
    && (forall l, m | l in db.links && m in db.links ::
          l.weekStart == m.weekStart && l.username == m.username && l.hash == m.hash ==> l == m)
  }

  predicate SameUserAndWeek(c: Checkin, d: Checkin) {
    c.weekStart == d.weekStart && c.username == d.username
  }

  /** MIN(id) ... GROUP BY week_start, username. */
  predicate IsEarliest(c: Checkin, checkins: set<Checkin>) {
    forall d :: d in checkins && SameUserAndWeek(c, d) ==> c.id <= d.id
  }

  function Earliest(checkins: set<Checkin>): set<Checkin> {
    set c | c in checkins && IsEarliest(c, checkins)
  }

  function Migrated(db: Db): Db {
    var kept := db.(checkins := Earliest(db.checkins));
    kept.(links := kept.links +
            set c | c in kept.checkins && !HasLink(kept, c.weekStart, c.username, c.hash) ::
              Link(c.weekStart, c.username, c.hash, c.createdAt))
  }

  /** Every group of duplicates has an earliest row. */
  lemma {:induction false} EarliestExists(checkins: set<Checkin>, c: Checkin) returns (first: Checkin)
    requires c in checkins
    ensures first in Earliest(checkins) && SameUserAndWeek(c, first)
    decreases c.id
  {
    if IsEarliest(c, checkins) {
      first := c;
    } else {
      var d :| d in checkins && SameUserAndWeek(c, d) && d.id < c.id;
      first := EarliestExists(checkins, d);
    }
  }

  /** Whatever duplicates there were: exactly the least id of each user and week survives, the
      uniqueness index is valid, and every survivor has a link. */
  lemma MigrateRepairs(db: Db)
    requires Legacy(db)
    ensures var after := Migrated(db);
            && WellFormed(after)
            && CheckinKeys(after) == CheckinKeys(db)
            && (forall c, d :: c in after.checkins && d in db.checkins && SameUserAndWeek(c, d) ==> c.id <= d.id)
            && (forall c :: c in after.checkins ==> c in db.checkins && HasLink(after, c.weekStart, c.username, c.hash))
            && after.raw == db.raw && after.observations == db.observations && db.links <= after.links
            && (forall l :: l in after.links && l !in db.links ==>
                  exists c :: c in after.checkins && l == Link(c.weekStart, c.username, c.hash, c.createdAt)
                              && !HasLink(db, c.weekStart, c.username, c.hash))
  {
    MigratedKeys(db);
    MigratedLinks(db);
    MigratedIsWellFormed(db);
  }

  lemma MigratedKeys(db: Db)
    ensures var after := Migrated(db);
            && CheckinKeys(after) == CheckinKeys(db)
            && (forall c, d :: c in after.checkins && d in db.checkins && SameUserAndWeek(c, d) ==> c.id <= d.id)
  {
    var after := Migrated(db);
    forall c | c in db.checkins ensures (c.weekStart, c.username) in CheckinKeys(after) {
      var first := EarliestExists(db.checkins, c);
      assert first in after.checkins;
    }
  }

  lemma MigratedLinks(db: Db)
    ensures var after := Migrated(db);
            && (forall c :: c in after.checkins ==> c in db.checkins && HasLink(after, c.weekStart, c.username, c.hash))
            && after.raw == db.raw && after.observations == db.observations && db.links <= after.links
            && (forall l :: l in after.links && l !in db.links ==>
                  exists c :: c in after.checkins && l == Link(c.weekStart, c.username, c.hash, c.createdAt)
                              && !HasLink(db, c.weekStart, c.username, c.hash))
  {
    var after := Migrated(db);
    var kept := db.(checkins := Earliest(db.checkins));
    assert forall week, user, hash :: HasLink(kept, week, user, hash) == HasLink(db, week, user, hash);
    forall c | c in after.checkins ensures HasLink(after, c.weekStart, c.username, c.hash) {
      if !HasLink(kept, c.weekStart, c.username, c.hash) {
        assert Link(c.weekStart, c.username, c.hash, c.createdAt) in after.links;
      }
    }
  }

  lemma MigratedIsWellFormed(db: Db)
    requires Legacy(db)
    ensures WellFormed(Migrated(db))
  {
    var after := Migrated(db);
    assert forall h :: HasRaw(after, h) == HasRaw(db, h);
    MigratedLinksUnique(db);
  }

  lemma MigratedLinksUnique(db: Db)
    requires Legacy(db)
    ensures forall l, m | l in Migrated(db).links && m in Migrated(db).links ::
              l.weekStart == m.weekStart && l.username == m.username && l.hash == m.hash ==> l == m
  {
  }

  /** With the duplicates gone and the links not yet filled in, there is still the same to do. */
  lemma CleanupIsLegacy(db: Db)
    requires Legacy(db)
    ensures var kept := db.(checkins := Earliest(db.checkins));
            && Legacy(kept) && OnePerUserAndWeek(kept)
            && Migrated(kept) == Migrated(db)
  {
    var kept := db.(checkins := Earliest(db.checkins));
    assert forall h :: HasRaw(kept, h) == HasRaw(db, h);
    assert Earliest(kept.checkins) == kept.checkins;
  }

  /** Migrating a store that is already in order changes nothing; nor does migrating again. */
  lemma MigrateIdempotent(db: Db)
    requires WellFormed(db)
    requires forall c :: c in db.checkins ==> HasLink(db, c.weekStart, c.username, c.hash)
    ensures Migrated(db) == db
  {
  }

  lemma MigrateTwice(db: Db)
    requires Legacy(db)
    ensures Migrated(Migrated(db)) == Migrated(db)
  {
    hide *;
    MigrateRepairs(db);
    MigrateIdempotent(Migrated(db));
  }

  // ----- the store

  class SQLiteStore {
    var db: Db
    ghost var log: seq<Event>

    constructor (found: Db)
      ensures db == found && log == []
    {
      db := found;
      log := [];
    }

    /** Any request that changes no row, or whose effect on rows is written out beside it. */
    method Ask() returns (err: Error)
      modifies this`log
      ensures log == old(log) + [Asked(err)]
    {
      err := *;
      log := log + [Asked(err)];
    }

    /** Whether the caller's context is done. */
    method ContextDone() returns (done: bool)
      modifies this`log
      ensures log == if done then old(log) + [Stopped] else old(log)
    {
      done := *;
      if done {
        log := log + [Stopped];
      }
    }

    /** Opening a store migrates whatever tables it finds, or fails. */
    static method Open(found: Db) returns (store: SQLiteStore, err: Error)
      requires Legacy(found)
      ensures fresh(store)
      ensures err == NoError ==> WellFormed(store.db) && store.db == Migrated(found)
      ensures err != NoError ==> Legacy(store.db) && Migrated(store.db) == Migrated(found)
      ensures err != NoError ==> Reported([], store.log, err)
    {
      store := new SQLiteStore(found);
      err := store.Migrate();
    }

    /** The statements of the migration that change rows, each of which may fail and stop it.  However
        far it got, the store is one that migrating again puts in order, with the same result. */
    method Migrate() returns (err: Error)
      requires Legacy(db)
      modifies this
      ensures err == NoError ==> WellFormed(db) && db == Migrated(old(db))
      ensures err != NoError ==> Legacy(db) && Migrated(db) == Migrated(old(db))
      ensures err != NoError ==> Reported(old(log), log, err)
    {
      MigrateRepairs(db);
      CleanupIsLegacy(db);
      err := Ask();  // DELETE FROM checkins
      if err != NoError {
        return;
      }
      db := db.(checkins := Earliest(db.checkins));
      err := Ask();  // CREATE UNIQUE INDEX
      if err != NoError {
        return;
      }
      err := Ask();  // INSERT OR IGNORE INTO checkin_packets
      if err != NoError {
        return;
      }
      db := db.(links := db.links +
                  set c | c in db.checkins && !HasLink(db, c.weekStart, c.username, c.hash) ::
                    Link(c.weekStart, c.username, c.hash, c.createdAt));
    }

    /** One INSERT.  A foreign key that is refused is an error like any other. */
    method Exec(s: Statement) returns (outcome: Outcome, err: Error)
      modifies this
      ensures err == NoError ==> outcome == OutcomeOf(old(db), s) != Refused && db == EffectOf(old(db), s)
      ensures err != NoError ==> db == old(db)
      ensures err != Cancelled
      ensures log == old(log) + [Ran(s, err)]
    {
      err := *;
      if err == Cancelled {
        err := Broken;
      }
      outcome := OutcomeOf(db, s);
      if err == NoError {
        if outcome == Refused {
          err := Broken;
        } else {
          db := EffectOf(db, s);
        }
      }
      log := log + [Ran(s, err)];
    }

    /** SELECT ... WHERE id > ? ORDER BY id LIMIT ?. */
    method ScanRawPacketBatch(afterId: int, limit: nat) returns (rows: seq<RawPacket>, err: Error)
      modifies this`log
      ensures err == NoError ==> rows == Batch(db.raw, afterId, limit)
      ensures log == old(log) + [Asked(err)]
    {
      err := Ask();
      rows := if err == NoError then Batch(db.raw, afterId, limit) else [];
    }

    method ProtectedPacketHashes() returns (hashes: set<string>, err: Error)
      modifies this`log
      ensures err == NoError ==> hashes == ProtectedHashes(db)
      ensures log == old(log) + [Asked(err)]
    {
      err := Ask();
      hashes := if err == NoError then ProtectedHashes(db) else {};
    }

    method ExecDelete(ids: seq<nat>) returns (err: Error)
      modifies this
      ensures err == NoError ==> db == DeleteRaw(old(db), IdSet(ids))
      ensures err != NoError ==> db == old(db)
      ensures log == old(log) + [Deleted(ids, err)]
    {
      err := *;
      if err == NoError {
        db := DeleteRaw(db, IdSet(ids));
      }
      log := log + [Deleted(ids, err)];
    }

    /** One chunk, tried up to nine times while the database is busy. */
    method DeleteChunk(ids: seq<nat>) returns (err: Error)
      modifies this
      ensures err == NoError ==> db == DeleteRaw(old(db), IdSet(ids))
      ensures err != NoError ==> db == old(db) && Reported(old(log), log, err) && NineTimesBusy(old(log), log)
      ensures old(log) <= log
    {
      hide DeleteRaw, IdSet;
      var attempt := 0;
      while true
        invariant 0 <= attempt <= RETENTION_BUSY_MAX && db == old(db)
        invariant old(log) <= log && |log| == |old(log)| + attempt
        invariant forall i :: |old(log)| <= i < |log| ==> log[i] == Deleted(ids, Busy)
        decreases RETENTION_BUSY_MAX - attempt
      {
        err := ExecDelete(ids);
        if err == NoError {
          return;
        }
        if err != Busy || attempt == RETENTION_BUSY_MAX {
          return;
        }
        var cancelled := ContextDone();
        if cancelled {
          err := Cancelled;
          return;
        }
        attempt := attempt + 1;
      }
    }

    /** Deletes rows in chunks.  On an error a prefix of the ids has been deleted, and the count is not
        above the rows that are gone. */
    method DeleteRawPacketIDs(ids: seq<nat>, chunk: nat) returns (total: nat, err: Error, ghost done: nat)
      requires chunk > 0
      modifies this
      ensures done <= |ids| && db == DeleteRaw(old(db), IdSet(ids[..done]))
      ensures total <= |old(db).raw| - |db.raw|
      ensures err != NoError && log != [] && !log[|log| - 1].Asked? ==> total == |old(db).raw| - |db.raw|
      ensures err == NoError ==> done == |ids| && total == |old(db).raw| - |db.raw|
      ensures old(log) <= log
      ensures err != NoError ==> Reported(old(log), log, err) && NineTimesBusy(old(log), log)
    {
      total, err, done := 0, NoError, 0;
      DeleteNothing(db);
      assert IdSet(ids[..0]) == {};
      hide Reported, NineTimesBusy, ErrorOf;
      var start := 0;
      while start < |ids|
        invariant 0 <= start && done == if start < |ids| then start else |ids|
        invariant db == DeleteRaw(old(db), IdSet(ids[..done]))
        invariant total == |old(db).raw| - |db.raw|
        invariant old(log) <= log && err == NoError
      {
        var end := if start + chunk > |ids| then |ids| else start + chunk;
        var before := |db.raw|;
        ghost var seen := log;
        err := DeleteChunk(ids[start..end]);
        if err != NoError {
          ReportedSince(old(log), seen, log, err);
          return;
        }
        ChunkDone(old(db), ids, start, end);
        done := end;
        seen := log;
        err := Ask();  // RowsAffected
        ErrorsAre(err);
        JustReported(old(log), seen, Asked(err));
        if err != NoError {
          return;
        }
        total := total + (before - |db.raw|);
        JustReported(old(log), log, Stopped);
        var cancelled := ContextDone();
        if cancelled {
          err := Cancelled;
          return;
        }
        start := start + chunk;
      }
      assert ids[..|ids|] == ids;
    }

    /** Deletes every raw packet that is neither referred to nor within the retained weeks.

        With no other writer it ends, for any batch and chunk size, having deleted exactly those
        rows.  When an error cuts it short it has deleted some of them, `gone`, and nothing else. */
    method PruneRawPackets(p: Policy, now: int, batch: nat, chunk: nat)
      returns (deleted: nat, err: Error, ghost gone: set<nat>)
      requires WellFormed(db) && batch > 0 && chunk > 0
      modifies this
      ensures PartlyPruned(p, now, old(db), db, gone)
      ensures deleted <= |old(db).raw| - |db.raw| <= deleted + batch
      ensures err == NoError ==> db == Pruned(p, now, old(db)) && deleted == |old(db).raw| - |db.raw|
      ensures err != NoError ==> Reported(old(log), log, err) && NineTimesBusy(old(log), log)
    {
      hide *;
      deleted, gone := 0, {};
      ghost var start := db;
      NothingPrunedYet(p, now, start);
      var protected;
      protected, err := ProtectedPacketHashes();
      ErrorsAre(err);
      JustReported(old(log), old(log), Asked(err));
      if err != NoError {
        return;
      }
      var lastId := 0;
      while true
        invariant PartlyPruned(p, now, start, db, gone)
        invariant deleted == |start.raw| - |db.raw|
        invariant RetainedUpTo(p, now, protected, db, lastId)
        invariant old(log) <= log
        decreases |Above(db.raw, lastId)|
      {
        JustReported(old(log), log, Stopped);
        var cancelled := ContextDone();
        if cancelled {
          err := Cancelled;
          return;
        }
        var rows;
        ghost var seen := log;
        rows, err := ScanRawPacketBatch(lastId, batch);
        ErrorsAre(err);
        JustReported(old(log), seen, Asked(err));
        if err != NoError {
          return;
        }
        if rows == [] {
          break;
        }
        var maxId := rows[|rows| - 1].id;
        var toDelete := Doomed(p, now, protected, rows);
        if toDelete == [] {
          BatchIsRetained(p, now, protected, start, db, gone, lastId, batch);
          lastId := maxId;
        } else {
          ghost var mid := db;
          seen := log;
          var n;
          ghost var done;
          n, err, done := DeleteRawPacketIDs(toDelete, chunk);
          ChunksPruned(p, now, start, mid, gone, lastId, batch, done);
          ghost var gone0 := gone;
          gone := gone + IdSet(toDelete[..done]);
          if err != NoError {
            ReportedSince(old(log), seen, log, err);
            BatchAtMost(p, now, start, mid, gone0, toDelete[..done], batch);
            return;
          }
          deleted := deleted + n;
          if n > 0 {
            JustReported(old(log), log, Stopped);
            cancelled := ContextDone();
            if cancelled {
              err := Cancelled;
              return;
            }
          }
        }
      }
      NothingLeft(p, now, start, db, gone, lastId, batch);
    }
  }

  /** Deleting the next chunk after the ids before it is deleting them together. */
  lemma ChunkDone(db: Db, ids: seq<nat>, start: nat, end: nat)
    requires start <= end <= |ids|
    ensures DeleteRaw(DeleteRaw(db, IdSet(ids[..start])), IdSet(ids[start..end])) == DeleteRaw(db, IdSet(ids[..end]))
    ensures |DeleteRaw(db, IdSet(ids[..end])).raw| <= |DeleteRaw(db, IdSet(ids[..start])).raw| <= |db.raw|
  {
    DeleteRawTwice(db, IdSet(ids[..start]), IdSet(ids[start..end]));
    assert ids[..end] == ids[..start] + ids[start..end];
    assert IdSet(ids[..end]) == IdSet(ids[..start]) + IdSet(ids[start..end]);
  }

  // ----- the prune loop's reasoning

  /** Some of the doomed rows, and nothing else, have been deleted since `start`. */
  ghost predicate PartlyPruned(p: Policy, now: int, start: Db, db: Db, gone: set<nat>) {
    gone <= DoomedIds(p, now, start) && db == DeleteRaw(start, gone)
  }

  ghost predicate RetainedUpTo(p: Policy, now: int, protected: set<string>, db: Db, id: int) {
    forall r :: r in db.raw && r.id <= id ==> Retain(p, now, protected, r)
  }

  /** However far a prune got, the store is in order and readers cannot tell that it ran. */
  lemma PartIsInvisible(p: Policy, now: int, start: Db, db: Db, gone: set<nat>)
    requires WellFormed(start) && PartlyPruned(p, now, start, db, gone)
    ensures WellFormed(db) && SameViews(start, db)
    ensures db.checkins == start.checkins && db.links == start.links
  {
    DoomedIsUnprotected(p, now, start, gone);
    DeletionKeepsProtected(start, gone);
    UnprotectedDeletionInvisible(start, gone);
    DeleteRawWellFormed(start, gone);
  }

  lemma NothingPrunedYet(p: Policy, now: int, start: Db)
    requires WellFormed(start)
    ensures PartlyPruned(p, now, start, start, {})
    ensures RetainedUpTo(p, now, ProtectedHashes(start), start, 0)
  {
    DeleteNothing(start);
  }

  /** If nothing in a batch is to be deleted, everything up to its last id is retained, and there
      are fewer rows beyond it. */
  lemma BatchIsRetained(p: Policy, now: int, protected: set<string>, start: Db, db: Db, gone: set<nat>, lastId: int, limit: nat)
    requires WellFormed(start) && PartlyPruned(p, now, start, db, gone) && limit > 0
    requires Batch(db.raw, lastId, limit) != []
    requires Doomed(p, now, protected, Batch(db.raw, lastId, limit)) == []
    requires RetainedUpTo(p, now, protected, db, lastId)
    ensures var rows := Batch(db.raw, lastId, limit);
            && RetainedUpTo(p, now, protected, db, rows[|rows| - 1].id)
            && |Above(db.raw, rows[|rows| - 1].id)| < |Above(db.raw, lastId)|
  {
    hide *;
    PartIsAscending(p, now, start, db, gone);
    LastIsAbove(db.raw, lastId, limit);
    var rows := Batch(db.raw, lastId, limit);
    var maxId := rows[|rows| - 1].id;
    NoneDoomed(p, now, protected, rows);
    forall r | r in db.raw && lastId < r.id <= maxId ensures Retain(p, now, protected, r) {
      BatchSkipsNothing(db.raw, lastId, limit, r);
    }
    RetainedFurther(p, now, protected, db, lastId, maxId);
    AdvanceShrinksAbove(db.raw, lastId, maxId);
  }

  lemma NoneDoomed(p: Policy, now: int, protected: set<string>, rows: seq<RawPacket>)
    requires Doomed(p, now, protected, rows) == []
    ensures forall r :: r in rows ==> Retain(p, now, protected, r)
  {
    forall r | r in rows ensures Retain(p, now, protected, r) {
      assert r.id !in Doomed(p, now, protected, rows);
    }
  }

  lemma RetainedFurther(p: Policy, now: int, protected: set<string>, db: Db, id: int, further: int)
    requires RetainedUpTo(p, now, protected, db, id)
    requires forall r :: r in db.raw && id < r.id <= further ==> Retain(p, now, protected, r)
    ensures RetainedUpTo(p, now, protected, db, further)
  {
  }

  lemma PartIsAscending(p: Policy, now: int, start: Db, db: Db, gone: set<nat>)
    requires WellFormed(start) && PartlyPruned(p, now, start, db, gone)
    ensures Ascending(db.raw)
  {
    RemoveIdsAscending(start.raw, gone);
  }

  lemma LastIsAbove(raw: seq<RawPacket>, after: int, limit: nat)
    requires Batch(raw, after, limit) != []
    ensures var rows := Batch(raw, after, limit);
            rows[|rows| - 1] in rows && rows[|rows| - 1] in raw && after < rows[|rows| - 1].id
  {
    var rows := Batch(raw, after, limit);
    assert rows[|rows| - 1] in Above(raw, after);
  }

  /** Deleting a prefix of a batch's ids deletes doomed rows only; deleting all of them leaves fewer
      rows to scan from the same place. */
  lemma ChunksPruned(p: Policy, now: int, start: Db, mid: Db, gone: set<nat>, lastId: int, limit: nat, done: nat)
    requires PartlyPruned(p, now, start, mid, gone)
    requires done <= |Doomed(p, now, ProtectedHashes(start), Batch(mid.raw, lastId, limit))|
    ensures var toDelete := Doomed(p, now, ProtectedHashes(start), Batch(mid.raw, lastId, limit));
            var after := DeleteRaw(mid, IdSet(toDelete[..done]));
            && PartlyPruned(p, now, start, after, gone + IdSet(toDelete[..done]))
            && |after.raw| <= |mid.raw|
            && (RetainedUpTo(p, now, ProtectedHashes(start), mid, lastId) ==>
                  RetainedUpTo(p, now, ProtectedHashes(start), after, lastId))
            && (done == |toDelete| > 0 ==> |Above(after.raw, lastId)| < |Above(mid.raw, lastId)|)
  {
    var rows := Batch(mid.raw, lastId, limit);
    var toDelete := Doomed(p, now, ProtectedHashes(start), rows);
    var ids := IdSet(toDelete[..done]);
    DeleteRawTwice(start, gone, ids);
    forall i | i in ids ensures i in DoomedIds(p, now, start) {
      assert i in toDelete;
    }
    DeletionShrinksAbove(mid.raw, ids, lastId);
    if done == |toDelete| > 0 {
      assert toDelete[0] in toDelete;
      assert toDelete[0] in ids;
    }
  }

  /** One batch costs no more rows than it has. */
  lemma BatchAtMost(p: Policy, now: int, start: Db, mid: Db, gone: set<nat>, ids: seq<nat>, batch: nat)
    requires WellFormed(start) && PartlyPruned(p, now, start, mid, gone) && |ids| <= batch
    ensures |mid.raw| - |DeleteRaw(mid, IdSet(ids)).raw| <= batch
  {
    RemoveIdsAscending(start.raw, gone);
    RemoveAtMost(mid.raw, IdSet(ids));
    IdSetSize(ids);
  }

  lemma {:induction false} IdSetSize(ids: seq<nat>)
    ensures |IdSet(ids)| <= |ids|
  {
    if ids != [] {
      IdSetSize(ids[1..]);
      assert IdSet(ids) == {ids[0]} + IdSet(ids[1..]);
    }
  }

  /** When the scan finds no more rows, every row left is retained and everything doomed is gone. */
  lemma NothingLeft(p: Policy, now: int, start: Db, db: Db, gone: set<nat>, lastId: int, limit: nat)
    requires WellFormed(start) && PartlyPruned(p, now, start, db, gone)
    requires RetainedUpTo(p, now, ProtectedHashes(start), db, lastId)
    requires Batch(db.raw, lastId, limit) == [] && limit > 0
    ensures db == Pruned(p, now, start)
  {
    assert Above(db.raw, lastId) == [];
    forall r | r in start.raw ensures r.id in gone <==> r.id in DoomedIds(p, now, start) {
      DoomedRow(p, now, start, r);
      if r.id !in gone {
        assert r in db.raw && r !in Above(db.raw, lastId);
      }
    }
    DeleteSame(start, gone, DoomedIds(p, now, start));
  }
}
