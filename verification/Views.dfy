/** The two read queries, and why deleting unprotected raw rows is invisible to them. */
module Views {
  import opened Tables

  /** SELECT DISTINCT observer_key, joined from a check-in through its user's links of the week. */
  function Observers(db: Db, week: int, username: string): set<string> {
    set l, o | l in db.links && o in db.observations && l.weekStart == week && l.username == username
               && o.hash == l.hash :: o.observer
  }

  /** The optional EXISTS clause: some linked packet was heard in one of the regions. */
  predicate PassesFilter(db: Db, iatas: set<string>, c: Checkin) {
    iatas == {} ||
    exists l, r :: l in db.links && r in db.raw && l.weekStart == c.weekStart && l.username == c.username
                   && r.hash == l.hash && r.iata in iatas
  }

  datatype WeekRow = WeekRow(checkin: Checkin, observers: set<string>)

  /** `ListCheckinsByWeek`, as a set of rows. */
  function WeekView(db: Db, iatas: set<string>, week: int): set<WeekRow> {
    set c | c in db.checkins && c.weekStart == week && PassesFilter(db, iatas, c) ::
      WeekRow(c, Observers(db, week, c.username))
  }

  /** `ListCheckinsSince`, as a set of rows. */
  function SinceView(db: Db, iatas: set<string>, from: int): set<Checkin> {
    set c | c in db.checkins && c.checkinDate >= from && PassesFilter(db, iatas, c)
  }

  function LinkKeys(db: Db): set<(int, string, string)> {
    set l | l in db.links :: (l.weekStart, l.username, l.hash)
  }

  function CheckinKeys(db: Db): set<(int, string)> {
    set c | c in db.checkins :: (c.weekStart, c.username)
  }

  ghost predicate SameViews(a: Db, b: Db) {
    && (forall iatas, week :: WeekView(a, iatas, week) == WeekView(b, iatas, week))
    && (forall iatas, from :: SinceView(a, iatas, from) == SinceView(b, iatas, from))
  }

  /** The ids name no row that a check-in or a link refers to. */
  ghost predicate Unprotected(db: Db, ids: set<nat>) {
    forall r :: r in db.raw && r.id in ids ==> r.hash !in ProtectedHashes(db)
  }

  lemma DeletionKeepsProtected(db: Db, ids: set<nat>)
    requires Unprotected(db, ids)
    ensures DeleteRaw(db, ids).checkins == db.checkins
    ensures DeleteRaw(db, ids).links == db.links
    ensures ProtectedHashes(DeleteRaw(db, ids)) == ProtectedHashes(db)
  {
  }

  lemma SameObservers(db: Db, ids: set<nat>, week: int, username: string)
    requires Unprotected(db, ids)
    ensures Observers(DeleteRaw(db, ids), week, username) == Observers(db, week, username)
  {
  }

  lemma SameFilter(db: Db, ids: set<nat>, iatas: set<string>, c: Checkin)
    requires WellFormed(db) && Unprotected(db, ids)
    ensures PassesFilter(DeleteRaw(db, ids), iatas, c) == PassesFilter(db, iatas, c)
  {
  }

  /** Deleting raw rows that nothing refers to changes neither view, for any region filter and date. */
  lemma UnprotectedDeletionInvisible(db: Db, ids: set<nat>)
    requires WellFormed(db) && Unprotected(db, ids)
    ensures SameViews(db, DeleteRaw(db, ids))
  {
    DeletionKeepsProtected(db, ids);
    var after := DeleteRaw(db, ids);
    forall iatas: set<string>, week ensures WeekView(db, iatas, week) == WeekView(after, iatas, week) {
      forall c | c in db.checkins
        ensures PassesFilter(after, iatas, c) == PassesFilter(db, iatas, c)
        ensures Observers(after, week, c.username) == Observers(db, week, c.username)
      {
        SameFilter(db, ids, iatas, c);
        SameObservers(db, ids, week, c.username);
      }
    }
    forall iatas: set<string>, from ensures SinceView(db, iatas, from) == SinceView(after, iatas, from) {
      forall c | c in db.checkins ensures PassesFilter(after, iatas, c) == PassesFilter(db, iatas, c) {
        SameFilter(db, ids, iatas, c);
      }
    }
  }

  /** Deleting a row that a check-in refers to is never invisible. */
  lemma ProtectedDeletionVisible(db: Db, ids: set<nat>, c: Checkin, r: RawPacket)
    requires c in db.checkins && r in db.raw && r.hash == c.hash && r.id in ids
    ensures !SameViews(db, DeleteRaw(db, ids))
  {
    var after := DeleteRaw(db, ids);
    assert c.hash in HashesOf(db.raw, ids);
    assert c in SinceView(db, {}, c.checkinDate) && c !in SinceView(after, {}, c.checkinDate);
  }

  // ----- what the filters select

  predicate ShownInWeek(db: Db, iatas: set<string>, week: int, c: Checkin) {
    exists row :: row in WeekView(db, iatas, week) && row.checkin == c
  }

  /** Unfiltered, the week view shows each check-in once, in its own week, with everyone who observed a
      packet of its user that week; the other view shows the check-ins from a date on. */
  lemma UnfilteredViews(db: Db, week: int, from: int, c: Checkin)
    ensures ShownInWeek(db, {}, week, c) <==> c in db.checkins && c.weekStart == week
    ensures c in SinceView(db, {}, from) <==> c in db.checkins && from <= c.checkinDate
    ensures forall iatas, row, name :: row in WeekView(db, iatas, week) ==>
              (name in row.observers <==>
                 exists l, o :: l in db.links && o in db.observations && l.weekStart == week
                                && l.username == row.checkin.username && l.hash == o.hash && o.observer == name)
  {
    if c in db.checkins && c.weekStart == week {
      assert WeekRow(c, Observers(db, week, c.username)) in WeekView(db, {}, week);
    }
  }

  /** Filtering takes rows away and changes none. */
  lemma FilteringOnlyHides(db: Db, iatas: set<string>, week: int, from: int)
    ensures WeekView(db, iatas, week) <= WeekView(db, {}, week)
    ensures SinceView(db, iatas, from) <= SinceView(db, {}, from)
  {
  }

  /** Filtering by two lists of regions shows what either of them shows. */
  lemma FiltersAdd(db: Db, a: set<string>, b: set<string>, week: int, from: int)
    requires a != {} && b != {}
    ensures WeekView(db, a + b, week) == WeekView(db, a, week) + WeekView(db, b, week)
    ensures SinceView(db, a + b, from) == SinceView(db, a, from) + SinceView(db, b, from)
  {
    assert a + b != {};
    forall c: Checkin ensures PassesFilter(db, a + b, c) == (PassesFilter(db, a, c) || PassesFilter(db, b, c)) {
      FilterAdds(db, a, b, c);
    }
    hide PassesFilter, Observers;
  }

  lemma FilterAdds(db: Db, a: set<string>, b: set<string>, c: Checkin)
    requires a != {} && b != {} && a + b != {}
    ensures PassesFilter(db, a + b, c) == (PassesFilter(db, a, c) || PassesFilter(db, b, c))
  {
  }

  /** Some packet that this user's links of the week refer to was heard in this region. */
  ghost predicate HeardIn(db: Db, week: int, username: string, iata: string) {
    exists l, r :: l in db.links && r in db.raw && l.weekStart == week && l.username == username
                   && l.hash == r.hash && r.iata == iata
  }

  /** A region list shows exactly the check-ins whose user was heard in one of the regions that week;
      so a list that names none of them excludes it. */
  lemma FilterSelectsRegions(db: Db, iatas: set<string>, from: int, c: Checkin)
    requires c in db.checkins && iatas != {}
    ensures ShownInWeek(db, iatas, c.weekStart, c) <==> exists iata :: iata in iatas && HeardIn(db, c.weekStart, c.username, iata)
    ensures from <= c.checkinDate ==>
              (c in SinceView(db, iatas, from) <==> exists iata :: iata in iatas && HeardIn(db, c.weekStart, c.username, iata))
  {
    FilterMeans(db, iatas, c);
    hide PassesFilter, HeardIn, Observers;
    if PassesFilter(db, iatas, c) {
      assert WeekRow(c, Observers(db, c.weekStart, c.username)) in WeekView(db, iatas, c.weekStart);
    }
  }

  lemma FilterMeans(db: Db, iatas: set<string>, c: Checkin)
    requires iatas != {}
    ensures PassesFilter(db, iatas, c) <==> exists iata :: iata in iatas && HeardIn(db, c.weekStart, c.username, iata)
  {
    if PassesFilter(db, iatas, c) {
      var l, r :| l in db.links && r in db.raw && l.weekStart == c.weekStart && l.username == c.username
                  && r.hash == l.hash && r.iata in iatas;
      assert HeardIn(db, c.weekStart, c.username, r.iata);
    }
  }

  // ----- the export bundle

  function KeepProtected(raw: seq<RawPacket>, hashes: set<string>): seq<RawPacket> {
    if raw == [] then []
    else if raw[0].hash in hashes then [raw[0]] + KeepProtected(raw[1..], hashes)
    else KeepProtected(raw[1..], hashes)
  }

  /** The four SELECTs of the export script. */
  function Bundle(db: Db): Db {
    var hashes := ProtectedHashes(db);
    db.(raw := KeepProtected(db.raw, hashes),
        observations := set o | o in db.observations && o.hash in hashes)
  }

  function UnprotectedIds(db: Db): set<nat> {
    set r | r in db.raw && r.hash !in ProtectedHashes(db) :: r.id
  }

  lemma {:induction false} KeepIsRemove(raw: seq<RawPacket>, hashes: set<string>, ids: set<nat>)
    requires forall r :: r in raw ==> (r.id in ids <==> r.hash !in hashes)
    ensures KeepProtected(raw, hashes) == RemoveIds(raw, ids)
  {
    if raw != [] {
      KeepIsRemove(raw[1..], hashes, ids);
    }
  }

  lemma BundleIsDeletion(db: Db)
    requires WellFormed(db)
    ensures Unprotected(db, UnprotectedIds(db))
    ensures Bundle(db) == DeleteRaw(db, UnprotectedIds(db))
  {
    var ids := UnprotectedIds(db);
    forall r | r in db.raw ensures r.id in ids <==> r.hash !in ProtectedHashes(db) {
      if r.id in ids {
        var q :| q in db.raw && q.hash !in ProtectedHashes(db) && q.id == r.id;
        IdsAreUnique(db.raw, q, r);
      }
    }
    KeepIsRemove(db.raw, ProtectedHashes(db), ids);
    DeletionKeepsProtected(db, ids);
    forall o | o in db.observations ensures o.hash in ProtectedHashes(db) <==> o.hash !in HashesOf(db.raw, ids) {
      assert HasRaw(db, o.hash);
    }
  }

  /** An export bundle satisfies every key and foreign key of the schema, so an empty store accepts
      it, and readers of the new store see exactly what readers of the old one saw. */
  lemma BundleRoundTrip(db: Db)
    requires WellFormed(db)
    ensures WellFormed(Bundle(db))
    ensures SameViews(db, Bundle(db))
    ensures Bundle(Bundle(db)) == Bundle(db)
    ensures Bundle(db).checkins == db.checkins && Bundle(db).links == db.links
    ensures forall r :: r in Bundle(db).raw <==>
              r in db.raw && ((exists c :: c in db.checkins && c.hash == r.hash) || exists l :: l in db.links && l.hash == r.hash)
    ensures forall o :: o in Bundle(db).observations <==> o in db.observations && HasRaw(Bundle(db), o.hash)
  {
    var ids := UnprotectedIds(db);
    BundleIsDeletion(db);
    DeleteRawWellFormed(db, ids);
    UnprotectedDeletionInvisible(db, ids);
    DeletionKeepsProtected(db, ids);
    BundleIsDeletion(Bundle(db));
    assert UnprotectedIds(Bundle(db)) == {};
    DeleteNothing(Bundle(db));
    BundleContents(db);
  }

  lemma {:induction false} KeptRows(raw: seq<RawPacket>, hashes: set<string>)
    ensures forall r :: r in KeepProtected(raw, hashes) <==> r in raw && r.hash in hashes
  {
    if raw != [] {
      KeptRows(raw[1..], hashes);
      assert raw == [raw[0]] + raw[1..];
    }
  }

  /** What a bundle holds: the packets that a check-in or a link refers to, and all that refers to them. */
  lemma BundleContents(db: Db)
    requires WellFormed(db)
    ensures Bundle(db).checkins == db.checkins && Bundle(db).links == db.links
    ensures forall r :: r in Bundle(db).raw <==>
              r in db.raw && ((exists c :: c in db.checkins && c.hash == r.hash) || exists l :: l in db.links && l.hash == r.hash)
    ensures forall o :: o in Bundle(db).observations <==> o in db.observations && HasRaw(Bundle(db), o.hash)
  {
    KeptRows(db.raw, ProtectedHashes(db));
    forall o | o in db.observations ensures o.hash in ProtectedHashes(db) <==> HasRaw(Bundle(db), o.hash) {
      assert HasRaw(db, o.hash);
      if o.hash in ProtectedHashes(db) {
        var r :| r in db.raw && r.hash == o.hash;
        assert r in Bundle(db).raw;
      }
    }
  }
}
