/** The four related tables and the SQL statements that change them.

    Each statement is one atomic step.  UNIQUE keys, foreign keys with ON DELETE CASCADE and
    AUTOINCREMENT ids are part of what a statement does; that they hold of the tables is proved.
    `raw` lists rows in primary-key order, the order it is scanned in; the other tables are sets.
    Dates are day numbers and instants are Unix seconds.
  */
module Tables {

  datatype RawPacket = RawPacket(id: nat, hash: string, iata: string, payloadHex: string, observedAt: int)

  datatype Checkin = Checkin(
    id: nat, hash: string, username: string, displayName: string, message: string, iata: string,
    checkinDate: int, weekStart: int, createdAt: int)

  datatype Observation = Observation(hash: string, observer: string, observedAt: int)

  datatype Link = Link(weekStart: int, username: string, hash: string, createdAt: int)

  datatype Db = Db(
    raw: seq<RawPacket>,
    checkins: set<Checkin>,
    observations: set<Observation>,
    links: set<Link>,
    nextRawId: nat,
    nextCheckinId: nat)

  const EMPTY: Db := Db([], {}, {}, {}, 1, 1)

  /** What a statement reports: a row stored, a conflicting row kept, or a foreign key refused. */
  datatype Outcome = Stored | Ignored | Refused

  predicate HasRaw(db: Db, hash: string) {
    exists r :: r in db.raw && r.hash == hash
  }

  predicate HasObservation(db: Db, hash: string, observer: string) {
    exists o :: o in db.observations && o.hash == hash && o.observer == observer
  }

  predicate HasLink(db: Db, week: int, username: string, hash: string) {
    exists l :: l in db.links && l.weekStart == week && l.username == username && l.hash == hash
  }

  predicate HasCheckin(db: Db, week: int, username: string) {
    exists c :: c in db.checkins && c.weekStart == week && c.username == username
  }

  predicate HasCheckinPacket(db: Db, hash: string) {
    exists c :: c in db.checkins && c.hash == hash
  }

  // ----- statements

  function InsertRaw(db: Db, hash: string, iata: string, payloadHex: string, observedAt: int): Db {
    if HasRaw(db, hash) then
      db
    else
      db.(raw := db.raw + [RawPacket(db.nextRawId, hash, iata, payloadHex, observedAt)],
          nextRawId := db.nextRawId + 1)
  }

  function ObservationOutcome(db: Db, o: Observation): Outcome {
    if HasObservation(db, o.hash, o.observer) then Ignored
    else if HasRaw(db, o.hash) then Stored
    else Refused
  }

  function InsertObservation(db: Db, o: Observation): Db {
    if ObservationOutcome(db, o) == Stored then db.(observations := db.observations + {o}) else db
  }

  function LinkOutcome(db: Db, l: Link): Outcome {
    if HasLink(db, l.weekStart, l.username, l.hash) then Ignored
    else if HasRaw(db, l.hash) then Stored
    else Refused
  }

  function InsertLink(db: Db, l: Link): Db {
    if LinkOutcome(db, l) == Stored then db.(links := db.links + {l}) else db
  }

  function CheckinOutcome(db: Db, c: Checkin): Outcome {
    if HasCheckin(db, c.weekStart, c.username) || HasCheckinPacket(db, c.hash) then Ignored
    else if HasRaw(db, c.hash) then Stored
    else Refused
  }

  /** The id of `c` is assigned by the table. */
  function InsertCheckin(db: Db, c: Checkin): Db {
    if CheckinOutcome(db, c) == Stored then
      db.(checkins := db.checkins + {c.(id := db.nextCheckinId)}, nextCheckinId := db.nextCheckinId + 1)
    else
      db
  }

  function RemoveIds(raw: seq<RawPacket>, ids: set<nat>): (kept: seq<RawPacket>)
    ensures |kept| <= |raw|
    ensures forall r :: r in kept <==> r in raw && r.id !in ids
  {
    if raw == [] then []
    else if raw[0].id in ids then RemoveIds(raw[1..], ids)
    else [raw[0]] + RemoveIds(raw[1..], ids)
  }

  function HashesOf(raw: seq<RawPacket>, ids: set<nat>): set<string> {
    set r | r in raw && r.id in ids :: r.hash
  }

  /** DELETE FROM raw_packets WHERE id IN (ids), with the cascade to the three child tables. */
  function DeleteRaw(db: Db, ids: set<nat>): Db {
    var gone := HashesOf(db.raw, ids);
    db.(raw := RemoveIds(db.raw, ids),
        checkins := (set c | c in db.checkins && c.hash !in gone),
        observations := (set o | o in db.observations && o.hash !in gone),
        links := (set l | l in db.links && l.hash !in gone))
  }

  /** SELECT packet_hash FROM checkins UNION SELECT packet_hash FROM checkin_packets. */
  function ProtectedHashes(db: Db): set<string> {
    (set c | c in db.checkins :: c.hash) + (set l | l in db.links :: l.hash)
  }

  // ----- integrity

  predicate Ascending(raw: seq<RawPacket>) {
    forall i, j :: 0 <= i < j < |raw| ==> raw[i].id < raw[j].id
  }

  ghost predicate RawKeys(db: Db) {
    && Ascending(db.raw)
    && (forall r :: r in db.raw ==> 0 < r.id < db.nextRawId)
    && 0 < db.nextRawId
    && (forall r, s :: r in db.raw && s in db.raw && r.hash == s.hash ==> r == s)
  }

  /** The index on (week_start, username): one check-in per user per week. */
  ghost predicate OnePerUserAndWeek(db: Db) {
    forall c, d | c in db.checkins && d in db.checkins ::
      c.weekStart == d.weekStart && c.username == d.username ==> c == d
  }

  /** The UNIQUE constraints of the child tables. */
  ghost predicate ChildKeys(db: Db) {
    && (forall c :: c in db.checkins ==> c.id < db.nextCheckinId)
    && (forall c, d :: c in db.checkins && d in db.checkins && c.id == d.id ==> c == d)
    && (forall c, d :: c in db.checkins && d in db.checkins && c.hash == d.hash ==> c == d)
    && OnePerUserAndWeek(db)
    && (forall o, p | o in db.observations && p in db.observations ::
          o.hash == p.hash && o.observer == p.observer ==> o == p)
    && (forall l, m | l in db.links && m in db.links ::
          l.weekStart == m.weekStart && l.username == m.username && l.hash == m.hash ==> l == m)
  }

  ghost predicate ForeignKeys(db: Db) {
    && (forall c :: c in db.checkins ==> HasRaw(db, c.hash))
    && (forall o :: o in db.observations ==> HasRaw(db, o.hash))
    && (forall l :: l in db.links ==> HasRaw(db, l.hash))
  }

  ghost predicate WellFormed(db: Db) {
    RawKeys(db) && ChildKeys(db) && ForeignKeys(db)
  }

  lemma IdsAreUnique(raw: seq<RawPacket>, a: RawPacket, b: RawPacket)
    requires Ascending(raw) && a in raw && b in raw && a.id == b.id
    ensures a == b
  {
  }

  lemma InsertRawWellFormed(db: Db, hash: string, iata: string, payloadHex: string, observedAt: int)
    requires WellFormed(db)
    ensures WellFormed(InsertRaw(db, hash, iata, payloadHex, observedAt))
    ensures HasRaw(InsertRaw(db, hash, iata, payloadHex, observedAt), hash)
  {
  }

  lemma InsertObservationWellFormed(db: Db, o: Observation)
    requires WellFormed(db)
    ensures WellFormed(InsertObservation(db, o))
  {
    var after := InsertObservation(db, o);
    assert forall h :: HasRaw(after, h) == HasRaw(db, h);
  }

  lemma InsertLinkWellFormed(db: Db, l: Link)
    requires WellFormed(db)
    ensures WellFormed(InsertLink(db, l))
  {
    var after := InsertLink(db, l);
    assert forall h :: HasRaw(after, h) == HasRaw(db, h);
  }

  lemma InsertCheckinWellFormed(db: Db, c: Checkin)
    requires WellFormed(db)
    ensures WellFormed(InsertCheckin(db, c))
  {
    var after := InsertCheckin(db, c);
    assert forall h :: HasRaw(after, h) == HasRaw(db, h);
    if CheckinOutcome(db, c) == Stored {
      NewCheckinKeys(db, c.(id := db.nextCheckinId));
      assert RawKeys(after);
    }
  }

  lemma NewCheckinKeys(db: Db, c: Checkin)
    requires ChildKeys(db) && c.id == db.nextCheckinId
    requires !HasCheckin(db, c.weekStart, c.username) && !HasCheckinPacket(db, c.hash)
    ensures ChildKeys(db.(checkins := db.checkins + {c}, nextCheckinId := db.nextCheckinId + 1))
  {
  }

  lemma AscendingSplit(raw: seq<RawPacket>)
    requires Ascending(raw) && raw != []
    ensures Ascending(raw[1..])
    ensures forall r :: r in raw[1..] ==> raw[0].id < r.id
  {
  }

  lemma AscendingJoin(head: RawPacket, rest: seq<RawPacket>)
    requires Ascending(rest)
    requires forall r :: r in rest ==> head.id < r.id
    ensures Ascending([head] + rest)
  {
  }

  lemma {:induction false} RemoveIdsAscending(raw: seq<RawPacket>, ids: set<nat>)
    requires Ascending(raw)
    ensures Ascending(RemoveIds(raw, ids))
  {
    if raw != [] {
      AscendingSplit(raw);
      RemoveIdsAscending(raw[1..], ids);
      AscendingJoin(raw[0], RemoveIds(raw[1..], ids));
    }
  }

  lemma DeleteRawWellFormed(db: Db, ids: set<nat>)
    requires WellFormed(db)
    ensures WellFormed(DeleteRaw(db, ids))
  {
    var after := DeleteRaw(db, ids);
    RemoveIdsAscending(db.raw, ids);
    forall h | HasRaw(db, h) && h !in HashesOf(db.raw, ids) ensures HasRaw(after, h) {
      var r :| r in db.raw && r.hash == h;
      assert r in after.raw;
    }
  }

  /** Exactly the children of surviving packets survive. */
  lemma SurvivorsKeepChildren(db: Db, ids: set<nat>)
    requires WellFormed(db)
    ensures var after := DeleteRaw(db, ids);
            && (forall r :: r in after.raw <==> r in db.raw && r.id !in ids)
            && (forall c :: c in after.checkins <==> c in db.checkins && HasRaw(after, c.hash))
            && (forall o :: o in after.observations <==> o in db.observations && HasRaw(after, o.hash))
            && (forall l :: l in after.links <==> l in db.links && HasRaw(after, l.hash))
  {
    var after := DeleteRaw(db, ids);
    forall h | HasRaw(db, h) ensures HasRaw(after, h) <==> h !in HashesOf(db.raw, ids) {
      var r :| r in db.raw && r.hash == h;
      if h !in HashesOf(db.raw, ids) {
        assert r in after.raw;
      }
    }
  }

  // ----- deletions compose

  lemma {:induction false} RemoveIdsTwice(raw: seq<RawPacket>, a: set<nat>, b: set<nat>)
    ensures RemoveIds(RemoveIds(raw, a), b) == RemoveIds(raw, a + b)
  {
    if raw != [] {
      RemoveIdsTwice(raw[1..], a, b);
      if raw[0].id !in a {
        var kept := [raw[0]] + RemoveIds(raw[1..], a);
        assert kept[1..] == RemoveIds(raw[1..], a);
      }
    }
  }

  lemma DeleteRawTwice(db: Db, a: set<nat>, b: set<nat>)
    ensures DeleteRaw(DeleteRaw(db, a), b) == DeleteRaw(db, a + b)
  {
    RemoveIdsTwice(db.raw, a, b);
    assert HashesOf(db.raw, a + b) == HashesOf(db.raw, a) + HashesOf(RemoveIds(db.raw, a), b);
  }

  lemma {:induction false} RemoveNothing(raw: seq<RawPacket>, ids: set<nat>)
    requires forall r :: r in raw ==> r.id !in ids
    ensures RemoveIds(raw, ids) == raw
  {
    if raw != [] {
      RemoveNothing(raw[1..], ids);
    }
  }

  /** Deletions that agree on the ids actually present agree. */
  lemma {:induction false} RemoveSame(raw: seq<RawPacket>, a: set<nat>, b: set<nat>)
    requires forall r :: r in raw ==> (r.id in a <==> r.id in b)
    ensures RemoveIds(raw, a) == RemoveIds(raw, b)
  {
    if raw != [] {
      RemoveSame(raw[1..], a, b);
    }
  }

  lemma DeleteSame(db: Db, a: set<nat>, b: set<nat>)
    requires forall r :: r in db.raw ==> (r.id in a <==> r.id in b)
    ensures DeleteRaw(db, a) == DeleteRaw(db, b)
  {
    RemoveSame(db.raw, a, b);
    assert HashesOf(db.raw, a) == HashesOf(db.raw, b);
  }

  /** No more rows go than there are ids. */
  lemma {:induction false} RemoveAtMost(raw: seq<RawPacket>, ids: set<nat>)
    requires Ascending(raw)
    ensures |raw| - |RemoveIds(raw, ids)| <= |ids|
  {
    if raw != [] {
      AscendingSplit(raw);
      if raw[0].id in ids {
        RemoveAtMost(raw[1..], ids - {raw[0].id});
        RemoveSame(raw[1..], ids, ids - {raw[0].id});
      } else {
        RemoveAtMost(raw[1..], ids);
      }
    }
  }

  lemma DeleteNothing(db: Db)
    ensures DeleteRaw(db, {}) == db
  {
    RemoveNothing(db.raw, {});
    var after := DeleteRaw(db, {});
    assert HashesOf(db.raw, {}) == {};
    assert after.checkins == db.checkins && after.observations == db.observations && after.links == db.links;
  }
}
