/** What a prune looks at and what it decides, shared by the stepwise model and by the methods. */
module Retention {
  import opened Calendar
  import opened Tables

  const SCAN_BATCH: nat := 400
  const DELETE_CHUNK: nat := 50

  datatype Policy = Policy(zone: Zone, target: DayOfWeek, retainWeeks: nat)

  predicate Retain(p: Policy, now: int, protected: set<string>, r: RawPacket) {
    r.hash in protected || InWindow(p.zone, p.target, now, p.retainWeeks, r.observedAt)
  }

  /** SELECT ... WHERE id > after ORDER BY id. */
  function Above(raw: seq<RawPacket>, after: int): (rows: seq<RawPacket>)
    ensures forall r :: r in rows <==> r in raw && r.id > after
  {
    if raw == [] then []
    else if raw[0].id > after then [raw[0]] + Above(raw[1..], after)
    else Above(raw[1..], after)
  }

  /** The same, with LIMIT limit. */
  function Batch(raw: seq<RawPacket>, after: int, limit: nat): (rows: seq<RawPacket>)
    ensures |rows| <= limit
  {
    var rows := Above(raw, after);
    if |rows| <= limit then rows else rows[..limit]
  }

  lemma {:induction false} AboveAscending(raw: seq<RawPacket>, after: int)
    requires Ascending(raw)
    ensures Ascending(Above(raw, after))
  {
    if raw != [] {
      AscendingSplit(raw);
      AboveAscending(raw[1..], after);
      if raw[0].id > after {
        AscendingJoin(raw[0], Above(raw[1..], after));
      }
    }
  }

  /** A batch is an unbroken stretch of the table: no row between `after` and its last id is skipped. */
  lemma BatchSkipsNothing(raw: seq<RawPacket>, after: int, limit: nat, r: RawPacket)
    requires Ascending(raw)
    requires r in raw && after < r.id
    requires var rows := Batch(raw, after, limit); rows == [] ==> limit > 0
    requires var rows := Batch(raw, after, limit); rows != [] ==> r.id <= rows[|rows| - 1].id
    ensures r in Batch(raw, after, limit)
  {
    AboveAscending(raw, after);
    var rows := Above(raw, after);
    var i :| 0 <= i < |rows| && rows[i] == r;
    if limit < |rows| {
      assert rows[..limit][limit - 1] == rows[limit - 1];
      assert i < limit;
      assert rows[..limit][i] == r;
    }
  }

  /** The ids of the scanned rows that are not retained, in scan order. */
  function Doomed(p: Policy, now: int, protected: set<string>, rows: seq<RawPacket>): (ids: seq<nat>)
    ensures forall i :: i in ids <==> exists r :: r in rows && r.id == i && !Retain(p, now, protected, r)
    ensures |ids| <= |rows|
  {
    if rows == [] then []
    else if Retain(p, now, protected, rows[0]) then Doomed(p, now, protected, rows[1..])
    else [rows[0].id] + Doomed(p, now, protected, rows[1..])
  }

  function IdSet(ids: seq<nat>): set<nat> {
    set i | i in ids
  }

  // ----- what is still ahead of a scan

  lemma {:induction false} DeletionShrinksAbove(raw: seq<RawPacket>, ids: set<nat>, after: int)
    ensures |Above(RemoveIds(raw, ids), after)| <= |Above(raw, after)|
    ensures (exists r :: r in raw && r.id in ids && r.id > after) ==>
              |Above(RemoveIds(raw, ids), after)| < |Above(raw, after)|
  {
    if raw != [] {
      DeletionShrinksAbove(raw[1..], ids, after);
    }
  }

  lemma {:induction false} AdvanceShrinksAbove(raw: seq<RawPacket>, before: int, after: int)
    requires before <= after
    ensures |Above(raw, after)| <= |Above(raw, before)|
    ensures (exists r :: r in raw && before < r.id <= after) ==> |Above(raw, after)| < |Above(raw, before)|
  {
    if raw != [] {
      AdvanceShrinksAbove(raw[1..], before, after);
    }
  }
}
