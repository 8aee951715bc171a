/** The reservation table (the ORM's `reservation` model) as an in-memory
    sequence of rows, with the queries and updates the routes issue. */
module Reservations {
  import opened Wrappers
  import opened Seqs

  /** `ReservationStatus` of the database schema. */
  datatype Status = Pending | Confirmed | CheckedOut | Completed | Cancelled {

    /** The stored enum literal. */
    function Name(): string {
      match this
      case Pending => "PENDING"
      case Confirmed => "CONFIRMED"
      case CheckedOut => "CHECKED_OUT"
      case Completed => "COMPLETED"
      case Cancelled => "CANCELLED"
    }
  }

  /** The `status: { in: ['PENDING', 'CONFIRMED', 'CHECKED_OUT'] }` filter. */
  predicate IsActive(s: Status) {
    s == Pending || s == Confirmed || s == CheckedOut
  }

  /** One row. `assetId` is the Snipe-IT asset id (`snipeAssetId`; the older
      library code calls the same column `assetId`), `block` the optional
      block label that only the older library code queries. */
  datatype Reservation = Reservation(
    id: nat,
    assetId: int,
    userId: string,
    startTime: int,
    endTime: int,
    status: Status,
    category: string,
    block: Option<string>)

  /** The inclusive overlap filter
      `startTime <= end AND endTime >= start`. */
  predicate OverlapsWindow(r: Reservation, start: int, end: int) {
    r.startTime <= end && r.endTime >= start
  }

  /** A row that blocks a new booking of `assetId` over `[start, end]`. */
  predicate Conflicts(r: Reservation, assetId: int, start: int, end: int) {
    r.assetId == assetId && IsActive(r.status) && OverlapsWindow(r, start, end)
  }

  function ConflictsWith(assetId: int, start: int, end: int): Reservation -> bool {
    r => Conflicts(r, assetId, start, end)
  }

  /** Row ids are the autoincrement ids 1, 2, 3, ... in table order, so
      ids are unique, no row has id 0 and `findUnique` is an index lookup. */
  predicate WellKeyed(rows: seq<Reservation>) {
    forall i :: 0 <= i < |rows| ==> rows[i].id == i + 1
  }

  /** `!reservationId` fails: the id is present and not the falsy `0`. */
  predicate IdGiven(reservationId: Option<int>) {
    reservationId.Some? && reservationId.value != 0
  }

  /** `findUnique({ where: { id } })` on the table. */
  function Lookup(rows: seq<Reservation>, id: int): (r: Option<Reservation>)
    requires WellKeyed(rows)
    ensures r.Some? <==> exists i :: 0 <= i < |rows| && rows[i].id == id
    ensures r.Some? ==> r.value in rows && r.value.id == id
  {
    if 1 <= id <= |rows| then Some(rows[id - 1]) else None
  }

  /** Two rows on one asset, both active, whose intervals overlap. */
  predicate Clash(a: Reservation, b: Reservation) {
    a.assetId == b.assetId && IsActive(a.status) && IsActive(b.status) &&
    OverlapsWindow(a, b.startTime, b.endTime)
  }

  /** The overlap relation is symmetric. */
  lemma ClashSymmetric(a: Reservation, b: Reservation)
    ensures Clash(a, b) <==> Clash(b, a)
  {
  }

  /** No double booking: no two distinct rows clash. */
  predicate NoDoubleBooking(rows: seq<Reservation>) {
    forall i, j :: 0 <= i < j < |rows| ==> !Clash(rows[i], rows[j])
  }

  /** The lifecycle: PENDING -> CONFIRMED -> CHECKED_OUT -> COMPLETED, and
      CANCELLED from PENDING or CONFIRMED. */
  predicate LegalStep(from: Status, to: Status) {
    (from == Pending && to == Confirmed) ||
    (from == Confirmed && to == CheckedOut) ||
    (from == CheckedOut && to == Completed) ||
    ((from == Pending || from == Confirmed) && to == Cancelled)
  }

  /** Position of a status along the lifecycle. */
  function Rank(s: Status): nat {
    match s
    case Pending => 0
    case Confirmed => 1
    case CheckedOut => 2
    case Completed => 3
    case Cancelled => 3
  }

  /** Every legal step moves forward, so no sequence of steps returns a row
      to an earlier state. */
  lemma LegalStepAdvances(from: Status, to: Status)
    requires LegalStep(from, to)
    ensures Rank(from) < Rank(to)
  {
  }

  /** The change a request may make to the table: existing rows keep every
      field except that their status may take one legal step; rows may be
      appended. */
  predicate TableStep(before: seq<Reservation>, after: seq<Reservation>) {
    |before| <= |after| &&
    forall i :: 0 <= i < |before| ==>
      after[i] == before[i] ||
      (after[i] == before[i].(status := after[i].status) && LegalStep(before[i].status, after[i].status))
  }

  /** The table the routes read and write. */
  class ReservationTable {
    var rows: seq<Reservation>

    ghost predicate Valid()
      reads this
    {
      WellKeyed(rows)
    }

    constructor ()
      ensures Valid() && rows == []
    {
      rows := [];
    }

    /** `findUnique({ where: { id } })`. */
    method FindUnique(id: int) returns (r: Option<Reservation>)
      requires Valid()
      ensures r.Some? <==> 1 <= id <= |rows|
      ensures r.Some? ==> r.value == rows[id - 1] && r.value.id == id
    {
      if 1 <= id <= |rows| {
        r := Some(rows[id - 1]);
      } else {
        r := None;
      }
    }

    /** `findFirst` with the reserve route's filter: the first row, in table
        order, on `assetId` with an active status overlapping `[start, end]`
        inclusively. */
    method FindFirstConflict(assetId: int, start: int, end: int) returns (found: Option<Reservation>)
      ensures found.None? <==> Filter(rows, ConflictsWith(assetId, start, end)) == []
      ensures found.Some? ==> found.value == Filter(rows, ConflictsWith(assetId, start, end))[0]
    {
      var p := ConflictsWith(assetId, start, end);
      var i := 0;
      while i < |rows|
        invariant 0 <= i <= |rows|
        invariant Filter(rows[..i], p) == []
      {
        FilterSnoc(rows, i, p);
        if p(rows[i]) {
          assert rows == rows[..i + 1] + rows[i + 1..];
          FilterAppend(rows[..i + 1], rows[i + 1..], p);
          return Some(rows[i]);
        }
        i := i + 1;
      }
      assert rows[..i] == rows;
      found := None;
    }

    /** `create({ data })`: append a row with the next autoincrement id. */
    method Create(assetId: int, userId: string, start: int, end: int, status: Status, category: string)
      returns (created: Reservation)
      requires Valid()
      modifies this
      ensures Valid()
      ensures created == Reservation(|old(rows)| + 1, assetId, userId, start, end, status, category, None)
      ensures rows == old(rows) + [created]
    {
      created := Reservation(|rows| + 1, assetId, userId, start, end, status, category, None);
      rows := rows + [created];
    }

    /** `update({ where: { id }, data: { status } })`. */
    method UpdateStatus(id: nat, status: Status) returns (updated: Reservation)
      requires Valid() && 1 <= id <= |rows|
      modifies this
      ensures Valid()
      ensures updated == old(rows)[id - 1].(status := status)
      ensures rows == old(rows)[id - 1 := updated]
    {
      updated := rows[id - 1].(status := status);
      rows := rows[id - 1 := updated];
    }
  }
}
