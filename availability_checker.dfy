/** `checkAvailability` of `src/lib/availability-checker.ts`: is an asset free
    over a window widened by a one-hour buffer on both sides? */
module AvailabilityChecker {
  import opened Seqs
  import opened Time
  import opened Reservations

  const BUFFER_HOURS := 1

  /** The query filter: same asset, and inclusive overlap with the buffered
      window. Status is not part of it. */
  predicate BlocksBuffered(r: Reservation, assetId: int, start: int, end: int) {
    r.assetId == assetId &&
    r.startTime <= AddHours(end, BUFFER_HOURS) && r.endTime >= AddHours(start, -BUFFER_HOURS)
  }

  function BlocksBufferedWindow(assetId: int, start: int, end: int): Reservation -> bool {
    r => BlocksBuffered(r, assetId, start, end)
  }

  /** `checkAvailability(assetId, start, end)`: the `findMany` result is empty. */
  function CheckAvailability(rows: seq<Reservation>, assetId: int, start: int, end: int): (available: bool)
    ensures available <==>
              forall r :: r in rows && r.assetId == assetId ==>
                r.startTime > end + MS_PER_HOUR || r.endTime < start - MS_PER_HOUR
  {
    var overlapping := Filter(rows, BlocksBufferedWindow(assetId, start, end));
    assert forall r :: r in rows && BlocksBuffered(r, assetId, start, end) ==> r in overlapping by {
      forall r | r in rows && BlocksBuffered(r, assetId, start, end) ensures r in overlapping {
        var i :| 0 <= i < |rows| && rows[i] == r;
      }
    }
    assert overlapping != [] ==> overlapping[0] in rows && BlocksBuffered(overlapping[0], assetId, start, end);
    |overlapping| == 0
  }

  /** Overlap is inclusive: a row on the asset that ends exactly one hour
      before the requested start still makes it unavailable, whatever its
      status. */
  lemma EndingAtBufferEdgeBlocks(rows: seq<Reservation>, x: Reservation, start: int, end: int)
    requires x in rows && x.endTime == start - MS_PER_HOUR && x.startTime <= end
    ensures !CheckAvailability(rows, x.assetId, start, end)
  {
  }

  /** Rows on other assets never change the answer, wherever they sit. */
  lemma OtherAssetsIgnored(before: seq<Reservation>, after: seq<Reservation>, x: Reservation, assetId: int, start: int, end: int)
    requires x.assetId != assetId
    ensures CheckAvailability(before + [x] + after, assetId, start, end) == CheckAvailability(before + after, assetId, start, end)
  {
    var p := BlocksBufferedWindow(assetId, start, end);
    FilterAppend(before + [x], after, p);
    FilterAppend(before, [x], p);
    FilterAppend(before, after, p);
    assert Filter([x], p) == [] + Filter([], p);
  }

  /** Status is not filtered: changing only the status of rows leaves the
      answer unchanged, so cancelled and completed rows block as well. */
  lemma StatusIgnored(rows: seq<Reservation>, rows': seq<Reservation>, assetId: int, start: int, end: int)
    requires |rows| == |rows'|
    requires forall i :: 0 <= i < |rows| ==> rows'[i] == rows[i].(status := rows'[i].status)
    ensures CheckAvailability(rows, assetId, start, end) == CheckAvailability(rows', assetId, start, end)
  {
    var p := BlocksBufferedWindow(assetId, start, end);
    StatusIgnoredFilter(rows, rows', p, assetId, start, end);
  }

  lemma {:induction false} StatusIgnoredFilter(
    rows: seq<Reservation>, rows': seq<Reservation>, p: Reservation -> bool, assetId: int, start: int, end: int)
    requires p == BlocksBufferedWindow(assetId, start, end)
    requires |rows| == |rows'|
    requires forall i :: 0 <= i < |rows| ==> rows'[i] == rows[i].(status := rows'[i].status)
    ensures |Filter(rows, p)| == |Filter(rows', p)|
  {
    if rows != [] {
      StatusIgnoredFilter(rows[1..], rows'[1..], p, assetId, start, end);
    }
  }

  /** Adding a row to the table never turns "unavailable" into "available". */
  lemma AddingNeverFrees(rows: seq<Reservation>, x: Reservation, assetId: int, start: int, end: int)
    requires !CheckAvailability(rows, assetId, start, end)
    ensures !CheckAvailability(rows + [x], assetId, start, end)
  {
    var p := BlocksBufferedWindow(assetId, start, end);
    FilterAppend(rows, [x], p);
  }

  /** The buffered check is stricter than the reserve route's unbuffered,
      status-filtered check: whatever the route would refuse as a conflict,
      this check reports unavailable. */
  lemma StricterThanRouteCheck(rows: seq<Reservation>, assetId: int, start: int, end: int)
    requires exists r :: r in rows && Conflicts(r, assetId, start, end)
    ensures !CheckAvailability(rows, assetId, start, end)
  {
    var r :| r in rows && Conflicts(r, assetId, start, end);
    assert r.startTime <= end + MS_PER_HOUR && r.endTime >= start - MS_PER_HOUR;
  }
}
