/** The weekly quota of `src/lib/block-limit.ts`: at most three reservations
    per user and category in one ISO week. */
module BlockLimit {
  import opened Wrappers
  import opened Seqs
  import opened Time
  import opened Reservations

  const MAX_BLOCKS_PER_WEEK := 3
  const WEEKLY_LIMIT_EXCEEDED := "Weekly limit exceeded"

  datatype BlockLimitResult = BlockLimitResult(success: bool, message: Option<string>)

  /** The `count` filter: same user, same category, starting no earlier than
      `weekStart` and ending no later than `weekEnd`. Status is not part of it. */
  predicate Counted(r: Reservation, userId: string, category: string, weekStart: int, weekEnd: int) {
    r.userId == userId && r.category == category && r.startTime >= weekStart && r.endTime <= weekEnd
  }

  function CountedIn(userId: string, category: string, weekStart: int, weekEnd: int): Reservation -> bool {
    r => Counted(r, userId, category, weekStart, weekEnd)
  }

  /** The rows the `count` query selects for a request on `requestedDate`. */
  function CountedRows(rows: seq<Reservation>, userId: string, category: string, requestedDate: int): seq<Reservation> {
    Filter(rows, CountedIn(userId, category, StartOfISOWeek(requestedDate), EndOfISOWeek(requestedDate)))
  }

  /** `prisma.reservation.count(...)`. */
  function CountThisWeek(rows: seq<Reservation>, userId: string, category: string, requestedDate: int): (n: nat)
    ensures n <= |rows|
    ensures n == 0 <==>
              forall i :: 0 <= i < |rows| ==>
                !Counted(rows[i], userId, category, StartOfISOWeek(requestedDate), EndOfISOWeek(requestedDate))
  {
    var counted := CountedRows(rows, userId, category, requestedDate);
    assert counted != [] ==> counted[0] in counted;
    |counted|
  }

  /** `validateReservationRequest(userId, equipmentCategory, requestedDate)`:
      refuse at three or more, otherwise succeed with no message. */
  function ValidateReservationRequest(rows: seq<Reservation>, userId: string, category: string, requestedDate: int)
    : (r: BlockLimitResult)
    ensures r.success <==> CountThisWeek(rows, userId, category, requestedDate) < MAX_BLOCKS_PER_WEEK
    ensures r.success ==> r.message.None?
    ensures !r.success ==> r.message == Some(WEEKLY_LIMIT_EXCEEDED)
  {
    var count := CountThisWeek(rows, userId, category, requestedDate);
    if count >= 3 then BlockLimitResult(false, Some(WEEKLY_LIMIT_EXCEEDED))
    else BlockLimitResult(true, None)
  }

  /** A row is counted exactly when it belongs to the user and category and
      lies inside the Monday 00:00 .. Sunday 23:59:59.999 window of the
      requested date. */
  lemma CountedRowsExact(rows: seq<Reservation>, userId: string, category: string, requestedDate: int, x: Reservation)
    requires x in rows
    ensures x in CountedRows(rows, userId, category, requestedDate) <==>
              x.userId == userId && x.category == category &&
              StartOfISOWeek(requestedDate) <= x.startTime && x.endTime <= StartOfISOWeek(requestedDate) + MS_PER_WEEK - 1
  {
  }

  /** Inserting a row of another user or another category anywhere leaves
      the answer unchanged. */
  lemma OtherUsersAndCategoriesIgnored(
    before: seq<Reservation>, after: seq<Reservation>, x: Reservation, userId: string, category: string, requestedDate: int)
    requires x.userId != userId || x.category != category
    ensures ValidateReservationRequest(before + [x] + after, userId, category, requestedDate)
         == ValidateReservationRequest(before + after, userId, category, requestedDate)
  {
    var p := CountedIn(userId, category, StartOfISOWeek(requestedDate), EndOfISOWeek(requestedDate));
    FilterAppend(before + [x], after, p);
    FilterAppend(before, [x], p);
    FilterAppend(before, after, p);
    assert Filter([x], p) == [] + Filter([], p);
  }

  /** The status of a row plays no part: rows that differ only in status give
      the same answer, so cancelled and completed rows count too. */
  lemma StatusIgnored(rows: seq<Reservation>, rows': seq<Reservation>, userId: string, category: string, requestedDate: int)
    requires |rows| == |rows'|
    requires forall i :: 0 <= i < |rows| ==> rows'[i] == rows[i].(status := rows'[i].status)
    ensures ValidateReservationRequest(rows, userId, category, requestedDate)
         == ValidateReservationRequest(rows', userId, category, requestedDate)
  {
    StatusIgnoredCount(rows, rows', CountedIn(userId, category, StartOfISOWeek(requestedDate), EndOfISOWeek(requestedDate)),
                       userId, category, StartOfISOWeek(requestedDate), EndOfISOWeek(requestedDate));
  }

  lemma {:induction false} StatusIgnoredCount(
    rows: seq<Reservation>, rows': seq<Reservation>, p: Reservation -> bool,
    userId: string, category: string, weekStart: int, weekEnd: int)
    requires p == CountedIn(userId, category, weekStart, weekEnd)
    requires |rows| == |rows'|
    requires forall i :: 0 <= i < |rows| ==> rows'[i] == rows[i].(status := rows'[i].status)
    ensures |Filter(rows, p)| == |Filter(rows', p)|
  {
    if rows != [] {
      StatusIgnoredCount(rows[1..], rows'[1..], p, userId, category, weekStart, weekEnd);
    }
  }

  /** The answer depends only on the ISO week of the requested date. */
  lemma SameWeekSameAnswer(rows: seq<Reservation>, userId: string, category: string, d1: int, d2: int)
    requires StartOfISOWeek(d1) <= d2 <= EndOfISOWeek(d1)
    ensures ValidateReservationRequest(rows, userId, category, d1)
         == ValidateReservationRequest(rows, userId, category, d2)
  {
    SameWeek(d1, d2);
  }

  /** Week-boundary exactness: a row of the user and category that starts at
      Monday 00:00 of the week (and ends within it) counts; one that starts
      a millisecond earlier, on the Sunday before, does not. */
  lemma WeekBoundary(x: Reservation, userId: string, category: string, requestedDate: int)
    requires x.userId == userId && x.category == category
    requires x.endTime <= EndOfISOWeek(requestedDate)
    ensures x.startTime == StartOfISOWeek(requestedDate) ==>
              CountedIn(userId, category, StartOfISOWeek(requestedDate), EndOfISOWeek(requestedDate))(x)
    ensures x.startTime == StartOfISOWeek(requestedDate) - 1 ==>
              !CountedIn(userId, category, StartOfISOWeek(requestedDate), EndOfISOWeek(requestedDate))(x)
  {
  }

  /** A row that starts inside the week but ends after Sunday 23:59:59.999
      is not counted: the filter tests `endTime`, not only `startTime`. */
  lemma CrossWeekRowNotCounted(rows: seq<Reservation>, x: Reservation, userId: string, category: string, requestedDate: int)
    requires x.endTime > EndOfISOWeek(requestedDate)
    ensures CountThisWeek(rows + [x], userId, category, requestedDate) == CountThisWeek(rows, userId, category, requestedDate)
  {
    var p := CountedIn(userId, category, StartOfISOWeek(requestedDate), EndOfISOWeek(requestedDate));
    FilterAppend(rows, [x], p);
    assert Filter([x], p) == [] + Filter([], p);
  }

  /** Adding a row never turns a refusal into an acceptance. */
  lemma AddingNeverFrees(rows: seq<Reservation>, x: Reservation, userId: string, category: string, requestedDate: int)
    requires !ValidateReservationRequest(rows, userId, category, requestedDate).success
    ensures !ValidateReservationRequest(rows + [x], userId, category, requestedDate).success
  {
    var p := CountedIn(userId, category, StartOfISOWeek(requestedDate), EndOfISOWeek(requestedDate));
    FilterAppend(rows, [x], p);
  }
}
