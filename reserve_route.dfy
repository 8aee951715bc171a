/** `POST /api/reserve` of `src/app/api/reserve/route.ts`: authenticate,
    check the fields, refuse an overlapping active booking (409), refuse at
    the weekly limit (403), then create the row as PENDING and update it to
    CONFIRMED (201). Requests are taken one at a time. */
module ReserveRoute {
  import opened Wrappers
  import opened Seqs
  import opened Reservations
  import opened Sessions
  import BlockLimit

  /** The JSON body after date parsing. `None` stands for a missing or falsy
      value (an absent field, `""`, or the asset id `0`). */
  datatype ReserveBody = ReserveBody(assetId: Option<int>, startTime: Option<int>, endTime: Option<int>, category: Option<string>)

  /** `!assetId || !startTime || !endTime || !category` is false. */
  predicate HasAllFields(body: ReserveBody) {
    body.assetId.Some? && body.assetId.value != 0 &&
    body.startTime.Some? && body.endTime.Some? &&
    body.category.Some? && body.category.value != ""
  }

  datatype ReserveResponse =
    | Unauthorized
    | MissingFields
    | Unavailable
    | BlockLimitExceeded(message: Option<string>)
    | Created(reservationId: nat)
  {
    function StatusCode(): int {
      match this
      case Unauthorized => 401
      case MissingFields => 400
      case Unavailable => 409
      case BlockLimitExceeded(_) => 403
      case Created(_) => 201
    }

    /** The `error` text of a refusal. */
    function Error(): Option<string> {
      match this
      case Unauthorized => Some("Unauthorized")
      case MissingFields => Some("Missing required fields: assetId, startTime, endTime, category")
      case Unavailable => Some("Asset is unavailable during the requested time")
      case BlockLimitExceeded(_) => Some("Block Limit Exceeded")
      case Created(_) => None
    }
  }

  /** The response together with the table after the request. */
  datatype Outcome = Outcome(response: ReserveResponse, rows: seq<Reservation>)

  /** The row a successful request leaves behind: created PENDING, then
      updated to CONFIRMED. */
  function NewRow(id: nat, assetId: int, userId: string, start: int, end: int, category: string): Reservation {
    Reservation(id, assetId, userId, start, end, Confirmed, category, None)
  }

  /** The request as a function of the table before it. */
  function Reserve(rows: seq<Reservation>, session: Session, body: ReserveBody): (o: Outcome)
    requires WellKeyed(rows)
    ensures WellKeyed(o.rows)
    ensures session.None? ==> o.response == Unauthorized
    ensures session.Some? && !HasAllFields(body) ==> o.response == MissingFields
    ensures session.Some? && HasAllFields(body) ==>
              var assetId, start, end := body.assetId.value, body.startTime.value, body.endTime.value;
              var quota := BlockLimit.ValidateReservationRequest(rows, session.value.id, body.category.value, start);
              ((exists r :: r in rows && Conflicts(r, assetId, start, end)) ==> o.response == Unavailable) &&
              ((forall r :: r in rows ==> !Conflicts(r, assetId, start, end)) && !quota.success ==>
                 o.response == BlockLimitExceeded(quota.message)) &&
              ((forall r :: r in rows ==> !Conflicts(r, assetId, start, end)) && quota.success ==>
                 o.response == Created(|rows| + 1))
    ensures !o.response.Created? ==> o.rows == rows
    ensures o.response.Created? ==>
              o.response.reservationId == |rows| + 1 &&
              o.rows == rows + [NewRow(|rows| + 1, body.assetId.value, session.value.id, body.startTime.value,
                                       body.endTime.value, body.category.value)]
  {
    if session.None? then Outcome(Unauthorized, rows)
    else if !HasAllFields(body) then Outcome(MissingFields, rows)
    else
      var userId, assetId, start, end, category :=
        session.value.id, body.assetId.value, body.startTime.value, body.endTime.value, body.category.value;
      var overlap := Filter(rows, ConflictsWith(assetId, start, end));
      NoConflictFromEmptyFilter(rows, assetId, start, end);
      if overlap != [] then Outcome(Unavailable, rows)
      else
        var blockValidation := BlockLimit.ValidateReservationRequest(rows, userId, category, start);
        if !blockValidation.success then Outcome(BlockLimitExceeded(blockValidation.message), rows)
        else Outcome(Created(|rows| + 1), rows + [NewRow(|rows| + 1, assetId, userId, start, end, category)])
  }

  /** The conflict query finds nothing exactly when no row conflicts. */
  lemma NoConflictFromEmptyFilter(rows: seq<Reservation>, assetId: int, start: int, end: int)
    ensures Filter(rows, ConflictsWith(assetId, start, end)) == [] <==> forall r :: r in rows ==> !Conflicts(r, assetId, start, end)
  {
    var p := ConflictsWith(assetId, start, end);
    if Filter(rows, p) != [] {
      assert Filter(rows, p)[0] in rows && p(Filter(rows, p)[0]);
    }
    forall r | r in rows && Conflicts(r, assetId, start, end) ensures Filter(rows, p) != [] {
      var i :| 0 <= i < |rows| && rows[i] == r;
      assert p(rows[i]);
    }
  }

  /** The handler, step by step against the table. */
  method Post(db: ReservationTable, session: Session, body: ReserveBody) returns (response: ReserveResponse)
    requires db.Valid()
    modifies db
    ensures db.Valid()
    ensures Outcome(response, db.rows) == Reserve(old(db.rows), session, body)
  {
    if session.None? {
      return Unauthorized;
    }
    if !HasAllFields(body) {
      return MissingFields;
    }
    var userId := session.value.id;
    var assetId, start, end, category := body.assetId.value, body.startTime.value, body.endTime.value, body.category.value;

    // 1. Overlapping active reservation on the asset
    var overlap := db.FindFirstConflict(assetId, start, end);
    if overlap.Some? {
      return Unavailable;
    }

    // 2. Weekly block limit
    var blockValidation := BlockLimit.ValidateReservationRequest(db.rows, userId, category, start);
    if !blockValidation.success {
      return BlockLimitExceeded(blockValidation.message);
    }

    // 3. Create as PENDING, then confirm
    var reservation := db.Create(assetId, userId, start, end, Pending, category);
    var _ := db.UpdateStatus(reservation.id, Confirmed);
    assert db.rows == old(db.rows) + [NewRow(|old(db.rows)| + 1, assetId, userId, start, end, category)];
    response := Created(reservation.id);
  }

  /** Rows in CANCELLED or COMPLETED state never cause a 409: adding or
      removing such a row does not change whether the request is refused as
      unavailable. */
  lemma InactiveRowsNeverConflict(rows: seq<Reservation>, x: Reservation, session: Session, body: ReserveBody)
    requires WellKeyed(rows) && WellKeyed(rows + [x])
    requires x.status == Cancelled || x.status == Completed
    ensures Reserve(rows + [x], session, body).response.Unavailable? <==> Reserve(rows, session, body).response.Unavailable?
  {
    if session.Some? && HasAllFields(body) {
      var assetId, start, end := body.assetId.value, body.startTime.value, body.endTime.value;
      NoConflictFromEmptyFilter(rows, assetId, start, end);
      NoConflictFromEmptyFilter(rows + [x], assetId, start, end);
      assert !Conflicts(x, assetId, start, end);
      assert forall r :: r in rows + [x] ==> r in rows || r == x;
    }
  }

  /** On a PENDING, CONFIRMED or CHECKED_OUT row of the same asset that
      overlaps the requested window inclusively (even touching at one
      instant), the request is refused with 409 and nothing is written. */
  lemma TouchingActiveRowConflicts(rows: seq<Reservation>, x: Reservation, session: Session, body: ReserveBody)
    requires WellKeyed(rows) && x in rows && IsActive(x.status)
    requires session.Some? && HasAllFields(body) && x.assetId == body.assetId.value
    requires x.endTime == body.startTime.value && x.startTime <= body.endTime.value
    ensures Reserve(rows, session, body) == Outcome(Unavailable, rows)
  {
  }

  /** A request never breaks the no-double-booking invariant: the new row
      is admitted only when no active row on its asset overlaps it. */
  lemma {:induction false} ReservePreservesNoDoubleBooking(rows: seq<Reservation>, session: Session, body: ReserveBody)
    requires WellKeyed(rows) && NoDoubleBooking(rows)
    ensures NoDoubleBooking(Reserve(rows, session, body).rows)
  {
    var o := Reserve(rows, session, body);
    if o.response.Created? {
      var n := o.rows[|rows|];
      assert forall r :: r in rows ==> !Conflicts(r, n.assetId, n.startTime, n.endTime);
      forall i, j | 0 <= i < j < |o.rows| ensures !Clash(o.rows[i], o.rows[j]) {
        if j == |rows| {
          assert o.rows[i] in rows;
        } else {
          assert o.rows[i] == rows[i] && o.rows[j] == rows[j];
        }
      }
    }
  }

  /** A request only appends, and an appended row is in the state a
      PENDING row reaches by one legal step. */
  lemma ReserveIsTableStep(rows: seq<Reservation>, session: Session, body: ReserveBody)
    requires WellKeyed(rows)
    ensures TableStep(rows, Reserve(rows, session, body).rows)
    ensures forall i :: |rows| <= i < |Reserve(rows, session, body).rows| ==>
              LegalStep(Pending, Reserve(rows, session, body).rows[i].status)
  {
  }

  /** The weekly-limit scenario: with two counted reservations of the
      category in the week the request succeeds (the count becomes three);
      with three it is refused with 403. */
  lemma WeeklyLimitScenario(rows: seq<Reservation>, session: Session, body: ReserveBody)
    requires WellKeyed(rows) && session.Some? && HasAllFields(body)
    requires forall r :: r in rows ==> !Conflicts(r, body.assetId.value, body.startTime.value, body.endTime.value)
    ensures BlockLimit.CountThisWeek(rows, session.value.id, body.category.value, body.startTime.value) <= 2 ==>
              Reserve(rows, session, body).response == Created(|rows| + 1)
    ensures BlockLimit.CountThisWeek(rows, session.value.id, body.category.value, body.startTime.value) >= 3 ==>
              Reserve(rows, session, body) == Outcome(BlockLimitExceeded(Some(BlockLimit.WEEKLY_LIMIT_EXCEEDED)), rows)
  {
  }
}
