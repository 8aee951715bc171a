/** `POST /api/checkout` of `src/app/api/checkout/route.ts`: a staff
    operation that hands a CONFIRMED, unexpired reservation over to the
    borrower, first in Snipe-IT and then in the local table. */
module CheckoutRoute {
  import opened Wrappers
  import opened Reservations
  import opened Sessions
  import opened SnipeIt

  datatype CheckoutResponse =
    | Unauthorized
    | Forbidden
    | MissingId
    | NotFound
    | InvalidStatus(current: Status)
    | Expired
    | SnipeFailed(message: string)
    | CheckedOutOk(reservation: Reservation)
  {
    function StatusCode(): int {
      match this
      case Unauthorized => 401
      case Forbidden => 403
      case MissingId => 400
      case NotFound => 404
      case InvalidStatus(_) => 400
      case Expired => 400
      case SnipeFailed(_) => 500
      case CheckedOutOk(_) => 200
    }

    /** The `message` field, where the response has one. */
    function Message(): Option<string> {
      match this
      case InvalidStatus(current) =>
        Some("Reservation must be CONFIRMED to checkout. Current status: " + current.Name())
      case Expired => Some("This reservation end time has passed.")
      case SnipeFailed(message) => Some(message)
      case CheckedOutOk(_) => Some("Asset checked out successfully")
      case _ => None
    }
  }

  /** The request sent to Snipe-IT: the asset and the borrower's Snipe-IT
      user id, which is null (`None`) for a user never linked to Snipe-IT. */
  datatype SnipeCall = SnipeCall(assetId: int, snipeUserId: Option<int>)

  /** `reservation.user.snipeItUserId`: the user table's Snipe-IT ids, by
      local user id; a user missing from the map has a null id. */
  function SnipeUserOf(snipeUserIds: map<string, int>, userId: string): (u: Option<int>)
    ensures u.Some? <==> userId in snipeUserIds
    ensures u.Some? ==> u.value == snipeUserIds[userId]
  {
    if userId in snipeUserIds then Some(snipeUserIds[userId]) else None
  }

  /** The response, the table afterwards and the Snipe-IT call made, if any. */
  datatype Outcome = Outcome(response: CheckoutResponse, rows: seq<Reservation>, call: Option<SnipeCall>)

  /** Checkout requires the session role to be exactly `admin`. */
  predicate IsAdmin(session: Session) {
    session.Some? && session.value.role == Some("admin")
  }

  /** Every guard passes, so Snipe-IT is contacted. `now` equal to the end
      time still passes: only `now > endTime` is expired. */
  predicate Admissible(rows: seq<Reservation>, session: Session, reservationId: Option<int>, now: int)
    requires WellKeyed(rows)
  {
    IsAdmin(session) && IdGiven(reservationId) && Lookup(rows, reservationId.value).Some? &&
    Lookup(rows, reservationId.value).value.status == Confirmed &&
    now <= Lookup(rows, reservationId.value).value.endTime
  }

  /** The request as a function of the table, the session, the body's
      `reservationId`, the users' Snipe-IT ids, the clock and Snipe-IT's
      reply. */
  function Checkout(rows: seq<Reservation>, session: Session, reservationId: Option<int>, snipeUserIds: map<string, int>,
                    now: int, reply: Reply): (o: Outcome)
    requires WellKeyed(rows)
    ensures WellKeyed(o.rows) && |o.rows| == |rows|
    ensures session.None? ==> o.response == Unauthorized
    ensures session.Some? && !IsAdmin(session) ==> o.response == Forbidden
    ensures IsAdmin(session) && !IdGiven(reservationId) ==> o.response == MissingId
    ensures IsAdmin(session) && IdGiven(reservationId) && Lookup(rows, reservationId.value).None? ==> o.response == NotFound
    ensures IsAdmin(session) && IdGiven(reservationId) && Lookup(rows, reservationId.value).Some? &&
            Lookup(rows, reservationId.value).value.status != Confirmed ==>
              o.response == InvalidStatus(Lookup(rows, reservationId.value).value.status)
    ensures IsAdmin(session) && IdGiven(reservationId) && Lookup(rows, reservationId.value).Some? &&
            Lookup(rows, reservationId.value).value.status == Confirmed &&
            now > Lookup(rows, reservationId.value).value.endTime ==>
              o.response == Expired
    ensures o.call.Some? <==> Admissible(rows, session, reservationId, now)
    ensures o.call.Some? ==>
              var r := rows[reservationId.value - 1];
              o.call.value == SnipeCall(r.assetId, SnipeUserOf(snipeUserIds, r.userId))
    ensures o.response.CheckedOutOk? <==> o.call.Some? && reply.Accepted?
    ensures o.call.Some? && !reply.Accepted? ==> o.response == SnipeFailed(FailureMessage("checkout", reply))
    ensures !o.response.CheckedOutOk? ==> o.rows == rows
    ensures o.response.CheckedOutOk? ==>
              var k := reservationId.value - 1;
              o.rows == rows[k := rows[k].(status := CheckedOut)] && o.response.reservation == o.rows[k]
  {
    if session.None? then Outcome(Unauthorized, rows, None)
    else if session.value.role != Some("admin") then Outcome(Forbidden, rows, None)
    else if !IdGiven(reservationId) then Outcome(MissingId, rows, None)
    else match Lookup(rows, reservationId.value)
      case None => Outcome(NotFound, rows, None)
      case Some(reservation) =>
        if reservation.status != Confirmed then Outcome(InvalidStatus(reservation.status), rows, None)
        else if now > reservation.endTime then Outcome(Expired, rows, None)
        else
          var call := Some(SnipeCall(reservation.assetId, SnipeUserOf(snipeUserIds, reservation.userId)));
          if !reply.Accepted? then Outcome(SnipeFailed(FailureMessage("checkout", reply)), rows, call)
          else
            var updated := reservation.(status := CheckedOut);
            Outcome(CheckedOutOk(updated), rows[reservation.id - 1 := updated], call)
  }

  /** The handler against the table; `snipeUserIds` stands for the joined
      user rows, `now` is the clock reading and `reply` what Snipe-IT
      answers if it is called. */
  method Post(db: ReservationTable, session: Session, reservationId: Option<int>, snipeUserIds: map<string, int>,
              now: int, reply: Reply)
    returns (response: CheckoutResponse, call: Option<SnipeCall>)
    requires db.Valid()
    modifies db
    ensures db.Valid()
    ensures Outcome(response, db.rows, call) == Checkout(old(db.rows), session, reservationId, snipeUserIds, now, reply)
  {
    if session.None? {
      return Unauthorized, None;
    }
    if session.value.role != Some("admin") {
      return Forbidden, None;
    }
    if reservationId.None? || reservationId.value == 0 {
      return MissingId, None;
    }
    var found := db.FindUnique(reservationId.value);
    if found.None? {
      return NotFound, None;
    }
    var reservation := found.value;
    if reservation.status != Confirmed {
      return InvalidStatus(reservation.status), None;
    }
    if now > reservation.endTime {
      return Expired, None;
    }
    call := Some(SnipeCall(reservation.assetId, SnipeUserOf(snipeUserIds, reservation.userId)));
    if !reply.Accepted? {
      return SnipeFailed(FailureMessage("checkout", reply)), call;
    }
    var updated := db.UpdateStatus(reservation.id, CheckedOut);
    response := CheckedOutOk(updated);
  }

  /** Only the one row changes, and it moves CONFIRMED -> CHECKED_OUT. */
  lemma CheckoutIsTableStep(rows: seq<Reservation>, session: Session, reservationId: Option<int>,
                            snipeUserIds: map<string, int>, now: int, reply: Reply)
    requires WellKeyed(rows)
    ensures TableStep(rows, Checkout(rows, session, reservationId, snipeUserIds, now, reply).rows)
  {
  }

  /** A Snipe-IT failure leaves the reservation CONFIRMED: the local status
      follows custody, never the other way round. */
  lemma FailedCallKeepsConfirmed(rows: seq<Reservation>, session: Session, id: int, snipeUserIds: map<string, int>,
                                 now: int, reply: Reply)
    requires WellKeyed(rows) && Admissible(rows, session, Some(id), now) && !reply.Accepted?
    ensures Checkout(rows, session, Some(id), snipeUserIds, now, reply).response.StatusCode() == 500
    ensures Checkout(rows, session, Some(id), snipeUserIds, now, reply).rows[id - 1].status == Confirmed
  {
  }

  /** Checkout keeps every row active that was active, so it cannot create
      a double booking. */
  lemma {:induction false} CheckoutPreservesNoDoubleBooking(rows: seq<Reservation>, session: Session, reservationId: Option<int>,
                                                            snipeUserIds: map<string, int>, now: int, reply: Reply)
    requires WellKeyed(rows) && NoDoubleBooking(rows)
    ensures NoDoubleBooking(Checkout(rows, session, reservationId, snipeUserIds, now, reply).rows)
  {
    var o := Checkout(rows, session, reservationId, snipeUserIds, now, reply);
    if o.response.CheckedOutOk? {
      forall i, j | 0 <= i < j < |o.rows| ensures !Clash(o.rows[i], o.rows[j]) {
        assert !Clash(rows[i], rows[j]);
        assert Clash(o.rows[i], o.rows[j]) == Clash(rows[i], rows[j]);
      }
    }
  }

  /** The expiry guard is strict: a request at the very end time still
      reaches Snipe-IT, one millisecond later it is refused. */
  lemma ExpiryIsStrict(rows: seq<Reservation>, session: Session, id: int, snipeUserIds: map<string, int>, reply: Reply)
    requires WellKeyed(rows) && IsAdmin(session) && 1 <= id <= |rows| && rows[id - 1].status == Confirmed
    ensures Checkout(rows, session, Some(id), snipeUserIds, rows[id - 1].endTime, reply).call.Some?
    ensures Checkout(rows, session, Some(id), snipeUserIds, rows[id - 1].endTime + 1, reply) == Outcome(Expired, rows, None)
  {
  }

  /** A body whose `reservationId` is `0` is refused as missing (400),
      whatever the table holds: no row has id 0. */
  lemma ZeroIdIsMissing(rows: seq<Reservation>, session: Session, snipeUserIds: map<string, int>, now: int, reply: Reply)
    requires WellKeyed(rows) && IsAdmin(session)
    ensures Checkout(rows, session, Some(0), snipeUserIds, now, reply) == Outcome(MissingId, rows, None)
    ensures Lookup(rows, 0).None?
  {
  }
}
