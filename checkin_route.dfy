/** `POST /api/checkin` of `src/app/api/checkin/route.ts`: a staff
    operation that returns a CHECKED_OUT reservation, first in Snipe-IT and
    then in the local table (COMPLETED). */
module CheckinRoute {
  import opened Wrappers
  import opened Strings
  import opened Reservations
  import opened Sessions
  import opened SnipeIt
  import AuthConfig

  datatype CheckinResponse =
    | Unauthorized
    | Forbidden
    | MissingId
    | NotFound
    | InvalidStatus(current: Status)
    | SnipeFailed(message: string)
    | CheckedInOk(reservation: Reservation)
  {
    function StatusCode(): int {
      match this
      case Unauthorized => 401
      case Forbidden => 403
      case MissingId => 400
      case NotFound => 404
      case InvalidStatus(_) => 400
      case SnipeFailed(_) => 500
      case CheckedInOk(_) => 200
    }

    /** The `message` field, where the response has one. */
    function Message(): Option<string> {
      match this
      case InvalidStatus(current) =>
        Some("Reservation must be CHECKED_OUT to return. Current status: " + current.Name())
      case SnipeFailed(message) => Some(message)
      case CheckedInOk(_) => Some("Equipment checked in successfully")
      case _ => None
    }
  }

  /** The response, the table afterwards and the asset id sent to
      Snipe-IT's checkin endpoint, if it was called. */
  datatype Outcome = Outcome(response: CheckinResponse, rows: seq<Reservation>, call: Option<int>)

  /** Checkin's admin test: the session email contains `admin` anywhere.
      It does not consult the role. */
  predicate IsAdmin(session: Session) {
    session.Some? && session.value.email.Some? && Contains(session.value.email.value, "admin")
  }

  /** Every guard passes, so Snipe-IT is contacted. There is no time guard. */
  predicate Admissible(rows: seq<Reservation>, session: Session, reservationId: Option<int>)
    requires WellKeyed(rows)
  {
    IsAdmin(session) && IdGiven(reservationId) && Lookup(rows, reservationId.value).Some? &&
    Lookup(rows, reservationId.value).value.status == CheckedOut
  }

  function Checkin(rows: seq<Reservation>, session: Session, reservationId: Option<int>, reply: Reply): (o: Outcome)
    requires WellKeyed(rows)
    ensures WellKeyed(o.rows) && |o.rows| == |rows|
    ensures session.None? ==> o.response == Unauthorized
    ensures session.Some? && !IsAdmin(session) ==> o.response == Forbidden
    ensures IsAdmin(session) && !IdGiven(reservationId) ==> o.response == MissingId
    ensures IsAdmin(session) && IdGiven(reservationId) && Lookup(rows, reservationId.value).None? ==> o.response == NotFound
    ensures IsAdmin(session) && IdGiven(reservationId) && Lookup(rows, reservationId.value).Some? &&
            Lookup(rows, reservationId.value).value.status != CheckedOut ==>
              o.response == InvalidStatus(Lookup(rows, reservationId.value).value.status)
    ensures o.call.Some? <==> Admissible(rows, session, reservationId)
    ensures o.call.Some? ==> o.call.value == rows[reservationId.value - 1].assetId
    ensures o.response.CheckedInOk? <==> o.call.Some? && reply.Accepted?
    ensures o.call.Some? && !reply.Accepted? ==> o.response == SnipeFailed(FailureMessage("checkin", reply))
    ensures !o.response.CheckedInOk? ==> o.rows == rows
    ensures o.response.CheckedInOk? ==>
              var k := reservationId.value - 1;
              o.rows == rows[k := rows[k].(status := Completed)] && o.response.reservation == o.rows[k]
  {
    if session.None? then Outcome(Unauthorized, rows, None)
    else if session.value.email.None? || !Contains(session.value.email.value, "admin") then Outcome(Forbidden, rows, None)
    else if !IdGiven(reservationId) then Outcome(MissingId, rows, None)
    else match Lookup(rows, reservationId.value)
      case None => Outcome(NotFound, rows, None)
      case Some(reservation) =>
        if reservation.status != CheckedOut then Outcome(InvalidStatus(reservation.status), rows, None)
        else
          var call := Some(reservation.assetId);
          if !reply.Accepted? then Outcome(SnipeFailed(FailureMessage("checkin", reply)), rows, call)
          else
            var updated := reservation.(status := Completed);
            Outcome(CheckedInOk(updated), rows[reservation.id - 1 := updated], call)
  }

  /** The handler against the table; `reply` is what Snipe-IT answers if
      it is called. */
  method Post(db: ReservationTable, session: Session, reservationId: Option<int>, reply: Reply)
    returns (response: CheckinResponse, call: Option<int>)
    requires db.Valid()
    modifies db
    ensures db.Valid()
    ensures Outcome(response, db.rows, call) == Checkin(old(db.rows), session, reservationId, reply)
  {
    if session.None? {
      return Unauthorized, None;
    }
    var isAdmin := session.value.email.Some? && Contains(session.value.email.value, "admin");
    if !isAdmin {
      return Forbidden, None;
    }
    if reservationId.None? || reservationId.value == 0 {
      return MissingId, None;
    }
    var found := db.FindUnique(reservationId.value);
    if found.None? {
      return NotFound, None;
    }
    var reservation := found.value;
    if reservation.status != CheckedOut {
      return InvalidStatus(reservation.status), None;
    }
    call := Some(reservation.assetId);
    if !reply.Accepted? {
      return SnipeFailed(FailureMessage("checkin", reply)), call;
    }
    var updated := db.UpdateStatus(reservation.id, Completed);
    response := CheckedInOk(updated);
  }

  /** Only the one row changes, and it moves CHECKED_OUT -> COMPLETED. */
  lemma CheckinIsTableStep(rows: seq<Reservation>, session: Session, reservationId: Option<int>, reply: Reply)
    requires WellKeyed(rows)
    ensures TableStep(rows, Checkin(rows, session, reservationId, reply).rows)
  {
  }

  /** A Snipe-IT failure leaves the reservation CHECKED_OUT. */
  lemma FailedCallKeepsCheckedOut(rows: seq<Reservation>, session: Session, id: int, reply: Reply)
    requires WellKeyed(rows) && Admissible(rows, session, Some(id)) && !reply.Accepted?
    ensures Checkin(rows, session, Some(id), reply).response.StatusCode() == 500
    ensures Checkin(rows, session, Some(id), reply).rows[id - 1].status == CheckedOut
  {
  }

  /** Checkin only ever deactivates a row, so it cannot create a double
      booking. */
  lemma {:induction false} CheckinPreservesNoDoubleBooking(rows: seq<Reservation>, session: Session, reservationId: Option<int>, reply: Reply)
    requires WellKeyed(rows) && NoDoubleBooking(rows)
    ensures NoDoubleBooking(Checkin(rows, session, reservationId, reply).rows)
  {
    var o := Checkin(rows, session, reservationId, reply);
    if o.response.CheckedInOk? {
      forall i, j | 0 <= i < j < |o.rows| ensures !Clash(o.rows[i], o.rows[j]) {
        assert !Clash(rows[i], rows[j]);
      }
    }
  }

  /** A completed checkin frees the asset: the returned row no longer
      conflicts with any window. */
  lemma CheckinFreesWindow(rows: seq<Reservation>, session: Session, id: int, reply: Reply, start: int, end: int)
    requires WellKeyed(rows) && Admissible(rows, session, Some(id)) && reply.Accepted?
    ensures !Conflicts(Checkin(rows, session, Some(id), reply).rows[id - 1], rows[id - 1].assetId, start, end)
  {
  }

  /** A body whose `reservationId` is `0` is refused as missing (400). */
  lemma ZeroIdIsMissing(rows: seq<Reservation>, session: Session, reply: Reply)
    requires WellKeyed(rows) && IsAdmin(session)
    ensures Checkin(rows, session, Some(0), reply) == Outcome(MissingId, rows, None)
  {
  }

  /** An address `user@siue.edu` whose user name has no `d` cannot contain
      `admin`: the only `d` is the one in `edu`, too close to the end. */
  lemma {:induction false} NoAdminInSiueAddress(user: string)
    requires 'd' !in user
    ensures !Contains(user + AuthConfig.SIUE_DOMAIN, "admin")
  {
    var e := user + AuthConfig.SIUE_DOMAIN;
    forall j | 0 <= j < |user| ensures e[j] != 'd' {
      assert e[j] == user[j];
    }
    forall j | |user| <= j < |user| + 7 ensures e[j] != 'd' {
      assert e[j] == AuthConfig.SIUE_DOMAIN[j - |user|];
    }
    forall i ensures !OccursAt(e, "admin", i) {
      if 0 <= i <= |e| - 5 {
        assert e[i..i + 5][1] == e[i + 1] != 'd';
      }
    }
    ContainsAt(e, "admin");
  }

  /** The configured user names have no `d`. */
  lemma AdminNamesHaveNoD(user: string)
    requires user + AuthConfig.SIUE_DOMAIN in AuthConfig.ADMIN_EMAILS
    ensures 'd' !in user
  {
    var e := user + AuthConfig.SIUE_DOMAIN;
    assert user == e[..|user|];
  }

  /** None of the configured administrators passes checkin's admin test,
      even with the `admin` role that sign-in gives each of them
      (`AuthConfig.ConfiguredAdminSignsInAsAdmin`). */
  lemma ConfiguredAdminsRefused(user: string, id: string)
    requires forall i :: 0 <= i < |user| ==> 'a' <= user[i] <= 'z'
    requires user + AuthConfig.SIUE_DOMAIN in AuthConfig.ADMIN_EMAILS
    ensures !IsAdmin(Some(SessionUser(id, Some(user + AuthConfig.SIUE_DOMAIN), Some(AuthConfig.ADMIN_ROLE))))
  {
    AdminNamesHaveNoD(user);
    NoAdminInSiueAddress(user);
  }

  /** Any signed-in user whose address contains `admin` passes the test,
      whatever the role. */
  lemma AdminInAddressPasses(email: string, id: string, role: Option<string>)
    requires exists i :: OccursAt(email, "admin", i)
    ensures IsAdmin(Some(SessionUser(id, Some(email), role)))
  {
    ContainsAt(email, "admin");
  }
}
