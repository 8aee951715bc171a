/** `GET /api/availability` of `src/app/api/availability/route.ts`: the
    availability of one asset over a window, merging the asset's Snipe-IT
    status with the active reservations that overlap the window. */
module AvailabilityRoute {
  import opened Wrappers
  import opened Seqs
  import opened Strings
  import opened Reservations

  /** The query string. `None` is an absent or empty parameter; dates are
      already parsed to instants. */
  datatype Query = Query(assetId: Option<string>, startDate: Option<int>, endDate: Option<int>)

  /** An asset as the route reads it from Snipe-IT. */
  datatype SnipeAsset = SnipeAsset(modelName: string, assetTag: string, status: Option<string>)

  const READY_TO_DEPLOY := "Ready to Deploy"
  const DEFAULT_WINDOW_MS := 7 * 24 * 60 * 60 * 1000

  datatype AvailabilityResponse =
    | MissingAssetId
    | InternalError
    | Report(assetId: string, name: string, assetTag: string, snipeStatus: string,
             isAvailable: bool, reservations: seq<Reservation>)
  {
    function StatusCode(): int {
      match this
      case MissingAssetId => 400
      case InternalError => 500
      case Report(_, _, _, _, _, _) => 200
    }
  }

  /** The window: the given dates, else now and a week from now. The default
      end is measured from the clock, not from a given start. */
  function Window(q: Query, now: int): (w: (int, int))
    ensures q.startDate.None? ==> w.0 == now
    ensures q.endDate.None? ==> w.1 == now + DEFAULT_WINDOW_MS
    ensures q.startDate.Some? ==> w.0 == q.startDate.value
    ensures q.endDate.Some? ==> w.1 == q.endDate.value
  {
    (q.startDate.GetOr(now), q.endDate.GetOr(now + DEFAULT_WINDOW_MS))
  }

  /** The asset used: the first asset of the listing, or a placeholder when
      the listing is empty or the call threw (`None`). */
  function PickAsset(fetched: Option<seq<SnipeAsset>>): (a: SnipeAsset)
    ensures fetched.Some? && fetched.value != [] ==> a == fetched.value[0]
    ensures fetched.None? || fetched.value == [] ==> a == SnipeAsset("Unknown", "N/A", None)
  {
    if fetched.Some? && fetched.value != [] then fetched.value[0] else SnipeAsset("Unknown", "N/A", None)
  }

  /** `asset.status || 'Ready to Deploy'`. */
  function SnipeStatus(a: SnipeAsset): (s: string)
    ensures a.status.None? || a.status.value == "" ==> s == READY_TO_DEPLOY
    ensures a.status.Some? && a.status.value != "" ==> s == a.status.value
  {
    if a.status.Some? && a.status.value != "" then a.status.value else READY_TO_DEPLOY
  }

  /** The handler. `fetched` is Snipe-IT's asset listing (`None` when the
      call threw). A non-numeric asset id makes the query fail (500). */
  function Availability(rows: seq<Reservation>, q: Query, now: int, fetched: Option<seq<SnipeAsset>>): (r: AvailabilityResponse)
    ensures q.assetId.None? || q.assetId.value == "" <==> r == MissingAssetId
    ensures r == InternalError <==> q.assetId.Some? && q.assetId.value != "" && ParseInt(q.assetId.value).None?
    ensures r.Report? ==>
              var id, start, end := ParseInt(q.assetId.value).value, Window(q, now).0, Window(q, now).1;
              r.assetId == q.assetId.value &&
              r.name == PickAsset(fetched).modelName && r.assetTag == PickAsset(fetched).assetTag &&
              r.snipeStatus == SnipeStatus(PickAsset(fetched)) &&
              (forall i :: 0 <= i < |r.reservations| ==> r.reservations[i] in rows && Conflicts(r.reservations[i], id, start, end)) &&
              (forall i :: 0 <= i < |rows| && Conflicts(rows[i], id, start, end) ==> rows[i] in r.reservations) &&
              (r.isAvailable <==> r.snipeStatus == READY_TO_DEPLOY && r.reservations == [])
  {
    if q.assetId.None? || q.assetId.value == "" then MissingAssetId
    else match ParseInt(q.assetId.value)
      case None => InternalError
      case Some(id) =>
        var (start, end) := Window(q, now);
        var asset := PickAsset(fetched);
        var reservations := Filter(rows, ConflictsWith(id, start, end));
        var snipeStatus := SnipeStatus(asset);
        Report(q.assetId.value, asset.modelName, asset.assetTag, snipeStatus,
               snipeStatus == READY_TO_DEPLOY && |reservations| == 0, reservations)
  }

  /** The asset details do not depend on the requested id: the listing is
      not filtered by it, so two ids see the same first asset. */
  lemma AssetIgnoresRequestedId(rows: seq<Reservation>, q1: Query, q2: Query, now: int, fetched: Option<seq<SnipeAsset>>)
    requires Availability(rows, q1, now, fetched).Report? && Availability(rows, q2, now, fetched).Report?
    ensures Availability(rows, q1, now, fetched).name == Availability(rows, q2, now, fetched).name
    ensures Availability(rows, q1, now, fetched).snipeStatus == Availability(rows, q2, now, fetched).snipeStatus
  {
  }

  /** With an asset that carries no status (the Snipe-IT client's asset
      mapping never copies one) the asset is available exactly when no
      active reservation overlaps the window. */
  lemma AvailableIffNoActiveOverlap(rows: seq<Reservation>, q: Query, now: int, fetched: Option<seq<SnipeAsset>>)
    requires Availability(rows, q, now, fetched).Report?
    requires PickAsset(fetched).status.None?
    ensures Availability(rows, q, now, fetched).isAvailable <==>
              forall i :: 0 <= i < |rows| ==>
                !Conflicts(rows[i], ParseInt(q.assetId.value).value, Window(q, now).0, Window(q, now).1)
  {
    var r := Availability(rows, q, now, fetched);
    if !r.isAvailable {
      assert r.reservations != [] && r.reservations[0] in rows;
    }
  }

  /** Cancelled and completed bookings never make the asset unavailable. */
  lemma InactiveRowsNotListed(rows: seq<Reservation>, x: Reservation, q: Query, now: int, fetched: Option<seq<SnipeAsset>>)
    requires !IsActive(x.status)
    requires Availability(rows, q, now, fetched).Report?
    ensures Availability(rows + [x], q, now, fetched) == Availability(rows, q, now, fetched)
  {
    var id, start, end := ParseInt(q.assetId.value).value, Window(q, now).0, Window(q, now).1;
    FilterAppend(rows, [x], ConflictsWith(id, start, end));
    assert Filter([x], ConflictsWith(id, start, end)) == [];
  }
}
