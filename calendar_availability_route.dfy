/** `GET /api/calendar/availability` of
    `src/app/api/calendar/availability/route.ts`: every asset (optionally of
    one category) with its active reservations in a window, whether it is
    held right now, and availability counts per category and overall. */
module CalendarAvailabilityRoute {
  import opened Wrappers
  import opened Seqs
  import opened Time
  import opened Reservations
  import opened Inventory
  import opened Grouping

  /** The query string; `None` is an absent or empty parameter. */
  datatype Query = Query(startDate: Option<int>, endDate: Option<int>, category: Option<string>)

  const DEFAULT_DAYS := 30

  /** The window: the given dates, else the start of today and thirty days
      after the start. Unlike `/api/availability`, the default end is
      measured from the start. */
  function Window(q: Query, now: int): (w: (int, int))
    ensures q.startDate.None? ==> w.0 == StartOfDay(now) && w.0 <= now
    ensures q.startDate.Some? ==> w.0 == q.startDate.value
    ensures q.endDate.None? ==> w.1 == w.0 + DEFAULT_DAYS * MS_PER_DAY
    ensures q.endDate.Some? ==> w.1 == q.endDate.value
  {
    var start := q.startDate.GetOr(StartOfDay(now));
    (start, q.endDate.GetOr(AddDays(start, DEFAULT_DAYS)))
  }

  /** `categoryFilter && categoryFilter !== 'all'`. */
  predicate FiltersCategory(q: Query) {
    q.category.Some? && q.category.value != "" && q.category.value != "all"
  }

  function InCategory(c: string): Asset -> bool {
    (a: Asset) => a.category == c
  }

  /** The assets listed, in the order the asset query returns them. */
  function SelectedAssets(assets: seq<Asset>, q: Query): (sel: seq<Asset>)
    ensures !FiltersCategory(q) ==> sel == assets
    ensures FiltersCategory(q) ==>
              (forall i :: 0 <= i < |sel| ==> sel[i] in assets && sel[i].category == q.category.value) &&
              (forall i :: 0 <= i < |assets| && assets[i].category == q.category.value ==> assets[i] in sel)
  {
    if FiltersCategory(q) then Filter(assets, InCategory(q.category.value)) else assets
  }

  /** The reservation query: active and overlapping the window, any asset. */
  function InWindow(start: int, end: int): Reservation -> bool {
    (r: Reservation) => IsActive(r.status) && OverlapsWindow(r, start, end)
  }

  function OnAsset(id: int): Reservation -> bool {
    (r: Reservation) => r.assetId == id
  }

  /** `reservationsByAsset[id] || []`. */
  function ReservationsOf(byAsset: map<int, seq<Reservation>>, id: int): seq<Reservation> {
    if id in byAsset then byAsset[id] else []
  }

  /** The `forEach` that builds `reservationsByAsset`: each reservation is
      pushed onto its asset's list, creating the list on first use. */
  method GroupByAsset(reservations: seq<Reservation>) returns (byAsset: map<int, seq<Reservation>>)
    ensures forall id :: ReservationsOf(byAsset, id) == Filter(reservations, OnAsset(id))
    ensures forall id :: id in byAsset <==> exists i :: 0 <= i < |reservations| && reservations[i].assetId == id
  {
    byAsset := map[];
    for i := 0 to |reservations|
      invariant forall id :: ReservationsOf(byAsset, id) == Filter(reservations[..i], OnAsset(id))
      invariant forall id :: id in byAsset <==> exists k :: 0 <= k < i && reservations[k].assetId == id
    {
      var before := byAsset;
      var res := reservations[i];
      if res.assetId !in byAsset {
        byAsset := byAsset[res.assetId := []];
      }
      PushAfterCreate(before, byAsset, res);
      byAsset := byAsset[res.assetId := byAsset[res.assetId] + [res]];
      PushKeepsLists(before, reservations, i);
      PushKeepsKeys(before, reservations, i);
    }
    assert reservations[..|reservations|] == reservations;
  }

  /** The dictionary after pushing `r` onto its asset's list. */
  function Pushed(byAsset: map<int, seq<Reservation>>, r: Reservation): map<int, seq<Reservation>> {
    byAsset[r.assetId := ReservationsOf(byAsset, r.assetId) + [r]]
  }

  /** Creating the list when it is missing and then pushing onto it is
      `Pushed`. */
  lemma PushAfterCreate(before: map<int, seq<Reservation>>, created: map<int, seq<Reservation>>, r: Reservation)
    requires created == if r.assetId in before then before else before[r.assetId := []]
    ensures r.assetId in created && created[r.assetId := created[r.assetId] + [r]] == Pushed(before, r)
  {
  }

  /** One iteration of the grouping loop keeps the lists invariant. */
  lemma PushKeepsLists(byAsset: map<int, seq<Reservation>>, reservations: seq<Reservation>, i: nat)
    requires i < |reservations|
    requires forall id :: ReservationsOf(byAsset, id) == Filter(reservations[..i], OnAsset(id))
    ensures forall id :: ReservationsOf(Pushed(byAsset, reservations[i]), id) == Filter(reservations[..i + 1], OnAsset(id))
  {
    var r := reservations[i];
    var after := Pushed(byAsset, r);
    forall id ensures ReservationsOf(after, id) == Filter(reservations[..i + 1], OnAsset(id)) {
      FilterSnoc(reservations, i, OnAsset(id));
      if id == r.assetId {
        assert ReservationsOf(after, id) == ReservationsOf(byAsset, id) + [r];
      } else {
        assert ReservationsOf(after, id) == ReservationsOf(byAsset, id);
      }
    }
  }

  /** One iteration of the grouping loop keeps the key-set invariant. */
  lemma PushKeepsKeys(byAsset: map<int, seq<Reservation>>, reservations: seq<Reservation>, i: nat)
    requires i < |reservations|
    requires forall id :: id in byAsset <==> exists k :: 0 <= k < i && reservations[k].assetId == id
    ensures forall id :: id in Pushed(byAsset, reservations[i]) <==> exists k :: 0 <= k < i + 1 && reservations[k].assetId == id
  {
    var after := Pushed(byAsset, reservations[i]);
    assert after.Keys == byAsset.Keys + {reservations[i].assetId};
    forall id ensures id in after <==> exists k :: 0 <= k < i + 1 && reservations[k].assetId == id {
      if id == reservations[i].assetId {
        assert reservations[i].assetId == id;
      }
    }
  }

  /** One element of `equipment`. */
  datatype EquipmentEntry = EquipmentEntry(
    id: int, assetTag: string, modelName: string, category: string,
    isAvailable: bool, currentStatus: string,
    reservations: seq<Reservation>, reservationCount: nat)

  function Entry(asset: Asset, assetReservations: seq<Reservation>, now: int): EquipmentEntry {
    var activeReservation := Filter(assetReservations, HeldAt(now));
    EquipmentEntry(asset.id, asset.assetTag, asset.modelName, asset.category,
                   activeReservation == [], if activeReservation != [] then "CHECKED_OUT" else "AVAILABLE",
                   assetReservations, |assetReservations|)
  }

  datatype CategoryStat = CategoryStat(category: string, total: nat, available: nat, checkedOut: int)

  function EntryCategory(e: EquipmentEntry): string {
    e.category
  }

  function EntryAvailable(e: EquipmentEntry): bool {
    e.isAvailable
  }

  function StatFor(equipment: seq<EquipmentEntry>, cat: string): (s: CategoryStat)
    ensures s.category == cat && s.total == |Filter(equipment, KeyIs(EntryCategory, cat))|
    ensures s.available == |Filter(equipment, And(KeyIs(EntryCategory, cat), EntryAvailable))|
    ensures s.checkedOut == |Filter(equipment, And(KeyIs(EntryCategory, cat), Not(EntryAvailable)))|
    ensures s.available <= s.total && s.checkedOut == s.total - s.available
  {
    var catEquipment := Filter(equipment, KeyIs(EntryCategory, cat));
    var available := |Filter(catEquipment, EntryAvailable)|;
    FilterFilter(equipment, KeyIs(EntryCategory, cat), EntryAvailable);
    FilterFilter(equipment, KeyIs(EntryCategory, cat), Not(EntryAvailable));
    FilterPartition(catEquipment, EntryAvailable);
    CategoryStat(cat, |catEquipment|, available, |catEquipment| - available)
  }

  datatype Stats = Stats(total: nat, available: nat, checkedOut: nat, totalReservations: nat)

  datatype CalendarResponse = CalendarResponse(
    equipment: seq<EquipmentEntry>, stats: Stats, categoryStats: seq<CategoryStat>, rangeStart: int, rangeEnd: int)

  function Equipment(selected: seq<Asset>, fetched: seq<Reservation>, now: int): (e: seq<EquipmentEntry>)
    ensures |e| == |selected|
  {
    seq(|selected|, i requires 0 <= i < |selected| => Entry(selected[i], Filter(fetched, OnAsset(selected[i].id)), now))
  }

  function CategoryStats(equipment: seq<EquipmentEntry>, cats: seq<string>): (r: seq<CategoryStat>)
    ensures |r| == |cats|
    ensures forall i :: 0 <= i < |cats| ==> r[i].category == cats[i]
  {
    seq(|cats|, i requires 0 <= i < |cats| => StatFor(equipment, cats[i]))
  }

  /** The response as a function of the tables, the query and the clock:
      the window it reports, the number of reservations overlapping it, and
      overall counts of available and checked-out entries that add up to
      the number of listed assets. */
  function Calendar(rows: seq<Reservation>, assets: seq<Asset>, q: Query, now: int): (r: CalendarResponse)
    ensures (r.rangeStart, r.rangeEnd) == Window(q, now)
    ensures r.stats.totalReservations == |Filter(rows, InWindow(r.rangeStart, r.rangeEnd))|
    ensures |r.equipment| == r.stats.total == |SelectedAssets(assets, q)|
    ensures r.stats.available == |Filter(r.equipment, EntryAvailable)|
    ensures r.stats.checkedOut == |Filter(r.equipment, Not(EntryAvailable))|
    ensures r.stats.available + r.stats.checkedOut == r.stats.total
  {
    var (start, end) := Window(q, now);
    var selected := SelectedAssets(assets, q);
    var fetched := Filter(rows, InWindow(start, end));
    var equipment := Equipment(selected, fetched, now);
    FilterPartition(equipment, EntryAvailable);
    CalendarResponse(
      equipment,
      Stats(|selected|, |Filter(equipment, EntryAvailable)|, |Filter(equipment, Not(EntryAvailable))|, |fetched|),
      CategoryStats(equipment, Categories(selected)),
      start, end)
  }

  /** The handler: the two queries, the grouping loop, then the pure
      per-asset and per-category mapping. */
  method Get(rows: seq<Reservation>, assets: seq<Asset>, q: Query, now: int) returns (response: CalendarResponse)
    ensures response == Calendar(rows, assets, q, now)
  {
    var (start, end) := Window(q, now);
    var selected := SelectedAssets(assets, q);
    var reservations := Filter(rows, InWindow(start, end));
    var reservationsByAsset := GroupByAsset(reservations);
    var equipment := seq(|selected|, i requires 0 <= i < |selected| =>
                           Entry(selected[i], ReservationsOf(reservationsByAsset, selected[i].id), now));
    assert equipment == Equipment(selected, reservations, now);
    response := CalendarResponse(
      equipment,
      Stats(|selected|, |Filter(equipment, EntryAvailable)|, |Filter(equipment, Not(EntryAvailable))|, |reservations|),
      CategoryStats(equipment, Categories(selected)),
      start, end);
  }

  /** Each asset's list is exactly the fetched reservations on that asset,
      and it is available exactly when none of them is held right now. */
  lemma EntryCharacterised(rows: seq<Reservation>, assets: seq<Asset>, q: Query, now: int, i: int)
    requires 0 <= i < |SelectedAssets(assets, q)|
    ensures |Calendar(rows, assets, q, now).equipment| == |SelectedAssets(assets, q)|
    ensures var e, a := Calendar(rows, assets, q, now).equipment[i], SelectedAssets(assets, q)[i];
            var w := Window(q, now);
            e.id == a.id && e.category == a.category &&
            (forall x :: x in e.reservations <==> x in rows && x.assetId == a.id && InWindow(w.0, w.1)(x)) &&
            e.reservationCount == |e.reservations| &&
            (e.isAvailable <==> forall x :: x in rows && x.assetId == a.id && InWindow(w.0, w.1)(x) ==> !HeldNow(x, now)) &&
            (e.currentStatus == "CHECKED_OUT" <==> !e.isAvailable)
  {
    var a := SelectedAssets(assets, q)[i];
    var w := Window(q, now);
    var mine := Filter(Filter(rows, InWindow(w.0, w.1)), OnAsset(a.id));
    CalendarEquipment(rows, assets, q, now);
    assert Calendar(rows, assets, q, now).equipment[i] == Entry(a, mine, now);
    AssetReservations(rows, w.0, w.1, a.id);
    EntryAvailability(a, mine, now);
  }

  /** The response's equipment list is built from the selected assets and
      the reservations fetched for the window. */
  lemma CalendarEquipment(rows: seq<Reservation>, assets: seq<Asset>, q: Query, now: int)
    ensures Calendar(rows, assets, q, now).equipment ==
            Equipment(SelectedAssets(assets, q), Filter(rows, InWindow(Window(q, now).0, Window(q, now).1)), now)
  {
  }

  /** The fetched reservations on one asset are exactly the active rows on it
      that overlap the window. */
  lemma AssetReservations(rows: seq<Reservation>, start: int, end: int, id: int)
    ensures forall x :: x in Filter(Filter(rows, InWindow(start, end)), OnAsset(id)) <==>
              x in rows && x.assetId == id && InWindow(start, end)(x)
  {
    FilterMembership(rows, InWindow(start, end));
    FilterMembership(Filter(rows, InWindow(start, end)), OnAsset(id));
  }

  /** One entry: its asset's fields, its list and count, and availability iff
      none of the listed reservations is held right now. */
  lemma EntryAvailability(a: Asset, mine: seq<Reservation>, now: int)
    ensures var e := Entry(a, mine, now);
            e.id == a.id && e.category == a.category && e.reservations == mine && e.reservationCount == |mine| &&
            (e.isAvailable <==> forall x :: x in mine ==> !HeldNow(x, now)) &&
            (e.currentStatus == "CHECKED_OUT" <==> !e.isAvailable)
  {
    FilterMembership(mine, HeldAt(now));
    if Filter(mine, HeldAt(now)) != [] {
      assert Filter(mine, HeldAt(now))[0] in Filter(mine, HeldAt(now));
    }
  }

  /** The category statistics list each category of the listed assets once,
      and their totals add up to the overall total. */
  lemma CategoryTotalsAddUp(rows: seq<Reservation>, assets: seq<Asset>, q: Query, now: int)
    ensures var r, sel := Calendar(rows, assets, q, now), SelectedAssets(assets, q);
            (forall i, j :: 0 <= i < j < |r.categoryStats| ==> r.categoryStats[i].category != r.categoryStats[j].category) &&
            (forall i :: 0 <= i < |sel| ==> exists j :: 0 <= j < |r.categoryStats| && r.categoryStats[j].category == sel[i].category) &&
            SumTotals(r.categoryStats) == r.stats.total
  {
    var r, sel := Calendar(rows, assets, q, now), SelectedAssets(assets, q);
    CalendarEquipment(rows, assets, q, now);
    var fetched := Filter(rows, InWindow(Window(q, now).0, Window(q, now).1));
    EquipmentCategories(sel, fetched, now);
    StatsCoverCategories(r.equipment, sel);
  }

  /** Each entry carries its asset's category. */
  lemma EquipmentCategories(selected: seq<Asset>, fetched: seq<Reservation>, now: int)
    ensures forall i :: 0 <= i < |selected| ==> Equipment(selected, fetched, now)[i].category == selected[i].category
  {
  }

  /** Per-category statistics over the categories of the assets behind an
      equipment list: each category once, every asset's category present,
      totals adding up to the list's length. */
  lemma StatsCoverCategories(equipment: seq<EquipmentEntry>, sel: seq<Asset>)
    requires |equipment| == |sel|
    requires forall i :: 0 <= i < |sel| ==> equipment[i].category == sel[i].category
    ensures var cs := CategoryStats(equipment, Categories(sel));
            (forall i, j :: 0 <= i < j < |cs| ==> cs[i].category != cs[j].category) &&
            (forall i :: 0 <= i < |sel| ==> exists j :: 0 <= j < |cs| && cs[j].category == sel[i].category) &&
            SumTotals(cs) == |equipment|
  {
    var cats := Categories(sel);
    var cs := CategoryStats(equipment, cats);
    forall i | 0 <= i < |sel|
      ensures exists j :: 0 <= j < |cs| && cs[j].category == sel[i].category
    {
      var j :| 0 <= j < |cats| && cats[j] == sel[i].category;
      assert cs[j].category == cats[j];
    }
    GroupsPartition(equipment, EntryCategory, cats);
    SumTotalsIsSumCounts(equipment, cats);
  }

  function SumTotals(stats: seq<CategoryStat>): nat {
    if stats == [] then 0 else stats[0].total + SumTotals(stats[1..])
  }

  lemma {:induction false} SumTotalsIsSumCounts(equipment: seq<EquipmentEntry>, cats: seq<string>)
    ensures SumTotals(CategoryStats(equipment, cats)) == SumCounts(equipment, EntryCategory, cats)
  {
    if cats != [] {
      assert CategoryStats(equipment, cats)[1..] == CategoryStats(equipment, cats[1..]);
      SumTotalsIsSumCounts(equipment, cats[1..]);
    }
  }

  /** A window that starts after an ongoing checkout ends hides it: the asset
      is reported available although it is still held at `now`. */
  lemma LaterWindowHidesCurrentCheckout(now: int)
    ensures var asset := Asset(7, "T-7", "Camera", "Camera");
            var held := Reservation(0, 7, "u", now - MS_PER_DAY, now + MS_PER_HOUR, CheckedOut, "Camera", None);
            var q := Query(Some(now + MS_PER_DAY), None, None);
            HeldNow(held, now) && Calendar([held], [asset], q, now).equipment[0].isAvailable
  {
    var asset := Asset(7, "T-7", "Camera", "Camera");
    var held := Reservation(0, 7, "u", now - MS_PER_DAY, now + MS_PER_HOUR, CheckedOut, "Camera", None);
    var q := Query(Some(now + MS_PER_DAY), None, None);
    var w := Window(q, now);
    assert !InWindow(w.0, w.1)(held);
    assert Filter([held], InWindow(w.0, w.1)) == [];
  }
}
