/** `GET /api/catalog/summary` of `src/app/api/catalog/summary/route.ts`:
    the asset catalog with each asset's availability right now, grouped by
    category, and overall totals. */
module CatalogSummaryRoute {
  import opened Seqs
  import opened Reservations
  import opened Inventory
  import opened Grouping

  /** `new Set(activeReservations.map(r => r.snipeAssetId))` over the
      CHECKED_OUT rows whose end time is not yet past. */
  function CheckedOutAssetIds(rows: seq<Reservation>, now: int): (ids: set<int>)
    ensures forall id :: id in ids <==> exists i :: 0 <= i < |rows| && rows[i].assetId == id && HeldNow(rows[i], now)
  {
    set i | 0 <= i < |rows| && HeldNow(rows[i], now) :: rows[i].assetId
  }

  datatype CatalogEntry = CatalogEntry(id: int, assetTag: string, modelName: string, category: string, isAvailable: bool)

  function EntryCategory(e: CatalogEntry): string {
    e.category
  }

  function EntryAvailable(e: CatalogEntry): bool {
    e.isAvailable
  }

  /** One entry per asset, in asset order. */
  function Catalog(assets: seq<Asset>, checkedOut: set<int>): (c: seq<CatalogEntry>)
    ensures |c| == |assets|
    ensures forall i :: 0 <= i < |c| ==>
              c[i].id == assets[i].id && c[i].assetTag == assets[i].assetTag &&
              c[i].modelName == assets[i].modelName && c[i].category == assets[i].category &&
              (c[i].isAvailable <==> assets[i].id !in checkedOut)
  {
    seq(|assets|, i requires 0 <= i < |assets| =>
      CatalogEntry(assets[i].id, assets[i].assetTag, assets[i].modelName, assets[i].category, assets[i].id !in checkedOut))
  }

  datatype CategoryGroup = CategoryGroup(category: string, total: nat, available: nat, checkedOut: nat, items: seq<CatalogEntry>)

  function Group(catalog: seq<CatalogEntry>, cat: string): (g: CategoryGroup)
    ensures g.category == cat
    ensures forall i :: 0 <= i < |g.items| ==> g.items[i] in catalog && g.items[i].category == cat
    ensures forall i :: 0 <= i < |catalog| && catalog[i].category == cat ==> catalog[i] in g.items
    ensures g.total == |g.items| && g.available + g.checkedOut == g.total
    ensures g.available == |Filter(catalog, And(KeyIs(EntryCategory, cat), EntryAvailable))|
    ensures g.checkedOut == |Filter(catalog, And(KeyIs(EntryCategory, cat), Not(EntryAvailable)))|
  {
    var items := Filter(catalog, KeyIs(EntryCategory, cat));
    GroupItems(catalog, cat);
    FilterPartition(items, EntryAvailable);
    FilterFilter(catalog, KeyIs(EntryCategory, cat), EntryAvailable);
    FilterFilter(catalog, KeyIs(EntryCategory, cat), Not(EntryAvailable));
    CategoryGroup(cat, |items|, |Filter(items, EntryAvailable)|, |Filter(items, Not(EntryAvailable))|, items)
  }

  /** The entries selected for a category are exactly the catalog's
      entries of that category. */
  lemma GroupItems(catalog: seq<CatalogEntry>, cat: string)
    ensures forall e :: e in Filter(catalog, KeyIs(EntryCategory, cat)) <==> e in catalog && e.category == cat
  {
    FilterMembership(catalog, KeyIs(EntryCategory, cat));
    forall e ensures KeyIs(EntryCategory, cat)(e) == (e.category == cat) {
    }
  }

  /** `categories.map(cat => ...)`: one group per category, in order. */
  function Groups(catalog: seq<CatalogEntry>, cats: seq<string>): (gs: seq<CategoryGroup>)
    ensures |gs| == |cats|
  {
    seq(|cats|, i requires 0 <= i < |cats| => Group(catalog, cats[i]))
  }

  datatype Summary = Summary(totalEquipment: nat, totalAvailable: nat, totalCheckedOut: nat)

  datatype CatalogResponse = CatalogResponse(catalog: seq<CatalogEntry>, categoryGroups: seq<CategoryGroup>, summary: Summary)

  /** The handler; `assets` arrive in the order of the asset query. */
  function CatalogSummary(assets: seq<Asset>, rows: seq<Reservation>, now: int): (r: CatalogResponse)
    ensures r.summary.totalEquipment == |assets| == |r.catalog|
    ensures r.summary.totalAvailable == |Filter(r.catalog, EntryAvailable)|
    ensures r.summary.totalCheckedOut == |Filter(r.catalog, Not(EntryAvailable))|
    ensures r.summary.totalAvailable + r.summary.totalCheckedOut == r.summary.totalEquipment
  {
    var checkedOutAssetIds := CheckedOutAssetIds(rows, now);
    var catalog := Catalog(assets, checkedOutAssetIds);
    FilterPartition(catalog, EntryAvailable);
    CatalogResponse(
      catalog,
      Groups(catalog, Categories(assets)),
      Summary(|assets|, |Filter(catalog, EntryAvailable)|, |Filter(catalog, Not(EntryAvailable))|))
  }

  /** An asset is listed as available exactly when no CHECKED_OUT row on
      it has an end time at or after `now`. */
  lemma AvailableIffNotHeld(assets: seq<Asset>, rows: seq<Reservation>, now: int, i: int)
    requires 0 <= i < |assets|
    ensures var r := CatalogSummary(assets, rows, now);
            r.catalog[i].id == assets[i].id &&
            (r.catalog[i].isAvailable <==> forall k :: 0 <= k < |rows| && rows[k].assetId == assets[i].id ==> !HeldNow(rows[k], now))
  {
    assert CatalogSummary(assets, rows, now).catalog == Catalog(assets, CheckedOutAssetIds(rows, now));
  }

  /** `id` is not among the given asset ids. */
  function NotIn(ids: set<int>): Asset -> bool {
    (a: Asset) => a.id !in ids
  }

  /** The summary's available total counts the assets that no one holds
      right now. */
  lemma TotalAvailableCountsFreeAssets(assets: seq<Asset>, rows: seq<Reservation>, now: int)
    ensures CatalogSummary(assets, rows, now).summary.totalAvailable == |Filter(assets, NotIn(CheckedOutAssetIds(rows, now)))|
  {
    var ids := CheckedOutAssetIds(rows, now);
    assert CatalogSummary(assets, rows, now).catalog == Catalog(assets, ids);
    AvailableEntriesAreFreeAssets(assets, ids);
  }

  /** Entries marked available correspond one to one to assets outside
      `checkedOut`. */
  lemma {:induction false} AvailableEntriesAreFreeAssets(assets: seq<Asset>, checkedOut: set<int>)
    ensures |Filter(Catalog(assets, checkedOut), EntryAvailable)| == |Filter(assets, NotIn(checkedOut))|
  {
    if assets != [] {
      var c := Catalog(assets, checkedOut);
      assert c[1..] == Catalog(assets[1..], checkedOut);
      AvailableEntriesAreFreeAssets(assets[1..], checkedOut);
    }
  }

  function SumTotals(groups: seq<CategoryGroup>): nat {
    if groups == [] then 0 else groups[0].total + SumTotals(groups[1..])
  }

  lemma SumTotalsIsSumCounts(catalog: seq<CatalogEntry>, cats: seq<string>)
    ensures SumTotals(Groups(catalog, cats)) == SumCounts(catalog, EntryCategory, cats)
  {
    SumTotalsOf(Groups(catalog, cats), catalog, cats);
  }

  /** `gs` holds, position by position, the groups of `cats`. */
  predicate GroupsOf(gs: seq<CategoryGroup>, catalog: seq<CatalogEntry>, cats: seq<string>) {
    |gs| == |cats| && forall i :: 0 <= i < |gs| ==> gs[i] == Group(catalog, cats[i])
  }

  /** The totals of the groups of `cats` add up to the counts per category. */
  lemma {:induction false} SumTotalsOf(gs: seq<CategoryGroup>, catalog: seq<CatalogEntry>, cats: seq<string>)
    requires GroupsOf(gs, catalog, cats)
    ensures SumTotals(gs) == SumCounts(catalog, EntryCategory, cats)
  {
    if cats != [] {
      assert gs[0] == Group(catalog, cats[0]);
      forall i | 0 <= i < |gs| - 1 ensures gs[1..][i] == Group(catalog, cats[1..][i]) {
        assert gs[1..][i] == gs[i + 1] && cats[1..][i] == cats[i + 1];
      }
      SumTotalsOf(gs[1..], catalog, cats[1..]);
    }
  }

  /** The groups name each category once and every entry lies in one. */
  lemma GroupsCoverCatalog(assets: seq<Asset>, rows: seq<Reservation>, now: int)
    ensures var r := CatalogSummary(assets, rows, now);
            (forall i, j :: 0 <= i < j < |r.categoryGroups| ==> r.categoryGroups[i].category != r.categoryGroups[j].category) &&
            (forall i :: 0 <= i < |r.catalog| ==>
               exists j :: 0 <= j < |r.categoryGroups| && r.catalog[i] in r.categoryGroups[j].items)
  {
    var r := CatalogSummary(assets, rows, now);
    SummaryParts(assets, rows, now);
    GroupsCover(r.catalog, assets, Categories(assets));
  }

  /** The response's catalog and groups, as the handler builds them. */
  lemma SummaryParts(assets: seq<Asset>, rows: seq<Reservation>, now: int)
    ensures CatalogSummary(assets, rows, now).catalog == Catalog(assets, CheckedOutAssetIds(rows, now))
    ensures CatalogSummary(assets, rows, now).categoryGroups == Groups(CatalogSummary(assets, rows, now).catalog, Categories(assets))
  {
  }

  /** The group sizes add up to the whole catalog. */
  lemma GroupTotalsAddUp(assets: seq<Asset>, rows: seq<Reservation>, now: int)
    ensures SumTotals(CatalogSummary(assets, rows, now).categoryGroups) == CatalogSummary(assets, rows, now).summary.totalEquipment
  {
    var cats := Categories(assets);
    var catalog := Catalog(assets, CheckedOutAssetIds(rows, now));
    assert CatalogSummary(assets, rows, now).categoryGroups == Groups(catalog, cats);
    GroupsCover(catalog, assets, cats);
    GroupsPartition(catalog, EntryCategory, cats);
    SumTotalsIsSumCounts(catalog, cats);
  }

  /** Every entry lies in the group of its asset's category. */
  lemma GroupsCover(catalog: seq<CatalogEntry>, assets: seq<Asset>, cats: seq<string>)
    requires |catalog| == |assets| && cats == Categories(assets)
    requires forall i :: 0 <= i < |catalog| ==> catalog[i].category == assets[i].category
    ensures forall i :: 0 <= i < |catalog| ==> EntryCategory(catalog[i]) in cats
    ensures forall i, j :: 0 <= i < j < |cats| ==> Groups(catalog, cats)[i].category != Groups(catalog, cats)[j].category
    ensures forall i :: 0 <= i < |catalog| ==>
              exists j :: 0 <= j < |cats| && catalog[i] in Groups(catalog, cats)[j].items
  {
    var gs := Groups(catalog, cats);
    forall i | 0 <= i < |cats| ensures gs[i].category == cats[i] {
      assert gs[i] == Group(catalog, cats[i]);
    }
    forall i | 0 <= i < |catalog|
      ensures EntryCategory(catalog[i]) in cats
      ensures exists j :: 0 <= j < |cats| && catalog[i] in gs[j].items
    {
      assert catalog[i].category == assets[i].category;
      var j :| 0 <= j < |cats| && cats[j] == assets[i].category;
      assert gs[j] == Group(catalog, cats[j]);
    }
  }
}
