/** The local asset table (the ORM's `asset` model) and the notion of an
    asset being held right now, shared by the read-side routes. */
module Inventory {
  import opened Seqs
  import opened Reservations

  datatype Asset = Asset(id: int, assetTag: string, modelName: string, category: string)

  function CategoryOf(a: Asset): string {
    a.category
  }

  /** `Array.from(new Set(assets.map(a => a.category)))`. */
  function Categories(assets: seq<Asset>): (cs: seq<string>)
    ensures forall i, j :: 0 <= i < j < |cs| ==> cs[i] != cs[j]
    ensures forall i :: 0 <= i < |assets| ==> assets[i].category in cs
    ensures forall i :: 0 <= i < |cs| ==> exists k :: 0 <= k < |assets| && assets[k].category == cs[i]
  {
    var all := seq(|assets|, i requires 0 <= i < |assets| => assets[i].category);
    var cs := Distinct(all);
    assert forall i :: 0 <= i < |assets| ==> all[i] == assets[i].category;
    cs
  }

  /** A reservation that keeps its asset out right now: CHECKED_OUT and not
      yet past its end time. */
  predicate HeldNow(r: Reservation, now: int) {
    r.status == CheckedOut && r.endTime >= now
  }

  function HeldAt(now: int): Reservation -> bool {
    r => HeldNow(r, now)
  }
}
