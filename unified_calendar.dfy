/** `src/components/calendar/UnifiedCalendar.tsx`: the resource timeline's
    category and search filter, its pagination, the events it shows, the
    snapping of a clicked or selected time to a reservation block, and the
    Prev/Next page state. Rendering is not modelled. */
module UnifiedCalendar {
  import opened Wrappers
  import opened Seqs
  import opened Strings
  import opened Time

  datatype Resource = Resource(id: string, title: string, category: Option<string>, assetTag: Option<string>)

  datatype CalendarEvent = CalendarEvent(id: string, resourceId: string, start: int, end: int, title: string)

  const PAGE_SIZE: nat := 20
  const ALL := "all"

  // ---------------------------------------------------------------------
  // Block snapping (`handleDateClick`, `handleSelect`)
  // ---------------------------------------------------------------------

  /** The block containing the clicked hour: before 14:00 the morning block
      09:00-13:00 of that day, otherwise the afternoon block 14:00-18:00. */
  function Snap(t: int): (w: (int, int))
    ensures StartOfDay(w.0) == StartOfDay(t) && w.1 - w.0 == 4 * MS_PER_HOUR
    ensures HourOf(t) < 14 ==> w.0 == StartOfDay(t) + 9 * MS_PER_HOUR
    ensures HourOf(t) >= 14 ==> w.0 == StartOfDay(t) + 14 * MS_PER_HOUR
  {
    if HourOf(t) < 14 then (AtHour(t, 9), AtHour(t, 13)) else (AtHour(t, 14), AtHour(t, 18))
  }

  /** Snapping the start of a snapped window again gives the same window. */
  lemma SnapIdempotent(t: int)
    ensures Snap(Snap(t).0) == Snap(t)
  {
    var w := Snap(t);
    assert StartOfDay(w.0) == StartOfDay(t);
  }

  /** A `router.push` target: the asset page, with the snapped window when
      there is one. */
  datatype Navigation = Navigation(path: string, window: Option<(int, int)>)

  /** Shared by `handleDateClick` (with the clicked date) and `handleSelect`
      (with the selection start); `None` is a missing or empty resource id. */
  function SnapNavigation(resourceId: Option<string>, t: int): (n: Option<Navigation>)
    ensures resourceId.None? || resourceId.value == "" <==> n.None?
    ensures n.Some? ==> n.value == Navigation("/catalog/" + resourceId.value, Some(Snap(t)))
  {
    if resourceId.None? || resourceId.value == "" then None
    else Some(Navigation("/catalog/" + resourceId.value, Some(Snap(t))))
  }

  /** `handleEventClick`: the asset page, without a window. */
  function EventNavigation(resourceId: Option<string>): (n: Option<Navigation>)
    ensures resourceId.None? || resourceId.value == "" <==> n.None?
    ensures n.Some? ==> n.value == Navigation("/catalog/" + resourceId.value, None)
  {
    if resourceId.None? || resourceId.value == "" then None else Some(Navigation("/catalog/" + resourceId.value, None))
  }

  // ---------------------------------------------------------------------
  // Filtering
  // ---------------------------------------------------------------------

  /** `resources.map(r => r.category).filter(Boolean)`. */
  function TruthyCategories(resources: seq<Resource>): (cs: seq<string>)
    ensures forall c :: c in cs <==> exists i :: 0 <= i < |resources| && resources[i].category == Some(c) && c != ""
  {
    if resources == [] then []
    else
      var rest := TruthyCategories(resources[1..]);
      assert forall i :: 0 < i < |resources| ==> resources[i] == resources[1..][i - 1];
      var c := resources[0].category;
      if c.Some? && c.value != "" then [c.value] + rest else rest
  }

  /** `categories`: one button per distinct non-empty category. */
  function CategoryButtons(resources: seq<Resource>): (cs: seq<string>)
    ensures forall c :: c in cs <==> exists i :: 0 <= i < |resources| && resources[i].category == Some(c) && c != ""
    ensures forall i, j :: 0 <= i < j < |cs| ==> cs[i] != cs[j]
  {
    Distinct(TruthyCategories(resources))
  }

  /** The search match, on the lower-cased title or a non-empty asset tag. */
  predicate MatchesTerm(r: Resource, term: string) {
    Contains(ToLower(r.title), term) ||
    (r.assetTag.Some? && r.assetTag.value != "" && Contains(ToLower(r.assetTag.value), term))
  }

  /** A resource is listed when it is in the selected category (or `all` is
      selected) and either the search box is blank after trimming or the
      lower-cased, untrimmed search text matches it. */
  predicate Shown(r: Resource, selectedCategory: string, searchTerm: string) {
    (selectedCategory == ALL || r.category == Some(selectedCategory)) &&
    (Trim(searchTerm) == [] || MatchesTerm(r, ToLower(searchTerm)))
  }

  function ShownWith(selectedCategory: string, searchTerm: string): Resource -> bool {
    r => Shown(r, selectedCategory, searchTerm)
  }

  function InCategory(c: string): Resource -> bool {
    (r: Resource) => r.category == Some(c)
  }

  function MatchingTerm(term: string): Resource -> bool {
    (r: Resource) => MatchesTerm(r, term)
  }

  /** `filteredResources`: exactly the resources that are shown, in order. */
  function FilteredResources(resources: seq<Resource>, selectedCategory: string, searchTerm: string): (r: seq<Resource>)
    ensures r == Filter(resources, ShownWith(selectedCategory, searchTerm))
  {
    var byCategory := if selectedCategory == ALL then resources else Filter(resources, InCategory(selectedCategory));
    var shown := ShownWith(selectedCategory, searchTerm);
    var term := MatchingTerm(ToLower(searchTerm));
    if Trim(searchTerm) == [] then
      if selectedCategory == ALL then FilterAll(resources, shown); byCategory
      else FilterCongruent(resources, InCategory(selectedCategory), shown); byCategory
    else
      if selectedCategory == ALL then FilterCongruent(resources, term, shown); Filter(byCategory, term)
      else
        FilterFilter(resources, InCategory(selectedCategory), term);
        FilterCongruent(resources, And(InCategory(selectedCategory), term), shown);
        Filter(byCategory, term)
  }

  /** A predicate that holds everywhere keeps everything. */
  lemma {:induction false} FilterAll(s: seq<Resource>, p: Resource -> bool)
    requires forall i :: 0 <= i < |s| ==> p(s[i])
    ensures Filter(s, p) == s
  {
    if s != [] {
      FilterAll(s[1..], p);
    }
  }

  /** A blank search (spaces only) and the `all` category list everything. */
  lemma BlankSearchListsAll(resources: seq<Resource>, searchTerm: string)
    requires forall k :: 0 <= k < |searchTerm| ==> IsSpace(searchTerm[k])
    ensures FilteredResources(resources, ALL, searchTerm) == resources
  {
  }

  // ---------------------------------------------------------------------
  // Pagination
  // ---------------------------------------------------------------------

  /** `Math.max(1, Math.ceil(n / pageSize))`. */
  function TotalPages(n: nat): (t: nat)
    ensures t >= 1
    ensures n == 0 ==> t == 1
    ensures n > 0 ==> (t - 1) * PAGE_SIZE < n <= t * PAGE_SIZE
  {
    if n == 0 then 1 else (n + PAGE_SIZE - 1) / PAGE_SIZE
  }

  /** `Math.min(page, totalPages - 1)`. */
  function CurrentPage(page: nat, totalPages: nat): (c: nat)
    requires totalPages >= 1
    ensures c <= page && c <= totalPages - 1
    ensures c == page || c == totalPages - 1
  {
    if page < totalPages - 1 then page else totalPages - 1
  }

  /** `pagedResources`: the slice of the current page, a contiguous run of
      at most twenty filtered resources starting at the current page's
      offset, empty only when the filtered list is. */
  function PagedResources(filtered: seq<Resource>, page: nat): (p: seq<Resource>)
    ensures var c := CurrentPage(page, TotalPages(|filtered|));
            |p| <= PAGE_SIZE &&
            (forall i :: 0 <= i < |p| ==> c * PAGE_SIZE + i < |filtered| && p[i] == filtered[c * PAGE_SIZE + i]) &&
            (p == [] <==> filtered == [])
  {
    var current := CurrentPage(page, TotalPages(|filtered|));
    Slice(filtered, current * PAGE_SIZE, current * PAGE_SIZE + PAGE_SIZE)
  }

  /** Every filtered resource is reachable: resource `k` is entry `k % 20`
      of page `k / 20`. */
  lemma EveryResourceOnItsPage(filtered: seq<Resource>, k: nat)
    requires k < |filtered|
    ensures k / PAGE_SIZE <= TotalPages(|filtered|) - 1
    ensures k % PAGE_SIZE < |PagedResources(filtered, k / PAGE_SIZE)|
    ensures PagedResources(filtered, k / PAGE_SIZE)[k % PAGE_SIZE] == filtered[k]
  {
    var p := k / PAGE_SIZE;
    assert p * PAGE_SIZE <= k < p * PAGE_SIZE + PAGE_SIZE;
    assert p * PAGE_SIZE < |filtered|;
    var t := TotalPages(|filtered|);
    assert p < t by {
      assert p * PAGE_SIZE < |filtered| <= t * PAGE_SIZE;
    }
  }

  /** A page number left over from a longer list shows the last page. */
  lemma StalePageShowsLastPage(filtered: seq<Resource>, page: nat)
    requires page >= TotalPages(|filtered|)
    ensures PagedResources(filtered, page) == PagedResources(filtered, TotalPages(|filtered|) - 1)
  {
  }

  // ---------------------------------------------------------------------
  // Visible events
  // ---------------------------------------------------------------------

  function ResourceIds(paged: seq<Resource>): set<string> {
    set i | 0 <= i < |paged| :: paged[i].id
  }

  function OnResources(ids: set<string>): CalendarEvent -> bool {
    (e: CalendarEvent) => e.resourceId in ids
  }

  /** `visibleEvents`: the events of the resources on the page. */
  function VisibleEvents(events: seq<CalendarEvent>, paged: seq<Resource>): (v: seq<CalendarEvent>)
    ensures forall i :: 0 <= i < |v| ==>
              v[i] in events && exists j :: 0 <= j < |paged| && paged[j].id == v[i].resourceId
    ensures forall i :: 0 <= i < |events| && (exists j :: 0 <= j < |paged| && paged[j].id == events[i].resourceId) ==>
              events[i] in v
  {
    Filter(events, OnResources(ResourceIds(paged)))
  }

  /** The complete view over the component's state. */
  function VisibleView(resources: seq<Resource>, events: seq<CalendarEvent>, selectedCategory: string, searchTerm: string, page: nat): (seq<Resource>, seq<CalendarEvent>) {
    var paged := PagedResources(FilteredResources(resources, selectedCategory, searchTerm), page);
    (paged, VisibleEvents(events, paged))
  }

  // ---------------------------------------------------------------------
  // State and its handlers
  // ---------------------------------------------------------------------

  /** `p => Math.max(0, p - 1)`. */
  function StepBack(p: nat): (q: nat)
    ensures q == 0 || q + 1 == p
  {
    if p == 0 then 0 else p - 1
  }

  /** `p => Math.min(last, p + 1)`. */
  function StepForward(p: nat, last: nat): (q: nat)
    ensures q <= last && q <= p + 1 && (q == last || q == p + 1)
  {
    if last < p + 1 then last else p + 1
  }

  /** The component's `useState` cells. */
  class CalendarState {
    var selectedCategory: string
    var searchTerm: string
    var page: nat

    constructor ()
      ensures selectedCategory == ALL && searchTerm == "" && page == 0
    {
      selectedCategory := ALL;
      searchTerm := "";
      page := 0;
    }

    function Filtered(resources: seq<Resource>): seq<Resource>
      reads this
    {
      FilteredResources(resources, selectedCategory, searchTerm)
    }

    /** The page the list shows. */
    function Shown(resources: seq<Resource>): nat
      reads this
    {
      CurrentPage(page, TotalPages(|Filtered(resources)|))
    }

    /** A click on Prev: `setPage(p => Math.max(0, p - 1))`, with the button
        disabled on the first shown page. From a stale page number past the
        end the shown page does not move until the number is back in range. */
    method ClickPrev(resources: seq<Resource>)
      modifies this
      ensures page == if old(Shown(resources)) == 0 then old(page) else old(page) - 1
      ensures old(page) <= TotalPages(|old(Filtered(resources))|) - 1 ==>
                Shown(resources) == if old(Shown(resources)) == 0 then 0 else old(Shown(resources)) - 1
      ensures selectedCategory == old(selectedCategory) && searchTerm == old(searchTerm)
    {
      var totalPages := TotalPages(|Filtered(resources)|);
      var disabled := CurrentPage(page, totalPages) == 0;
      if !disabled {
        page := StepBack(page);
      }
    }

    /** A click on Next: `setPage(p => Math.min(totalPages - 1, p + 1))`,
        with the button disabled on the last page. */
    method ClickNext(resources: seq<Resource>)
      modifies this
      ensures var last := TotalPages(|old(Filtered(resources))|) - 1;
              page == if old(Shown(resources)) < last then old(page) + 1 else old(page)
      ensures old(page) <= TotalPages(|old(Filtered(resources))|) - 1 ==>
                page <= TotalPages(|Filtered(resources)|) - 1
      ensures Shown(resources) == if old(Shown(resources)) < TotalPages(|old(Filtered(resources))|) - 1
                                  then old(Shown(resources)) + 1 else old(Shown(resources))
      ensures selectedCategory == old(selectedCategory) && searchTerm == old(searchTerm)
    {
      var totalPages := TotalPages(|Filtered(resources)|);
      var disabled := CurrentPage(page, totalPages) >= totalPages - 1;
      if !disabled {
        page := StepForward(page, totalPages - 1);
      }
    }

    /** Typing in the search box sets the term and returns to page 0; the
        Clear button is the same with an empty term. */
    method SetSearchTerm(term: string)
      modifies this
      ensures searchTerm == term && page == 0 && selectedCategory == old(selectedCategory)
    {
      searchTerm := term;
      page := 0;
    }

    /** A category button: `setSelectedCategory(category || 'all')`. The
        page is not reset; `CurrentPage` clamps it. */
    method SelectCategory(category: Option<string>)
      modifies this
      ensures selectedCategory == if category.Some? && category.value != "" then category.value else ALL
      ensures page == old(page) && searchTerm == old(searchTerm)
    {
      selectedCategory := if category.Some? && category.value != "" then category.value else ALL;
    }
  }
}
