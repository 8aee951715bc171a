/** `src/components/AvailabilityCalendar.tsx`: the five-day week paging over
    the availability list and the gating of a block click. */
module AvailabilityCalendar {
  import opened Wrappers
  import opened Seqs

  datatype BlockType = A | B

  datatype BlockAvailability = BlockAvailability(available: bool, startTime: string, endTime: string)

  datatype DayAvailability = DayAvailability(date: string, dayOfWeek: string, blockA: BlockAvailability, blockB: BlockAvailability)
  {
    /** `day.blocks[blockType]`. */
    function Block(t: BlockType): BlockAvailability {
      match t
      case A => blockA
      case B => blockB
    }
  }

  datatype UserBlockUsage = UserBlockUsage(category: string, blocksUsed: int, blocksRemaining: int, canReserve: bool)

  const DAYS_PER_PAGE: nat := 5

  // ---------------------------------------------------------------------
  // Week paging
  // ---------------------------------------------------------------------

  /** `visibleDays`: the five days starting at `viewWeek * 5`. */
  function VisibleDays(availability: seq<DayAvailability>, viewWeek: nat): (v: seq<DayAvailability>)
    ensures |v| <= DAYS_PER_PAGE
    ensures forall i :: 0 <= i < |v| ==> viewWeek * DAYS_PER_PAGE + i < |availability| && v[i] == availability[viewWeek * DAYS_PER_PAGE + i]
    ensures v == [] <==> |availability| <= viewWeek * DAYS_PER_PAGE
  {
    Slice(availability, viewWeek * DAYS_PER_PAGE, viewWeek * DAYS_PER_PAGE + DAYS_PER_PAGE)
  }

  predicate HasNextWeek(availability: seq<DayAvailability>, viewWeek: nat) {
    viewWeek * DAYS_PER_PAGE + DAYS_PER_PAGE < |availability|
  }

  predicate HasPrevWeek(viewWeek: nat) {
    viewWeek > 0
  }

  /** Next Week is enabled exactly when the following week has a day to show,
      and Previous Week exactly when there is an earlier week. */
  lemma NextWeekIffDaysFollow(availability: seq<DayAvailability>, viewWeek: nat)
    ensures HasNextWeek(availability, viewWeek) <==> VisibleDays(availability, viewWeek + 1) != []
    ensures HasPrevWeek(viewWeek) <==> viewWeek >= 1
  {
    assert (viewWeek + 1) * DAYS_PER_PAGE == viewWeek * DAYS_PER_PAGE + DAYS_PER_PAGE;
  }

  /** Every day of the list is shown on week `k / 5`, at column `k % 5`. */
  lemma EveryDayOnItsWeek(availability: seq<DayAvailability>, k: nat)
    requires k < |availability|
    ensures k % DAYS_PER_PAGE < |VisibleDays(availability, k / DAYS_PER_PAGE)|
    ensures VisibleDays(availability, k / DAYS_PER_PAGE)[k % DAYS_PER_PAGE] == availability[k]
  {
    assert (k / DAYS_PER_PAGE) * DAYS_PER_PAGE + k % DAYS_PER_PAGE == k;
  }

  /** The week shown is the first one or one that has days. */
  predicate InRange(availability: seq<DayAvailability>, viewWeek: nat) {
    viewWeek == 0 || viewWeek * DAYS_PER_PAGE < |availability|
  }

  /** The `viewWeek` state and its two buttons. A disabled button does not
      fire its handler, so each click method applies the handler only when
      the button is enabled. */
  class WeekPager {
    var viewWeek: nat

    constructor ()
      ensures viewWeek == 0
    {
      viewWeek := 0;
    }

    /** Previous Week: `setViewWeek(Math.max(0, viewWeek - 1))`, enabled when
        `hasPrevWeek`. */
    method ClickPrevious(availability: seq<DayAvailability>)
      modifies this
      ensures viewWeek == if old(viewWeek) == 0 then 0 else old(viewWeek) - 1
      ensures old(InRange(availability, viewWeek)) ==> InRange(availability, viewWeek)
    {
      if HasPrevWeek(viewWeek) {
        viewWeek := viewWeek - 1;
      }
    }

    /** Next Week: `setViewWeek(viewWeek + 1)`, enabled when `hasNextWeek`. */
    method ClickNext(availability: seq<DayAvailability>)
      modifies this
      ensures viewWeek == if old(HasNextWeek(availability, viewWeek)) then old(viewWeek) + 1 else old(viewWeek)
      ensures old(InRange(availability, viewWeek)) ==> InRange(availability, viewWeek)
      ensures old(HasNextWeek(availability, viewWeek)) ==> VisibleDays(availability, viewWeek) != []
    {
      if HasNextWeek(availability, viewWeek) {
        viewWeek := viewWeek + 1;
      }
    }
  }

  // ---------------------------------------------------------------------
  // Block click
  // ---------------------------------------------------------------------

  /** What a click leads to: nothing, the weekly-limit alert, or the
      `onSelectBlock` callback. */
  datatype ClickEffect =
    | NoEffect
    | LimitAlert(message: string)
    | SelectBlock(date: string, block: BlockType, startTime: string, endTime: string)

  function LimitMessage(category: string): string {
    "You have reached your weekly limit of 3 blocks for " + category
  }

  /** `handleBlockClick`; `usage` is the optional `userBlockUsage` prop. */
  function HandleBlockClick(day: DayAvailability, blockType: BlockType, usage: Option<UserBlockUsage>): (e: ClickEffect)
    ensures !day.Block(blockType).available <==> e.NoEffect?
    ensures e.LimitAlert? <==> day.Block(blockType).available && usage.Some? && !usage.value.canReserve
    ensures e.LimitAlert? ==> e.message == LimitMessage(usage.value.category)
    ensures e.SelectBlock? <==> day.Block(blockType).available && (usage.None? || usage.value.canReserve)
    ensures e.SelectBlock? ==>
              e == SelectBlock(day.date, blockType, day.Block(blockType).startTime, day.Block(blockType).endTime)
  {
    var block := day.Block(blockType);
    if !block.available then NoEffect
    else if usage.Some? && !usage.value.canReserve then LimitAlert(LimitMessage(usage.value.category))
    else SelectBlock(day.date, blockType, block.startTime, block.endTime)
  }

  /** The other block of the same day never affects a click. */
  lemma OtherBlockIrrelevant(day: DayAvailability, other: BlockAvailability, usage: Option<UserBlockUsage>)
    ensures HandleBlockClick(day.(blockB := other), A, usage) == HandleBlockClick(day, A, usage)
    ensures HandleBlockClick(day.(blockA := other), B, usage) == HandleBlockClick(day, B, usage)
  {
  }
}
