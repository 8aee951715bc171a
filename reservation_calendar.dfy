/** `src/components/ReservationCalendar.tsx`: the selection handler that
    accepts only the two fixed four-hour blocks. */
module ReservationCalendar {
  import opened Wrappers
  import opened Time

  /** What a selection leads to: the `onSelectSlot` callback with the
      selection unchanged, nothing, or the invalid-block alert. */
  datatype SelectionEffect =
    | SelectSlot(start: int, end: int, resourceId: string)
    | NoAction
    | Alert(message: string)

  const INVALID_BLOCK_MESSAGE := "Please select a valid 4-hour block (09:00-13:00 or 14:00-18:00)."

  /** The block test looks only at the two hours: minutes, the date and the
      order of start and end are not examined. */
  predicate IsBlockSelection(start: int, end: int) {
    (HourOf(start) == 9 && HourOf(end) == 13) || (HourOf(start) == 14 && HourOf(end) == 18)
  }

  /** `handleSelect`. `resourceId` is `None` when the selection carries no
      resource. */
  function HandleSelect(start: int, end: int, resourceId: Option<string>): (e: SelectionEffect)
    ensures e.SelectSlot? <==> IsBlockSelection(start, end) && resourceId.Some?
    ensures e.SelectSlot? ==> e == SelectSlot(start, end, resourceId.value)
    ensures e.NoAction? <==> IsBlockSelection(start, end) && resourceId.None?
    ensures e.Alert? <==> !IsBlockSelection(start, end)
    ensures e.Alert? ==> e.message == INVALID_BLOCK_MESSAGE
  {
    if IsBlockSelection(start, end) then
      (if resourceId.Some? then SelectSlot(start, end, resourceId.value) else NoAction)
    else Alert(INVALID_BLOCK_MESSAGE)
  }

  /** Every whole-hour block of a day, morning or afternoon, is accepted. */
  lemma DayBlocksAccepted(t: int, resourceId: string)
    ensures HandleSelect(AtHour(t, 9), AtHour(t, 13), Some(resourceId)) == SelectSlot(AtHour(t, 9), AtHour(t, 13), resourceId)
    ensures HandleSelect(AtHour(t, 14), AtHour(t, 18), Some(resourceId)) == SelectSlot(AtHour(t, 14), AtHour(t, 18), resourceId)
  {
  }

  /** Because only hours are compared, a selection from 09:xx on one day to
      13:xx on a later day is accepted too. */
  lemma MultiDaySelectionAccepted(t: int, days: nat, resourceId: string)
    requires days > 0
    ensures var start, end := AtHour(t, 9), AtHour(t, 13) + days * MS_PER_DAY + 59 * 60 * 1000;
            end - start > 4 * MS_PER_HOUR && HandleSelect(start, end, Some(resourceId)) == SelectSlot(start, end, resourceId)
  {
    var start, end := AtHour(t, 9), AtHour(t, 13) + days * MS_PER_DAY + 59 * 60 * 1000;
    var s := StartOfDay(AtHour(t, 13)) + days * MS_PER_DAY;
    assert AtHour(t, 13) == StartOfDay(t) + 13 * MS_PER_HOUR;
    assert end == s + 13 * MS_PER_HOUR + 59 * 60 * 1000;
    assert s % MS_PER_DAY == 0;
    HourOfWithin(end, s, 13);
  }

  /** A time `h` hours and less than one more hour after a midnight has hour
      `h`. */
  lemma HourOfWithin(t: int, midnight: int, h: nat)
    requires midnight % MS_PER_DAY == 0 && h < 24
    requires midnight + h * MS_PER_HOUR <= t < midnight + (h + 1) * MS_PER_HOUR
    ensures HourOf(t) == h
  {
    var d := t - midnight;
    var k := midnight / MS_PER_DAY;
    assert midnight == k * MS_PER_DAY;
    assert 0 <= d < MS_PER_DAY;
    assert t == k * MS_PER_DAY + d;
    assert t % MS_PER_DAY == d;
    assert h * MS_PER_HOUR <= d < h * MS_PER_HOUR + MS_PER_HOUR;
  }
}
