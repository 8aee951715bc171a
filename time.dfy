/** Timestamps. The source uses JavaScript `Date` values and date-fns
    helpers in the server's local zone; the model fixes one zone and counts
    integer milliseconds from Monday 2025-12-08 00:00 in that zone, so the
    weekday and the hour of a timestamp are plain arithmetic. Dafny's `/`
    and `%` are Euclidean, which for a positive divisor is floor division:
    timestamps before the origin land in the right day and week too. */
module Time {

  const MS_PER_HOUR: int := 60 * 60 * 1000
  const MS_PER_DAY: int := 24 * MS_PER_HOUR
  const MS_PER_WEEK: int := 7 * MS_PER_DAY

  /** Day of the week, 0 = Monday ... 6 = Sunday. */
  function Weekday(t: int): (d: nat)
    ensures d < 7
  {
    (t / MS_PER_DAY) % 7
  }

  /** The short English weekday names, Monday first. */
  const DAY_NAMES: seq<string> := ["Mon", "Tue", "Wed", "Thu", "Fri", "Sat", "Sun"]

  /** `toLocaleDateString('en-US', { weekday: 'short' })`. */
  function DayName(t: int): (name: string)
    ensures name in DAY_NAMES
  {
    DAY_NAMES[Weekday(t)]
  }

  /** The names tell the weekdays apart: two instants get the same name
      exactly when they fall on the same weekday. */
  lemma DayNameIdentifiesWeekday(t1: int, t2: int)
    ensures DayName(t1) == DayName(t2) <==> Weekday(t1) == Weekday(t2)
  {
    assert forall i, j :: 0 <= i < j < 7 ==> DAY_NAMES[i] != DAY_NAMES[j];
  }

  /** A day later the name is the next one in the list, Sunday wrapping
      round to Monday. */
  lemma {:induction false} NextDayName(t: int)
    ensures Weekday(t + MS_PER_DAY) == (Weekday(t) + 1) % 7
    ensures DayName(t + MS_PER_DAY) == DAY_NAMES[(Weekday(t) + 1) % 7]
  {
    assert (t + MS_PER_DAY) / MS_PER_DAY == t / MS_PER_DAY + 1;
  }

  /** date-fns `startOfDay`: midnight of the day containing `t`. */
  function StartOfDay(t: int): (r: int)
    ensures r <= t < r + MS_PER_DAY
    ensures r % MS_PER_DAY == 0
  {
    t - t % MS_PER_DAY
  }

  /** `getHours()`: the hour of the day, 0 to 23. */
  function HourOf(t: int): (h: nat)
    ensures h < 24
    ensures StartOfDay(t) + h * MS_PER_HOUR <= t < StartOfDay(t) + (h + 1) * MS_PER_HOUR
  {
    (t % MS_PER_DAY) / MS_PER_HOUR
  }

  /** `setHours(h, 0, 0, 0)` on a copy of `t`: hour `h` sharp on the same day. */
  function AtHour(t: int, h: nat): (r: int)
    requires h < 24
    ensures StartOfDay(r) == StartOfDay(t) && HourOf(r) == h && r % MS_PER_HOUR == 0
  {
    var s := StartOfDay(t);
    var m := s / MS_PER_DAY;
    var r := s + h * MS_PER_HOUR;
    assert s == m * MS_PER_DAY;
    DivModDay(r, m, h * MS_PER_HOUR);
    DivModHour(h * MS_PER_HOUR, h, 0);
    DivModHour(r, m * 24 + h, 0);
    r
  }

  /** Euclidean division by a day is unique: a quotient and a remainder in
      range are the quotient and the remainder. */
  lemma DivModDay(n: int, q: int, r: int)
    requires 0 <= r < MS_PER_DAY && n == q * MS_PER_DAY + r
    ensures n / MS_PER_DAY == q && n % MS_PER_DAY == r
  {
  }

  /** The same for division by an hour. */
  lemma DivModHour(n: int, q: int, r: int)
    requires 0 <= r < MS_PER_HOUR && n == q * MS_PER_HOUR + r
    ensures n / MS_PER_HOUR == q && n % MS_PER_HOUR == r
  {
  }

  /** date-fns `addHours`. */
  function AddHours(t: int, n: int): int {
    t + n * MS_PER_HOUR
  }

  /** date-fns `addDays` (no daylight-saving shifts in the fixed zone). */
  function AddDays(t: int, n: int): int {
    t + n * MS_PER_DAY
  }

  /** date-fns `startOfISOWeek` (and `startOfWeek` with `weekStartsOn: 1`):
      Monday 00:00 of the week containing `t`. */
  function StartOfISOWeek(t: int): (r: int)
    ensures r <= t < r + MS_PER_WEEK
    ensures r % MS_PER_WEEK == 0
  {
    t - t % MS_PER_WEEK
  }

  /** date-fns `endOfISOWeek` (and `endOfWeek` with `weekStartsOn: 1`):
      the last millisecond of Sunday, 23:59:59.999 — still in the week of
      `t`, while one millisecond later the next week starts. */
  function EndOfISOWeek(t: int): (r: int)
    ensures StartOfISOWeek(r) == StartOfISOWeek(t)
    ensures StartOfISOWeek(r + 1) == StartOfISOWeek(t) + MS_PER_WEEK
  {
    var w := StartOfISOWeek(t);
    var r := w + MS_PER_WEEK - 1;
    WeekStartUnique(r, w);
    assert (w + MS_PER_WEEK) % MS_PER_WEEK == 0 by {
      assert w == (w / MS_PER_WEEK) * MS_PER_WEEK;
      assert w + MS_PER_WEEK == (w / MS_PER_WEEK + 1) * MS_PER_WEEK;
    }
    WeekStartUnique(r + 1, w + MS_PER_WEEK);
    r
  }

  /** Monday is the first day of every ISO week. */
  lemma WeekStartIsMon(t: int)
    ensures DayName(StartOfISOWeek(t)) == "Mon"
  {
    WeekStartsMonday(t);
  }

  /** The week start is a Monday at midnight. */
  lemma WeekStartsMonday(t: int)
    ensures Weekday(StartOfISOWeek(t)) == 0
    ensures StartOfDay(StartOfISOWeek(t)) == StartOfISOWeek(t)
  {
    var w := StartOfISOWeek(t);
    var k := w / MS_PER_WEEK;
    assert w == k * MS_PER_WEEK;
    assert w == (7 * k) * MS_PER_DAY;
    assert w / MS_PER_DAY == 7 * k;
  }

  /** The week of `t` is determined by `t` alone: the only Monday-midnight
      `w` with `w <= t < w + week` is `StartOfISOWeek(t)`. */
  lemma {:induction false} WeekStartUnique(t: int, w: int)
    requires w % MS_PER_WEEK == 0 && w <= t < w + MS_PER_WEEK
    ensures w == StartOfISOWeek(t)
  {
    var r := StartOfISOWeek(t);
    var a := w / MS_PER_WEEK;
    var b := r / MS_PER_WEEK;
    assert w == a * MS_PER_WEEK;
    assert r == b * MS_PER_WEEK;
  }

  /** Two timestamps share a week window exactly when they share a week start. */
  lemma SameWeek(t1: int, t2: int)
    requires StartOfISOWeek(t1) <= t2 <= EndOfISOWeek(t1)
    ensures StartOfISOWeek(t2) == StartOfISOWeek(t1)
    ensures EndOfISOWeek(t2) == EndOfISOWeek(t1)
  {
    WeekStartUnique(t2, StartOfISOWeek(t1));
  }
}
