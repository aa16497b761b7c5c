/**
 * The first class date of a course: the first day on or after the
 * semester's start date that falls on the course's weekday, at the start
 * time of the course's first period.
 *
 * A date is a day number counted from 1970-01-01, which was a Thursday;
 * an instant is a count of minutes from midnight of day 0 in the device's
 * calendar, so day `d` at minute `m` is `d * MINUTES_PER_DAY + m`.
 */
module Occurrence {
  import opened Models

  const MINUTES_PER_DAY: nat := 24 * 60

  /** `Calendar.component(.weekday, from:)` for a day number, 1 = Sunday
      through 7 = Saturday. */
  function DayWeekday(d: int): (w: int)
    ensures 1 <= w <= 7
  {
    (d + 4) % 7 + 1
  }

  /** Day 0 was a Thursday and day 3 a Sunday. */
  lemma EpochWeekdays()
    ensures DayWeekday(0) == 5
    ensures DayWeekday(3) == 1
  {
  }

  /** The weekday advances by one each day and wraps from Saturday to
      Sunday. */
  lemma WeekdayNext(d: int)
    ensures DayWeekday(d + 1) == if DayWeekday(d) == 7 then 1 else DayWeekday(d) + 1
  {
  }

  /** The number of days to add to a date of weekday `startWeekday` to
      reach weekday `weekday`: the difference, plus a week when it is
      negative. */
  function DayDelta(weekday: int, startWeekday: int): (delta: int)
    ensures delta == weekday - startWeekday || delta == weekday - startWeekday + 7
    ensures 1 <= weekday <= 7 && 1 <= startWeekday <= 7 ==> 0 <= delta <= 6
  {
    var diff := weekday - startWeekday;
    if diff < 0 then diff + 7 else diff
  }

  /** The day of the first class of a course held on `weekday`. */
  function FirstClassDay(startDay: int, weekday: int): int {
    startDay + DayDelta(weekday, DayWeekday(startDay))
  }

  /** The period whose start time opens the first class: the first listed
      period, or period 1 when none is listed. */
  function OpeningPeriod(periods: seq<int>): int {
    if periods == [] then 1 else periods[0]
  }

  /** `calculateDate(weekday:periods:)`: the instant of the first class.
      The Swift result is optional because the date formatter may fail to
      read back the text it built; with one fixed time zone and a fixed
      clock format that cannot happen here, so the model always gives an
      instant. */
  function CalculateDate(startDay: int, weekday: int, periods: seq<int>): (t: int)
    ensures t / MINUTES_PER_DAY == FirstClassDay(startDay, weekday)
    ensures t % MINUTES_PER_DAY == StartMinutes(OpeningPeriod(periods))
  {
    StartWithinDay(OpeningPeriod(periods));
    InstantOfDay(FirstClassDay(startDay, weekday), StartMinutes(OpeningPeriod(periods)));
    FirstClassDay(startDay, weekday) * MINUTES_PER_DAY + StartMinutes(OpeningPeriod(periods))
  }

  /** Day `d` at minute `m` of the day lies on day `d`, `m` minutes after
      its midnight. */
  lemma InstantOfDay(d: int, m: int)
    requires 0 <= m < MINUTES_PER_DAY
    ensures (d * MINUTES_PER_DAY + m) / MINUTES_PER_DAY == d
    ensures (d * MINUTES_PER_DAY + m) % MINUTES_PER_DAY == m
  {
  }

  /** Every start time in the table, and the "00:00" fallback, lies within
      a day. */
  lemma StartWithinDay(p: int)
    ensures StartMinutes(p) < MINUTES_PER_DAY
  {
  }

  /** For a weekday 1..7 the first class falls on that weekday, within the
      week that begins on the start date, and no earlier day of that week
      has the course's weekday. */
  lemma {:induction false} FirstClassDayIsFirstMatch(startDay: int, weekday: int)
    requires 1 <= weekday <= 7
    ensures var d := FirstClassDay(startDay, weekday);
      startDay <= d < startDay + 7 && DayWeekday(d) == weekday
    ensures forall e :: startDay <= e < FirstClassDay(startDay, weekday) ==> DayWeekday(e) != weekday
  {
    var sw := DayWeekday(startDay);
    forall e | startDay <= e < FirstClassDay(startDay, weekday)
      ensures DayWeekday(e) != weekday
    {
      WeekdayOffset(startDay, e - startDay);
    }
    WeekdayOffset(startDay, DayDelta(weekday, sw));
  }

  /** The weekday `k` days (0..6) after day `d`. */
  lemma WeekdayOffset(d: int, k: int)
    requires 0 <= k <= 6
    ensures DayWeekday(d + k) == (DayWeekday(d) - 1 + k) % 7 + 1
  {
  }

  /** A course held on the start date's own weekday begins on the start
      date itself. */
  lemma SameWeekdayStartsAtOnce(startDay: int)
    ensures FirstClassDay(startDay, DayWeekday(startDay)) == startDay
  {
  }

  /** A semester starting on a Tuesday: a Monday course first meets six
      days later, a Wednesday course the next day. */
  lemma TuesdayStartExample(startDay: int)
    requires DayWeekday(startDay) == 3
    ensures FirstClassDay(startDay, 2) == startDay + 6
    ensures FirstClassDay(startDay, 4) == startDay + 1
  {
  }

  /** A course listed with no periods starts at 08:10, the start of
      period 1; otherwise at its first listed period, even when a later
      listed period starts earlier. */
  lemma OpeningPeriodExamples(startDay: int)
    ensures CalculateDate(startDay, 2, []) % MINUTES_PER_DAY == 8 * 60 + 10
    ensures CalculateDate(startDay, 2, [7, 3]) % MINUTES_PER_DAY == 14 * 60 + 20
  {
  }
}
