/**
 * Calendar arithmetic behind the training planner. A date is a whole day
 * number counted from 1970-01-01, which was a Thursday; times of day, time
 * zones and daylight saving are not modelled, so two midnights always lie a
 * whole number of days apart.
 */
module Calendar {
  import opened JsNumber

  /** `getDay()`: 0 is Sunday, 1 is Monday, … 6 is Saturday. */
  function Weekday(day: int): (w: int)
    ensures 0 <= w < 7
  {
    (day + 4) % 7
  }

  /** Days back to the Monday of the same Monday-to-Sunday week: 6 from a Sunday, weekday − 1 otherwise. */
  function DaysToMonday(day: int): (n: int)
    ensures 0 <= n <= 6
    ensures Weekday(day - n) == 1
  {
    var w := Weekday(day);
    if w == 0 then 6 else w - 1
  }

  /** The Monday that starts the week holding `day`. */
  function MondayOf(day: int): (m: int)
    ensures day - 6 <= m <= day
    ensures Weekday(m) == 1
  {
    day - DaysToMonday(day)
  }

  /** A Monday at most six days back is the one MondayOf finds. */
  lemma MondayUnique(day: int, m: int)
    requires day - 6 <= m <= day && Weekday(m) == 1
    ensures m == MondayOf(day)
  {
    var k := MondayOf(day);
    SameWeekdayMultipleOfSeven(m, k);
  }

  /** Two days with the same weekday lie a whole number of weeks apart. */
  lemma SameWeekdayMultipleOfSeven(a: int, b: int)
    requires Weekday(a) == Weekday(b)
    ensures (b - a) % 7 == 0
  {
    var qa := (a + 4) / 7;
    var qb := (b + 4) / 7;
    assert a + 4 == 7 * qa + Weekday(a);
    assert b + 4 == 7 * qb + Weekday(b);
    assert b - a == 7 * (qb - qa);
  }

  lemma MondayOfMonday(day: int)
    ensures MondayOf(MondayOf(day)) == MondayOf(day)
  {
    MondayUnique(MondayOf(day), MondayOf(day));
  }

  /** Stepping a whole week back moves the Monday a whole week back. */
  lemma MondayOfWeekEarlier(day: int)
    ensures MondayOf(day - 7) == MondayOf(day) - 7
  {
    assert Weekday(MondayOf(day) - 7) == Weekday(MondayOf(day));
    MondayUnique(day - 7, MondayOf(day) - 7);
  }

  /** `Math.ceil(diffInDays / 7)`: the week count rounded up. */
  function WeeksBeforeRace(raceDay: int, today: int): (w: int)
    ensures 7 * (w - 1) < raceDay - today <= 7 * w
  {
    Ceil((raceDay - today) as real / 7.0)
  }

  /** `Math.floor((raceMonday - currentMonday) / week)`, before the clamp at zero. */
  function FullWeeksUnclamped(raceDay: int, today: int): (n: int)
    ensures 7 * n == MondayOf(raceDay) - MondayOf(today)
  {
    var gap := MondayOf(raceDay) - MondayOf(today);
    SameWeekdayMultipleOfSeven(MondayOf(today), MondayOf(raceDay));
    Floor(gap as real / 7.0)
  }

  /** `diffInWeeksFull >= 0 ? diffInWeeksFull : 0`. */
  function FullWeeksBeforeRace(raceDay: int, today: int): (n: int)
    ensures n >= 0
    ensures n == if FullWeeksUnclamped(raceDay, today) >= 0 then FullWeeksUnclamped(raceDay, today) else 0
  {
    var u := FullWeeksUnclamped(raceDay, today);
    if u >= 0 then u else 0
  }

  /**
   * The Monday-to-Monday count lies between the day count divided by seven
   * rounded down and rounded up, so it differs from WeeksBeforeRace by at
   * most one.
   */
  lemma FullWeeksBetween(raceDay: int, today: int)
    ensures 7 * FullWeeksUnclamped(raceDay, today) <= raceDay - today + 6
    ensures raceDay - today - 6 <= 7 * FullWeeksUnclamped(raceDay, today)
    ensures WeeksBeforeRace(raceDay, today) - 1 <= FullWeeksUnclamped(raceDay, today) <= WeeksBeforeRace(raceDay, today)
  {
    var u := FullWeeksUnclamped(raceDay, today);
    var w := WeeksBeforeRace(raceDay, today);
    var days := raceDay - today;
    assert 7 * u == MondayOf(raceDay) - MondayOf(today);
    assert days - 6 <= 7 * u <= days + 6;
    assert 7 * (w - 1) < days <= 7 * w;
  }

  /** Race and today in the same Monday-to-Sunday week give zero full weeks. */
  lemma SameWeekNoFullWeeks(raceDay: int, today: int)
    requires MondayOf(raceDay) == MondayOf(today)
    ensures FullWeeksBeforeRace(raceDay, today) == 0
  {
  }
}
