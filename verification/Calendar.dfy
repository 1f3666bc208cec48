/** The proleptic Gregorian calendar in UTC, as Go's time package defines it.

    A day is an integer counted from 1 January of year 1 (day 0, a Monday), a
    minute an integer counted from midnight of that day.  A month is an integer
    too, `12 * year + (month - 1)`, so that "the next month" is `k + 1` whatever
    the year.
 */
module Calendar {

  const MINUTES_PER_DAY := 1440

  /** January of year 1, whose first day is day 0. */
  const FIRST_MONTH := 12

  predicate Leap(y: int) {
    y % 4 == 0 && (y % 100 != 0 || y % 400 == 0)
  }

  function MonthLength(k: int): int {
    if k % 12 == 1 then if Leap(k / 12) then 29 else 28
    else if k % 12 in {3, 5, 8, 10} then 30
    else 31
  }

  /** The day number of the first day of month k. */
  function MonthStart(k: int): int
    decreases if k < FIRST_MONTH then FIRST_MONTH - k else k - FIRST_MONTH
  {
    if k == FIRST_MONTH then 0
    else if k > FIRST_MONTH then MonthStart(k - 1) + MonthLength(k - 1)
    else MonthStart(k + 1) - MonthLength(k)
  }

  /** Months tile the day line: each starts where the one before it ends. */
  lemma MonthsTile(k: int)
    ensures MonthStart(k + 1) == MonthStart(k) + MonthLength(k)
    ensures 28 <= MonthLength(k) <= 31
  {
  }

  lemma {:induction false} MonthStartMonotone(j: int, k: int)
    requires j <= k
    ensures MonthStart(j) + 28 * (k - j) <= MonthStart(k)
    decreases k - j
  {
    if j < k {
      MonthsTile(j);
      MonthStartMonotone(j + 1, k);
    }
  }

  function MonthAtOrBefore(d: int, k: int): (r: int)
    ensures MonthStart(r) <= d
    decreases MonthStart(k) - d
  {
    if MonthStart(k) <= d then k
    else
      MonthsTile(k - 1);
      MonthAtOrBefore(d, k - 1)
  }

  function MonthFrom(d: int, k: int): (r: int)
    requires MonthStart(k) <= d
    ensures MonthStart(r) <= d < MonthStart(r + 1)
    decreases d - MonthStart(k)
  {
    if d < MonthStart(k + 1) then k
    else
      MonthsTile(k);
      MonthFrom(d, k + 1)
  }

  /** The month a day lies in. */
  function MonthOf(d: int): (k: int)
    ensures MonthStart(k) <= d < MonthStart(k + 1)
  {
    MonthFrom(d, MonthAtOrBefore(d, FIRST_MONTH))
  }

  lemma MonthOfUnique(d: int, k: int)
    requires MonthStart(k) <= d < MonthStart(k + 1)
    ensures MonthOf(d) == k
  {
    var r := MonthOf(d);
    if r < k {
      MonthStartMonotone(r + 1, k);
    } else if k < r {
      MonthStartMonotone(k + 1, r);
    }
  }

  /** Day `dom` of month k; a day past the end of the month rolls over into the
      months after it, which is how Go normalises a date. */
  function DateDay(k: int, dom: int): int {
    MonthStart(k) + dom - 1
  }

  // The fields of a minute.

  function Day(m: int): int { m / MINUTES_PER_DAY }

  function Month(m: int): int { MonthOf(Day(m)) % 12 + 1 }

  function DayOfMonth(m: int): int { Day(m) - MonthStart(MonthOf(Day(m))) + 1 }

  /** Sunday is 0; day 0 is a Monday. */
  function Weekday(m: int): int { (Day(m) + 1) % 7 }

  function Hour(m: int): int { m % MINUTES_PER_DAY / 60 }

  function Minute(m: int): int { m % 60 }
}
