/** A parsed cron expression and the search for its next fire. */
module CronSpec {
  import opened Common
  import opened Calendar

  /** The five fields as the sets of numbers their bit masks admit, and whether
      the two day fields were written as anything but "*". */
  datatype Spec = Spec(
    minute: set<int>, hour: set<int>, dom: set<int>, month: set<int>, dow: set<int>,
    domRestricted: bool, dowRestricted: bool)

  /** When both day fields are restricted a day matches if either does. */
  predicate DayMatches(s: Spec, m: int) {
    var domHit := DayOfMonth(m) in s.dom;
    var dowHit := Weekday(m) in s.dow;
    if s.domRestricted && s.dowRestricted then domHit || dowHit
    else if s.domRestricted then domHit
    else if s.dowRestricted then dowHit
    else true
  }

  predicate Match(s: Spec, m: int) {
    Month(m) in s.month && DayMatches(s, m) && Hour(m) in s.hour && Minute(m) in s.minute
  }

  const MAX_SEARCH_YEARS := 5

  /** The same date and time of day MAX_SEARCH_YEARS later. */
  function Deadline(m: int): int {
    var k := MonthOf(Day(m));
    DateDay(k + 12 * MAX_SEARCH_YEARS, DayOfMonth(m)) * MINUTES_PER_DAY + m % MINUTES_PER_DAY
  }

  /** The reference: try every minute of [lo, hi) in turn. */
  function FirstMatch(s: Spec, lo: int, hi: int): (r: Option<int>)
    ensures r.Some? ==> lo <= r.value < hi && Match(s, r.value)
    ensures r.Some? ==> forall x | lo <= x < r.value :: !Match(s, x)
    ensures r.None? ==> forall x | lo <= x < hi :: !Match(s, x)
    decreases hi - lo
  {
    if lo >= hi then None
    else if Match(s, lo) then Some(lo)
    else FirstMatch(s, lo + 1, hi)
  }

  /** The first admitted minute strictly after minute t, within the horizon. */
  function NextFire(s: Spec, t: int): Option<int> {
    FirstMatch(s, t + 1, Deadline(t + 1))
  }

  // Rolling forward.  Each roll lands after the minute it starts from, and no
  // minute it passes over differs from the start in the field that was refused.

  function NextMonth(m: int): int {
    MonthStart(MonthOf(Day(m)) + 1) * MINUTES_PER_DAY
  }

  function NextDay(m: int): int { (Day(m) + 1) * MINUTES_PER_DAY }

  function NextHour(m: int): int { m - m % 60 + 60 }

  lemma RollMonth(m: int, x: int)
    requires m <= x < NextMonth(m)
    ensures Month(x) == Month(m)
  {
    MonthOfUnique(Day(x), MonthOf(Day(m)));
  }

  lemma RollDay(m: int, x: int)
    requires m <= x < NextDay(m)
    ensures Day(x) == Day(m)
  {
  }

  /** The hours since the beginning give the day and the hour of the day. */
  lemma HourIndex(m: int)
    ensures Day(m) == m / 60 / 24 && Hour(m) == m / 60 % 24
  {
    var h := m / 60;
    var r := 60 * (h % 24) + m % 60;
    assert m == MINUTES_PER_DAY * (h / 24) + r;
    DayParts(m, h / 24, r);
    assert r / 60 == h % 24;
  }

  lemma DayParts(m: int, d: int, r: int)
    requires m == MINUTES_PER_DAY * d + r && 0 <= r < MINUTES_PER_DAY
    ensures m / MINUTES_PER_DAY == d && m % MINUTES_PER_DAY == r
  {
  }

  lemma RollHour(m: int, x: int)
    requires m <= x < NextHour(m)
    ensures Day(x) == Day(m) && Hour(x) == Hour(m)
  {
    HourIndex(m);
    HourIndex(x);
    assert x / 60 == m / 60;
  }

  lemma SkipMonth(s: Spec, m: int)
    requires Month(m) !in s.month
    ensures m < NextMonth(m)
    ensures forall x | m <= x < NextMonth(m) :: !Match(s, x)
  {
    forall x | m <= x < NextMonth(m)
      ensures !Match(s, x)
    {
      RollMonth(m, x);
    }
  }

  lemma SkipDay(s: Spec, m: int)
    requires !DayMatches(s, m)
    ensures m < NextDay(m)
    ensures forall x | m <= x < NextDay(m) :: !Match(s, x)
  {
    forall x | m <= x < NextDay(m)
      ensures !Match(s, x)
    {
      RollDay(m, x);
    }
  }

  lemma SkipHour(s: Spec, m: int)
    requires Hour(m) !in s.hour
    ensures m < NextHour(m)
    ensures forall x | m <= x < NextHour(m) :: !Match(s, x)
  {
    forall x | m <= x < NextHour(m)
      ensures !Match(s, x)
    {
      RollHour(m, x);
    }
  }

  lemma FirstMatchSkip(s: Spec, lo: int, mid: int, hi: int)
    requires lo <= mid
    requires forall x | lo <= x < mid :: !Match(s, x)
    ensures FirstMatch(s, lo, hi) == FirstMatch(s, mid, hi)
  {
  }

  /** Month-, day- and hour-skipping search.  It agrees with the minute-by-minute
      search on every expression and every date. */
  method Next(s: Spec, t: int) returns (r: Option<int>)
    ensures r == NextFire(s, t)
  {
    var next := t + 1;
    var deadline := Deadline(next);
    while next < deadline
      invariant t + 1 <= next
      invariant FirstMatch(s, next, deadline) == NextFire(s, t)
      decreases deadline - next
    {
      var roll: int;
      if Month(next) !in s.month {
        SkipMonth(s, next);
        roll := NextMonth(next);
      } else if !DayMatches(s, next) {
        SkipDay(s, next);
        roll := NextDay(next);
      } else if Hour(next) !in s.hour {
        SkipHour(s, next);
        roll := NextHour(next);
      } else if Minute(next) !in s.minute {
        roll := next + 1;
      } else {
        return Some(next);
      }
      FirstMatchSkip(s, next, roll, deadline);
      next := roll;
    }
    return None;
  }
}
