/** What the five-year search horizon of `Next` costs: which expressions can be
    reported as having no next fire although one will come. */
module Horizon {
  import opened Common
  import opened Calendar
  import opened CronSpec

  /** Days of a common year before the month with index i (0 is January). */
  function CommonDaysBefore(i: int): int
    requires 0 <= i <= 12
  {
    [0, 31, 59, 90, 120, 151, 181, 212, 243, 273, 304, 334, 365][i]
  }

  lemma CommonLength(y: int, i: int)
    requires 0 <= i < 12
    ensures MonthLength(12 * y + i) >= CommonDaysBefore(i + 1) - CommonDaysBefore(i)
  {
    assert (12 * y + i) % 12 == i && (12 * y + i) / 12 == y;
  }

  lemma {:induction false} CommonSpan(y: int, i: int, j: int)
    requires 0 <= i <= j <= 12
    ensures MonthStart(12 * y + j) >= MonthStart(12 * y + i) + CommonDaysBefore(j) - CommonDaysBefore(i)
    decreases j - i
  {
    if i < j {
      CommonLength(y, i);
      MonthsTile(12 * y + i);
      CommonSpan(y, i + 1, j);
    }
  }

  /** Twelve months in a row are at least 365 days, whichever month comes first. */
  lemma YearSpan(k: int)
    ensures MonthStart(k + 12) >= MonthStart(k) + 365
  {
    var y, c := k / 12, k % 12;
    CommonSpan(y, c, 12);
    CommonSpan(y + 1, 0, c);
    assert 12 * y + c == k && 12 * (y + 1) + c == k + 12 && 12 * y + 12 == 12 * (y + 1);
  }

  /** The horizon is never closer than 5 * 365 days. */
  lemma HorizonLength(m: int)
    ensures Deadline(m) >= m + 5 * 365 * MINUTES_PER_DAY
  {
    var k := MonthOf(Day(m));
    YearSpan(k);
    YearSpan(k + 12);
    YearSpan(k + 24);
    YearSpan(k + 36);
    YearSpan(k + 48);
  }

  /** Some minute, at any time before or after, is admitted. */
  ghost predicate EverMatches(s: Spec) {
    exists m :: Match(s, m)
  }

  /** What the documentation of NextFires says of an empty answer: that the
      expression matches no instant that will ever exist. */
  ghost predicate EmptyMeansNever(s: Spec) {
    forall t :: NextFire(s, t).None? ==> !EverMatches(s)
  }

  /** The longest month i (1 is January) ever is. */
  function LongestMonth(i: int): int {
    if i == 2 then 29 else if i in {4, 6, 9, 11} then 30 else 31
  }

  /** Only the day-of-month field can admit a day, and 29 February is the one
      date it admits in the months the expression names. */
  ghost predicate LeapDayOnly(s: Spec) {
    && s.domRestricted
    && (s.dowRestricted ==> forall w | 0 <= w < 7 :: w !in s.dow)
    && 2 in s.month && 29 in s.dom
    && (exists h :: h in s.hour && 0 <= h < 24)
    && (exists n :: n in s.minute && 0 <= n < 60)
    && forall i, d | i in s.month && 1 <= i <= 12 && d in s.dom && 1 <= d <= LongestMonth(i) :: i == 2 && d == 29
  }

  /** The minute at hour h, minute n of day d. */
  function At(d: int, h: int, n: int): int {
    d * MINUTES_PER_DAY + h * 60 + n
  }

  lemma FieldsOfAt(d: int, h: int, n: int)
    requires 0 <= h < 24 && 0 <= n < 60
    ensures Day(At(d, h, n)) == d && Hour(At(d, h, n)) == h && Minute(At(d, h, n)) == n
  {
    var r := h * 60 + n;
    assert At(d, h, n) % MINUTES_PER_DAY == r && At(d, h, n) / MINUTES_PER_DAY == d by {
      assert At(d, h, n) == d * MINUTES_PER_DAY + r && 0 <= r < MINUTES_PER_DAY;
    }
    assert r / 60 == h;
    assert At(d, h, n) == 60 * (24 * d + h) + n;
  }

  lemma FieldRanges(m: int)
    ensures 0 <= Hour(m) < 24 && 0 <= Minute(m) < 60 && 1 <= Month(m) <= 12
    ensures 0 <= Weekday(m) < 7 && 1 <= DayOfMonth(m) <= MonthLength(MonthOf(Day(m))) <= LongestMonth(Month(m))
  {
    MonthsTile(MonthOf(Day(m)));
  }

  lemma DateFields(k: int, dom: int, h: int, n: int)
    requires 1 <= dom <= MonthLength(k) && 0 <= h < 24 && 0 <= n < 60
    ensures var m := At(DateDay(k, dom), h, n);
            && MonthOf(Day(m)) == k && Month(m) == k % 12 + 1 && DayOfMonth(m) == dom
            && Hour(m) == h && Minute(m) == n
  {
    FieldsOfAt(DateDay(k, dom), h, n);
    MonthsTile(k);
    MonthOfUnique(DateDay(k, dom), k);
  }

  /** A month with index i (1 is January) after the month of minute t, at most a
      year on. */
  function ComingMonth(t: int, i: int): (k: int)
    requires 1 <= i <= 12
    ensures MonthOf(Day(t)) < k <= MonthOf(Day(t)) + 12 && k % 12 + 1 == i
  {
    var c := MonthOf(Day(t)) + 1;
    Congruent(c, i - 1);
    c + (i - 1 - c) % 12
  }

  lemma Congruent(c: int, j: int)
    requires 0 <= j < 12
    ensures (c + (j - c) % 12) % 12 == j
  {
    assert c + (j - c) % 12 == 12 * -((j - c) / 12) + j;
  }

  lemma DeadlineInMonth(u: int)
    ensures Deadline(u) >= MonthStart(MonthOf(Day(u)) + 60) * MINUTES_PER_DAY
  {
  }

  lemma EarlierDay(x: int, d: int)
    requires Day(x) < d
    ensures x < d * MINUTES_PER_DAY
  {
  }

  lemma LaterDay(x: int, d: int)
    requires d <= Day(x)
    ensures d * MINUTES_PER_DAY <= x
  {
  }

  /** A minute in one of the next twelve months is before the deadline. */
  lemma BeforeDeadline(u: int, m: int)
    requires MonthOf(Day(u)) < MonthOf(Day(m)) <= MonthOf(Day(u)) + 12
    ensures u < m < Deadline(u)
  {
    var k, j := MonthOf(Day(u)), MonthOf(Day(m));
    MonthStartMonotone(k + 1, j);
    EarlierDay(u, MonthStart(j));
    LaterDay(m, MonthStart(j));
    MonthStartMonotone(j + 1, k + 60);
    EarlierDay(m, MonthStart(k + 60));
    DeadlineInMonth(u);
  }

  /** Any match in the coming year is found. */
  lemma FoundWithin(s: Spec, t: int, m: int)
    requires Match(s, m)
    requires MonthOf(Day(t + 1)) < MonthOf(Day(m)) <= MonthOf(Day(t + 1)) + 12
    ensures NextFire(s, t).Some?
  {
    BeforeDeadline(t + 1, m);
  }

  /** A weekday comes round within the first seven days of every month. */
  function FirstWeekday(k: int, w: int): (dom: int)
    requires 0 <= w < 7
    ensures 1 <= dom <= 7 && (DateDay(k, dom) + 1) % 7 == w
  {
    1 + (w - MonthStart(k) - 1) % 7
  }

  /** A date that exists in every year, in a month the expression names, on a
      day it admits, is found from everywhere. */
  lemma DateFound(s: Spec, t: int, i: int, dom: int, h: int, n: int)
    requires 1 <= i <= 12 && i in s.month && h in s.hour && n in s.minute
    requires 0 <= h < 24 && 0 <= n < 60
    requires 1 <= dom <= LongestMonth(i) && (i == 2 ==> dom <= 28)
    requires s.domRestricted ==> dom in s.dom
    requires s.dowRestricted ==> s.domRestricted
    ensures NextFire(s, t).Some?
  {
    var k := ComingMonth(t + 1, i);
    DateFields(k, dom, h, n);
    FoundWithin(s, t, At(DateDay(k, dom), h, n));
  }

  lemma WeekdayFound(s: Spec, t: int, i: int, w: int, h: int, n: int)
    requires 1 <= i <= 12 && i in s.month && h in s.hour && n in s.minute
    requires 0 <= h < 24 && 0 <= n < 60 && 0 <= w < 7
    requires s.dowRestricted && w in s.dow
    ensures NextFire(s, t).Some?
  {
    var k := ComingMonth(t + 1, i);
    var dom := FirstWeekday(k, w);
    MonthsTile(k);
    DateFields(k, dom, h, n);
    FieldsOfAt(DateDay(k, dom), h, n);
    FoundWithin(s, t, At(DateDay(k, dom), h, n));
  }

  lemma FoundFromEverywhere(s: Spec, m: int, t: int)
    requires Match(s, m) && !LeapDayOnly(s)
    ensures NextFire(s, t).Some?
  {
    FieldRanges(m);
    var i, dom, w, h, n := Month(m), DayOfMonth(m), Weekday(m), Hour(m), Minute(m);
    if s.dowRestricted && w in s.dow {
      WeekdayFound(s, t, i, w, h, n);
    } else if !s.domRestricted {
      DateFound(s, t, i, 1, h, n);
    } else if i != 2 || dom <= 28 {
      DateFound(s, t, i, dom, h, n);
    } else if s.dowRestricted && exists w :: 0 <= w < 7 && w in s.dow {
      var w' :| 0 <= w' < 7 && w' in s.dow;
      WeekdayFound(s, t, i, w', h, n);
    } else {
      var i', d' :| i' in s.month && 1 <= i' <= 12 && d' in s.dom && 1 <= d' <= LongestMonth(i') &&
        !(i' == 2 && d' == 29);
      DateFound(s, t, i', d', h, n);
    }
  }

  // How far a search that gives up is from the fire it missed.

  predicate AdmitsTime(s: Spec, r: int) {
    0 <= r < MINUTES_PER_DAY && r / 60 in s.hour && r % 60 in s.minute
  }

  /** The first admitted time of day from r on, in minutes; a whole day if there is none. */
  function FirstTimeFrom(s: Spec, r: int): (f: int)
    requires 0 <= r <= MINUTES_PER_DAY
    ensures r <= f <= MINUTES_PER_DAY && (f < MINUTES_PER_DAY ==> AdmitsTime(s, f))
    ensures forall x | r <= x < f :: !AdmitsTime(s, x)
    decreases MINUTES_PER_DAY - r, s
  {
    if r == MINUTES_PER_DAY || AdmitsTime(s, r) then r else FirstTimeFrom(s, r + 1)
  }

  function FirstTime(s: Spec): int { FirstTimeFrom(s, 0) }

  lemma SomeTime(s: Spec, h: int, n: int)
    requires h in s.hour && 0 <= h < 24 && n in s.minute && 0 <= n < 60
    ensures FirstTime(s) < MINUTES_PER_DAY && AdmitsTime(s, FirstTime(s))
  {
    var r := h * 60 + n;
    assert r / 60 == h && r % 60 == n;
    assert AdmitsTime(s, r);
  }

  lemma LeapDayHasTime(s: Spec)
    requires LeapDayOnly(s)
    ensures FirstTime(s) < MINUTES_PER_DAY && AdmitsTime(s, FirstTime(s))
  {
    var h :| h in s.hour && 0 <= h < 24;
    var n :| n in s.minute && 0 <= n < 60;
    SomeTime(s, h, n);
  }

  lemma MatchTime(s: Spec, x: int)
    requires Match(s, x)
    ensures AdmitsTime(s, x % MINUTES_PER_DAY) && FirstTime(s) <= x % MINUTES_PER_DAY
  {
    var r := x % MINUTES_PER_DAY;
    FieldRanges(x);
    assert x == MINUTES_PER_DAY * (x / MINUTES_PER_DAY) + r;
    assert r % 60 == x % 60;
    assert AdmitsTime(s, r);
  }

  lemma MatchIsLeapDay(s: Spec, x: int)
    requires LeapDayOnly(s) && Match(s, x)
    ensures Month(x) == 2 && DayOfMonth(x) == 29 && Leap(MonthOf(Day(x)) / 12)
  {
    FieldRanges(x);
  }

  lemma FiveYearsOn(j: int, k: int, dom: int)
    requires 1 <= dom <= MonthLength(j) && k % 12 == 1 && Leap(k / 12)
    ensures DateDay(j + 60, dom) != DateDay(k, 29)
  {
    MonthsTile(j + 60);
    MonthsTile(k);
    if j + 60 < k {
      SameLengthOn(j);
      MonthStartMonotone(j + 61, k);
    } else if j + 60 > k {
      MonthStartMonotone(k + 1, j + 60);
    } else {
      assert j % 12 == 1 && j / 12 == k / 12 - 5;
    }
  }

  lemma SameLengthOn(j: int)
    ensures MonthLength(j) <= MonthLength(j + 60) + 1
  {
    assert (j + 60) % 12 == j % 12;
  }

  /** The deadline never falls on 29 February: five years before one there is none. */
  lemma DeadlineNotLeapDay(u: int, k: int)
    requires k % 12 == 1 && Leap(k / 12)
    ensures Day(Deadline(u)) != DateDay(k, 29)
  {
    DeadlineDay(u);
    MonthsTile(MonthOf(Day(u)));
    FiveYearsOn(MonthOf(Day(u)), k, DayOfMonth(u));
  }

  lemma DeadlineDay(u: int)
    ensures Day(Deadline(u)) == DateDay(MonthOf(Day(u)) + 60, DayOfMonth(u))
    ensures Deadline(u) % MINUTES_PER_DAY == u % MINUTES_PER_DAY
  {
    DayParts(Deadline(u), DateDay(MonthOf(Day(u)) + 60, DayOfMonth(u)), u % MINUTES_PER_DAY);
  }

  /** In minutes, the distance from where a search gives up to the fire it missed, when
      that is least: five years without a leap day, a minute, and the first admitted
      time of day. */
  function LeapWindow(s: Spec): int { 5 * 365 * MINUTES_PER_DAY + 1 + FirstTime(s) }

  lemma DayOfMinute(x: int, y: int)
    requires Day(x) * MINUTES_PER_DAY <= y <= x
    ensures Day(y) == Day(x)
  {
  }

  /** Nothing nearer is missed. */
  lemma MissedIsFar(s: Spec, t: int, x: int)
    requires LeapDayOnly(s) && NextFire(s, t).None? && Match(s, x) && t < x
    ensures x - (t + 1) >= LeapWindow(s)
  {
    var u := t + 1;
    HorizonLength(u);
    assert x >= Deadline(u);
    MatchTime(s, x);
    MatchIsLeapDay(s, x);
    var k := MonthOf(Day(x));
    DeadlineNotLeapDay(u, k);
    assert Day(x) == DateDay(k, 29);
    assert x == Day(x) * MINUTES_PER_DAY + x % MINUTES_PER_DAY;
    if Day(x) * MINUTES_PER_DAY <= Deadline(u) { DayOfMinute(x, Deadline(u)); }
  }

  // And that much is missed.

  lemma {:induction false} CommonYear(y: int, i: int, j: int)
    requires 0 <= i <= j <= 12 && !Leap(y)
    ensures MonthStart(12 * y + j) == MonthStart(12 * y + i) + CommonDaysBefore(j) - CommonDaysBefore(i)
    decreases j - i
  {
    if i < j {
      assert (12 * y + i) % 12 == i && (12 * y + i) / 12 == y;
      MonthsTile(12 * y + i);
      CommonYear(y, i + 1, j);
    }
  }

  /** From February to February of the next year, if the first is no leap year. */
  lemma FebruaryToFebruary(y: int)
    requires !Leap(y)
    ensures MonthStart(12 * (y + 1) + 1) == MonthStart(12 * y + 1) + 365
  {
    CommonYear(y, 1, 12);
    MonthsTile(12 * (y + 1));
    assert 12 * y + 12 == 12 * (y + 1) && 12 * (y + 1) % 12 == 0;
  }

  lemma FiveCommonYears(y: int)
    requires FiveCommon(y)
    ensures MonthStart(12 * (y + 5) + 1) == MonthStart(12 * y + 1) + 5 * 365
  {
    FebruaryToFebruary(y);
    FebruaryToFebruary(y + 1);
    FebruaryToFebruary(y + 2);
    FebruaryToFebruary(y + 3);
    FebruaryToFebruary(y + 4);
  }

  /** The last minute of 28 February of a year that begins five common years. */
  function LastOfFebruary(y: int): int { At(DateDay(12 * y + 1, 28), 23, 59) }

  predicate FiveCommon(y: int) { !Leap(y) && !Leap(y + 1) && !Leap(y + 2) && !Leap(y + 3) && !Leap(y + 4) }

  lemma LastOfFebruaryFields(y: int)
    ensures Day(LastOfFebruary(y)) == DateDay(12 * y + 1, 28) &&
            LastOfFebruary(y) % MINUTES_PER_DAY == MINUTES_PER_DAY - 1
    ensures MonthOf(Day(LastOfFebruary(y))) == 12 * y + 1 && DayOfMonth(LastOfFebruary(y)) == 28
  {
    MonthsTile(12 * y + 1);
    DateFields(12 * y + 1, 28, 23, 59);
    DayParts(LastOfFebruary(y), DateDay(12 * y + 1, 28), MINUTES_PER_DAY - 1);
  }

  lemma MonthsBetween(k: int, j: int, d: int)
    requires MonthStart(k) <= d < MonthStart(j + 1) && k <= j
    ensures k <= MonthOf(d) <= j
  {
    if MonthOf(d) < k { MonthStartMonotone(MonthOf(d) + 1, k); }
    if MonthOf(d) > j { MonthStartMonotone(j + 1, MonthOf(d)); }
  }

  lemma DaysBetween(x: int, u: int, v: int)
    requires u <= x < v
    ensures Day(u) <= Day(x) <= Day(v)
  {
  }

  lemma NothingInFive(s: Spec, y: int, x: int)
    requires LeapDayOnly(s) && FiveCommon(y) && LastOfFebruary(y) <= x < LastOfFebruary(y + 5)
    ensures !Match(s, x)
  {
    var k, j := 12 * y + 1, 12 * (y + 5) + 1;
    LastOfFebruaryFields(y);
    LastOfFebruaryFields(y + 5);
    DaysBetween(x, LastOfFebruary(y), LastOfFebruary(y + 5));
    MonthsTile(j);
    MonthsBetween(k, j, Day(x));
    NoLeapMonth(s, y, x);
  }

  lemma NoLeapMonth(s: Spec, y: int, x: int)
    requires LeapDayOnly(s) && FiveCommon(y) && 12 * y + 1 <= MonthOf(Day(x)) <= 12 * (y + 5) + 1
    requires Day(x) <= DateDay(12 * (y + 5) + 1, 28)
    ensures !Match(s, x)
  {
    if Match(s, x) { MatchIsLeapDay(s, x); }
    assert MonthOf(Day(x)) % 12 == 1 ==> 0 <= MonthOf(Day(x)) / 12 - y <= 5;
  }

  /** A search from the end of February through five common years finds nothing. */
  lemma NoFireInFive(s: Spec, y: int)
    requires LeapDayOnly(s) && FiveCommon(y)
    ensures NextFire(s, LastOfFebruary(y) - 1).None?
  {
    var u := LastOfFebruary(y);
    LastOfFebruaryFields(y);
    assert 12 * y + 1 + 60 == 12 * (y + 5) + 1;
    assert Deadline(u) == LastOfFebruary(y + 5);
    forall x | u <= x < Deadline(u)
      ensures !Match(s, x)
    {
      NothingInFive(s, y, x);
    }
  }

  lemma LeapDayFires(s: Spec, y: int) returns (x: int)
    requires LeapDayOnly(s) && Leap(y)
    ensures x == DateDay(12 * y + 1, 29) * MINUTES_PER_DAY + FirstTime(s) && Match(s, x)
  {
    LeapDayHasTime(s);
    var j, f := 12 * y + 1, FirstTime(s);
    assert j % 12 == 1 && j / 12 == y;
    x := At(DateDay(j, 29), f / 60, f % 60);
    DateFields(j, 29, f / 60, f % 60);
    FieldRanges(x);
  }

  lemma MissedAfterFive(s: Spec, y: int) returns (x: int)
    requires LeapDayOnly(s) && FiveCommon(y) && Leap(y + 5)
    ensures Match(s, x) && x - LastOfFebruary(y) == LeapWindow(s)
  {
    x := LeapDayFires(s, y + 5);
    FiveCommonYears(y);
  }

  /** 2100 is no leap year. */
  lemma SomeGap() returns (y: int)
    ensures FiveCommon(y) && Leap(y + 5)
  {
    y := 2099;
  }

  /** A search that gives up exactly that far from the fire it missed. */
  lemma MissedThatFar(s: Spec) returns (t: int, x: int)
    requires LeapDayOnly(s)
    ensures NextFire(s, t).None? && Match(s, x) && t < x && x - (t + 1) == LeapWindow(s)
  {
    var y := SomeGap();
    NoFireInFive(s, y);
    LeapDayHasTime(s);
    t := LastOfFebruary(y) - 1;
    x := MissedAfterFive(s, y);
  }

  /** An empty answer means "never" for exactly the expressions that are not
      confined to 29 February. */
  lemma EmptyMeansNeverIff(s: Spec)
    ensures EmptyMeansNever(s) <==> !LeapDayOnly(s)
  {
    if LeapDayOnly(s) {
      var t, x := MissedThatFar(s);
    } else if EverMatches(s) {
      var m :| Match(s, m);
      forall t
        ensures NextFire(s, t).Some?
      {
        FoundFromEverywhere(s, m, t);
      }
    }
  }
}
