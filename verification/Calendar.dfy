/**
  The proleptic Gregorian calendar of Python's datetime, in UTC: instants as microseconds since
  the start of year 1, and the civil fields they are written with.
*/
module Calendar {
  import opened Common
  import opened CursorCodec

  const SECOND: Time := 1000000
  const MINUTE: Time := 60000000
  const HOUR: Time := 3600000000
  const DAY: Time := 86400000000

  datatype Date = Date(year: nat, month: nat, day: nat)

  predicate ValidDate(d: Date) {
    1 <= d.year && 1 <= d.month <= 12 && 1 <= d.day <= DaysIn(d.year, d.month)
  }

  function DaysInYear(year: nat): nat {
    365 + DaysIn(year, 2) - 28
  }

  /** The days of a year before a month begins. */
  function DaysBeforeMonth(year: nat, month: nat): nat {
    if month <= 1 then 0 else DaysBeforeMonth(year, month - 1) + DaysIn(year, month - 1)
  }

  function DaysBeforeYear(year: nat): nat {
    if year <= 1 then 0 else DaysBeforeYear(year - 1) + DaysInYear(year - 1)
  }

  /** The number of a date, counting from zero at the first of January of year 1. */
  function Ordinal(d: Date): int {
    DaysBeforeYear(d.year) + DaysBeforeMonth(d.year, d.month) + d.day - 1
  }

  function NextDay(d: Date): Date {
    if d.day < DaysIn(d.year, d.month) then d.(day := d.day + 1)
    else if d.month < 12 then Date(d.year, d.month + 1, 1)
    else Date(d.year + 1, 1, 1)
  }

  function DateAt(n: nat): Date {
    if n == 0 then Date(1, 1, 1) else NextDay(DateAt(n - 1))
  }

  lemma TwelveMonths(year: nat)
    ensures DaysBeforeMonth(year, 12) + DaysIn(year, 12) == DaysInYear(year)
  {
    assert DaysBeforeMonth(year, 1) == 0 && DaysBeforeMonth(year, 2) == 31;
    assert DaysBeforeMonth(year, 3) == 31 + DaysIn(year, 2);
    assert DaysBeforeMonth(year, 4) == 62 + DaysIn(year, 2);
    assert DaysBeforeMonth(year, 5) == 92 + DaysIn(year, 2);
    assert DaysBeforeMonth(year, 6) == 123 + DaysIn(year, 2);
    assert DaysBeforeMonth(year, 7) == 153 + DaysIn(year, 2);
    assert DaysBeforeMonth(year, 8) == 184 + DaysIn(year, 2);
    assert DaysBeforeMonth(year, 9) == 215 + DaysIn(year, 2);
    assert DaysBeforeMonth(year, 10) == 245 + DaysIn(year, 2);
    assert DaysBeforeMonth(year, 11) == 276 + DaysIn(year, 2);
    assert DaysBeforeMonth(year, 12) == 306 + DaysIn(year, 2);
  }

  lemma NextDayCountsOne(d: Date)
    requires ValidDate(d)
    ensures ValidDate(NextDay(d)) && Ordinal(NextDay(d)) == Ordinal(d) + 1
  {
    if d.day == DaysIn(d.year, d.month) && d.month == 12 {
      TwelveMonths(d.year);
    }
  }

  /** Every day has a date, and its number is the day's. */
  lemma {:induction false} DateRoundTripsDay(n: nat)
    ensures ValidDate(DateAt(n)) && Ordinal(DateAt(n)) == n
  {
    if n > 0 {
      DateRoundTripsDay(n - 1);
      NextDayCountsOne(DateAt(n - 1));
    }
  }

  lemma Scale(a: int, b: int, unit: int)
    requires a <= b && unit >= 0
    ensures a * unit <= b * unit
  {
  }

  /** Whole units in a span, and what is left over. */
  lemma Split(x: int, unit: int, count: int)
    requires unit > 0 && 0 <= x < count * unit
    ensures x == x / unit * unit + x % unit && 0 <= x % unit < unit && 0 <= x / unit < count
  {
    if x / unit >= count {
      Scale(count, x / unit, unit);
    }
  }

  /** The fields an instant is written with; one before year 1 cannot occur, and is given the first day. */
  function Civil(at: Time): Moment {
    var d := DateAt(if at < 0 then 0 else at / DAY);
    var inDay := at % DAY;
    var inHour := inDay % HOUR;
    var inMinute := inHour % MINUTE;
    Moment(d.year, d.month, d.day, inDay / HOUR, inHour / MINUTE, inMinute / SECOND, inMinute % SECOND)
  }

  function Instant(m: Moment): Time {
    Ordinal(Date(m.year, m.month, m.day)) * DAY + m.hour * HOUR + m.minute * MINUTE + m.second * SECOND + m.micro
  }

  /** The instants a datetime can hold: from the start of year 1 to the end of year 9999. */
  predicate Representable(at: Time) {
    0 <= at && DateAt(at / DAY).year <= 9999
  }

  lemma TimeOfDay(inDay: int)
    requires 0 <= inDay < DAY
    ensures var inHour := inDay % HOUR;
      var inMinute := inHour % MINUTE;
      && 0 <= inDay / HOUR < 24 && 0 <= inHour / MINUTE < 60 && 0 <= inMinute / SECOND < 60
      && 0 <= inMinute % SECOND < SECOND
      && inDay / HOUR * HOUR + inHour / MINUTE * MINUTE + inMinute / SECOND * SECOND + inMinute % SECOND == inDay
  {
    Split(inDay, HOUR, 24);
    Split(inDay % HOUR, MINUTE, 60);
    Split(inDay % HOUR % MINUTE, SECOND, 60);
  }

  /** Every representable instant has valid civil fields that read back as it. */
  lemma CivilRoundTrip(at: Time)
    requires Representable(at)
    ensures ValidMoment(Civil(at)) && Instant(Civil(at)) == at
  {
    var day := at / DAY;
    DateRoundTripsDay(day);
    TimeOfDay(at % DAY);
    var m := Civil(at);
    assert Ordinal(Date(m.year, m.month, m.day)) == day;
    assert at == day * DAY + at % DAY;
  }

  // ----- The other way round -----

  function DayBefore(d: Date): Date
    requires ValidDate(d) && d != Date(1, 1, 1)
  {
    if d.day > 1 then d.(day := d.day - 1)
    else if d.month > 1 then Date(d.year, d.month - 1, DaysIn(d.year, d.month - 1))
    else Date(d.year - 1, 12, 31)
  }

  lemma {:induction false} MonthsAreNotNegative(year: nat, month: nat)
    ensures DaysBeforeYear(year) >= 0 && DaysBeforeMonth(year, month) >= 0
  {
  }

  lemma DayBeforeComesBefore(d: Date)
    requires ValidDate(d) && d != Date(1, 1, 1)
    ensures ValidDate(DayBefore(d)) && NextDay(DayBefore(d)) == d
  {
  }

  /** Every valid date is the date of its number. */
  lemma {:induction false} DayRoundTripsDate(d: Date)
    requires ValidDate(d)
    ensures Ordinal(d) >= 0 && DateAt(Ordinal(d)) == d
    decreases Ordinal(d)
  {
    MonthsAreNotNegative(d.year, d.month);
    if d != Date(1, 1, 1) {
      var p := DayBefore(d);
      DayBeforeComesBefore(d);
      NextDayCountsOne(p);
      DayRoundTripsDate(p);
      assert DateAt(Ordinal(d)) == NextDay(DateAt(Ordinal(d) - 1));
    }
  }

  lemma Unique(q: int, unit: int, r: int)
    requires unit > 0 && 0 <= r < unit
    ensures (q * unit + r) / unit == q && (q * unit + r) % unit == r
  {
    var x := q * unit + r;
    var d := x / unit - q;
    assert x / unit * unit + x % unit == x;
    assert d * unit == x / unit * unit - q * unit;
    assert d * unit == r - x % unit;
    if d >= 1 {
      Scale(1, d, unit);
    } else if d <= -1 {
      Scale(d, -1, unit);
    }
  }

  /** Every valid moment is the writing of its instant, so no instant is written in two ways. */
  lemma MomentRoundTrip(m: Moment)
    requires ValidMoment(m)
    ensures Representable(Instant(m)) && Civil(Instant(m)) == m
  {
    var d := Date(m.year, m.month, m.day);
    DayRoundTripsDate(d);
    var inMinute := m.second * SECOND + m.micro;
    var inHour := m.minute * MINUTE + inMinute;
    var inDay := m.hour * HOUR + inHour;
    Unique(m.second, SECOND, m.micro);
    Unique(m.minute, MINUTE, inMinute);
    Unique(m.hour, HOUR, inHour);
    Unique(Ordinal(d), DAY, inDay);
    assert Instant(m) == Ordinal(d) * DAY + inDay;
    Scale(0, Ordinal(d), DAY);
  }

  // ----- The calendar itself -----

  /** The days of the months, as on any calendar. */
  lemma MonthLengths(year: nat, month: nat)
    requires 1 <= month <= 12
    ensures DaysIn(year, month) == [31, DaysIn(year, 2), 31, 30, 31, 30, 31, 31, 30, 31, 30, 31][month - 1]
  {
  }

  lemma Quotients(y: nat)
    requires y > 0
    ensures y / 4 == (y - 1) / 4 + if y % 4 == 0 then 1 else 0
    ensures y / 100 == (y - 1) / 100 + if y % 100 == 0 then 1 else 0
    ensures y / 400 == (y - 1) / 400 + if y % 400 == 0 then 1 else 0
  {
  }

  lemma Multiples(y: nat)
    ensures y % 100 == 0 ==> y % 4 == 0
    ensures y % 400 == 0 ==> y % 100 == 0
  {
    if y % 100 == 0 {
      assert y == 4 * (25 * (y / 100));
    }
    if y % 400 == 0 {
      assert y == 100 * (4 * (y / 400));
    }
  }

  /** Every fourth year is a leap year, but for the centuries, but for every fourth century. */
  lemma {:induction false} LeapYears(years: nat)
    ensures DaysBeforeYear(years + 1) == 365 * years + years / 4 - years / 100 + years / 400
  {
    if years > 0 {
      LeapYears(years - 1);
      Quotients(years);
      Multiples(years);
    }
  }

  /** The first of January 1970, where Unix time begins, is day 719162. */
  lemma UnixEpoch(year: nat)
    requires year == 1970
    ensures Ordinal(Date(year, 1, 1)) == 719162
  {
    var before := year - 1;
    LeapYears(before);
    assert DaysBeforeYear(before + 1) == 719162;
    assert DaysBeforeMonth(year, 1) == 0;
  }
}
