/**
 * Warranty dates: adding calendar months with the day clamped to the target month, the expiry date of
 * a receipt, and the warranty status. Dates are proleptic Gregorian, years 1 to 9999.
 */
module Warranty {
  import opened Prelude

  datatype Date = Date(year: int, month: int, day: int)

  predicate Leap(year: int) {
    year % 4 == 0 && (year % 100 != 0 || year % 400 == 0)
  }

  function DaysInMonth(year: int, month: int): (n: int)
    ensures 28 <= n <= 31
  {
    if month == 2 then (if Leap(year) then 29 else 28)
    else if month == 4 || month == 6 || month == 9 || month == 11 then 30
    else 31
  }

  predicate Valid(d: Date) {
    1 <= d.year <= 9999 && 1 <= d.month <= 12 && 1 <= d.day <= DaysInMonth(d.year, d.month)
  }

  predicate Before(a: Date, b: Date) {
    a.year < b.year || (a.year == b.year && (a.month < b.month || (a.month == b.month && a.day < b.day)))
  }

  /** None stands for the ValueError of a year outside the calendar. */
  function AddMonths(start: Date, months: int): Option<Date> {
    var monthIndex := start.month - 1 + months;
    var year := start.year + monthIndex / 12;
    var month := monthIndex % 12 + 1;
    var day := Min(start.day, DaysInMonth(year, month));
    if 1 <= year <= 9999 then Some(Date(year, month, day)) else None
  }

  datatype ExpiryError = ExpiresBeforePayment | OutOfCalendar

  function ResolveExpiresOn(explicit: Option<Date>, paymentDate: Date, periodMonths: int): Result<Date, ExpiryError> {
    if explicit.None? then
      var added := AddMonths(paymentDate, periodMonths);
      if added.Some? then Ok(added.value) else Err(OutOfCalendar)
    else if Before(explicit.value, paymentDate) then Err(ExpiresBeforePayment)
    else Ok(explicit.value)
  }

  // ---- Days and months on one line ------------------------------------------------------------------

  /** Months since year 0. */
  function MonthIndex(d: Date): int {
    12 * d.year + d.month - 1
  }

  function Length(monthIndex: int): (n: int)
    ensures 28 <= n <= 31
  {
    DaysInMonth(monthIndex / 12, monthIndex % 12 + 1)
  }

  /** Days of the calendar before month `k`; month 12 is January of year 1. */
  function DaysBeforeMonth(k: int): int
    decreases k
  {
    if k <= 12 then 0 else DaysBeforeMonth(k - 1) + Length(k - 1)
  }

  /** date.toordinal: January 1 of year 1 is day 1. */
  function Ordinal(d: Date): int {
    DaysBeforeMonth(MonthIndex(d)) + d.day
  }

  function DaysBeforeYear(year: int): int {
    var y := year - 1;
    365 * y + y / 4 - y / 100 + y / 400
  }

  lemma LeapStep(y: int)
    requires y >= 1
    ensures y / 4 - (y - 1) / 4 == if y % 4 == 0 then 1 else 0
    ensures y / 100 - (y - 1) / 100 == if y % 100 == 0 then 1 else 0
    ensures y / 400 - (y - 1) / 400 == if y % 400 == 0 then 1 else 0
    ensures DaysBeforeYear(y + 1) == DaysBeforeYear(y) + if Leap(y) then 366 else 365
  {
  }

  lemma MonthStep(y: int, month: int)
    requires y >= 1 && 1 <= month <= 12
    ensures DaysBeforeMonth(12 * y + month) == DaysBeforeMonth(12 * y + month - 1) + DaysInMonth(y, month)
  {
    var k := 12 * y + month - 1;
    assert k / 12 == y && k % 12 + 1 == month;
  }

  lemma HalfYear(y: int, first: int)
    requires y >= 1 && (first == 1 || first == 7)
    ensures DaysBeforeMonth(12 * y + first + 5) - DaysBeforeMonth(12 * y + first - 1) ==
            if first == 7 then 184 else if Leap(y) then 182 else 181
  {
    MonthStep(y, first); MonthStep(y, first + 1); MonthStep(y, first + 2);
    MonthStep(y, first + 3); MonthStep(y, first + 4); MonthStep(y, first + 5);
  }

  lemma YearLength(y: int)
    requires y >= 1
    ensures DaysBeforeMonth(12 * y + 12) == DaysBeforeMonth(12 * y) + if Leap(y) then 366 else 365
  {
    HalfYear(y, 1);
    HalfYear(y, 7);
  }

  /** The month-by-month count is the Gregorian calendar: it agrees with the closed leap-year formula. */
  lemma {:induction false} CalendarIsGregorian(year: int)
    requires year >= 1
    ensures DaysBeforeMonth(12 * year) == DaysBeforeYear(year)
    decreases year
  {
    if year > 1 {
      CalendarIsGregorian(year - 1);
      YearLength(year - 1);
      LeapStep(year - 1);
    }
  }

  /** `n` months from month `k` on take between 28n and 31n days, even without their first or last month's excess. */
  lemma {:induction false} MonthSpan(k: int, n: nat)
    requires k >= 12
    ensures n >= 1 ==> 28 * n + Length(k) - 28 <= DaysBeforeMonth(k + n) - DaysBeforeMonth(k) <= 31 * n
    ensures n == 0 ==> DaysBeforeMonth(k + n) == DaysBeforeMonth(k)
    decreases n
  {
    if n > 1 { MonthSpan(k, n - 1); }
  }

  lemma BeforeByMonthIndex(a: Date, b: Date)
    requires Valid(a) && Valid(b)
    ensures Before(a, b) <==> MonthIndex(a) < MonthIndex(b) || (MonthIndex(a) == MonthIndex(b) && a.day < b.day)
    ensures a == b <==> MonthIndex(a) == MonthIndex(b) && a.day == b.day
  {
  }

  lemma LaterHasLargerOrdinal(a: Date, b: Date)
    requires Valid(a) && Valid(b) && Before(a, b)
    ensures Ordinal(a) < Ordinal(b)
  {
    BeforeByMonthIndex(a, b);
    var i, j := MonthIndex(a), MonthIndex(b);
    assert i / 12 == a.year && i % 12 + 1 == a.month;
    if i < j { MonthSpan(i, j - i); }
  }

  /** Dates compare as their day numbers do. */
  lemma OrdinalKeepsOrder(a: Date, b: Date)
    requires Valid(a) && Valid(b)
    ensures Before(a, b) <==> Ordinal(a) < Ordinal(b)
    ensures a == b <==> Ordinal(a) == Ordinal(b)
  {
    if Before(a, b) {
      LaterHasLargerOrdinal(a, b);
    } else if Before(b, a) {
      LaterHasLargerOrdinal(b, a);
    }
  }

  // ---- What adding months does ------------------------------------------------------------------------

  /** The result exists exactly inside the calendar, is a valid date, and lies exactly `months` months on. */
  lemma AddMonthsLandsOnTheMonth(d: Date, months: int)
    requires Valid(d)
    ensures AddMonths(d, months).Some? <==> 12 <= MonthIndex(d) + months < 120000
    ensures AddMonths(d, months).Some? ==>
              var r := AddMonths(d, months).value;
              && Valid(r)
              && MonthIndex(r) == MonthIndex(d) + months
              && r.day == Min(d.day, Length(MonthIndex(d) + months))
  {
    var k := MonthIndex(d) + months;
    var m := d.month - 1 + months;
    assert k == 12 * d.year + m && k / 12 == d.year + m / 12 && k % 12 == m % 12;
  }

  /** A later start never gives an earlier end; more months always give a later end. */
  lemma AddMonthsIsMonotone(d: Date, e: Date, m: int, n: int)
    requires Valid(d) && Valid(e) && AddMonths(d, m).Some? && AddMonths(e, m).Some? && AddMonths(d, n).Some?
    ensures !Before(e, d) ==> !Before(AddMonths(e, m).value, AddMonths(d, m).value)
    ensures m < n <==> Before(AddMonths(d, m).value, AddMonths(d, n).value)
  {
    AddMonthsLandsOnTheMonth(d, m);
    AddMonthsLandsOnTheMonth(e, m);
    AddMonthsLandsOnTheMonth(d, n);
  }

  /** m months move a date by at least 28m and at most 31m days, although the day may be clamped. */
  lemma AddMonthsMovesByWholeMonths(d: Date, m: nat)
    requires Valid(d) && AddMonths(d, m).Some? && m >= 1
    ensures 28 * m <= Ordinal(AddMonths(d, m).value) - Ordinal(d) <= 31 * m
  {
    AddMonthsLandsOnTheMonth(d, m);
    var k := MonthIndex(d);
    assert Length(k) == DaysInMonth(d.year, d.month);
    MonthSpan(k, m);
  }

  /**
   * Adding a months and then b months never passes a + b months at once, and gives the same date
   * exactly when the stop in between did not clamp the day below what the final month allows.
   */
  lemma AddMonthsInTwoSteps(d: Date, a: int, b: int)
    requires Valid(d) && AddMonths(d, a).Some? && AddMonths(d, a + b).Some?
    ensures AddMonths(AddMonths(d, a).value, b).Some?
    ensures var two, one := AddMonths(AddMonths(d, a).value, b).value, AddMonths(d, a + b).value;
            && !Before(one, two)
            && (two == one <==> (d.day <= Length(MonthIndex(d) + a)
                                 || Length(MonthIndex(d) + a + b) <= Length(MonthIndex(d) + a)))
            && (d.day <= 28 ==> two == one)
  {
    AddMonthsLandsOnTheMonth(d, a);
    AddMonthsLandsOnTheMonth(d, a + b);
    AddMonthsLandsOnTheMonth(AddMonths(d, a).value, b);
  }

  /** A receipt never expires before it was paid; only an explicit earlier date is refused. */
  lemma ExpiryIsNotBeforePayment(explicit: Option<Date>, paymentDate: Date, periodMonths: int)
    requires Valid(paymentDate) && periodMonths >= 1 && (explicit.Some? ==> Valid(explicit.value))
    ensures var r := ResolveExpiresOn(explicit, paymentDate, periodMonths);
            && (r.Ok? ==> Valid(r.value) && !Before(r.value, paymentDate))
            && (r == Err(ExpiresBeforePayment) <==> explicit.Some? && Before(explicit.value, paymentDate))
            && (explicit.None? && r.Ok? ==> Ordinal(paymentDate) + 28 * periodMonths <= Ordinal(r.value))
            && (explicit.Some? && !Before(explicit.value, paymentDate) ==> r == Ok(explicit.value))
            && (explicit.None? ==> (r.Ok? <==> 12 * paymentDate.year + paymentDate.month + periodMonths <= 120000))
            && (explicit.None? && r.Ok? ==>
                  && MonthIndex(r.value) == MonthIndex(paymentDate) + periodMonths
                  && r.value.day == Min(paymentDate.day, DaysInMonth(r.value.year, r.value.month)))
  {
    if explicit.None? { AddMonthsLandsOnTheMonth(paymentDate, periodMonths); }
    if explicit.None? && AddMonths(paymentDate, periodMonths).Some? {
      AddMonthsLandsOnTheMonth(paymentDate, periodMonths);
      AddMonthsMovesByWholeMonths(paymentDate, periodMonths);
      OrdinalKeepsOrder(AddMonths(paymentDate, periodMonths).value, paymentDate);
    }
  }

  // ---- Status -----------------------------------------------------------------------------------------

  datatype Status = Active | Expiring | Expired

  /** Days left, from day numbers. */
  function DDay(expiresOn: int, today: int): int {
    expiresOn - today
  }

  function StatusOf(expiresOn: int, today: int): Status {
    if DDay(expiresOn, today) < 0 then Expired
    else if DDay(expiresOn, today) <= 30 then Expiring
    else Active
  }
}
