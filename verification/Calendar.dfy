/**
 Calendar time in UTC, as Postgres' `make_interval(months => n)` and Go's
 `AddDate` read it. A moment is kept as the month it falls in (counted from
 January of year 0 of the proleptic Gregorian calendar), the day of that month
 and the second of that day, so that month arithmetic needs no conversion.
 Month lengths and the leap rule are those of section 5.7 and Appendix C of
 RFC 3339.
 */
module Calendar {

  datatype Stamp = Stamp(month: nat, day: nat, sec: nat)

  predicate IsLeapYear(year: nat) {
    year % 4 == 0 && (year % 100 != 0 || year % 400 == 0)
  }

  function MonthLength(month: nat): (n: nat)
    ensures 28 <= n <= 31
  {
    var m := month % 12 + 1;
    if m == 2 then (if IsLeapYear(month / 12) then 29 else 28)
    else if m == 4 || m == 6 || m == 9 || m == 11 then 30
    else 31
  }

  predicate WellFormed(s: Stamp) {
    1 <= s.day <= MonthLength(s.month) && s.sec < 86400
  }

  type Moment = s: Stamp | WellFormed(s) witness Stamp(0, 1, 0)

  /** Days from the start of year 0 to the start of the month. */
  function DaysBefore(month: nat): nat {
    if month == 0 then 0 else DaysBefore(month - 1) + MonthLength(month - 1)
  }

  function DayNumber(s: Moment): nat {
    DaysBefore(s.month) + (s.day - 1)
  }

  /** 1 January 1970, counted in days from the start of year 0. */
  const UNIX_EPOCH: nat := 719528

  function Unix(s: Moment): int {
    (DayNumber(s) - UNIX_EPOCH) * 86400 + s.sec
  }

  function Min(a: nat, b: nat): nat { if a <= b then a else b }

  /** `s + make_interval(months => n)`: a day past the end of the target month is clamped. */
  function AddMonths(s: Moment, n: nat): (r: Moment) {
    Stamp(s.month + n, Min(s.day, MonthLength(s.month + n)), s.sec)
  }

  /** Go's `AddDate(years, 0, 0)`: a day past the end of the target month rolls over. */
  function AddYearsRolling(s: Moment, years: nat): (r: Moment) {
    var month := s.month + 12 * years;
    if s.day <= MonthLength(month) then Stamp(month, s.day, s.sec)
    else Stamp(month + 1, s.day - MonthLength(month), s.sec)
  }

  /** The months of a list of terms, added one purchase at a time. */
  function AddTerms(s: Moment, terms: seq<nat>): Moment {
    if terms == [] then s
    else AddMonths(AddTerms(s, terms[..|terms| - 1]), terms[|terms| - 1])
  }

  function Sum(terms: seq<nat>): nat {
    if terms == [] then 0 else Sum(terms[..|terms| - 1]) + terms[|terms| - 1]
  }

  // ---- Day numbers ------------------------------------------------------

  lemma {:induction false} MonthsAreOrdered(a: nat, b: nat)
    requires a < b
    ensures DaysBefore(a) + MonthLength(a) <= DaysBefore(b)
    decreases b
  {
    if a < b - 1 {
      MonthsAreOrdered(a, b - 1);
    }
  }

  /** Day numbers order dates exactly as (month, day) pairs do. */
  lemma DayNumberOrdersDates(s: Moment, t: Moment)
    ensures DayNumber(s) <= DayNumber(t) <==> s.month < t.month || (s.month == t.month && s.day <= t.day)
  {
    if s.month < t.month {
      MonthsAreOrdered(s.month, t.month);
    } else if t.month < s.month {
      MonthsAreOrdered(t.month, s.month);
    }
  }

  /** Leap years before a year, counting year 0. */
  function LeapsBefore(year: nat): nat {
    (year + 3) / 4 - (year + 99) / 100 + (year + 399) / 400
  }

  lemma LeapStep(year: nat)
    ensures LeapsBefore(year + 1) == LeapsBefore(year) + (if IsLeapYear(year) then 1 else 0)
  {
    DivStep(year, 4);
    DivStep(year, 100);
    DivStep(year, 400);
    Centuries(year);
  }

  lemma Centuries(year: nat)
    ensures year % 400 == 0 ==> year % 100 == 0
    ensures year % 100 == 0 ==> year % 4 == 0
  {
    if year % 400 == 0 {
      assert year == 100 * (4 * (year / 400));
    }
    if year % 100 == 0 {
      assert year == 4 * (25 * (year / 100));
    }
  }

  lemma DivStep(n: nat, c: nat)
    requires c == 4 || c == 100 || c == 400
    ensures (n + 1 + (c - 1)) / c == (n + (c - 1)) / c + (if n % c == 0 then 1 else 0)
  {
  }

  /** Days of a year up to its m-th month, in a common year. */
  function CommonDays(m: nat): nat
    requires m <= 12
  {
    [0, 31, 59, 90, 120, 151, 181, 212, 243, 273, 304, 334, 365][m]
  }

  /** The days of each year, month by month: the common table, and one more from March of a leap year on. */
  lemma {:induction false} DaysWithinYear(year: nat, m: nat)
    requires m <= 12
    ensures DaysBefore(12 * year + m) == DaysBefore(12 * year) + CommonDays(m) + (if m >= 2 && IsLeapYear(year) then 1 else 0)
  {
    if m > 0 {
      DaysWithinYear(year, m - 1);
      assert (12 * year + (m - 1)) / 12 == year && (12 * year + (m - 1)) % 12 == m - 1;
    }
  }

  /** Day numbers count 365 days a year and one more for each leap year. */
  lemma {:induction false} DaysOfYears(year: nat)
    ensures DaysBefore(12 * year) == 365 * year + LeapsBefore(year)
  {
    if year > 0 {
      hide LeapsBefore, DaysBefore, IsLeapYear;
      DaysOfYears(year - 1);
      DaysWithinYear(year - 1, 12);
      LeapStep(year - 1);
      assert 12 * (year - 1) + 12 == 12 * year;
    }
  }

  /** Unix time starts with 1 January 1970. */
  lemma EpochIsZero(year: nat)
    requires year == 1970
    ensures Unix(Stamp(12 * year, 1, 0)) == 0
  {
    hide DaysBefore;
    DaysOfYears(year);
  }

  // ---- Adding months ----------------------------------------------------

  /** The same time of day, that many months on, on the latest day of that month that is no later in it. */
  lemma AddMonthsIs(s: Moment, n: nat)
    ensures var r, month := AddMonths(s, n), s.month + n;
            && r.month == month && r.sec == s.sec && r.day <= s.day
            && forall d: nat :: d <= s.day && WellFormed(Stamp(month, d, s.sec)) ==> d <= r.day
  {
  }

  /** Years are added by the calendar; a day the month does not have counts on into the next. */
  lemma AddYearsRollingIs(s: Moment, years: nat)
    ensures var r := AddYearsRolling(s, years);
            r.sec == s.sec && DayNumber(r) == DaysBefore(s.month + 12 * years) + s.day - 1
  {
  }

  lemma AddMonthsIncreases(s: Moment, n: nat)
    requires n >= 1
    ensures Unix(s) < Unix(AddMonths(s, n))
    ensures DayNumber(s) < DayNumber(AddMonths(s, n))
  {
    MonthsAreOrdered(s.month, s.month + n);
  }

  /** By date, a later start never expires earlier. */
  lemma AddMonthsMonotone(s: Moment, t: Moment, n: nat)
    requires DayNumber(s) <= DayNumber(t)
    ensures DayNumber(AddMonths(s, n)) <= DayNumber(AddMonths(t, n))
  {
    DayNumberOrdersDates(s, t);
    DayNumberOrdersDates(AddMonths(s, n), AddMonths(t, n));
  }

  /** By the second it can: clamping drops the day and keeps the time of day. */
  lemma AddMonthsNotMonotoneBySecond()
    ensures exists s: Moment, t: Moment, n: nat ::
              Unix(s) < Unix(t) && Unix(AddMonths(t, n)) < Unix(AddMonths(s, n))
  {
    var k: nat := 24300;
    assert k % 12 == 0 && k / 12 == 2025;
    assert !IsLeapYear(2025);
    assert MonthLength(k) == 31 && MonthLength(k + 1) == 28;
    var s: Moment := Stamp(k, 30, 82800);
    var t: Moment := Stamp(k, 31, 3600);
    assert AddMonths(s, 1) == Stamp(k + 1, 28, 82800);
    assert AddMonths(t, 1) == Stamp(k + 1, 28, 3600);
    assert Unix(s) < Unix(t) && Unix(AddMonths(t, 1)) < Unix(AddMonths(s, 1));
  }

  /** Exactly when the second-level order survives: the times of day are in order, or clamping leaves the dates apart. */
  lemma AddMonthsMonotoneBySecondIff(s: Moment, t: Moment, n: nat)
    requires Unix(s) <= Unix(t)
    ensures Unix(AddMonths(s, n)) <= Unix(AddMonths(t, n)) <==>
            (s.sec <= t.sec || s.month < t.month || (s.day < t.day && s.day < MonthLength(s.month + n)))
  {
    var s', t' := AddMonths(s, n), AddMonths(t, n);
    DayNumberOrdersDates(s, t);
    DayNumberOrdersDates(t, s);
    DayNumberOrdersDates(s', t');
    DayNumberOrdersDates(t', s');
  }

  // ---- Chains of renewals -----------------------------------------------

  lemma {:induction false} AddTermsShape(s: Moment, terms: seq<nat>)
    ensures var r := AddTerms(s, terms);
            && r.month == s.month + Sum(terms)
            && r.sec == s.sec
            && Min(s.day, 28) <= r.day <= s.day
  {
    if terms != [] {
      AddTermsShape(s, terms[..|terms| - 1]);
    }
  }

  /**
   Renewing term by term lands in the same calendar month as one purchase of
   the summed term, at the same time of day, never later and at most three days
   earlier.
   */
  lemma RenewalChainBound(s: Moment, terms: seq<nat>)
    ensures var chain, once := AddTerms(s, terms), AddMonths(s, Sum(terms));
            && chain.month == once.month
            && chain.sec == once.sec
            && DayNumber(chain) <= DayNumber(once) <= DayNumber(chain) + 3
            && Unix(chain) <= Unix(once) <= Unix(chain) + 3 * 86400
  {
    AddTermsShape(s, terms);
  }

  /** The three days are reached: the 31st of a common year's January, renewed by a month twice. */
  lemma RenewalChainBoundIsTight(s: Moment)
    requires s.month % 12 == 0 && !IsLeapYear(s.month / 12) && s.day == 31
    ensures DayNumber(AddMonths(AddMonths(s, 1), 1)) + 3 == DayNumber(AddMonths(s, 2))
  {
    var k := s.month;
    assert (k + 1) % 12 == 1 && (k + 1) / 12 == k / 12 && (k + 2) % 12 == 2;
    assert MonthLength(k + 1) == 28 && MonthLength(k + 2) == 31;
    hide MonthLength, DaysBefore;
  }
}
