/**
 The proleptic Gregorian calendar (leap rule: RFC 3339, section 5.7 and Appendix C), with months
 numbered on end from year 0, and calendar-month addition (fee_discount.py:69-80).
 */
module Calendar {
  import opened Common

  const MINYEAR := 1
  const MAXYEAR := 9999
  const DAY_MS: int := 86_400_000
  const EPOCH: int := 719_163

  datatype Date = Date(year: int, month: int, day: int)

  predicate Leap(year: int) {
    year % 4 == 0 && (year % 100 != 0 || year % 400 == 0)
  }

  function MonthLength(year: int, month: int): int {
    if month == 2 then (if Leap(year) then 29 else 28)
    else if month == 4 || month == 6 || month == 9 || month == 11 then 30
    else 31
  }

  predicate Valid(d: Date) {
    MINYEAR <= d.year <= MAXYEAR && 1 <= d.month <= 12 && 1 <= d.day <= MonthLength(d.year, d.month)
  }

  function DaysBeforeYear(year: int): int {
    365 * (year - 1) + (year - 1) / 4 - (year - 1) / 100 + (year - 1) / 400
  }

  function DaysBeforeMonth(year: int, month: int): int
    decreases month
  {
    if month <= 1 then 0 else DaysBeforeMonth(year, month - 1) + MonthLength(year, month - 1)
  }

  /** Days from the last day of year 0, so that 0001-01-01 is day 1. */
  function Ordinal(d: Date): int {
    DaysBeforeYear(d.year) + DaysBeforeMonth(d.year, d.month) + d.day
  }

  // ---- Months on end ----

  function MonthIndex(d: Date): int {
    12 * d.year + d.month - 1
  }

  function Length(index: int): int {
    MonthLength(index / 12, index % 12 + 1)
  }

  function Before(index: int): int {
    DaysBeforeYear(index / 12) + DaysBeforeMonth(index / 12, index % 12 + 1)
  }

  lemma OrdinalByIndex(d: Date)
    requires 1 <= d.month <= 12
    ensures MonthIndex(d) / 12 == d.year && MonthIndex(d) % 12 + 1 == d.month
    ensures Ordinal(d) == Before(MonthIndex(d)) + d.day && Length(MonthIndex(d)) == MonthLength(d.year, d.month)
  {
  }

  lemma YearLength(year: int)
    ensures DaysBeforeYear(year + 1) == DaysBeforeYear(year) + (if Leap(year) then 366 else 365)
    ensures DaysBeforeMonth(year, 13) == if Leap(year) then 366 else 365
  {
    YearStep(year - 1);
    MonthSums(year);
  }

  lemma YearStep(y: int)
    ensures (y + 1) / 4 - y / 4 == (if (y + 1) % 4 == 0 then 1 else 0)
    ensures (y + 1) / 100 - y / 100 == (if (y + 1) % 100 == 0 then 1 else 0)
    ensures (y + 1) / 400 - y / 400 == (if (y + 1) % 400 == 0 then 1 else 0)
    ensures (y + 1) % 400 == 0 ==> (y + 1) % 100 == 0
    ensures (y + 1) % 100 == 0 ==> (y + 1) % 4 == 0
  {
  }

  lemma MonthSums(year: int)
    ensures DaysBeforeMonth(year, 7) == if Leap(year) then 182 else 181
    ensures DaysBeforeMonth(year, 13) == if Leap(year) then 366 else 365
  {
    assert DaysBeforeMonth(year, 4) == 59 + 31 + (if Leap(year) then 1 else 0) by {
      assert DaysBeforeMonth(year, 2) == 31;
      assert DaysBeforeMonth(year, 3) == 31 + MonthLength(year, 2);
    }
    assert DaysBeforeMonth(year, 7) == DaysBeforeMonth(year, 4) + 91 by {
      assert DaysBeforeMonth(year, 5) == DaysBeforeMonth(year, 4) + 30;
      assert DaysBeforeMonth(year, 6) == DaysBeforeMonth(year, 5) + 31;
    }
    assert DaysBeforeMonth(year, 10) == DaysBeforeMonth(year, 7) + 92 by {
      assert DaysBeforeMonth(year, 8) == DaysBeforeMonth(year, 7) + 31;
      assert DaysBeforeMonth(year, 9) == DaysBeforeMonth(year, 8) + 31;
    }
    assert DaysBeforeMonth(year, 13) == DaysBeforeMonth(year, 10) + 92 by {
      assert DaysBeforeMonth(year, 11) == DaysBeforeMonth(year, 10) + 31;
      assert DaysBeforeMonth(year, 12) == DaysBeforeMonth(year, 11) + 30;
    }
  }

  /** One month follows another without gap or overlap, also across a year's end. */
  lemma NextMonth(index: int)
    ensures Before(index + 1) == Before(index) + Length(index) && 28 <= Length(index) <= 31
  {
    hide DaysBeforeYear;
    if index % 12 == 11 {
      YearLength(index / 12);
      assert (index + 1) / 12 == index / 12 + 1 && (index + 1) % 12 == 0;
      assert DaysBeforeMonth(index / 12, 13) == DaysBeforeMonth(index / 12, 12) + MonthLength(index / 12, 12);
      assert DaysBeforeMonth(index / 12 + 1, 1) == 0;
    } else {
      assert (index + 1) / 12 == index / 12 && (index + 1) % 12 == index % 12 + 1;
    }
  }

  lemma {:induction false} MonthsSpan(index: int, months: nat)
    ensures 28 * months <= Before(index + months) - Before(index) <= 31 * months
  {
    hide Before, Length;
    if months > 0 {
      MonthsSpan(index, months - 1);
      NextMonth(index + months - 1);
    }
  }

  lemma LengthByMonth(index: int, k: nat)
    requires k < 12
    ensures var month := if index % 12 + k < 12 then index % 12 + k else index % 12 + k - 12;
            if month == 1 then 28 <= Length(index + k) <= 29
            else Length(index + k) == if month == 3 || month == 5 || month == 8 || month == 10 then 30 else 31
  {
    var month := if index % 12 + k < 12 then index % 12 + k else index % 12 + k - 12;
    assert (index + k) % 12 == month;
  }

  /** Any six months on end have 181 to 184 days. */
  lemma SixMonthsSpan(index: int)
    ensures 181 <= Before(index + 6) - Before(index) <= 184
  {
    hide Before, Length;
    NextMonth(index);
    NextMonth(index + 1);
    NextMonth(index + 2);
    NextMonth(index + 3);
    NextMonth(index + 4);
    NextMonth(index + 5);
    LengthByMonth(index, 0);
    LengthByMonth(index, 1);
    LengthByMonth(index, 2);
    LengthByMonth(index, 3);
    LengthByMonth(index, 4);
    LengthByMonth(index, 5);
  }

  // ---- From ordinals back to dates ----

  /** The first month index, from `index` on, that ends no earlier than day n. */
  function IndexFrom(n: int, index: int): (found: int)
    ensures Before(index) < n ==> Before(found) < n <= Before(found + 1) && index <= found
    decreases n - Before(index)
  {
    NextMonth(index);
    if n <= Before(index + 1) then index else IndexFrom(n, index + 1)
  }

  const FIRST: int := 12 * MINYEAR
  const PAST: int := 12 * (MAXYEAR + 1)

  predicate Representable(n: int) {
    Before(FIRST) < n <= Before(PAST)
  }

  /** The date whose ordinal is n. */
  function FromOrdinal(n: int): Date
    requires Representable(n)
  {
    var index := IndexFrom(n, FIRST);
    Date(index / 12, index % 12 + 1, n - Before(index))
  }

  lemma {:induction false} BeforeIncreases(i: int, j: int)
    requires i <= j
    ensures Before(i) + 28 * (j - i) <= Before(j)
  {
    MonthsSpan(i, j - i);
    assert i + (j - i) == j;
  }

  /** Dates and representable ordinals are in one-to-one correspondence. */
  lemma OrdinalRoundTrip(n: int, d: Date)
    ensures Representable(n) ==> Valid(FromOrdinal(n)) && Ordinal(FromOrdinal(n)) == n
    ensures Valid(d) ==> Representable(Ordinal(d)) && FromOrdinal(Ordinal(d)) == d
  {
    hide Before, Length, DaysBeforeYear, DaysBeforeMonth;
    if Representable(n) {
      var index := IndexFrom(n, FIRST);
      InRange(n, index);
      NextMonth(index);
      OrdinalByIndex(FromOrdinal(n));
    }
    if Valid(d) {
      OrdinalByIndex(d);
      NextMonth(MonthIndex(d));
      DateInRange(d);
      SameIndex(Ordinal(d), MonthIndex(d), IndexFrom(Ordinal(d), FIRST));
    }
  }

  lemma InRange(n: int, index: int)
    requires Representable(n) && FIRST <= index && Before(index) < n
    ensures index < PAST
  {
    hide Before;
    if index >= PAST {
      BeforeIncreases(PAST, index);
    }
  }

  lemma DateInRange(d: Date)
    requires Valid(d)
    ensures FIRST <= MonthIndex(d) < PAST && Representable(Ordinal(d))
  {
    hide Before, Length;
    OrdinalByIndex(d);
    NextMonth(MonthIndex(d));
    BeforeIncreases(FIRST, MonthIndex(d));
    BeforeIncreases(MonthIndex(d) + 1, PAST);
  }

  lemma SameIndex(n: int, i: int, j: int)
    requires Before(i) < n <= Before(i + 1) && Before(j) < n <= Before(j + 1)
    ensures i == j
  {
    hide Before;
    if i < j {
      BeforeIncreases(i + 1, j);
    } else if j < i {
      BeforeIncreases(j + 1, i);
    }
  }
}
