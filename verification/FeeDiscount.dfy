/**
 The trading-fee discount window (fee_discount.py). Timestamps are milliseconds since 1970 in
 UTC; `None` where the source raises because a date leaves the years 1 to 9999.
 */
module FeeDiscount {
  import opened Common
  import opened Calendar

  predicate InCalendar(ts: int) {
    Representable(ts / DAY_MS + EPOCH)
  }

  function DateOf(ts: int): Date
    requires InCalendar(ts)
  {
    FromOrdinal(ts / DAY_MS + EPOCH)
  }

  function TimeOfDay(ts: int): int {
    ts % DAY_MS
  }

  function Timestamp(d: Date, timeOfDay: int): int {
    (Ordinal(d) - EPOCH) * DAY_MS + timeOfDay
  }

  lemma TimestampRoundTrip(d: Date, timeOfDay: int, ts: int)
    requires 0 <= timeOfDay < DAY_MS
    ensures Valid(d) ==> InCalendar(Timestamp(d, timeOfDay)) && DateOf(Timestamp(d, timeOfDay)) == d
                         && TimeOfDay(Timestamp(d, timeOfDay)) == timeOfDay
    ensures InCalendar(ts) ==> Valid(DateOf(ts)) && Timestamp(DateOf(ts), TimeOfDay(ts)) == ts
  {
    hide Ordinal, FromOrdinal, Representable;
    OrdinalRoundTrip(ts / DAY_MS + EPOCH, d);
    SplitsBack(Ordinal(d) - EPOCH, timeOfDay);
  }

  lemma SplitsBack(days: int, timeOfDay: int)
    requires 0 <= timeOfDay < DAY_MS
    ensures (days * DAY_MS + timeOfDay) / DAY_MS == days && (days * DAY_MS + timeOfDay) % DAY_MS == timeOfDay
  {
  }

  /** Milliseconds are counted from the first instant of 1970. */
  lemma EpochIsZero()
    ensures InCalendar(0) && DateOf(0) == Date(1970, 1, 1) && TimeOfDay(0) == 0
  {
    assert DaysBeforeMonth(1970, 1) == 0;
    assert Ordinal(Date(1970, 1, 1)) == EPOCH;
    TimestampRoundTrip(Date(1970, 1, 1), 0, 0);
  }

  // ---- Adding calendar months ----

  /** `month_index // 12` and `% 12` floor in the source, as they do here. */
  function MonthsLater(d: Date, months: int): Option<Date> {
    var index := d.month - 1 + months;
    var year := d.year + index / 12;
    var month := index % 12 + 1;
    var last := MonthLength(year, month);
    if MINYEAR <= year <= MAXYEAR then Some(Date(year, month, if d.day <= last then d.day else last)) else None
  }

  function AddMonths(ts: int, months: int): Option<int> {
    if months == 0 then Some(ts)
    else if !InCalendar(ts) then None
    else
      match MonthsLater(DateOf(ts), months)
      case None => None
      case Some(d) => Some(Timestamp(d, TimeOfDay(ts)))
  }

  lemma MonthsLaterByIndex(d: Date, months: int)
    requires Valid(d) && MonthsLater(d, months).Some?
    ensures var later := MonthsLater(d, months).value;
            && Valid(later) && MonthIndex(later) == MonthIndex(d) + months
            && later.day == if d.day <= Length(MonthIndex(d) + months) then d.day else Length(MonthIndex(d) + months)
  {
    hide MonthLength;
    YearsAndMonths(d.year, d.month - 1 + months);
    NextMonth(MonthIndex(d) + months);
  }

  lemma YearsAndMonths(year: int, index: int)
    ensures (12 * year + index) / 12 == year + index / 12 && (12 * year + index) % 12 == index % 12
  {
  }

  /** Keeps the time of day and lands in the following month of that number, on its day or its last. */
  lemma AddMonthsLands(ts: int, months: int)
    requires InCalendar(ts) && AddMonths(ts, months).Some?
    ensures var end := AddMonths(ts, months).value;
            && InCalendar(end) && TimeOfDay(end) == TimeOfDay(ts)
            && Valid(DateOf(ts)) && Valid(DateOf(end))
            && MonthIndex(DateOf(end)) == MonthIndex(DateOf(ts)) + months
            && var last := Length(MonthIndex(DateOf(ts)) + months);
               DateOf(end).day == if DateOf(ts).day <= last then DateOf(ts).day else last
  {
    hide Valid, Ordinal, InCalendar, DateOf, Timestamp, MonthsLater, Length;
    TimestampRoundTrip(DateOf(ts), TimeOfDay(ts), ts);
    if months == 0 {
      WithinMonth(DateOf(ts));
    } else {
      MonthsLaterByIndex(DateOf(ts), months);
      TimestampRoundTrip(MonthsLater(DateOf(ts), months).value, TimeOfDay(ts), ts);
    }
  }

  lemma WithinMonth(d: Date)
    requires Valid(d)
    ensures 1 <= d.day <= Length(MonthIndex(d))
  {
    OrdinalByIndex(d);
  }

  /** An addition fails exactly when the calendar ends first. */
  lemma AddMonthsFailsExactly(ts: int, months: int)
    requires InCalendar(ts)
    ensures AddMonths(ts, months).Some? <==> FIRST <= MonthIndex(DateOf(ts)) + months < PAST
  {
    hide Valid, Ordinal, InCalendar, Representable;
    TimestampRoundTrip(DateOf(ts), TimeOfDay(ts), ts);
    var d := DateOf(ts);
    DateInRange(d);
    var index := d.month - 1 + months;
    assert (MonthIndex(d) + months) / 12 == d.year + index / 12;
  }

  /** The days between a day and the day m months later. */
  lemma LaterDaySpan(index: int, day: int, months: nat)
    requires 1 <= day <= Length(index)
    ensures var last := Length(index + months); var later := if day <= last then day else last;
            28 * months <= Before(index + months) + later - (Before(index) + day) <= 31 * months
    ensures var last := Length(index + 6); var later := if day <= last then day else last;
            181 <= Before(index + 6) + later - (Before(index) + day) <= 184
  {
    hide Before, Length;
    MonthsSpan(index, months);
    MonthsSpan(index + 1, months);
    SixMonthsSpan(index);
    SixMonthsSpan(index + 1);
    NextMonth(index);
    NextMonth(index + months);
    NextMonth(index + 6);
    assert index + 1 + months == index + months + 1;
  }

  /** m months later is 28m to 31m days later; the default six are 181 to 184. */
  lemma AddMonthsSpan(ts: int, months: nat)
    requires InCalendar(ts) && AddMonths(ts, months).Some?
    ensures var days := (AddMonths(ts, months).value - ts) / DAY_MS;
            && AddMonths(ts, months).value == ts + days * DAY_MS
            && 28 * months <= days <= 31 * months && (months == 6 ==> 181 <= days <= 184)
  {
    hide AddMonths, InCalendar;
    var days := DaysApart(ts, months);
    SplitsBack(days, 0);
  }

  lemma DaysApart(ts: int, months: nat) returns (days: int)
    requires InCalendar(ts) && AddMonths(ts, months).Some?
    ensures AddMonths(ts, months).value == ts + days * DAY_MS
    ensures 28 * months <= days <= 31 * months && (months == 6 ==> 181 <= days <= 184)
  {
    hide Valid, InCalendar, DateOf, Before, Length, AddMonths, Ordinal;
    var end := AddMonths(ts, months).value;
    AddMonthsLands(ts, months);
    var from, to := DateOf(ts), DateOf(end);
    TimestampRoundTrip(from, TimeOfDay(ts), ts);
    TimestampRoundTrip(to, TimeOfDay(end), end);
    WithinMonth(from);
    LaterDaySpan(MonthIndex(from), from.day, months);
    ValidMonth(from);
    ValidMonth(to);
    OrdinalByIndex(from);
    OrdinalByIndex(to);
    days := Ordinal(to) - Ordinal(from);
  }

  lemma ValidMonth(d: Date)
    requires Valid(d)
    ensures 1 <= d.month <= 12
  {
  }

  /**
   Adding a then b months never lands later than adding a + b, and lands on the same instant
   exactly when the month in between is long enough for the day; it is for days up to 28.
   */
  lemma AddMonthsComposes(ts: int, a: nat, b: nat)
    requires InCalendar(ts) && AddMonths(ts, a + b).Some?
    ensures AddMonths(ts, a).Some? && AddMonths(AddMonths(ts, a).value, b).Some?
    ensures var twice := AddMonths(AddMonths(ts, a).value, b).value; var once := AddMonths(ts, a + b).value;
            var index := MonthIndex(DateOf(ts)); var day := DateOf(ts).day;
            && twice <= once
            && (twice == once <==> day <= Length(index + a) || Length(index + a + b) <= Length(index + a))
            && (day <= 28 ==> twice == once)
  {
    hide Valid, InCalendar, DateOf, Before, Length, AddMonths, Ordinal, Timestamp;
    var index := MonthIndex(DateOf(ts));
    AddMonthsLands(ts, 0) by {
      ZeroMonths(ts);
    }
    AddMonthsFailsExactly(ts, a + b);
    IndexInRange(ts);
    AddMonthsFailsExactly(ts, a);
    AddMonthsLands(ts, a);
    var mid := AddMonths(ts, a).value;
    AddMonthsFailsExactly(mid, b);
    AddMonthsLands(mid, b);
    AddMonthsLands(ts, a + b);
    var twice, once := AddMonths(mid, b).value, AddMonths(ts, a + b).value;
    NextMonth(index + a);
    SameMonthOrder(twice, once);
    assert index + (a + b) == index + a + b;
  }

  lemma ZeroMonths(ts: int)
    ensures AddMonths(ts, 0) == Some(ts)
  {
  }

  lemma IndexInRange(ts: int)
    requires InCalendar(ts)
    ensures FIRST <= MonthIndex(DateOf(ts)) < PAST
  {
    hide Valid, Ordinal, Representable;
    TimestampRoundTrip(DateOf(ts), TimeOfDay(ts), ts);
    DateInRange(DateOf(ts));
  }

  /** Two instants of one month and one time of day are ordered as their days. */
  lemma SameMonthOrder(s: int, t: int)
    requires InCalendar(s) && InCalendar(t) && TimeOfDay(s) == TimeOfDay(t)
    requires MonthIndex(DateOf(s)) == MonthIndex(DateOf(t))
    ensures t - s == (DateOf(t).day - DateOf(s).day) * DAY_MS
  {
    hide Valid, InCalendar, DateOf, Before, Length, Ordinal;
    TimestampRoundTrip(DateOf(s), TimeOfDay(s), s);
    TimestampRoundTrip(DateOf(t), TimeOfDay(t), t);
    ValidMonth(DateOf(s));
    ValidMonth(DateOf(t));
    OrdinalByIndex(DateOf(s));
    OrdinalByIndex(DateOf(t));
  }

  // ---- The discount ----

  function ResolveAnchor(anchor: string, firstTrade: Option<int>, registration: Option<int>, at: int): Option<int> {
    if anchor == "" || anchor == "registration" then
      if registration.GetOr(0) > 0 then registration else None
    else if firstTrade.GetOr(0) > 0 then firstTrade
    else Some(at)
  }

  /** None where the source raises. */
  function IsActive(months: int, anchor: Option<int>, at: int): Option<bool> {
    if months <= 0 || anchor.None? || anchor.value <= 0 then Some(false)
    else
      match AddMonths(anchor.value, months)
      case None => None
      case Some(end) => Some(anchor.value <= at < end)
  }

  function EffectiveRate(baseRate: real, months: int, at: int, firstTrade: Option<int>, anchor: string, registration: Option<int>)
    : Option<real>
  {
    if baseRate <= 0.0 || months <= 0 then Some(0.0)
    else
      match IsActive(months, ResolveAnchor(anchor, firstTrade, registration, at), at)
      case None => None
      case Some(active) => Some(if active then baseRate else 0.0)
  }

  /** The instant a mode counts from, when it does not depend on the asking time. */
  function FixedAnchor(anchor: string, firstTrade: Option<int>, registration: Option<int>): Option<int> {
    if anchor == "" || anchor == "registration" then registration else firstTrade
  }

  /**
   From a known anchor the rate holds on exactly one half-open window, 28 to 31 days a month long
   and 181 to 184 days for the default six, and is zero outside it; past the calendar's end no
   rate is ever given.
   */
  lemma DiscountHoldsOnOneWindow(baseRate: real, months: int, firstTrade: Option<int>, anchor: string, registration: Option<int>)
    requires baseRate > 0.0 && months > 0 && FixedAnchor(anchor, firstTrade, registration).GetOr(0) > 0
    ensures var start := FixedAnchor(anchor, firstTrade, registration).value;
            match AddMonths(start, months)
            case None => forall at :: EffectiveRate(baseRate, months, at, firstTrade, anchor, registration) == None
            case Some(end) =>
              && start + 28 * months * DAY_MS <= end <= start + 31 * months * DAY_MS
              && (months == 6 ==> start + 181 * DAY_MS <= end <= start + 184 * DAY_MS)
              && forall at :: EffectiveRate(baseRate, months, at, firstTrade, anchor, registration) ==
                              Some(if start <= at < end then baseRate else 0.0)
  {
    var start := FixedAnchor(anchor, firstTrade, registration).value;
    if AddMonths(start, months).Some? {
      assert InCalendar(start);
      hide AddMonths, InCalendar;
      var days := DaysApart(start, months);
      assert 28 * months * DAY_MS <= days * DAY_MS <= 31 * months * DAY_MS;
    }
  }

  /** Without an anchor: never under registration, always under first trade, which then counts from the asking time. */
  lemma DiscountWithoutAnchor(baseRate: real, months: int, firstTrade: Option<int>, anchor: string, registration: Option<int>, at: int)
    requires baseRate > 0.0 && months > 0 && FixedAnchor(anchor, firstTrade, registration).GetOr(0) <= 0 < at
    ensures EffectiveRate(baseRate, months, at, firstTrade, anchor, registration) ==
            if anchor == "" || anchor == "registration" then Some(0.0)
            else if AddMonths(at, months).None? then None
            else Some(baseRate)
  {
    if AddMonths(at, months).Some? {
      assert InCalendar(at);
      hide AddMonths, InCalendar;
      var days := DaysApart(at, months);
    }
  }
}
