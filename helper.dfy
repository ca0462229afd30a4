/** `getDateRange` of src/utils/helper.ts: the trailing window the list view
    fetches, from the date seven days before today up to today, both written
    as `YYYY-MM-DD`. Today's local date is a parameter (the clock is not part
    of the model). */
module Helper {
  import opened Util
  import opened Calendar

  /** `lastWeek.setDate(today.getDate() - 7)` on a copy of today. */
  function LastWeek(today: Date): Date
    requires ValidDate(today)
  {
    Normalize(today.year, today.month, today.day - 7)
  }

  /** `[from, to]` as `getDateRange()` returns them. */
  function DateRange(today: Date): (string, string)
    requires Representable(today) && today.year >= 1
  {
    LastWeekIsSevenDaysEarlier(today);
    (IsoDate(LastWeek(today)), IsoDate(today))
  }

  /** The start of the window is a calendar date exactly seven days before
      today. */
  lemma LastWeekIsSevenDaysEarlier(today: Date)
    requires ValidDate(today)
    ensures ValidDate(LastWeek(today))
    ensures DayNumber(LastWeek(today)) == DayNumber(today) - 7
    ensures today.year >= 1 ==> LastWeek(today).year >= 0
    ensures LastWeek(today).year <= today.year
  {
    NormalizeCorrect(today.year, today.month, today.day - 7);
    var lw := LastWeek(today);
    DayNumberOrder(lw, today);
    if lw.year < today.year - 1 {
      DayNumberWithinYear(lw);
      DaysBeforeYearStep(lw.year);
      DaysBeforeYearMonotone(lw.year + 1, today.year);
      assert false;
    }
  }

  /** Subtracting seven days stays in the month from the 8th on, and from the
      1st to the 7th rolls back into the previous month (and, in January,
      into December of the previous year). */
  lemma LastWeekCalendar(today: Date)
    requires ValidDate(today)
    ensures today.day > 7 ==> LastWeek(today) == Date(today.year, today.month, today.day - 7)
    ensures today.day <= 7 && today.month > 1 ==>
              LastWeek(today) == Date(today.year, today.month - 1,
                                      DaysInMonth(today.year, today.month - 1) + today.day - 7)
    ensures today.day <= 7 && today.month == 1 ==>
              LastWeek(today) == Date(today.year - 1, 12, 31 + today.day - 7)
  {
    if today.day <= 7 {
      var (py, pm) := PrevMonth(today.year, today.month);
      var k := today.day - 7 + DaysInMonth(py, pm);
      assert 1 <= k <= DaysInMonth(py, pm);
      assert Normalize(py, pm, k) == Date(py, pm, k);
    }
  }

  /** Both ends of the window are well-formed `YYYY-MM-DD` strings naming
      the two dates, the end is today's string, and the start sorts before
      the end. */
  lemma DateRangeWellFormed(today: Date)
    requires Representable(today) && today.year >= 1
    ensures ParseIso(DateRange(today).0) == Some(LastWeek(today))
    ensures ParseIso(DateRange(today).1) == Some(today)
    ensures DateRange(today).1 == IsoDate(today)
    ensures LexLess(DateRange(today).0, DateRange(today).1)
  {
    LastWeekIsSevenDaysEarlier(today);
    IsoRoundTrip(LastWeek(today));
    IsoRoundTrip(today);
    IsoOrder(LastWeek(today), today);
  }

  /** Read as strings, the window `from <= s <= to` holds the `YYYY-MM-DD`
      strings of exactly the eight days from seven days ago up to today. */
  lemma DateRangeHoldsEightDays(today: Date, d: Date)
    requires Representable(today) && today.year >= 1 && Representable(d)
    ensures var (from, to) := DateRange(today);
            (from == IsoDate(d) || LexLess(from, IsoDate(d))) && (IsoDate(d) == to || LexLess(IsoDate(d), to))
            <==> DayNumber(today) - 7 <= DayNumber(d) <= DayNumber(today)
  {
    LastWeekIsSevenDaysEarlier(today);
    IsoOrder(LastWeek(today), d);
    IsoOrder(d, today);
    DayNumberOrder(LastWeek(today), d);
    DayNumberOrder(d, today);
  }
}
