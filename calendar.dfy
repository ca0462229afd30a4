/** The part of JavaScript's local `Date` the extension depends on, on the
    proleptic Gregorian calendar: a calendar date, its day number,
    `setDate` with an out-of-range day of the month (which rolls over into
    the neighbouring months), and `toLocaleDateString("en-CA")`, which writes
    the ISO 8601 calendar date in extended format, `YYYY-MM-DD`
    (section 5.2.1.1 of ISO 8601:2004). */
module Calendar {
  import opened Util

  datatype Date = Date(year: int, month: int, day: int)

  predicate IsLeapYear(y: int)
  {
    y % 4 == 0 && (y % 100 != 0 || y % 400 == 0)
  }

  function DaysInMonth(y: int, m: int): (n: int)
    requires 1 <= m <= 12
    ensures 28 <= n <= 31
    ensures n == 29 <==> m == 2 && IsLeapYear(y)
  {
    if m == 2 then (if IsLeapYear(y) then 29 else 28)
    else if m == 4 || m == 6 || m == 9 || m == 11 then 30
    else 31
  }

  function DaysInYear(y: int): int
  {
    if IsLeapYear(y) then 366 else 365
  }

  predicate ValidDate(d: Date)
  {
    1 <= d.month <= 12 && 1 <= d.day <= DaysInMonth(d.year, d.month)
  }

  /** A valid date whose year has at most four digits, so that it is written
      as `YYYY-MM-DD`. */
  predicate Representable(d: Date)
  {
    ValidDate(d) && 0 <= d.year <= 9999
  }

  /** Days from 0000-01-01 to the first of January of year `y`. */
  function DaysBeforeYear(y: int): int
    decreases if y >= 0 then y else -y
  {
    if y == 0 then 0
    else if y > 0 then DaysBeforeYear(y - 1) + DaysInYear(y - 1)
    else DaysBeforeYear(y + 1) - DaysInYear(y)
  }

  /** Days of year `y` before the first of month `m`. */
  function DaysBeforeMonth(y: int, m: int): int
    requires 1 <= m <= 12
  {
    var common :=
      if m == 1 then 0 else if m == 2 then 31 else if m == 3 then 59
      else if m == 4 then 90 else if m == 5 then 120 else if m == 6 then 151
      else if m == 7 then 181 else if m == 8 then 212 else if m == 9 then 243
      else if m == 10 then 273 else if m == 11 then 304 else 334;
    common + (if m > 2 && IsLeapYear(y) then 1 else 0)
  }

  /** Day number of the first of month `m` of year `y`. */
  function MonthStart(y: int, m: int): int
    requires 1 <= m <= 12
  {
    DaysBeforeYear(y) + DaysBeforeMonth(y, m)
  }

  /** Days since 0000-01-01: consecutive days have consecutive numbers. */
  function DayNumber(d: Date): int
    requires 1 <= d.month <= 12
  {
    MonthStart(d.year, d.month) + d.day - 1
  }

  function PrevMonth(y: int, m: int): (r: (int, int))
    requires 1 <= m <= 12
    ensures 1 <= r.1 <= 12
  {
    if m == 1 then (y - 1, 12) else (y, m - 1)
  }

  function NextMonth(y: int, m: int): (r: (int, int))
    requires 1 <= m <= 12
    ensures 1 <= r.1 <= 12
  {
    if m == 12 then (y + 1, 1) else (y, m + 1)
  }

  /** The date a local `Date` in month `m` of year `y` holds after
      `setDate(k)`: a day of the month below 1 counts back into the previous
      months, above the month's length forward into the next ones. */
  function Normalize(y: int, m: int, k: int): Date
    requires 1 <= m <= 12
    decreases (if k < 1 then 1 - k else 0), (if k > DaysInMonth(y, m) then k else 0)
  {
    if k < 1 then
      var (py, pm) := PrevMonth(y, m);
      Normalize(py, pm, k + DaysInMonth(py, pm))
    else if k > DaysInMonth(y, m) then
      var (ny, nm) := NextMonth(y, m);
      Normalize(ny, nm, k - DaysInMonth(y, m))
    else
      Date(y, m, k)
  }

  /** `a` comes strictly before `b` on the calendar. */
  predicate Before(a: Date, b: Date)
  {
    a.year < b.year
    || (a.year == b.year && (a.month < b.month || (a.month == b.month && a.day < b.day)))
  }

  // ---------------------------------------------------------------------
  // Text: digits, `YYYY-MM-DD`, and JavaScript's string order.

  function Pow10(w: nat): (p: nat)
    ensures p >= 1
  {
    if w == 0 then 1 else 10 * Pow10(w - 1)
  }

  predicate IsDigit(c: char)
  {
    '0' <= c <= '9'
  }

  predicate AllDigits(s: string)
  {
    forall i :: 0 <= i < |s| ==> IsDigit(s[i])
  }

  function DigitChar(n: int): (c: char)
    requires 0 <= n < 10
    ensures IsDigit(c)
  {
    ('0' as int + n) as char
  }

  function DigitValue(c: char): (n: int)
    requires IsDigit(c)
    ensures 0 <= n < 10 && DigitChar(n) == c
  {
    c as int - '0' as int
  }

  /** `n` written in `w` decimal digits with leading zeros. */
  function Digits(n: nat, w: nat): (s: string)
    ensures |s| == w
  {
    if w == 0 then [] else Digits(n / 10, w - 1) + [DigitChar(n % 10)]
  }

  /** The number a string of decimal digits denotes. */
  function Value(s: string): nat
    requires AllDigits(s)
  {
    if |s| == 0 then 0 else 10 * Value(s[..|s| - 1]) + DigitValue(s[|s| - 1])
  }

  /** `toLocaleDateString("en-CA")`: the date as `YYYY-MM-DD`. */
  function IsoDate(d: Date): (s: string)
    requires Representable(d)
    ensures |s| == 10
  {
    Digits(d.year, 4) + MonthDayText(d)
  }

  /** The `-MM-DD` part of `IsoDate(d)`. */
  function MonthDayText(d: Date): (s: string)
    requires Representable(d)
    ensures |s| == 6
  {
    "-" + (Digits(d.month, 2) + ("-" + Digits(d.day, 2)))
  }

  /** Reads a `YYYY-MM-DD` string back as the calendar date it names, as
      `new Date(s)` does for a well-formed date-only string; anything else
      is `None` (JavaScript's "Invalid Date"). */
  function ParseIso(s: string): Option<Date>
  {
    if |s| == 10 && s[4] == '-' && s[7] == '-'
       && AllDigits(s[..4]) && AllDigits(s[5..7]) && AllDigits(s[8..])
    then
      var d := Date(Value(s[..4]), Value(s[5..7]), Value(s[8..]));
      if ValidDate(d) then Some(d) else None
    else None
  }

  /** JavaScript's `<` on strings: lexicographic order of the characters. */
  predicate LexLess(s: string, t: string)
    decreases |s|
  {
    if |s| == 0 then |t| > 0
    else |t| > 0 && (s[0] < t[0] || (s[0] == t[0] && LexLess(s[1..], t[1..])))
  }

  // ---------------------------------------------------------------------
  // Day numbers.

  lemma DaysBeforeYearStep(y: int)
    ensures DaysBeforeYear(y + 1) == DaysBeforeYear(y) + DaysInYear(y)
  {
  }

  lemma {:induction false} DaysBeforeYearMonotone(y1: int, y2: int)
    requires y1 <= y2
    ensures DaysBeforeYear(y1) + (y2 - y1) * 365 <= DaysBeforeYear(y2)
    decreases y2 - y1
  {
    if y1 < y2 {
      DaysBeforeYearMonotone(y1 + 1, y2);
      DaysBeforeYearStep(y1);
    }
  }

  /** The month after `(y, m)` starts `DaysInMonth(y, m)` days later. */
  lemma MonthStartNext(y: int, m: int)
    requires 1 <= m <= 12
    ensures MonthStart(NextMonth(y, m).0, NextMonth(y, m).1) == MonthStart(y, m) + DaysInMonth(y, m)
  {
    if m == 12 {
      DaysBeforeYearStep(y);
    }
  }

  lemma MonthStartPrev(y: int, m: int)
    requires 1 <= m <= 12
    ensures var (py, pm) := PrevMonth(y, m);
            MonthStart(py, pm) + DaysInMonth(py, pm) == MonthStart(y, m)
  {
    var (py, pm) := PrevMonth(y, m);
    assert NextMonth(py, pm) == (y, m);
    MonthStartNext(py, pm);
  }

  /** `setDate(k)` lands on a valid date exactly `k - 1` days after the
      first of the month it started in, whatever `k` is. */
  lemma {:induction false} NormalizeCorrect(y: int, m: int, k: int)
    requires 1 <= m <= 12
    ensures ValidDate(Normalize(y, m, k))
    ensures DayNumber(Normalize(y, m, k)) == MonthStart(y, m) + k - 1
    decreases (if k < 1 then 1 - k else 0), (if k > DaysInMonth(y, m) then k else 0)
  {
    if k < 1 {
      var (py, pm) := PrevMonth(y, m);
      NormalizeCorrect(py, pm, k + DaysInMonth(py, pm));
      MonthStartPrev(y, m);
    } else if k > DaysInMonth(y, m) {
      var (ny, nm) := NextMonth(y, m);
      NormalizeCorrect(ny, nm, k - DaysInMonth(y, m));
      MonthStartNext(y, m);
    }
  }

  lemma DayNumberWithinYear(d: Date)
    requires ValidDate(d)
    ensures DaysBeforeYear(d.year) <= DayNumber(d) < DaysBeforeYear(d.year) + DaysInYear(d.year)
  {
  }

  lemma BeforeMeansSmallerDayNumber(a: Date, b: Date)
    requires ValidDate(a) && ValidDate(b) && Before(a, b)
    ensures DayNumber(a) < DayNumber(b)
  {
    if a.year < b.year {
      DayNumberWithinYear(a);
      DayNumberWithinYear(b);
      DaysBeforeYearStep(a.year);
      DaysBeforeYearMonotone(a.year + 1, b.year);
    }
  }

  /** Day numbers order valid dates exactly as the calendar does. */
  lemma DayNumberOrder(a: Date, b: Date)
    requires ValidDate(a) && ValidDate(b)
    ensures DayNumber(a) < DayNumber(b) <==> Before(a, b)
    ensures DayNumber(a) == DayNumber(b) <==> a == b
  {
    if Before(a, b) {
      BeforeMeansSmallerDayNumber(a, b);
    } else if Before(b, a) {
      BeforeMeansSmallerDayNumber(b, a);
    }
  }

  // ---------------------------------------------------------------------
  // Digits and string order.

  lemma {:induction false} DigitsValue(n: nat, w: nat)
    requires n < Pow10(w)
    ensures AllDigits(Digits(n, w)) && Value(Digits(n, w)) == n
  {
    if w > 0 {
      DigitsValue(n / 10, w - 1);
      var s := Digits(n, w);
      assert s[..w - 1] == Digits(n / 10, w - 1);
    }
  }

  lemma {:induction false} ValueDigits(s: string)
    requires AllDigits(s)
    ensures Value(s) < Pow10(|s|) && Digits(Value(s), |s|) == s
  {
    if |s| > 0 {
      var init := s[..|s| - 1];
      ValueDigits(init);
      var v := Value(s);
      assert v / 10 == Value(init) && v % 10 == DigitValue(s[|s| - 1]);
      assert s == init + [s[|s| - 1]];
    }
  }

  lemma {:induction false} LexLessSplit(a1: string, a2: string, b1: string, b2: string)
    requires |a1| == |b1|
    ensures LexLess(a1 + a2, b1 + b2) == if a1 == b1 then LexLess(a2, b2) else LexLess(a1, b1)
  {
    if |a1| == 0 {
      assert a1 + a2 == a2 && b1 + b2 == b2;
    } else {
      assert (a1 + a2)[1..] == a1[1..] + a2;
      assert (b1 + b2)[1..] == b1[1..] + b2;
      LexLessSplit(a1[1..], a2, b1[1..], b2);
      assert a1 == [a1[0]] + a1[1..] && b1 == [b1[0]] + b1[1..];
    }
  }

  /** Zero-padded numbers of one width compare as strings as they do as
      numbers. */
  lemma {:induction false} DigitsOrder(n: nat, m: nat, w: nat)
    requires n < Pow10(w) && m < Pow10(w)
    ensures LexLess(Digits(n, w), Digits(m, w)) <==> n < m
    ensures Digits(n, w) == Digits(m, w) <==> n == m
  {
    DigitsValue(n, w);
    DigitsValue(m, w);
    if w > 0 {
      DigitsOrder(n / 10, m / 10, w - 1);
      LexLessSplit(Digits(n / 10, w - 1), [DigitChar(n % 10)], Digits(m / 10, w - 1), [DigitChar(m % 10)]);
    }
  }

  lemma LexLessIrreflexive(s: string)
    ensures !LexLess(s, s)
  {
  }

  lemma {:induction false} DashThenLess(a: string, b: string)
    ensures LexLess("-" + a, "-" + b) == LexLess(a, b)
  {
    LexLessSplit("-", a, "-", b);
  }

  lemma MonthDayOrder(a: Date, b: Date)
    requires Representable(a) && Representable(b)
    ensures LexLess(MonthDayText(a), MonthDayText(b))
            <==> a.month < b.month || (a.month == b.month && a.day < b.day)
    ensures MonthDayText(a) == MonthDayText(b) <==> a.month == b.month && a.day == b.day
  {
    assert Pow10(2) == 100;
    DigitsOrder(a.month, b.month, 2);
    DigitsOrder(a.day, b.day, 2);
    DashThenLess(Digits(a.day, 2), Digits(b.day, 2));
    var ta, tb := "-" + Digits(a.day, 2), "-" + Digits(b.day, 2);
    LexLessSplit(Digits(a.month, 2), ta, Digits(b.month, 2), tb);
    DashThenLess(Digits(a.month, 2) + ta, Digits(b.month, 2) + tb);
    assert ta == tb <==> a.day == b.day;
    assert MonthDayText(a) == MonthDayText(b) ==> MonthDayText(a)[1..] == MonthDayText(b)[1..];
    assert MonthDayText(a)[1..] == Digits(a.month, 2) + ta;
    assert MonthDayText(b)[1..] == Digits(b.month, 2) + tb;
    assert (Digits(a.month, 2) + ta)[..2] == Digits(a.month, 2);
    assert (Digits(b.month, 2) + tb)[..2] == Digits(b.month, 2);
    assert (Digits(a.month, 2) + ta)[2..] == ta;
    assert (Digits(b.month, 2) + tb)[2..] == tb;
  }

  /** The `YYYY-MM-DD` strings of two dates compare as the dates do. */
  lemma IsoOrder(a: Date, b: Date)
    requires Representable(a) && Representable(b)
    ensures LexLess(IsoDate(a), IsoDate(b)) <==> DayNumber(a) < DayNumber(b)
    ensures IsoDate(a) == IsoDate(b) <==> a == b
  {
    assert Pow10(4) == 10000;
    DigitsOrder(a.year, b.year, 4);
    MonthDayOrder(a, b);
    LexLessSplit(Digits(a.year, 4), MonthDayText(a), Digits(b.year, 4), MonthDayText(b));
    assert IsoDate(a)[..4] == Digits(a.year, 4) && IsoDate(a)[4..] == MonthDayText(a);
    assert IsoDate(b)[..4] == Digits(b.year, 4) && IsoDate(b)[4..] == MonthDayText(b);
    DayNumberOrder(a, b);
  }

  /** Reading back the string of a date gives the date. */
  lemma IsoRoundTrip(d: Date)
    requires Representable(d)
    ensures ParseIso(IsoDate(d)) == Some(d)
  {
    assert Pow10(2) == 100 && Pow10(4) == 10000;
    var s := IsoDate(d);
    assert s[..4] == Digits(d.year, 4);
    assert s[5..7] == Digits(d.month, 2);
    assert s[8..] == Digits(d.day, 2);
    DigitsValue(d.year, 4);
    DigitsValue(d.month, 2);
    DigitsValue(d.day, 2);
  }

  /** Every string that reads as a date is that date's own string. */
  lemma ParseIsoCanonical(s: string)
    requires ParseIso(s).Some?
    ensures Representable(ParseIso(s).value) && IsoDate(ParseIso(s).value) == s
  {
    assert Pow10(2) == 100 && Pow10(4) == 10000;
    ValueDigits(s[..4]);
    ValueDigits(s[5..7]);
    ValueDigits(s[8..]);
    var d := ParseIso(s).value;
    assert s == s[..4] + ("-" + (s[5..7] + ("-" + s[8..])));
  }
}
