/** The proleptic Gregorian calendar as Python's `date` uses it.  A Day is an ordinal (1 is
    Monday 0001-01-01); its civil form is reached by counting days one by one, and `Ordinal`
    is proved to invert that count. */
module Calendar {
  import opened Facts
  import opened Prelude
  import opened Text

  datatype Civil = Civil(y: int, m: int, d: int)

  predicate IsLeap(y: int) {
    y % 4 == 0 && (y % 100 != 0 || y % 400 == 0)
  }

  function DaysInMonth(y: int, m: int): int {
    if m == 2 then (if IsLeap(y) then 29 else 28)
    else if m == 4 || m == 6 || m == 9 || m == 11 then 30
    else 31
  }

  predicate ValidCivil(c: Civil) {
    1 <= c.y && 1 <= c.m <= 12 && 1 <= c.d <= DaysInMonth(c.y, c.m)
  }

  function DaysInYear(y: int): int {
    if IsLeap(y) then 366 else 365
  }

  function DaysBeforeYear(y: int): nat
    requires 1 <= y
  {
    if y == 1 then 0 else DaysBeforeYear(y - 1) + DaysInYear(y - 1)
  }

  function DaysBeforeMonth(y: int, m: int): nat
    requires 1 <= m <= 13
    decreases m
  {
    if m == 1 then 0 else DaysBeforeMonth(y, m - 1) + DaysInMonth(y, m - 1)
  }

  /** `date.toordinal`. */
  function Ordinal(c: Civil): Day
    requires ValidCivil(c)
  {
    DaysBeforeYear(c.y) + DaysBeforeMonth(c.y, c.m) + c.d
  }

  /** The civil date one day later. */
  function NextDay(c: Civil): (n: Civil)
    requires ValidCivil(c)
    ensures ValidCivil(n)
  {
    if c.d < DaysInMonth(c.y, c.m) then Civil(c.y, c.m, c.d + 1)
    else if c.m < 12 then Civil(c.y, c.m + 1, 1)
    else Civil(c.y + 1, 1, 1)
  }

  function FromOrdinal(n: Day): (c: Civil)
    ensures ValidCivil(c)
    decreases n
  {
    if n == 1 then Civil(1, 1, 1) else NextDay(FromOrdinal(n - 1))
  }

  lemma {:induction false} YearIsTwelveMonths(y: int)
    ensures DaysBeforeMonth(y, 13) == DaysInYear(y)
  {
    assert DaysBeforeMonth(y, 3) == 31 + DaysInMonth(y, 2);
    assert DaysBeforeMonth(y, 5) == DaysBeforeMonth(y, 3) + 61;
    assert DaysBeforeMonth(y, 7) == DaysBeforeMonth(y, 5) + 61;
    assert DaysBeforeMonth(y, 9) == DaysBeforeMonth(y, 7) + 62;
    assert DaysBeforeMonth(y, 11) == DaysBeforeMonth(y, 9) + 61;
    assert DaysBeforeMonth(y, 13) == DaysBeforeMonth(y, 11) + 61;
  }

  lemma {:induction false} NextDayOrdinal(c: Civil)
    requires ValidCivil(c)
    ensures Ordinal(NextDay(c)) == Ordinal(c) + 1
  {
    if c.d == DaysInMonth(c.y, c.m) && c.m == 12 {
      hide DaysInMonth;
      YearIsTwelveMonths(c.y);
      assert DaysBeforeMonth(c.y, 13) == DaysBeforeMonth(c.y, 12) + DaysInMonth(c.y, 12);
    }
  }

  /** Counting days and numbering them agree. */
  lemma {:induction false} OrdinalOfFromOrdinal(n: Day)
    ensures Ordinal(FromOrdinal(n)) == n
    decreases n
  {
    if n > 1 {
      OrdinalOfFromOrdinal(n - 1);
      NextDayOrdinal(FromOrdinal(n - 1));
    }
  }

  lemma {:induction false} MonthsMonotone(y: int, m: int, k: int)
    requires 1 <= m < k <= 13
    ensures DaysBeforeMonth(y, m) + DaysInMonth(y, m) <= DaysBeforeMonth(y, k)
    decreases k
  {
    if m < k - 1 {
      MonthsMonotone(y, m, k - 1);
    }
  }

  lemma {:induction false} YearsMonotone(y: int, z: int)
    requires 1 <= y < z
    ensures DaysBeforeYear(y) + DaysInYear(y) <= DaysBeforeYear(z)
    decreases z
  {
    if y < z - 1 {
      YearsMonotone(y, z - 1);
    }
  }

  predicate Earlier(a: Civil, b: Civil) {
    a.y < b.y || (a.y == b.y && (a.m < b.m || (a.m == b.m && a.d < b.d)))
  }

  // ---- the Gregorian calendar -------------------------------------------------------------

  /** A leap year adds a day to the years before the next. */
  lemma {:induction false} LeapStep(y: int)
    requires 1 <= y
    ensures y / 4 - y / 100 + y / 400 - ((y - 1) / 4 - (y - 1) / 100 + (y - 1) / 400)
            == if y % 4 == 0 && (y % 100 != 0 || y % 400 == 0) then 1 else 0
  {
    QuotientStep(y, 4);
    QuotientStep(y, 100);
    QuotientStep(y, 400);
  }

  lemma {:induction false} QuotientStep(y: int, k: int)
    requires 1 <= y && k in {4, 100, 400}
    ensures y / k - (y - 1) / k == if y % k == 0 then 1 else 0
  {
  }

  lemma {:induction false} YearsClosedForm(y: int)
    requires 1 <= y
    ensures DaysBeforeYear(y) == 365 * (y - 1) + (y - 1) / 4 - (y - 1) / 100 + (y - 1) / 400
    decreases y
  {
    if y > 1 {
      YearsClosedForm(y - 1);
      LeapStep(y - 1);
    }
  }

  lemma {:induction false} MonthsBefore(m: int)
    requires 1 <= m <= 12
    ensures (367 * m - 362) / 12 == [0, 31, 61, 92, 122, 153, 183, 214, 245, 275, 306, 336][m - 1]
  {
  }

  lemma {:induction false} MonthsClosedForm(y: int, m: int)
    requires 1 <= m <= 12
    ensures DaysBeforeMonth(y, m) == (367 * m - 362) / 12
              + if m <= 2 then 0 else if y % 4 == 0 && (y % 100 != 0 || y % 400 == 0) then -1 else -2
    decreases m
  {
    hide IsLeap;
    MonthsBefore(m);
    if m > 1 {
      MonthsBefore(m - 1);
      MonthsClosedForm(y, m - 1);
      LeapIs(y);
    }
  }

  lemma {:induction false} LeapIs(y: int)
    ensures IsLeap(y) <==> y % 4 == 0 && (y % 100 != 0 || y % 400 == 0)
  {
  }

  /** The calendar is the proleptic Gregorian one: the number of a date in closed form. */
  lemma {:induction false} OrdinalClosedForm(y: int, m: int, d: int)
    requires ValidCivil(Civil(y, m, d))
    ensures Ordinal(Civil(y, m, d)) ==
              365 * (y - 1) + (y - 1) / 4 - (y - 1) / 100 + (y - 1) / 400 + (367 * m - 362) / 12
              + (if m <= 2 then 0 else if y % 4 == 0 && (y % 100 != 0 || y % 400 == 0) then -1 else -2) + d
  {
    YearsClosedForm(y);
    MonthsClosedForm(y, m);
  }

  /** Which dates there are: those whose number comes before the number of the next month's first. */
  lemma {:induction false} DatesClosedForm(y: int, m: int, d: int)
    ensures ValidCivil(Civil(y, m, d)) <==>
            1 <= y && 1 <= m <= 12 && 1 <= d <=
              (if m == 12 then 31
               else (367 * m + 5) / 12 - (367 * m - 362) / 12
                    - (if m == 2 then (if y % 4 == 0 && (y % 100 != 0 || y % 400 == 0) then 1 else 2) else 0))
  {
  }

  /** Dates compare as their ordinals do. */
  lemma {:induction false} OrdinalMonotone(a: Civil, b: Civil)
    requires ValidCivil(a) && ValidCivil(b)
    ensures Earlier(a, b) <==> Ordinal(a) < Ordinal(b)
    ensures Ordinal(a) == Ordinal(b) ==> a == b
  {
    EarlierIsLess(a, b);
    EarlierIsLess(b, a);
  }

  lemma {:induction false} EarlierIsLess(a: Civil, b: Civil)
    requires ValidCivil(a) && ValidCivil(b)
    ensures Earlier(a, b) ==> Ordinal(a) < Ordinal(b)
  {
    if a.y < b.y {
      YearsMonotone(a.y, b.y);
      YearIsTwelveMonths(a.y);
      MonthsMonotone(a.y, a.m, 13);
    } else if a.y == b.y && a.m < b.m {
      MonthsMonotone(a.y, a.m, b.m);
    }
  }

  lemma {:induction false} FromOrdinalOfOrdinal(c: Civil)
    requires ValidCivil(c)
    ensures FromOrdinal(Ordinal(c)) == c
  {
    OrdinalOfFromOrdinal(Ordinal(c));
    OrdinalMonotone(FromOrdinal(Ordinal(c)), c);
  }

  // ---- months and weeks -----------------------------------------------------------------

  /** derive.py `month_start`. */
  function MonthStart(n: Day): Day {
    var c := FromOrdinal(n);
    Ordinal(Civil(c.y, c.m, 1))
  }

  /** filters.py `add_calendar_month`: the first of the following month. */
  function AddCalendarMonth(n: Day): Day {
    Ordinal(NextFirst(FromOrdinal(n)))
  }

  function NextFirst(c: Civil): (n: Civil)
    requires ValidCivil(c)
    ensures ValidCivil(n) && n.d == 1 && Earlier(c, n)
  {
    if c.m == 12 then Civil(c.y + 1, 1, 1) else Civil(c.y, c.m + 1, 1)
  }

  /** Monday is 0, as in `date.weekday`. */
  function Weekday(n: Day): (w: nat)
    ensures w < 7
  {
    (n + 6) % 7
  }

  /** trends.py `iso_week_start`. */
  function WeekStart(n: Day): Day {
    assert n >= 7 || Weekday(n) == n - 1;
    n - Weekday(n)
  }

  /** The month of a day runs from its first to the day before the next first. */
  lemma {:induction false} MonthSpan(n: Day)
    ensures MonthStart(n) <= n < AddCalendarMonth(n)
    ensures AddCalendarMonth(MonthStart(n)) == AddCalendarMonth(n)
  {
    var c := FromOrdinal(n);
    var first := Civil(c.y, c.m, 1);
    OrdinalOfFromOrdinal(n);
    FromOrdinalOfOrdinal(first);
    OrdinalMonotone(c, NextFirst(c));
    OrdinalMonotone(c, first);
    assert NextFirst(first) == NextFirst(c);
  }

  /** Every day of the span belongs to that month and to no other. */
  lemma {:induction false} MonthOfSpan(n: Day, k: Day)
    ensures MonthStart(n) <= k < AddCalendarMonth(n) <==> MonthStart(k) == MonthStart(n)
  {
    var c, e := FromOrdinal(n), FromOrdinal(k);
    OrdinalOfFromOrdinal(n);
    OrdinalOfFromOrdinal(k);
    OrdinalMonotone(e, NextFirst(c));
    OrdinalMonotone(e, Civil(c.y, c.m, 1));
    OrdinalMonotone(Civil(c.y, c.m, 1), Civil(e.y, e.m, 1));
  }

  lemma {:induction false} NextMonthIsFirst(n: Day)
    ensures MonthStart(AddCalendarMonth(n)) == AddCalendarMonth(n)
  {
    FromOrdinalOfOrdinal(NextFirst(FromOrdinal(n)));
  }

  lemma {:induction false} SameMonthSameStart(m: Day, n: Day)
    ensures MonthStart(m) == MonthStart(n) <==> (FromOrdinal(m).y, FromOrdinal(m).m) == (FromOrdinal(n).y, FromOrdinal(n).m)
  {
    var (a, b) := (FromOrdinal(m), FromOrdinal(n));
    OrdinalMonotone(Civil(a.y, a.m, 1), Civil(b.y, b.m, 1));
  }

  /** A month starts on the first of the day's own month, and ends on the first of the next. */
  lemma {:induction false} MonthStartsAre(n: Day)
    ensures var c := FromOrdinal(n);
            && FromOrdinal(MonthStart(n)) == Civil(c.y, c.m, 1)
            && FromOrdinal(AddCalendarMonth(n)) == (if c.m == 12 then Civil(c.y + 1, 1, 1) else Civil(c.y, c.m + 1, 1))
  {
    hide FromOrdinal, Ordinal;
    var c := FromOrdinal(n);
    FromOrdinalOfOrdinal(Civil(c.y, c.m, 1));
    FromOrdinalOfOrdinal(NextFirst(c));
  }

  /** A week starts on the Monday before or at the day; day 1 is a Monday. */
  lemma {:induction false} WeekStartsAre(n: Day)
    ensures WeekStart(n) <= n < WeekStart(n) + 7 && WeekStart(n) % 7 == 1
  {
  }

  // ---- ISO weeks ------------------------------------------------------------------------

  function NewYear(y: int): Day
    requires 1 <= y
  {
    Ordinal(Civil(y, 1, 1))
  }

  lemma {:induction false} YearSpan(n: Day)
    ensures NewYear(FromOrdinal(n).y) <= n < NewYear(FromOrdinal(n).y + 1)
  {
    OrdinalOfFromOrdinal(n);
    YearSpanCivil(FromOrdinal(n));
  }

  lemma {:induction false} YearSpanCivil(c: Civil)
    requires ValidCivil(c)
    ensures NewYear(c.y) <= Ordinal(c) < NewYear(c.y + 1)
  {
    EarlierIsLess(c, Civil(c.y + 1, 1, 1));
    if c != Civil(c.y, 1, 1) {
      EarlierIsLess(Civil(c.y, 1, 1), c);
    }
  }

  lemma {:induction false} YearLength(y: int)
    requires 1 <= y
    ensures NewYear(y + 1) == NewYear(y) + DaysInYear(y)
    ensures NewYear(1) == 1
  {
  }

  /** The Monday that opens ISO week 1: the week holding the year's first Thursday. */
  function FirstIsoMonday(y: int): (r: int)
    requires 1 <= y
    ensures NewYear(y) - 3 <= r <= NewYear(y) + 3 && (r - 1) % 7 == 0
  {
    var jan1 := NewYear(y);
    if Weekday(jan1) > 3 then jan1 - Weekday(jan1) + 7 else jan1 - Weekday(jan1)
  }

  datatype IsoWeek = IsoWeek(year: nat, week: int)

  /** `date.isocalendar()[:2]`, by the branches of the standard library. */
  function IsoCalendar(n: Day): (w: IsoWeek)
    ensures w.year >= 1
  {
    var y := FromOrdinal(n).y;
    PreviousYear(n);
    IsoPick(n, y, FirstIsoMonday(if y == 1 then 1 else y - 1), FirstIsoMonday(y), FirstIsoMonday(y + 1))
  }

  /** The branch taken, given the first ISO Mondays of the year before, of year y and of the next. */
  function IsoPick(n: int, y: int, before: int, here: int, next: int): IsoWeek
    requires 1 <= y && (n < here ==> 2 <= y)
  {
    var k := (n - here) / 7;
    if k < 0 then IsoWeek(y - 1, (n - before) / 7 + 1)
    else if k >= 52 && n >= next then IsoWeek(y + 1, 1)
    else IsoWeek(y, k + 1)
  }

  /** A day before its own year's first ISO Monday is in a year after the first. */
  lemma {:induction false} PreviousYear(n: Day)
    ensures n < FirstIsoMonday(FromOrdinal(n).y) ==> FromOrdinal(n).y >= 2
  {
    YearSpan(n);
    assert FirstIsoMonday(1) == 1;
  }

  /** The Monday an ISO week number stands for. */
  function IsoMonday(w: IsoWeek): int
    requires w.year >= 1
  {
    FirstIsoMonday(w.year) + 7 * (w.week - 1)
  }

  lemma {:induction false} WholeWeeks(n: int, first: int)
    requires (n - 1) % 7 == 0 && (first - 1) % 7 == 0
    ensures first + 7 * ((n - first) / 7) == n
  {
  }

  /** Round trip: a Monday's week number gives the Monday back. */
  lemma {:induction false} IsoRoundTrip(n: Day)
    requires Weekday(n) == 0
    ensures IsoMonday(IsoCalendar(n)) == n
  {
    hide FromOrdinal, NewYear, IsLeap;
    var y := FromOrdinal(n).y;
    PreviousYear(n);
    YearSpan(n);
    var before, here, next := FirstIsoMonday(if y == 1 then 1 else y - 1), FirstIsoMonday(y), FirstIsoMonday(y + 1);
    WholeWeeks(n, before);
    WholeWeeks(n, here);
    CarryIsExact(n, NewYear(y + 1), next);
  }

  /** A Monday of a year that is not before the next year's first ISO Monday is that Monday. */
  lemma {:induction false} CarryIsExact(n: int, newYear: int, next: int)
    requires n < newYear && newYear - 3 <= next && (n - 1) % 7 == 0 && (next - 1) % 7 == 0
    ensures n >= next ==> n == next
  {
  }

  /** Independent reading of ISO 8601: the week year of a Monday is the year of its Thursday. */
  lemma {:induction false} IsoYearIsThursdayYear(n: Day)
    requires Weekday(n) == 0
    ensures IsoCalendar(n).year == FromOrdinal(n + 3).y
  {
    hide FromOrdinal, NewYear, IsLeap, FirstIsoMonday, IsoPick;
    var y := FromOrdinal(n).y;
    PreviousYear(n);
    YearSpan(n);
    YearLength(y);
    ThursdayYear(n, y);
    CarryIsExact(n, NewYear(y + 1), FirstIsoMonday(y + 1));
    WeekYear(n, y, NewYear(y), NewYear(y + 1), FirstIsoMonday(if y == 1 then 1 else y - 1),
             FirstIsoMonday(y), FirstIsoMonday(y + 1));
  }

  lemma {:induction false} ThursdayYear(n: Day, y: int)
    requires 1 <= y && NewYear(y) <= n < NewYear(y + 1)
    ensures FromOrdinal(n + 3).y == if n + 3 >= NewYear(y + 1) then y + 1 else y
  {
    hide FromOrdinal, NewYear;
    var z := FromOrdinal(n + 3).y;
    YearSpan(n + 3);
    YearLength(y + 1);
    if z < y {
      YearsOrdered(z + 1, y);
    } else if z > y + 1 {
      YearsOrdered(y + 2, z);
    } else if z == y + 1 {
      assert n + 3 >= NewYear(y + 1);
    }
  }

  lemma {:induction false} YearsOrdered(y: int, z: int)
    requires 1 <= y <= z
    ensures NewYear(y) <= NewYear(z)
  {
    if y < z {
      YearsMonotone(y, z);
    }
  }

  lemma {:induction false} WeekYear(n: int, y: int, newYear: int, nextNewYear: int, before: int, here: int, next: int)
    requires 1 <= y && (n < here ==> 2 <= y)
    requires newYear <= n < nextNewYear && 365 <= nextNewYear - newYear <= 366
    requires newYear - 3 <= here <= newYear + 3 && nextNewYear - 3 <= next <= nextNewYear + 3
    requires (n - 1) % 7 == 0 && (here - 1) % 7 == 0 && (next - 1) % 7 == 0
    ensures IsoPick(n, y, before, here, next).year == if n + 3 >= nextNewYear then y + 1 else y
  {
    assert n >= here;
  }

  lemma {:induction false} IsoWeekPositive(n: Day)
    ensures IsoCalendar(n).week >= 1
  {
    hide FromOrdinal, NewYear, IsLeap;
    var y := FromOrdinal(n).y;
    PreviousYear(n);
    YearSpan(n);
    if y > 1 {
      YearLength(y - 1);
    }
  }

  // ---- labels ---------------------------------------------------------------------------

  const MONTHS: seq<string> :=
    ["Jan", "Feb", "Mar", "Apr", "May", "Jun", "Jul", "Aug", "Sep", "Oct", "Nov", "Dec"]

  function IsoFormat(n: Day): string {
    var c := FromOrdinal(n);
    Pad(c.y, 4) + "-" + Pad(c.m, 2) + "-" + Pad(c.d, 2)
  }

  function WeekLabel(n: Day): string {
    var w := IsoCalendar(n);
    IsoWeekPositive(n);
    Str(w.year) + "-W" + Pad(w.week, 2)
  }

  /** derive.py `month_label`: only two digits of the year survive. */
  function MonthLabel(n: Day): string {
    var c := FromOrdinal(n);
    MONTHS[c.m - 1] + "-" + Pad(c.y % 100, 2)
  }

  /** An ISO date read back: four digits of year, two of month, two of day. */
  lemma {:induction false} IsoFormatReads(n: Day)
    requires FromOrdinal(n).y <= 9999
    ensures var (s, c) := (IsoFormat(n), FromOrdinal(n));
            && |s| == 10 && s[4] == '-' && s[7] == '-'
            && AllDigits(s[..4]) && ParseNat(s[..4]) == c.y
            && AllDigits(s[5..7]) && ParseNat(s[5..7]) == c.m
            && AllDigits(s[8..]) && ParseNat(s[8..]) == c.d
  {
    hide FromOrdinal, Pad, ParseNat;
    var (s, c) := (IsoFormat(n), FromOrdinal(n));
    PadWidth(c.y);
    PadWidth(c.m);
    PadWidth(c.d);
    ParsePad(c.y, 4);
    ParsePad(c.m, 2);
    ParsePad(c.d, 2);
    assert s[..4] == Pad(c.y, 4) && s[5..7] == Pad(c.m, 2) && s[8..] == Pad(c.d, 2);
  }

  /** The text is a year of k digits, "-W", and a week of at least two digits. */
  predicate WeekTextAt(s: string, k: nat, w: IsoWeek) {
    && 0 < k && |s| >= k + 4 && s[k] == '-' && s[k + 1] == 'W'
    && AllDigits(s[..k]) && ParseNat(s[..k]) == w.year && AllDigits(s[k + 2..]) && ParseNat(s[k + 2..]) == w.week
  }

  /** A week label is the year, "-W" and at least two digits of week; a month label three letters of the month, a dash
      and two digits of the year. */
  lemma {:induction false} LabelsRead(n: Day)
    ensures var (s, w) := (WeekLabel(n), IsoCalendar(n));
            exists k: nat :: WeekTextAt(s, k, w)
    ensures var (s, c) := (MonthLabel(n), FromOrdinal(n));
            && |s| == 6 && s[..3] == MONTH_LETTERS[3 * (c.m - 1)..3 * c.m] && s[3] == '-'
            && AllDigits(s[4..]) && ParseNat(s[4..]) == c.y % 100
  {
    hide FromOrdinal, Pad, ParseNat, Str, IsoCalendar;
    var (s, w) := (WeekLabel(n), IsoCalendar(n));
    IsoWeekPositive(n);
    ParsePad(w.week, 2);
    ParseStr(w.year);
    var k := |Str(w.year)|;
    var (year, week) := (Str(w.year), Pad(w.week, 2));
    assert s == year + "-W" + week;
    assert s[..k] == year && s[k + 2..] == week && s[k] == '-' && s[k + 1] == 'W';
    assert WeekTextAt(s, k, w);
    MonthText(n);
  }

  lemma {:induction false} MonthText(n: Day)
    ensures var (s, c) := (MonthLabel(n), FromOrdinal(n));
            && |s| == 6 && s[..3] == MONTH_LETTERS[3 * (c.m - 1)..3 * c.m] && s[3] == '-'
            && AllDigits(s[4..]) && ParseNat(s[4..]) == c.y % 100
  {
    hide FromOrdinal, Pad, ParseNat, MONTHS, MONTH_LETTERS;
    var (s, c) := (MonthLabel(n), FromOrdinal(n));
    PadWidth(c.y % 100);
    ParsePad(c.y % 100, 2);
    MonthName(c.m);
    assert s[..3] == MONTHS[c.m - 1] && s[4..] == Pad(c.y % 100, 2);
  }

  const MONTH_LETTERS: string := "JanFebMarAprMayJunJulAugSepOctNovDec"

  lemma {:induction false} MonthName(m: int)
    requires 1 <= m <= 12
    ensures |MONTHS| == 12 && |MONTH_LETTERS| == 36
    ensures |MONTHS[m - 1]| == 3 && MONTHS[m - 1] == MONTH_LETTERS[3 * (m - 1)..3 * m]
  {
    hide MONTHS, MONTH_LETTERS;
    MonthLetters(m);
  }

  lemma {:induction false} MonthLetters(m: int)
    requires 1 <= m <= 12
    ensures |MONTHS| == 12 && |MONTHS[m - 1]| == 3 && |MONTH_LETTERS| == 36
    ensures MONTHS[m - 1][0] == MONTH_LETTERS[3 * m - 3] && MONTHS[m - 1][1] == MONTH_LETTERS[3 * m - 2] && MONTHS[m - 1][2] == MONTH_LETTERS[3 * m - 1]
  {
  }

  lemma {:induction false} IsoFormatInjective(m: Day, n: Day)
    requires IsoFormat(m) == IsoFormat(n)
    ensures m == n
  {
    var a, b := FromOrdinal(m), FromOrdinal(n);
    DigitsAvoid(Pad(a.d, 2), '-');
    DigitsAvoid(Pad(b.d, 2), '-');
    DigitsAvoid(Pad(a.m, 2), '-');
    DigitsAvoid(Pad(b.m, 2), '-');
    assert IsoFormat(m) == (Pad(a.y, 4) + "-" + Pad(a.m, 2)) + ['-'] + Pad(a.d, 2);
    assert IsoFormat(n) == (Pad(b.y, 4) + "-" + Pad(b.m, 2)) + ['-'] + Pad(b.d, 2);
    SplitLast(Pad(a.y, 4) + "-" + Pad(a.m, 2), Pad(a.d, 2), Pad(b.y, 4) + "-" + Pad(b.m, 2), Pad(b.d, 2), '-');
    SplitLast(Pad(a.y, 4), Pad(a.m, 2), Pad(b.y, 4), Pad(b.m, 2), '-');
    PadInjective(a.y, b.y, 4);
    PadInjective(a.m, b.m, 2);
    PadInjective(a.d, b.d, 2);
    OrdinalOfFromOrdinal(m);
    OrdinalOfFromOrdinal(n);
  }

  /** Different weeks have different labels. */
  lemma {:induction false} WeekLabelInjective(m: Day, n: Day)
    requires Weekday(m) == 0 && Weekday(n) == 0
    requires WeekLabel(m) == WeekLabel(n)
    ensures m == n
  {
    IsoRoundTrip(m);
    IsoRoundTrip(n);
    IsoWeekPositive(m);
    IsoWeekPositive(n);
    SameWeek(IsoCalendar(m), IsoCalendar(n));
  }

  lemma {:induction false} SameWeek(v: IsoWeek, w: IsoWeek)
    requires v.week >= 0 && w.week >= 0
    requires Str(v.year) + "-W" + Pad(v.week, 2) == Str(w.year) + "-W" + Pad(w.week, 2)
    ensures v == w
  {
    DigitsAvoid(Str(v.year), '-');
    DigitsAvoid(Str(w.year), '-');
    var a, b := "W" + Pad(v.week, 2), "W" + Pad(w.week, 2);
    assert Str(v.year) + "-W" + Pad(v.week, 2) == Str(v.year) + ['-'] + a;
    assert Str(w.year) + "-W" + Pad(w.week, 2) == Str(w.year) + ['-'] + b;
    SplitFirst(Str(v.year), a, Str(w.year), b, '-');
    assert Pad(v.week, 2) == a[1..] && Pad(w.week, 2) == b[1..];
    StrInjective(v.year, w.year);
    PadInjective(v.week, w.week, 2);
  }

  lemma {:induction false} MonthNamesDistinct(i: int, j: int)
    requires 0 <= i < 12 && 0 <= j < 12 && MONTHS[i] == MONTHS[j]
    ensures i == j
  {
    var a, b := MONTHS[i], MONTHS[j];
    assert a[0] == b[0] && a[1] == b[1] && a[2] == b[2];
  }

  /** Month labels are not injective: they agree exactly when the months agree and the years
      agree modulo 100. */
  lemma {:induction false} MonthLabelCollides(m: Day, n: Day)
    ensures MonthLabel(m) == MonthLabel(n) <==>
            FromOrdinal(m).m == FromOrdinal(n).m && FromOrdinal(m).y % 100 == FromOrdinal(n).y % 100
  {
    var a, b := FromOrdinal(m), FromOrdinal(n);
    if MonthLabel(m) == MonthLabel(n) {
      DigitsAvoid(Pad(a.y % 100, 2), '-');
      DigitsAvoid(Pad(b.y % 100, 2), '-');
      SplitLast(MONTHS[a.m - 1], Pad(a.y % 100, 2), MONTHS[b.m - 1], Pad(b.y % 100, 2), '-');
      PadInjective(a.y % 100, b.y % 100, 2);
      MonthNamesDistinct(a.m - 1, b.m - 1);
    }
  }
}
