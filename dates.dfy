/**
 * Calendar dates as the calendar view manipulates them through dayjs:
 * proleptic Gregorian dates, one-day steps, a day count that orders them,
 * the weekday (Sunday = 0, the default week start) and the "YYYY-MM-DD" format.
 */
module Dates {
  import opened Js

  /** A calendar date; `month` is 1..12 (dayjs's `month()` is this minus one). */
  datatype Date = Date(year: int, month: int, day: int)

  predicate IsLeapYear(y: int) {
    (y % 4 == 0 && y % 100 != 0) || y % 400 == 0
  }

  function YearLength(y: int): int {
    if IsLeapYear(y) then 366 else 365
  }

  function DaysInMonth(y: int, m: int): (n: int)
    requires 1 <= m <= 12
    ensures 28 <= n <= 31
  {
    if m == 2 then (if IsLeapYear(y) then 29 else 28)
    else if m == 4 || m == 6 || m == 9 || m == 11 then 30
    else 31
  }

  predicate Valid(d: Date) {
    1 <= d.month <= 12 && 1 <= d.day <= DaysInMonth(d.year, d.month)
  }

  /** `date.add(1, "day")`. */
  function NextDay(d: Date): (r: Date)
    requires Valid(d)
    ensures Valid(r)
  {
    if d.day < DaysInMonth(d.year, d.month) then d.(day := d.day + 1)
    else if d.month < 12 then Date(d.year, d.month + 1, 1)
    else Date(d.year + 1, 1, 1)
  }

  /** `date.subtract(1, "day")`. */
  function PrevDay(d: Date): (r: Date)
    requires Valid(d)
    ensures Valid(r)
  {
    if d.day > 1 then d.(day := d.day - 1)
    else if d.month > 1 then Date(d.year, d.month - 1, DaysInMonth(d.year, d.month - 1))
    else Date(d.year - 1, 12, 31)
  }

  // ---------------------------------------------------------------- day numbers

  /** Days from 0001-01-01 to the first day of year `y`. */
  function DaysBeforeYear(y: int): int {
    var p := y - 1;
    365 * p + p / 4 - p / 100 + p / 400
  }

  /** Days from the first of the year to the first of month `m` (1 to 12; any other m reads as December). */
  function DaysBeforeMonth(y: int, m: int): int {
    var common :=
      if m == 1 then 0 else if m == 2 then 31 else if m == 3 then 59 else if m == 4 then 90
      else if m == 5 then 120 else if m == 6 then 151 else if m == 7 then 181 else if m == 8 then 212
      else if m == 9 then 243 else if m == 10 then 273 else if m == 11 then 304 else 334;
    common + (if m > 2 && IsLeapYear(y) then 1 else 0)
  }

  /** The position of a date on the time line; 0001-01-01 is day 1. */
  function DayNumber(d: Date): int {
    DaysBeforeYear(d.year) + DaysBeforeMonth(d.year, d.month) + d.day
  }

  /** The day of the week, Sunday = 0 .. Saturday = 6 (0001-01-01 was a Monday). */
  function Weekday(d: Date): (w: int)
    ensures 0 <= w < 7
  {
    DayNumber(d) % 7
  }

  lemma DivStep4(p: int)
    ensures (p + 1) / 4 == p / 4 + (if (p + 1) % 4 == 0 then 1 else 0)
  {
  }

  lemma DivStep100(p: int)
    ensures (p + 1) / 100 == p / 100 + (if (p + 1) % 100 == 0 then 1 else 0)
  {
  }

  lemma DivStep400(p: int)
    ensures (p + 1) / 400 == p / 400 + (if (p + 1) % 400 == 0 then 1 else 0)
  {
  }

  lemma Divisibility(y: int)
    ensures y % 400 == 0 ==> y % 100 == 0
    ensures y % 100 == 0 ==> y % 4 == 0
  {
    if y % 400 == 0 {
      var k := y / 400;
      assert y == 400 * k;
      var j := 4 * k;
      assert y == 100 * j;
      assert y / 100 == j && y % 100 == 0;
    }
    if y % 100 == 0 {
      var k := y / 100;
      assert y == 100 * k;
      var j := 25 * k;
      assert y == 4 * j;
      assert y / 4 == j && y % 4 == 0;
    }
  }

  /** One year further on is one year length later. */
  lemma YearStep(y: int)
    ensures DaysBeforeYear(y + 1) == DaysBeforeYear(y) + YearLength(y)
  {
    DivStep4(y - 1);
    DivStep100(y - 1);
    DivStep400(y - 1);
    Divisibility(y);
  }

  lemma MonthStep(y: int, m: int)
    requires 1 <= m < 12
    ensures DaysBeforeMonth(y, m + 1) == DaysBeforeMonth(y, m) + DaysInMonth(y, m)
  {
  }

  lemma LastMonthStep(y: int)
    ensures DaysBeforeMonth(y, 12) + DaysInMonth(y, 12) == YearLength(y)
  {
  }

  /** Stepping one day forward moves one place on the time line. */
  lemma NextDayNumber(d: Date)
    requires Valid(d)
    ensures DayNumber(NextDay(d)) == DayNumber(d) + 1
  {
    if d.day == DaysInMonth(d.year, d.month) {
      if d.month < 12 {
        MonthStep(d.year, d.month);
      } else {
        LastMonthStep(d.year);
        YearStep(d.year);
      }
    }
  }

  /** Stepping one day back moves one place back on the time line. */
  lemma PrevDayNumber(d: Date)
    requires Valid(d)
    ensures DayNumber(PrevDay(d)) == DayNumber(d) - 1
  {
    if d.day == 1 {
      if d.month > 1 {
        MonthStep(d.year, d.month - 1);
      } else {
        LastMonthStep(d.year - 1);
        YearStep(d.year - 1);
      }
    }
  }

  /** The previous-day and next-day handlers undo each other. */
  lemma PrevNextInverse(d: Date)
    requires Valid(d)
    ensures PrevDay(NextDay(d)) == d
    ensures NextDay(PrevDay(d)) == d
  {
  }

  // ---------------------------------------------------------------- runs of days

  /** `d.add(k, "day")`, as k single steps. */
  function Advance(d: Date, k: nat): (r: Date)
    requires Valid(d)
    ensures Valid(r)
  {
    if k == 0 then d else NextDay(Advance(d, k - 1))
  }

  /** `d.subtract(k, "day")`, as k single steps. */
  function Retreat(d: Date, k: nat): (r: Date)
    requires Valid(d)
    ensures Valid(r)
  {
    if k == 0 then d else PrevDay(Retreat(d, k - 1))
  }

  /** k steps forward are k places further on the time line. */
  lemma {:induction false} AdvanceNumber(d: Date, k: nat)
    requires Valid(d)
    ensures DayNumber(Advance(d, k)) == DayNumber(d) + k
  {
    if k > 0 {
      AdvanceNumber(d, k - 1);
      NextDayNumber(Advance(d, k - 1));
    }
  }

  /** k steps back are k places earlier on the time line. */
  lemma {:induction false} RetreatNumber(d: Date, k: nat)
    requires Valid(d)
    ensures DayNumber(Retreat(d, k)) == DayNumber(d) - k
  {
    if k > 0 {
      RetreatNumber(d, k - 1);
      PrevDayNumber(Retreat(d, k - 1));
    }
  }

  lemma {:induction false} AdvanceAdd(d: Date, a: nat, b: nat)
    requires Valid(d)
    ensures Advance(Advance(d, a), b) == Advance(d, a + b)
  {
    if b > 0 {
      AdvanceAdd(d, a, b - 1);
      var e := Advance(d, a);
      assert Advance(e, b) == NextDay(Advance(e, b - 1));
      assert Advance(d, a + b) == NextDay(Advance(d, a + b - 1));
    }
  }

  /** Walking forward k days after walking back k days returns to the start. */
  lemma {:induction false} AdvanceRetreat(d: Date, k: nat)
    requires Valid(d)
    ensures Advance(Retreat(d, k), k) == d
  {
    if k > 0 {
      var p := Retreat(d, k - 1);
      assert Retreat(d, k) == PrevDay(p);
      AdvanceRetreat(d, k - 1);
      AdvanceFirstStep(PrevDay(p), k);
      PrevNextInverse(p);
      assert Advance(PrevDay(p), k) == Advance(p, k - 1);
    }
  }

  lemma {:induction false} AdvanceFirstStep(d: Date, k: nat)
    requires Valid(d) && k >= 1
    ensures Advance(d, k) == Advance(NextDay(d), k - 1)
  {
    if k > 1 {
      AdvanceFirstStep(d, k - 1);
    }
  }

  /** Within one month, walking forward from the first reaches the j-th. */
  lemma {:induction false} AdvanceInMonth(y: int, m: int, j: int)
    requires 1 <= m <= 12 && 1 <= j <= DaysInMonth(y, m)
    ensures Advance(Date(y, m, 1), j - 1) == Date(y, m, j)
  {
    if j > 1 {
      AdvanceInMonth(y, m, j - 1);
    }
  }

  /** Walking k of n steps forward after n steps back leaves n - k steps back. */
  lemma {:induction false} AdvanceRetreatPartial(d: Date, n: nat, k: nat)
    requires Valid(d) && k <= n
    ensures Advance(Retreat(d, n), k) == Retreat(d, n - k)
  {
    if k > 0 {
      AdvanceRetreatPartial(d, n, k - 1);
      PrevNextInverse(Retreat(d, n - k));
    }
  }

  /** The month before month m of year y, with its year. */
  function PrevMonth(y: int, m: int): (int, int) {
    if m > 1 then (y, m - 1) else (y - 1, 12)
  }

  /** The month after month m of year y, with its year. */
  function NextMonth(y: int, m: int): (int, int) {
    if m < 12 then (y, m + 1) else (y + 1, 1)
  }

  /** Up to 28 days back from the first of a month is the same day count back from the end of the month before. */
  lemma {:induction false} RetreatFromFirst(y: int, m: int, i: nat)
    requires 1 <= m <= 12 && 1 <= i <= 28
    ensures var (py, pm) := PrevMonth(y, m);
      1 <= pm <= 12 && Retreat(Date(y, m, 1), i) == Date(py, pm, DaysInMonth(py, pm) - i + 1)
  {
    if i > 1 {
      RetreatFromFirst(y, m, i - 1);
    }
  }

  /** Up to 28 days on from the last of a month is that day of the month after. */
  lemma {:induction false} AdvanceFromLast(y: int, m: int, i: nat)
    requires 1 <= m <= 12 && 1 <= i <= 28
    ensures var (ny, nm) := NextMonth(y, m);
      1 <= nm <= 12 && Advance(Date(y, m, DaysInMonth(y, m)), i) == Date(ny, nm, i)
  {
    if i > 1 {
      AdvanceFromLast(y, m, i - 1);
    }
  }

  // ---------------------------------------------------------------- formatting

  /** `format("YYYY-MM-DD")`: the year padded to four characters, month and day to two. */
  function FormatDate(d: Date): string {
    PadStart(IntToString(d.year), 4, '0') + "-" + Pad2(d.month) + "-" + Pad2(d.day)
  }

  /** The year field of `format("YYYY-MM-DD")`: padded to four characters. */
  function YearField(y: int): string {
    PadStart(IntToString(y), 4, '0')
  }

  /** A date of year 0 or later splits at '-' into its three padded fields. */
  lemma FormatDateSplit(d: Date)
    requires d.year >= 0 && d.month >= 0 && d.day >= 0
    ensures Split(FormatDate(d), '-') == [YearField(d.year), Pad2(d.month), Pad2(d.day)]
  {
    var y, m, n := YearField(d.year), Pad2(d.month), Pad2(d.day);
    NumberOfPadded(d.year, 4);
    NumberOfPad2(d.month);
    NumberOfPad2(d.day);
    DigitsHaveNoSign(y);
    DigitsHaveNoSign(m);
    DigitsHaveNoSign(n);
    JoinRegroup(y, "-", m, "-", n);
    assert "-" == ['-'];
    SplitThree(y, m, n, '-');
  }

  /** The three fields of a "YYYY-MM-DD" string, each read with `Number`. */
  function DateFields(s: string): (Num, Num, Num) {
    var parts := Split(s, '-');
    if |parts| == 3 then (Number(parts[0]), Number(parts[1]), Number(parts[2])) else (NaN, NaN, NaN)
  }

  /** Reading a formatted date back gives its year, month and day. */
  lemma FormatDateReads(d: Date)
    requires d.year >= 0 && d.month >= 0 && d.day >= 0
    ensures DateFields(FormatDate(d)) == (Fin(d.year), Fin(d.month), Fin(d.day))
  {
    FormatDateSplit(d);
    NumberOfPadded(d.year, 4);
    NumberOfPad2(d.month);
    NumberOfPad2(d.day);
  }

  /** Different dates of year 0 or later are formatted differently. */
  lemma FormatDateInjective(a: Date, b: Date)
    requires a.year >= 0 && a.month >= 0 && a.day >= 0
    requires b.year >= 0 && b.month >= 0 && b.day >= 0
    requires FormatDate(a) == FormatDate(b)
    ensures a == b
  {
    FormatDateReads(a);
    FormatDateReads(b);
  }
}
