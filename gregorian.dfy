/**
 * The proleptic Gregorian calendar and the week grid of a month, laid out
 * Monday first: the day-to-weekday layout that formatmonth asks its base
 * calendar for (`monthdays2calendar` with the default first weekday, Monday).
 * Weekdays are numbered Monday = 0 .. Sunday = 6; day 0 marks a padding slot.
 */
module Gregorian {
  import opened Wrappers

  /** One slot of the grid: a day of the month (0 for padding) and its weekday column. */
  datatype Slot = Slot(day: int, weekday: int)

  /** The grid layout fails for a month outside 1..12; which exception the library raises is left open. */
  datatype CalendarError = MonthOutOfRange(month: int)

  predicate IsLeap(y: int) {
    y % 4 == 0 && (y % 100 != 0 || y % 400 == 0)
  }

  function DaysInMonth(y: int, m: int): (n: int)
    requires 1 <= m <= 12
    ensures 28 <= n <= 31
  {
    if m == 2 then (if IsLeap(y) then 29 else 28)
    else if m == 4 || m == 6 || m == 9 || m == 11 then 30
    else 31
  }

  /** Days in the year before the first of month `m`, from the cumulative table of a common year. */
  function DaysBeforeMonth(y: int, m: int): (n: int)
    requires 1 <= m <= 12
  {
    [0, 31, 59, 90, 120, 151, 181, 212, 243, 273, 304, 334][m - 1]
      + (if m > 2 && IsLeap(y) then 1 else 0)
  }

  /** Days from 1 January of year 1 to 1 January of year `y` (negative before year 1). */
  function DaysBeforeYear(y: int): (n: int) {
    var p := y - 1;
    365 * p + p / 4 - p / 100 + p / 400
  }

  /** The weekday of date y-m-d; 1 January of year 1 is a Monday. */
  function Weekday(y: int, m: int, d: int): (w: int)
    requires 1 <= m <= 12
    ensures 0 <= w < 7
  {
    (DaysBeforeYear(y) + DaysBeforeMonth(y, m) + d - 1) % 7
  }

  /** The cumulative table agrees with the month lengths. */
  lemma MonthTableConsistent(y: int, m: int)
    requires 1 <= m <= 12
    ensures m < 12 ==> DaysBeforeMonth(y, m + 1) == DaysBeforeMonth(y, m) + DaysInMonth(y, m)
    ensures m == 12 ==> DaysBeforeMonth(y, m) + DaysInMonth(y, m) == if IsLeap(y) then 366 else 365
  {
  }

  /** A year is 366 days long exactly when it is a leap year. */
  lemma YearLength(y: int)
    ensures DaysBeforeYear(y + 1) == DaysBeforeYear(y) + if IsLeap(y) then 366 else 365
  {
    DivStep(y, 4);
    DivStep(y, 100);
    DivStep(y, 400);
  }

  /** Going from y - 1 to y, the quotient by k grows by one exactly when k divides y. */
  lemma DivStep(y: int, k: int)
    requires k > 0
    ensures y / k - (y - 1) / k == if y % k == 0 then 1 else 0
  {
    var q, r := (y - 1) / k, (y - 1) % k;
    assert y - 1 == k * q + r && 0 <= r < k;
    if r == k - 1 {
      DivUnique(y, k, q + 1, 0);
    } else {
      DivUnique(y, k, q, r + 1);
    }
  }

  /** Euclidean division: the quotient and remainder of x by k are the only ones with 0 <= r < k. */
  lemma DivUnique(x: int, k: int, q: int, r: int)
    requires k > 0 && x == k * q + r && 0 <= r < k
    ensures x / k == q && x % k == r
  {
    var q', r' := x / k, x % k;
    assert x == k * q' + r' && 0 <= r' < k;
    assert k * (q - q') == r' - r;
    MulBound(k, q - q');
  }

  /** A nonzero multiple of k is at least k away from 0. */
  lemma MulBound(k: int, d: int)
    requires k > 0
    ensures d >= 1 ==> k * d >= k
    ensures d <= -1 ==> k * d <= -k
  {
    if d >= 1 {
      assert k * d == k + k * (d - 1);
    } else if d <= -1 {
      assert k * d == -k + k * (d + 1);
    }
  }

  /** Each month starts on the weekday that follows the last day of the month before it. */
  lemma NextMonthStart(y: int, m: int)
    requires 1 <= m <= 12
    ensures m < 12 ==> Weekday(y, m + 1, 1) == (Weekday(y, m, 1) + DaysInMonth(y, m)) % 7
    ensures m == 12 ==> Weekday(y + 1, 1, 1) == (Weekday(y, m, 1) + DaysInMonth(y, m)) % 7
  {
    var x := DaysBeforeYear(y) + DaysBeforeMonth(y, m);
    var n := DaysInMonth(y, m);
    MonthTableConsistent(y, m);
    if m == 12 {
      YearLength(y);
      assert DaysBeforeYear(y + 1) + DaysBeforeMonth(y + 1, 1) == x + n;
    } else {
      assert DaysBeforeYear(y) + DaysBeforeMonth(y, m + 1) == x + n;
    }
    ShiftMod7(x, n);
  }

  lemma ShiftMod7(x: int, n: int)
    ensures (x + n) % 7 == (x % 7 + n) % 7
  {
    var q := x / 7;
    assert x == 7 * q + x % 7;
    assert (x + n) - (x % 7 + n) == 7 * q;
  }

  /** Successive days of a month fall on successive weekdays. */
  lemma WeekdayStep(y: int, m: int, d: int)
    requires 1 <= m <= 12
    ensures Weekday(y, m, d) == (Weekday(y, m, 1) + d - 1) % 7
  {
    var x := DaysBeforeYear(y) + DaysBeforeMonth(y, m);
    assert Weekday(y, m, 1) == x % 7;
    assert Weekday(y, m, d) == (x + (d - 1)) % 7;
    ShiftMod7(x, d - 1);
  }

  /** `days_before`: the padding slots before the 1st, i.e. the weekday of the 1st. */
  function LeadingBlanks(y: int, m: int): (b: int)
    requires 1 <= m <= 12
    ensures 0 <= b < 7
  {
    Weekday(y, m, 1)
  }

  /** `days_after`: the padding slots that complete the last week. */
  function TrailingBlanks(y: int, m: int): (a: int)
    requires 1 <= m <= 12
    ensures 0 <= a < 7
    ensures (LeadingBlanks(y, m) + DaysInMonth(y, m) + a) % 7 == 0
  {
    (0 - LeadingBlanks(y, m) - DaysInMonth(y, m)) % 7
  }

  /**
   * `itermonthdays`: the day numbers of the month in reading order, preceded
   * and followed by the zeros of the padding slots.
   */
  function MonthDays(y: int, m: int): (days: seq<int>)
    requires 1 <= m <= 12
    ensures |days| == LeadingBlanks(y, m) + DaysInMonth(y, m) + TrailingBlanks(y, m)
  {
    var b, n := LeadingBlanks(y, m), DaysInMonth(y, m);
    seq(b + n + TrailingBlanks(y, m), k => if b <= k < b + n then k - b + 1 else 0)
  }

  /** `itermonthdays2`: each day number paired with its weekday, counted from Monday. */
  function MonthDays2(y: int, m: int): (slots: seq<Slot>)
    requires 1 <= m <= 12
    ensures |slots| == |MonthDays(y, m)|
  {
    var days := MonthDays(y, m);
    seq(|days|, k requires 0 <= k < |days| => Slot(days[k], k % 7))
  }

  /**
   * The weeks of the month: the slots of MonthDays2 cut into rows of seven.
   * Every row is a full week, column j is weekday j, and every slot holds 0
   * or a day of the month.
   */
  function MonthGrid(y: int, m: int): (weeks: seq<seq<Slot>>)
    requires 1 <= m <= 12
    ensures 4 <= |weeks| <= 6
    ensures forall i :: 0 <= i < |weeks| ==> |weeks[i]| == 7
    ensures forall i, j :: 0 <= i < |weeks| && 0 <= j < |weeks[i]| ==>
      weeks[i][j].weekday == j && 0 <= weeks[i][j].day <= DaysInMonth(y, m)
  {
    var slots := MonthDays2(y, m);
    var total := |slots|;
    WeekCount(total);
    var weeks := seq(total / 7, i requires 0 <= i < total / 7 => slots[7 * i .. 7 * i + 7]);
    assert forall i, j :: 0 <= i < |weeks| && 0 <= j < |weeks[i]| ==>
      weeks[i][j].weekday == j && 0 <= weeks[i][j].day <= DaysInMonth(y, m) by {
      forall i, j | 0 <= i < |weeks| && 0 <= j < |weeks[i]|
        ensures weeks[i][j].weekday == j && 0 <= weeks[i][j].day <= DaysInMonth(y, m)
      {
        assert weeks[i][j] == slots[7 * i + j];
        SlotFacts(y, m, i, j);
      }
    }
    weeks
  }

  /** A month of 28 to 31 days padded to whole weeks takes four to six of them. */
  lemma WeekCount(total: int)
    requires total % 7 == 0 && 28 <= total <= 43
    ensures 4 <= total / 7 <= 6 && 7 * (total / 7) == total
  {
  }

  /** Slot 7i+j of the month lies in column j and holds 0 or a day of the month. */
  lemma SlotFacts(y: int, m: int, i: int, j: int)
    requires 1 <= m <= 12 && 0 <= i && 0 <= j < 7 && 7 * i + j < |MonthDays2(y, m)|
    ensures MonthDays2(y, m)[7 * i + j].weekday == j
    ensures 0 <= MonthDays2(y, m)[7 * i + j].day <= DaysInMonth(y, m)
  {
    assert (7 * i + j) % 7 == j;
  }

  /** `monthdays2calendar`: the grid, or a failure for a month outside 1..12. */
  function MonthDays2Calendar(y: int, m: int): (r: Result<seq<seq<Slot>>, CalendarError>)
    ensures r.Success? <==> 1 <= m <= 12
    ensures r.Failure? ==> r.error == MonthOutOfRange(m)
  {
    if 1 <= m <= 12 then Success(MonthGrid(y, m)) else Failure(MonthOutOfRange(m))
  }

  /** The slot in row i, column j is the (7i+j)-th slot of the month in reading order. */
  lemma GridSlot(y: int, m: int, i: int, j: int)
    requires 1 <= m <= 12
    requires 0 <= i < |MonthGrid(y, m)| && 0 <= j < 7
    ensures var b, k := LeadingBlanks(y, m), 7 * i + j;
      MonthGrid(y, m)[i][j].day == if b <= k < b + DaysInMonth(y, m) then k - b + 1 else 0
  {
  }

  /**
   * Every date of the month appears in exactly one slot, under its own
   * weekday, and every other slot is padding.
   */
  lemma GridPlacesEachDateOnce(y: int, m: int, d: int)
    requires 1 <= m <= 12 && 1 <= d <= DaysInMonth(y, m)
    ensures var g, k := MonthGrid(y, m), LeadingBlanks(y, m) + d - 1;
      k / 7 < |g| && g[k / 7][k % 7] == Slot(d, Weekday(y, m, d))
    ensures var g := MonthGrid(y, m);
      forall i, j :: 0 <= i < |g| && 0 <= j < 7 && g[i][j].day == d ==>
        7 * i + j == LeadingBlanks(y, m) + d - 1
  {
    var g: seq<seq<Slot>> := MonthGrid(y, m);
    var b := LeadingBlanks(y, m);
    var k := b + d - 1;
    WeekdayStep(y, m, d);
    GridSlot(y, m, k / 7, k % 7);
    forall i, j | 0 <= i < |g| && 0 <= j < 7 && g[i][j].day == d
      ensures 7 * i + j == b + d - 1
    {
      GridSlot(y, m, i, j);
    }
  }

  /** The weekday of 1 February 2024 (a Thursday) and the five rows of that month. */
  lemma February2024()
    ensures Weekday(2024, 2, 1) == 3
    ensures |MonthGrid(2024, 2)| == 5
  {
  }
}
