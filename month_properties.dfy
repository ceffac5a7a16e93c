/**
 * What the rendered month shows, stated over the Gregorian grid: the table's
 * shape, which row is marked as the current week, which cell is marked as
 * today, and where each date of the month appears and what it links to.
 */
module MonthProperties {
  import opened Wrappers
  import opened Decimal
  import opened Gregorian
  import opened FedoraCalendar
  import opened MarkupReader
  import opened CalendarMarkup

  /** Every slot of a real month's grid has a weekday that indexes the seven weekday classes. */
  lemma MonthGridIndexable(env: Env, y: int, m: int)
    requires env.WellFormed() && 1 <= m <= 12
    ensures GridIndexable(env, MonthGrid(y, m))
  {
    var g: seq<seq<Slot>> := MonthGrid(y, m);
    forall i | 0 <= i < |g|
      ensures WeekIndexable(env, g[i])
    {
      forall k | 0 <= k < |g[i]|
        ensures PyIndexable(env.cssClasses, g[i][k].weekday)
      {
      }
    }
  }

  /** The month table that `formatmonth` renders for the calendar's own month, as a reader sees it. */
  function RenderedMonth(cal: FedocalCalendar, env: Env, withyear: bool): (view: Option<MonthView>)
    requires env.WellFormed() && 1 <= cal.month <= 12
  {
    MonthGridIndexable(env, cal.year, cal.month);
    ReadMonth(cal.MonthMarkup(env, MonthGrid(cal.year, cal.month), withyear))
  }

  /** What the rendered month should read as: its title and the meaning of every row of its grid. */
  function ExpectedMonth(cal: FedocalCalendar, env: Env, withyear: bool): (view: MonthView)
    requires env.WellFormed() && 1 <= cal.month <= 12
  {
    MonthGridIndexable(env, cal.year, cal.month);
    MonthView(MonthTitle(env, cal.year, cal.month, withyear), RowMeanings(cal, env, MonthGrid(cal.year, cal.month)))
  }

  /** The month that `formatmonth` renders reads back completely, as its expected view. */
  lemma RenderedIsExpected(cal: FedocalCalendar, env: Env, withyear: bool)
    requires MarkupSafe(env) && 1 <= cal.month <= 12
    ensures RenderedMonth(cal, env, withyear) == Some(ExpectedMonth(cal, env, withyear))
  {
    MonthGridIndexable(env, cal.year, cal.month);
    MonthReadBack(cal, env, MonthGrid(cal.year, cal.month), withyear);
  }

  /** Row i of the rendered month is the reading of grid row i, and its cell j the reading of slot (i, j). */
  lemma RenderedSlot(cal: FedocalCalendar, env: Env, withyear: bool, i: int, j: int)
    requires MarkupSafe(env) && 1 <= cal.month <= 12
    requires 0 <= i < |MonthGrid(cal.year, cal.month)| && 0 <= j < 7
    ensures var rows, g := ExpectedMonth(cal, env, withyear).rows, MonthGrid(cal.year, cal.month);
      && |rows| == |g| && |rows[i].cells| == 7
      && rows[i].current == cal.IsCurrentWeek(g[i])
      && rows[i].cells[j] == CellMeaning(cal, env, g[i][j].day, j)
  {
    MonthGridIndexable(env, cal.year, cal.month);
  }

  /**
   * The rendered table has the month's title (its name, and the year when
   * asked for), four to six rows, one per week of the grid, and seven cells
   * in every row.
   */
  lemma MonthShape(cal: FedocalCalendar, env: Env, withyear: bool)
    requires MarkupSafe(env) && 1 <= cal.month <= 12
    ensures var v := ExpectedMonth(cal, env, withyear);
      && v.title == (if withyear then env.monthNames[cal.month] + " " + IntToString(cal.year)
                     else env.monthNames[cal.month])
      && |v.rows| == |MonthGrid(cal.year, cal.month)|
      && 4 <= |v.rows| <= 6
      && forall i :: 0 <= i < |v.rows| ==> |v.rows[i].cells| == 7
  {
    var g: seq<seq<Slot>> := MonthGrid(cal.year, cal.month);
    MonthGridIndexable(env, cal.year, cal.month);
    var v := ExpectedMonth(cal, env, withyear);
    forall i | 0 <= i < |v.rows|
      ensures |v.rows[i].cells| == 7
    {
      assert |g[i]| == 7;
    }
  }

  /**
   * Row i is marked as the current week exactly when: the reference day is a
   * date of the month and falls in row i; or the reference day is 0 and row
   * i holds padding (the first row when the month does not start on a
   * Monday, the last when it does not end on a Sunday). Any other reference
   * day marks no row.
   */
  lemma CurrentWeekRule(cal: FedocalCalendar, env: Env, withyear: bool, i: int)
    requires MarkupSafe(env) && 1 <= cal.month <= 12
    requires 0 <= i < |MonthGrid(cal.year, cal.month)|
    ensures var rows, b, n := ExpectedMonth(cal, env, withyear).rows,
        LeadingBlanks(cal.year, cal.month), DaysInMonth(cal.year, cal.month);
      i < |rows| &&
      (rows[i].current <==>
        if 1 <= cal.day <= n then i == (b + cal.day - 1) / 7
        else cal.day == 0 && (7 * i < b || b + n < 7 * i + 7))
  {
    var y, m := cal.year, cal.month;
    var g, b, n := MonthGrid(y, m), LeadingBlanks(y, m), DaysInMonth(y, m);
    RenderedSlot(cal, env, withyear, i, 0);
    assert |g[i]| == 7;
    assert cal.IsCurrentWeek(g[i]) <==> exists j :: 0 <= j < 7 && g[i][j].day == cal.day;
    if 1 <= cal.day <= n {
      GridPlacesEachDateOnce(y, m, cal.day);
      var k := b + cal.day - 1;
      if i == k / 7 {
        assert g[i][k % 7].day == cal.day;
      }
    } else if cal.day == 0 {
      if 7 * i < b {
        GridSlot(y, m, i, 0);
      } else if b + n < 7 * i + 7 {
        GridSlot(y, m, i, 6);
      } else {
        forall j | 0 <= j < 7
          ensures g[i][j].day != 0
        {
          GridSlot(y, m, i, j);
        }
      }
    }
  }

  /**
   * Cell j of row i carries the class `today` exactly when the reference
   * date `today` lies in this calendar's year and month, is a date of the
   * month, and is the date in that slot.
   */
  lemma TodayCellRule(cal: FedocalCalendar, env: Env, withyear: bool, i: int, j: int)
    requires MarkupSafe(env) && 1 <= cal.month <= 12
    requires 0 <= i < |MonthGrid(cal.year, cal.month)| && 0 <= j < 7
    ensures var rows, b, n := ExpectedMonth(cal, env, withyear).rows,
        LeadingBlanks(cal.year, cal.month), DaysInMonth(cal.year, cal.month);
      i < |rows| && j < |rows[i].cells| &&
      (HasTodayClass(rows[i].cells[j].cls) <==>
        env.today.year == cal.year && env.today.month == cal.month
        && 1 <= env.today.day <= n && 7 * i + j == b + env.today.day - 1)
  {
    var y, m := cal.year, cal.month;
    var g: seq<seq<Slot>> := MonthGrid(y, m);
    RenderedSlot(cal, env, withyear, i, j);
    GridSlot(y, m, i, j);
    var d := g[i][j].day;
    if d == 0 {
      assert !HasTodayClass("noday");
    } else {
      CellMeaningFacts(cal, env, d, j);
    }
  }

  /**
   * Each date d of the month appears in the slot (i, j) at reading position
   * 7i+j = b+d-1, where b is the number of leading blanks; the column is d's
   * weekday, the cell has that weekday's class (with `today` on the current
   * date), its text reads back as d, and it links to d's day page, built
   * for this calendar and date, exactly when the calendar has a name.
   */
  lemma DateCell(cal: FedocalCalendar, env: Env, withyear: bool, d: int, i: int, j: int)
    requires MarkupSafe(env) && 1 <= cal.month <= 12
    requires 1 <= d <= DaysInMonth(cal.year, cal.month)
    requires 0 <= j < 7 && 7 * i + j == LeadingBlanks(cal.year, cal.month) + d - 1
    ensures var rows := ExpectedMonth(cal, env, withyear).rows;
      0 <= i < |rows| && j < |rows[i].cells|
    ensures var rows := ExpectedMonth(cal, env, withyear).rows;
      var c, w := rows[i].cells[j], Weekday(cal.year, cal.month, d);
      && j == w
      && (c.content.Anchor? <==> cal.LinksDays())
      && (cal.LinksDays() ==>
            c.content.href == env.urlFor(FullDayRoute, FullDayArgs(cal.calendarName.value, cal.year, cal.month, d)))
      && ParseInt(c.content.text) == Some(d)
    ensures var rows := ExpectedMonth(cal, env, withyear).rows;
      var cls, css := rows[i].cells[j].cls, env.cssClasses[Weekday(cal.year, cal.month, d)];
      cls == css || cls == css + " today"
  {
    var y, m := cal.year, cal.month;
    var k := LeadingBlanks(y, m) + d - 1;
    assert i == k / 7 && j == k % 7;
    GridPlacesEachDateOnce(y, m, d);
    var g: seq<seq<Slot>> := MonthGrid(y, m);
    assert g[i][j] == Slot(d, Weekday(y, m, d));
    RenderedSlot(cal, env, withyear, i, j);
    assert ExpectedMonth(cal, env, withyear).rows[i].cells[j] == CellMeaning(cal, env, d, j);
    CellMeaningFacts(cal, env, d, j);
    assert PyAt(env.cssClasses, j) == env.cssClasses[Weekday(y, m, d)];
  }

  /**
   * A cell is the blank `noday` cell exactly when its slot lies before the
   * first or after the last date of the month.
   */
  lemma PaddingCell(cal: FedocalCalendar, env: Env, withyear: bool, i: int, j: int)
    requires MarkupSafe(env) && 1 <= cal.month <= 12
    requires 0 <= i < |MonthGrid(cal.year, cal.month)| && 0 <= j < 7
    ensures var rows, b, n := ExpectedMonth(cal, env, withyear).rows,
        LeadingBlanks(cal.year, cal.month), DaysInMonth(cal.year, cal.month);
      i < |rows| && j < |rows[i].cells| &&
      (rows[i].cells[j] == CellView("noday", Text("&nbsp;")) <==> 7 * i + j < b || b + n <= 7 * i + j)
  {
    var g: seq<seq<Slot>> := MonthGrid(cal.year, cal.month);
    RenderedSlot(cal, env, withyear, i, j);
    GridSlot(cal.year, cal.month, i, j);
    if g[i][j].day != 0 {
      CellMeaningFacts(cal, env, g[i][j].day, j);
    }
  }

  /**
   * Some cell carries the class `today` exactly when the current date is a
   * date of the rendered month and year, and no two cells carry it.
   */
  lemma TodayCellUnique(cal: FedocalCalendar, env: Env, withyear: bool)
    requires MarkupSafe(env) && 1 <= cal.month <= 12
    ensures var rows := ExpectedMonth(cal, env, withyear).rows;
      (exists i, j :: 0 <= i < |rows| && 0 <= j < |rows[i].cells| && HasTodayClass(rows[i].cells[j].cls))
      <==> (env.today.year == cal.year && env.today.month == cal.month
            && 1 <= env.today.day <= DaysInMonth(cal.year, cal.month))
    ensures var rows := ExpectedMonth(cal, env, withyear).rows;
      forall i, j, i', j' ::
        0 <= i < |rows| && 0 <= j < |rows[i].cells| && HasTodayClass(rows[i].cells[j].cls) &&
        0 <= i' < |rows| && 0 <= j' < |rows[i'].cells| && HasTodayClass(rows[i'].cells[j'].cls)
        ==> i == i' && j == j'
  {
    var rows := ExpectedMonth(cal, env, withyear).rows;
    var b, n := LeadingBlanks(cal.year, cal.month), DaysInMonth(cal.year, cal.month);
    MonthShape(cal, env, withyear);
    forall i, j | 0 <= i < |rows| && 0 <= j < |rows[i].cells| && HasTodayClass(rows[i].cells[j].cls)
      ensures env.today.year == cal.year && env.today.month == cal.month && 1 <= env.today.day <= n
      ensures 7 * i + j == b + env.today.day - 1
    {
      TodayCellRule(cal, env, withyear, i, j);
    }
    if env.today.year == cal.year && env.today.month == cal.month && 1 <= env.today.day <= n {
      var k := b + env.today.day - 1;
      DateCell(cal, env, withyear, env.today.day, k / 7, k % 7);
      TodayCellRule(cal, env, withyear, k / 7, k % 7);
      assert HasTodayClass(rows[k / 7].cells[k % 7].cls);
    }
  }

  /**
   * February 2024 starts on a Thursday and takes five rows; with reference
   * day 14 exactly the third row, the one holding the 14th, is marked as
   * the current week.
   */
  lemma February2024Table(cal: FedocalCalendar, env: Env, withyear: bool)
    requires MarkupSafe(env) && cal.year == 2024 && cal.month == 2 && cal.day == 14
    ensures var rows := ExpectedMonth(cal, env, withyear).rows;
      |rows| == 5 && forall i :: 0 <= i < 5 ==> (rows[i].current <==> i == 2)
  {
    February2024();
    MonthShape(cal, env, withyear);
    forall i | 0 <= i < 5
      ensures ExpectedMonth(cal, env, withyear).rows[i].current <==> i == 2
    {
      CurrentWeekRule(cal, env, withyear, i);
    }
  }
}
