/**
 * FedocalCalendar: one month of a calendar rendered as an HTML table
 * fragment. The day cells may link to a per-day page of a named calendar;
 * the current day and the week of the reference day are marked by CSS
 * classes.
 *
 * What the renderer reads from outside is passed in explicitly (Env): the
 * current date, the URL builder of the web framework, the seven weekday
 * CSS classes and the month-name table of the base calendar.
 */
module FedoraCalendar {
  import opened Wrappers
  import opened Strings
  import opened Decimal
  import opened Gregorian

  /** A calendar date, as the clock reports today's. */
  datatype Date = Date(year: int, month: int, day: int)

  /** The keyword arguments handed to the URL builder for a day's page. */
  datatype FullDayArgs = FullDayArgs(calendarName: string, year: int, month: int, day: int)

  /**
   * The renderer's surroundings: `today` is what the clock reports,
   * `urlFor` builds the address of a route from its arguments, `cssClasses`
   * names the weekday columns (Monday first) and `monthNames` is indexed by
   * month number, with entry 0 unused.
   */
  datatype Env = Env(
    today: Date,
    urlFor: (string, FullDayArgs) -> string,
    cssClasses: seq<string>,
    monthNames: seq<string>)
  {
    predicate WellFormed() {
      |cssClasses| == 7 && |monthNames| == 13
    }
  }

  datatype FormatError =
    | MonthNameIndexError(month: int)
    | CalendarFailure(cause: CalendarError)

  const FullDayRoute := "calendar_fullday"
  const NoDayCell := "<td class=\"noday\">&nbsp;</td>"
  const PrevMonthLink := "<a class=\"button\" href=\"#\"><</a>"
  const NextMonthLink := "<a class=\"button\" href=\"#\">></a>"

  /** Python list indexing: non-negative indices from the front, negative ones from the back. */
  predicate PyIndexable<T>(s: seq<T>, i: int) {
    -|s| <= i < |s|
  }

  function PyAt<T>(s: seq<T>, i: int): (x: T)
    requires PyIndexable(s, i)
    ensures 0 <= i ==> x == s[i]
    ensures i < 0 ==> x == s[|s| + i]
  {
    if i < 0 then s[|s| + i] else s[i]
  }

  /**
   * The day numbers of a week, padding zeros included: a number is among
   * them exactly when some slot of the week holds it.
   */
  function DayNumbers(week: seq<Slot>): (days: seq<int>)
    ensures |days| == |week|
    ensures forall x :: x in days <==> exists k :: 0 <= k < |week| && week[k].day == x
  {
    var days := seq(|week|, k requires 0 <= k < |week| => week[k].day);
    assert forall x :: x in days <==> exists k :: 0 <= k < |week| && week[k].day == x by {
      forall x
        ensures x in days <==> exists k :: 0 <= k < |week| && week[k].day == x
      {
        if x in days {
          var k :| 0 <= k < |days| && days[k] == x;
          assert week[k].day == x;
        }
        if exists k :: 0 <= k < |week| && week[k].day == x {
          var k :| 0 <= k < |week| && week[k].day == x;
          assert days[k] == x;
        }
      }
    }
    days
  }

  /** Every real day of the week has a weekday column the CSS class list can be indexed with. */
  predicate WeekIndexable(env: Env, week: seq<Slot>) {
    forall k :: 0 <= k < |week| ==> week[k].day == 0 || PyIndexable(env.cssClasses, week[k].weekday)
  }

  predicate GridIndexable(env: Env, grid: seq<seq<Slot>>) {
    forall i :: 0 <= i < |grid| ==> WeekIndexable(env, grid[i])
  }

  /** The text of the title row: the month's name, then a space and the year when asked for. */
  function MonthTitle(env: Env, theyear: int, themonth: int, withyear: bool): (title: string)
    requires PyIndexable(env.monthNames, themonth)
    ensures var name := PyAt(env.monthNames, themonth);
      StartsWith(title, name) && (|title| == |name| <==> !withyear)
    ensures var name := PyAt(env.monthNames, themonth);
      withyear ==> |title| > |name| && title[|name|] == ' ' && ParseInt(title[|name| + 1..]) == Some(theyear)
  {
    var name := PyAt(env.monthNames, themonth);
    if withyear then
      var year := IntToString(theyear);
      IntRoundTrip(theyear);
      assert (name + " " + year)[|name| + 1..] == year;
      name + " " + year
    else name
  }

  /** `values.append(item)` on the list of output pieces: the joined text grows by exactly `item`. */
  method Append(values: seq<string>, item: string) returns (values': seq<string>)
    ensures values' == values + [item]
    ensures Join(values') == Join(values) + item
  {
    values' := values + [item];
    assert values'[..|values|] == values;
  }

  /** Moving a row and its newline from the lines still to come to the text written so far. */
  lemma LineAppended(text: string, row: string, later: string)
    ensures text + row + "\n" + later == text + (row + "\n" + later)
  {
  }

  class FedocalCalendar {
    const year: int
    const month: int
    /** The reference day, whose week is marked current. */
    const day: int
    const calendarName: Option<string>

    constructor (year: int, month: int, day: int, calendarName: Option<string>)
      ensures this.year == year && this.month == month && this.day == day
      ensures this.calendarName == calendarName
    {
      this.year := year;
      this.month := month;
      this.day := day;
      this.calendarName := calendarName;
    }

    /** Whether day cells link to the day's page: a calendar name that is neither None nor empty. */
    predicate LinksDays() {
      calendarName.Some? && calendarName.value != ""
    }

    /** Whether day `d` of this month is the current date. */
    predicate IsToday(today: Date, d: int) {
      d == today.day && month == today.month && year == today.year
    }

    /** The contents of a real day's cell: the day number, linked to its page when LinksDays. */
    function DayLabel(env: Env, d: int): (link: string)
    {
      if LinksDays() then
        "<a href=\"" + env.urlFor(FullDayRoute, FullDayArgs(calendarName.value, year, month, d)) + "\">"
          + IntToString(d) + "</a>"
      else
        IntToString(d)
    }

    /** One day as a table cell; day 0 is a padding slot outside the month. */
    function FormatDay(env: Env, d: int, weekday: int): (cell: string)
      requires d == 0 || PyIndexable(env.cssClasses, weekday)
    {
      if d == 0 then
        NoDayCell
      else if IsToday(env.today, d) then
        "<td class=\"" + PyAt(env.cssClasses, weekday) + " today\">" + DayLabel(env, d) + "</td>"
      else
        "<td class=\"" + PyAt(env.cssClasses, weekday) + "\">" + DayLabel(env, d) + "</td>"
    }

    /** The cells of a week, one per slot and in order. */
    function DayCellList(env: Env, week: seq<Slot>): (cells: seq<string>)
      requires WeekIndexable(env, week)
      ensures |cells| == |week|
    {
      if week == [] then []
      else
        assert WeekIndexable(env, week[1..]) by {
          forall k | 0 <= k < |week| - 1
            ensures week[1..][k] == week[k + 1]
          {
          }
        }
        [FormatDay(env, week[0].day, week[0].weekday)] + DayCellList(env, week[1..])
    }

    /** The cells of a week joined with no separator. */
    function DayCells(env: Env, week: seq<Slot>): (cells: string)
      requires WeekIndexable(env, week)
    {
      Join(DayCellList(env, week))
    }

    /** A week as a table row; the current week's row carries the class current_week. */
    function FormatWeek(env: Env, week: seq<Slot>, current: bool): (row: string)
      requires WeekIndexable(env, week)
    {
      if current then
        "<tr class=\"current_week\">" + DayCells(env, week) + "</tr>"
      else
        "<tr>" + DayCells(env, week) + "</tr>"
    }

    /** The month's title row: placeholder previous/next links around the month name and, optionally, the year. */
    function FormatMonthName(env: Env, theyear: int, themonth: int, withyear: bool): (row: string)
      requires PyIndexable(env.monthNames, themonth)
    {
      "<tr><th colspan=\"7\" class=\"month\">" + PrevMonthLink + " " + MonthTitle(env, theyear, themonth, withyear) + " "
        + NextMonthLink + "</th></tr>"
    }

    /** Whether a week is rendered as the current one: the reference day is among its day numbers. */
    predicate IsCurrentWeek(week: seq<Slot>) {
      day in DayNumbers(week)
    }

    /** A week's row, marked current when the reference day is among its day numbers, followed by a newline. */
    function WeekLine(env: Env, week: seq<Slot>): (line: string)
      requires WeekIndexable(env, week)
    {
      FormatWeek(env, week, IsCurrentWeek(week)) + "\n"
    }

    /** The lines from week i on are week i's line followed by the lines from week i + 1 on. */
    lemma NextLine(env: Env, weeks: seq<seq<Slot>>, i: nat)
      requires i < |weeks| && GridIndexable(env, weeks[i..])
      ensures GridIndexable(env, weeks[i + 1..])
      ensures Join(WeekLines(env, weeks[i..])) == WeekLine(env, weeks[i]) + Join(WeekLines(env, weeks[i + 1..]))
    {
      var rest := weeks[i..];
      assert rest[0] == weeks[i];
      assert rest[1..] == weeks[i + 1..];
      JoinCons(WeekLines(env, rest));
    }

    /** Each week's line, in grid order. */
    function WeekLines(env: Env, grid: seq<seq<Slot>>): (lines: seq<string>)
      requires GridIndexable(env, grid)
      ensures |lines| == |grid|
    {
      if grid == [] then []
      else
        assert GridIndexable(env, grid[1..]) by {
          forall i | 0 <= i < |grid| - 1
            ensures grid[1..][i] == grid[i + 1]
          {
          }
        }
        [WeekLine(env, grid[0])] + WeekLines(env, grid[1..])
    }

    /** The whole table: opening tag, title row, the week rows, closing tag, each line ended by a newline. */
    function MonthMarkup(env: Env, grid: seq<seq<Slot>>, withyear: bool): (table: string)
      requires PyIndexable(env.monthNames, month) && GridIndexable(env, grid)
    {
      "<table class=\"month\">" + "\n" + FormatMonthName(env, year, month, withyear) + "\n"
        + Join(WeekLines(env, grid)) + "</table>" + "\n"
    }

    /** The loop of formatmonth: each week's row, marked current or not, then a newline. */
    method AppendWeeks(env: Env, weeks: seq<seq<Slot>>, values: seq<string>) returns (values': seq<string>)
      requires GridIndexable(env, weeks)
      ensures Join(values') == Join(values) + Join(WeekLines(env, weeks))
    {
      values' := values;
      for i := 0 to |weeks|
        invariant GridIndexable(env, weeks[i..])
        invariant Join(values') + Join(WeekLines(env, weeks[i..])) == Join(values) + Join(WeekLines(env, weeks))
      {
        var week := weeks[i];
        var days := DayNumbers(week);
        ghost var before := values';
        var row: string;
        if day in days {
          row := FormatWeek(env, week, true);
        } else {
          row := FormatWeek(env, week, false);
        }
        values' := Append(values', row);
        values' := Append(values', "\n");
        NextLine(env, weeks, i);
        LineAppended(Join(before), row, Join(WeekLines(env, weeks[i + 1..])));
      }
    }

    /**
     * The month as a table. The title row is built before the grid is asked
     * for, so an unknown month-name index fails first; a month outside 1..12
     * then fails in the grid layout.
     */
    method FormatMonth(env: Env, withyear: bool) returns (r: Result<string, FormatError>)
      requires env.WellFormed()
      ensures !PyIndexable(env.monthNames, month) ==> r == Failure(MonthNameIndexError(month))
      ensures PyIndexable(env.monthNames, month) && !(1 <= month <= 12) ==>
        r == Failure(CalendarFailure(MonthOutOfRange(month)))
      ensures 1 <= month <= 12 ==> r == Success(MonthMarkup(env, MonthGrid(year, month), withyear))
    {
      var values: seq<string> := [];
      values := Append(values, "<table class=\"month\">");
      assert Join(values) == "<table class=\"month\">";
      values := Append(values, "\n");
      if !PyIndexable(env.monthNames, month) {
        return Failure(MonthNameIndexError(month));
      }
      values := Append(values, FormatMonthName(env, year, month, withyear));
      values := Append(values, "\n");
      var weeks: seq<seq<Slot>>;
      match MonthDays2Calendar(year, month) {
        case Failure(e) =>
          return Failure(CalendarFailure(e));
        case Success(g) =>
          weeks := g;
      }
      assert weeks == MonthGrid(year, month);
      values := AppendWeeks(env, weeks, values);
      values := Append(values, "</table>");
      values := Append(values, "\n");
      assert Join(values) == MonthMarkup(env, weeks, withyear);
      r := Success(Join(values));
    }
  }
}
