/**
 * What the rendered markup says, read back with MarkupReader: each cell's
 * class and contents, each row's current-week mark and cells, and the title.
 */
module CalendarMarkup {
  import opened Wrappers
  import opened Strings
  import opened Decimal
  import opened Gregorian
  import opened FedoraCalendar
  import opened MarkupReader

  /**
   * What reading the markup back relies on: the tables have their usual
   * sizes, the weekday classes contain no '"' and no space, the month names
   * contain no '<', and the day-page addresses contain no '"'.
   */
  ghost predicate MarkupSafe(env: Env) {
    env.WellFormed()
    && (forall k :: 0 <= k < |env.cssClasses| ==> '"' !in env.cssClasses[k] && ' ' !in env.cssClasses[k])
    && (forall k :: 0 <= k < |env.monthNames| ==> '<' !in env.monthNames[k])
    && (forall args :: '"' !in env.urlFor(FullDayRoute, args))
  }

  /**
   * The cell a reader should see for a slot: padding shows a blank `noday`
   * cell; a day shows its weekday class (plus `today` on the current date)
   * and its number, linked to the day's page when the calendar has a name.
   */
  function CellMeaning(cal: FedocalCalendar, env: Env, d: int, weekday: int): (view: CellView)
    requires d == 0 || PyIndexable(env.cssClasses, weekday)
  {
    if d == 0 then CellView("noday", Text("&nbsp;"))
    else
      var cls := PyAt(env.cssClasses, weekday);
      CellView(if cal.IsToday(env.today, d) then cls + " today" else cls, LabelMeaning(cal, env, d))
  }

  /** What a day's label means: a link to the day's page when the calendar has a name, else the bare number. */
  function LabelMeaning(cal: FedocalCalendar, env: Env, d: int): (content: Content)
  {
    if cal.LinksDays() then
      Anchor(env.urlFor(FullDayRoute, FullDayArgs(cal.calendarName.value, cal.year, cal.month, d)), IntToString(d))
    else Text(IntToString(d))
  }

  function CellMeanings(cal: FedocalCalendar, env: Env, week: seq<Slot>): (cells: seq<CellView>)
    requires WeekIndexable(env, week)
    ensures |cells| == |week|
  {
    seq(|week|, k requires 0 <= k < |week| && WeekIndexable(env, week) =>
      CellMeaning(cal, env, week[k].day, week[k].weekday))
  }

  function RowMeanings(cal: FedocalCalendar, env: Env, grid: seq<seq<Slot>>): (rows: seq<RowView>)
    requires GridIndexable(env, grid)
    ensures |rows| == |grid|
  {
    seq(|grid|, i requires 0 <= i < |grid| && GridIndexable(env, grid) =>
      RowView(cal.IsCurrentWeek(grid[i]), CellMeanings(cal, env, grid[i])))
  }

  lemma DayCellsCons(cal: FedocalCalendar, env: Env, week: seq<Slot>)
    requires week != [] && WeekIndexable(env, week)
    ensures WeekIndexable(env, week[1..])
    ensures cal.DayCells(env, week) == cal.FormatDay(env, week[0].day, week[0].weekday) + cal.DayCells(env, week[1..])
  {
    var list := cal.DayCellList(env, week);
    JoinCons(list);
    assert list[1..] == cal.DayCellList(env, week[1..]);
  }

  lemma WeekLinesCons(cal: FedocalCalendar, env: Env, grid: seq<seq<Slot>>)
    requires grid != [] && GridIndexable(env, grid)
    ensures GridIndexable(env, grid[1..])
    ensures Join(cal.WeekLines(env, grid)) == cal.WeekLine(env, grid[0]) + Join(cal.WeekLines(env, grid[1..]))
  {
    var lines := cal.WeekLines(env, grid);
    JoinCons(lines);
    assert lines[1..] == cal.WeekLines(env, grid[1..]);
  }

  lemma RowMeaningsCons(cal: FedocalCalendar, env: Env, grid: seq<seq<Slot>>)
    requires grid != [] && GridIndexable(env, grid)
    ensures RowMeanings(cal, env, grid)
      == [RowView(cal.IsCurrentWeek(grid[0]), CellMeanings(cal, env, grid[0]))] + RowMeanings(cal, env, grid[1..])
  {
  }

  lemma CellMeaningsCons(cal: FedocalCalendar, env: Env, week: seq<Slot>)
    requires week != [] && WeekIndexable(env, week)
    ensures CellMeanings(cal, env, week) == [CellMeaning(cal, env, week[0].day, week[0].weekday)] + CellMeanings(cal, env, week[1..])
  {
  }

  /**
   * A day's cell: the class is the weekday's, with ` today` added exactly on
   * the current date; the contents link to the day's page exactly when the
   * calendar has a non-empty name, the link's address is the URL builder's
   * for this calendar and date, and the visible text reads back as the day.
   */
  lemma CellMeaningFacts(cal: FedocalCalendar, env: Env, d: int, weekday: int)
    requires MarkupSafe(env) && d != 0 && PyIndexable(env.cssClasses, weekday)
    ensures var v, cls := CellMeaning(cal, env, d, weekday), PyAt(env.cssClasses, weekday);
      && (v.cls == cls || v.cls == cls + " today")
      && (HasTodayClass(v.cls) <==> cal.IsToday(env.today, d))
      && (v.content.Anchor? <==> cal.LinksDays())
      && (v.content.Anchor? ==>
            v.content.href == env.urlFor(FullDayRoute, FullDayArgs(cal.calendarName.value, cal.year, cal.month, d)))
      && ParseInt(v.content.text) == Some(d)
      && v != CellView("noday", Text("&nbsp;"))
  {
    var cls := PyAt(env.cssClasses, weekday);
    assert ' ' !in cls;
    if |cls| >= 6 {
      assert cls[|cls| - 6..][0] == cls[|cls| - 6];
    }
    assert !HasTodayClass(cls);
    assert (cls + " today")[|cls|..] == " today";
    IntRoundTrip(d);
    assert IntToString(d)[0] != '&';
  }

  /** Reading a rendered cell gives back exactly the cell's meaning, and stops right after it. */
  lemma DayCellReadBack(cal: FedocalCalendar, env: Env, d: int, weekday: int, rest: string)
    requires MarkupSafe(env) && (d == 0 || PyIndexable(env.cssClasses, weekday))
    ensures ReadCell(cal.FormatDay(env, d, weekday) + rest) == Some((CellMeaning(cal, env, d, weekday), rest))
  {
    var tail := "</td>" + rest;
    if d == 0 {
      assert NoDayCell == "<td class=\"" + "noday" + "\">" + "&nbsp;" + "</td>";
      ReadTextContent("&nbsp;", tail);
      ReadCellOf("noday", "&nbsp;", Text("&nbsp;"), rest);
    } else {
      var css := PyAt(env.cssClasses, weekday);
      var link := cal.DayLabel(env, d);
      var v := CellMeaning(cal, env, d, weekday);
      assert '"' !in css;
      DayLabelReadBack(cal, env, d, tail);
      if cal.IsToday(env.today, d) {
        var cls := css + " today";
        assert "<td class=\"" + css + " today\">" == "<td class=\"" + cls + "\">";
        ReadCellOf(cls, link, v.content, rest);
      } else {
        ReadCellOf(css, link, v.content, rest);
      }
    }
  }

  /** Reading a day's label gives back its meaning, and stops right after it. */
  lemma DayLabelReadBack(cal: FedocalCalendar, env: Env, d: int, tail: string)
    requires MarkupSafe(env) && (tail == [] || tail[0] == '<')
    ensures ReadContent(cal.DayLabel(env, d) + tail) == Some((LabelMeaning(cal, env, d), tail))
  {
    var num := IntToString(d);
    assert '<' !in num;
    if cal.LinksDays() {
      var url := env.urlFor(FullDayRoute, FullDayArgs(cal.calendarName.value, cal.year, cal.month, d));
      assert '"' !in url;
      ReadAnchorContent(url, num, tail);
    } else {
      ReadTextContent(num, tail);
    }
  }

  /** Reading a week's cells gives back one cell meaning per slot, in order. */
  lemma {:induction false} DayCellsReadBack(cal: FedocalCalendar, env: Env, week: seq<Slot>, rest: string)
    requires MarkupSafe(env) && WeekIndexable(env, week) && ReadCell(rest).None?
    ensures ReadCells(cal.DayCells(env, week) + rest) == (CellMeanings(cal, env, week), rest)
  {
    if week == [] {
      assert cal.DayCellList(env, week) == [];
      assert cal.DayCells(env, week) + rest == rest;
      ReadCellsStep(rest);
    } else {
      var first := cal.FormatDay(env, week[0].day, week[0].weekday);
      var more := cal.DayCells(env, week[1..]);
      var view := CellMeaning(cal, env, week[0].day, week[0].weekday);
      var views := CellMeanings(cal, env, week[1..]);
      DayCellsCons(cal, env, week);
      DayCellsReadBack(cal, env, week[1..], rest);
      DayCellReadBack(cal, env, week[0].day, week[0].weekday, more + rest);
      ReadCellsCons(first, view, more, views, rest);
      Regroup3(first, more, rest);
      CellMeaningsCons(cal, env, week);
    }
  }

  /**
   * Reading a week's row gives back its current-week mark and its cells: the
   * same cells whether or not the row is marked, one per slot.
   */
  lemma WeekRowReadBack(cal: FedocalCalendar, env: Env, week: seq<Slot>, current: bool, rest: string)
    requires MarkupSafe(env) && WeekIndexable(env, week)
    ensures ReadRow(cal.FormatWeek(env, week, current) + rest)
      == Some((RowView(current, CellMeanings(cal, env, week)), rest))
  {
    var tail := "</tr>" + rest;
    NotStartsWith(tail, "<td class=\"", 1);
    DayCellsReadBack(cal, env, week, tail);
    ReadRowOf(current, cal.DayCells(env, week), CellMeanings(cal, env, week), rest);
  }

  /** Reading the week rows gives back one row per week of the grid, in grid order. */
  lemma {:induction false} WeekLinesReadBack(cal: FedocalCalendar, env: Env, grid: seq<seq<Slot>>, rest: string)
    requires MarkupSafe(env) && GridIndexable(env, grid) && ReadRow(rest).None?
    ensures ReadRows(Join(cal.WeekLines(env, grid)) + rest) == (RowMeanings(cal, env, grid), rest)
  {
    var lines := cal.WeekLines(env, grid);
    if grid == [] {
      assert lines == [];
      assert Join(lines) + rest == rest;
      ReadRowsStop(rest);
    } else {
      var current := cal.IsCurrentWeek(grid[0]);
      var row := cal.FormatWeek(env, grid[0], current);
      var more := Join(cal.WeekLines(env, grid[1..]));
      var view := RowView(current, CellMeanings(cal, env, grid[0]));
      var views := RowMeanings(cal, env, grid[1..]);
      WeekLinesCons(cal, env, grid);
      WeekRowReadBack(cal, env, grid[0], current, "\n" + (more + rest));
      WeekLinesReadBack(cal, env, grid[1..], rest);
      ReadRowsCons(row, view, more, views, rest);
      RowMeaningsCons(cal, env, grid);
    }
  }

  /** The title row reads back as the month's name, followed by a space and the year when asked for. */
  lemma TitleRowReadBack(cal: FedocalCalendar, env: Env, theyear: int, themonth: int, withyear: bool, rest: string)
    requires MarkupSafe(env) && PyIndexable(env.monthNames, themonth)
    ensures ReadTitleRow(cal.FormatMonthName(env, theyear, themonth, withyear) + rest)
      == Some((MonthTitle(env, theyear, themonth, withyear), rest))
  {
    assert '<' !in PyAt(env.monthNames, themonth);
    assert '<' !in IntToString(theyear);
    ReadTitleRowOf(MonthTitle(env, theyear, themonth, withyear), rest);
  }

  /**
   * The whole table reads back completely: its title, and one row per week
   * of the grid, each marked current exactly when the reference day is
   * among the week's day numbers (padding zeros included).
   */
  lemma MonthReadBack(cal: FedocalCalendar, env: Env, grid: seq<seq<Slot>>, withyear: bool)
    requires MarkupSafe(env) && PyIndexable(env.monthNames, cal.month) && GridIndexable(env, grid)
    ensures ReadMonth(cal.MonthMarkup(env, grid, withyear))
      == Some(MonthView(MonthTitle(env, cal.year, cal.month, withyear), RowMeanings(cal, env, grid)))
  {
    var header := cal.FormatMonthName(env, cal.year, cal.month, withyear);
    var body := Join(cal.WeekLines(env, grid));
    var tail := "</table>" + "\n";
    NotStartsWith(tail, "<tr class=\"current_week\">", 1);
    NotStartsWith(tail, "<tr>", 1);
    assert ReadRow(tail).None?;
    WeekLinesReadBack(cal, env, grid, tail);
    TitleRowReadBack(cal, env, cal.year, cal.month, withyear, "\n" + (body + tail));
    ReadMonthOf(header, MonthTitle(env, cal.year, cal.month, withyear), body, RowMeanings(cal, env, grid));
  }
}
