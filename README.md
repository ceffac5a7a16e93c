# FedocalCalendar: one month as an HTML table

Fedocal renders a month of a calendar as an HTML `<table>` fragment. The
class `FedocalCalendar` extends the standard HTML calendar of Python's
library. It is built with a year, a month, a reference day and, optionally,
the name of a calendar. It then renders:

- `formatday`: one day as a `<td>` cell. A padding slot (day 0) is a blank
  `noday` cell. A real day carries the weekday's CSS class, plus the class
  `today` on the current date. When the calendar name is non-empty, the
  day number links to that day's page.
- `formatweek`: one week as a `<tr>` row. The row carries the class
  `current_week` when asked.
- `formatmonthname`: the title row. It has placeholder previous/next links
  around the month's name, and the year when asked.
- `formatmonth`: the whole table. It is built by appending pieces to a list
  and joining them: the opening tag, the title row, one row per week of the
  month's grid, and the closing tag, each followed by a newline. A week is
  marked current when the reference day is among its day numbers.

The model is in Dafny.

- `FedoraCalendar` holds the class. Its fields never change after
  construction, so they are `const`. The rendering operations are
  functions. `formatmonth` is a method whose loop appends to a list of
  strings, as the source does.
- The renderer's surroundings are an explicit value `Env`:
  - the current date;
  - the web framework's URL builder, as a function;
  - the seven weekday CSS classes;
  - the month-name table.
- Python's negative list indexing is modelled for `cssclasses[weekday]` and
  `month_name[themonth]`.
- The week grid comes from `Gregorian`, a Monday-first proleptic Gregorian
  layout. It plays the role of the library's `monthdays2calendar`.
- `Decimal` models Python's `%d`/`%s` rendering of integers, and parses it
  back.

What the rendered text means is stated with `MarkupReader`. This is a
reader for the table markup, written independently of the renderer. It
recovers the following from the text alone:

- the title;
- which rows are marked current;
- each cell's class and contents (plain text, or a link's address and text).

`CalendarMarkup` proves that reading the renderer's output gives back
exactly the intended view, piece by piece and for the whole table.
`MonthProperties` then states, over the real Gregorian grid:

- the table's shape;
- which row is the current week;
- which cell is today;
- where each date of the month appears and what it links to.

The read-back results assume `MarkupSafe`:

- the weekday classes contain no `"` and no space;
- the month names contain no `<`;
- the URLs built for day pages contain no `"`.

The renderer escapes nothing, so text outside these bounds would not read
back unambiguously.

A week is marked current when the reference day is among all of its day
numbers, padding zeros included (fedocal/fedocallib/fedora_calendar.py:102-103).
So reference day 0 marks every row that holds padding. See
`MonthProperties.CurrentWeekRule`.

## Model

| member | source | states |
|---|---|---|
| FedoraCalendar.FedocalCalendar.constructor | fedocal/fedocallib/fedora_calendar.py:28-36 | The calendar keeps the year, month, reference day and optional calendar name it is given. |
| FedoraCalendar.PyAt | fedocal/fedocallib/fedora_calendar.py:56 | Python list indexing: a non-negative index i yields element i, and a negative index i yields element i + len counted from the front. |
| FedoraCalendar.DayNumbers | fedocal/fedocallib/fedora_calendar.py:102-103 | A week has one day number per slot, padding zeros included. A number is among them exactly when some slot of the week holds it, which is the membership test `self.day in days`. |
| CalendarMarkup.CellMeaningFacts | fedocal/fedocallib/fedora_calendar.py:46-59 | A real day's cell has the weekday's class. It gains ` today` exactly when day, month and year equal the current date. Its contents are a link exactly when the calendar name is neither None nor empty. The link's address is the URL builder's result for `calendar_fullday` with this calendar name, year, month and day. Its text parses back as the day number. It is never the padding cell. |
| CalendarMarkup.DayCellReadBack | fedocal/fedocallib/fedora_calendar.py:38-59 | Reading a rendered cell recovers exactly the cell's intended view and stops right after the cell. A padding slot reads as class `noday` with text `&nbsp;`, whatever the calendar name or the current date. |
| CalendarMarkup.DayCellsReadBack | fedocal/fedocallib/fedora_calendar.py:69 | The joined cells of a week read back as one cell view per `(day, weekday)` pair, in order, with nothing in between. |
| CalendarMarkup.WeekRowReadBack | fedocal/fedocallib/fedora_calendar.py:62-73 | A week row reads back as marked current exactly when `current` holds. It holds the same cells either way. |
| CalendarMarkup.TitleRowReadBack | fedocal/fedocallib/fedora_calendar.py:75-86 | The title row reads back, between the two fixed placeholder links, as exactly the title text `MonthTitle` gives, and reading stops right after the row. |
| CalendarMarkup.WeekLinesReadBack | fedocal/fedocallib/fedora_calendar.py:101-107 | The week lines read back as exactly one row per week of the grid, in grid order. Each row is marked current exactly when the reference day is among the week's day numbers. |
| CalendarMarkup.MonthReadBack | fedocal/fedocallib/fedora_calendar.py:93-110 | The whole table reads back completely, as its opening tag, its title row, one row per week, and its closing tag ending the text. |
| FedoraCalendar.MonthTitle | fedocal/fedocallib/fedora_calendar.py:79-82 | The title starts with the month's name, looked up with Python indexing, and is exactly the name when no year is asked for. With the year, the name is followed by a space and text that parses back as the year. |
| FedoraCalendar.FedocalCalendar.DayLabel | fedocal/fedocallib/fedora_calendar.py:46-51 | A day's label. It has no ensures of its own; `CalendarMarkup.DayLabelReadBack` states that it reads back as a link to the day's page when the calendar has a name and as the bare number otherwise, and `CalendarMarkup.CellMeaningFacts` that its text parses back as the day. |
| FedoraCalendar.FedocalCalendar.FormatDay | fedocal/fedocallib/fedora_calendar.py:38-59 | One day as a table cell. It has no ensures of its own; `CalendarMarkup.DayCellReadBack` and `CalendarMarkup.CellMeaningFacts` state what the cell reads back as. |
| FedoraCalendar.FedocalCalendar.FormatWeek | fedocal/fedocallib/fedora_calendar.py:62-73 | One week as a table row. It has no ensures of its own; `CalendarMarkup.WeekRowReadBack` states that it reads back as current exactly when asked, with one cell per slot. |
| FedoraCalendar.FedocalCalendar.FormatMonthName | fedocal/fedocallib/fedora_calendar.py:75-86 | The title row. It has no ensures of its own; `CalendarMarkup.TitleRowReadBack` states that it reads back as the `MonthTitle` text. |
| FedoraCalendar.FedocalCalendar.WeekLines | fedocal/fedocallib/fedora_calendar.py:101-107 | One line per week of the grid: its row and a newline. Its ensures gives one line per week; `CalendarMarkup.WeekLinesReadBack` states what the lines read back as. |
| FedoraCalendar.FedocalCalendar.MonthMarkup | fedocal/fedocallib/fedora_calendar.py:93-110 | The text `formatmonth` joins. It has no ensures of its own; `CalendarMarkup.MonthReadBack` states that it reads back completely as the title and one row view per week. |
| FedoraCalendar.Append | fedocal/fedocallib/fedora_calendar.py:94 | Appending an item to the list of pieces extends the list by that item, and the joined text grows by exactly that item. |
| FedoraCalendar.FedocalCalendar.AppendWeeks | fedocal/fedocallib/fedora_calendar.py:101-107 | After the loop, the joined pieces are the earlier text followed by each week's row and a newline, in grid order. Each row is marked current exactly when the reference day is among the week's day numbers. |
| FedoraCalendar.FedocalCalendar.FormatMonth | fedocal/fedocallib/fedora_calendar.py:89-110 | A month-name index outside the table fails first, with the index error. A month outside 1..12 then fails in the grid layout. Otherwise the result is the month's table over the month's Gregorian grid. |
| MonthProperties.RenderedIsExpected | fedocal/fedocallib/fedora_calendar.py:89-110 | The table `formatmonth` renders for the calendar's own month reads back as its title and the intended view of each week of its grid. |
| MonthProperties.MonthGridIndexable | fedocal/fedocallib/fedora_calendar.py:56 | Every weekday in a month's grid indexes the seven weekday classes. |
| MonthProperties.MonthShape | fedocal/fedocallib/fedora_calendar.py:79-82 | The rendered month has the month's name as its title, with the year when asked, and four to six rows. There is one row per week of the grid, and every row has seven cells. |
| MonthProperties.CurrentWeekRule | fedocal/fedocallib/fedora_calendar.py:102-106 | Row i is marked current exactly when either of these holds: the reference day is a date of the month and falls in row i; or the reference day is 0 and row i holds padding. Any other reference day marks no row. |
| MonthProperties.TodayCellRule | fedocal/fedocallib/fedora_calendar.py:52-56 | Cell (i, j) carries `today` exactly when the current date is in this month and year, is a date of the month, and sits in slot (i, j). |
| MonthProperties.TodayCellUnique | fedocal/fedocallib/fedora_calendar.py:52-56 | Some cell carries `today` exactly when the current date is a date of the rendered month and year, and no two cells carry it. |
| MonthProperties.DateCell | fedocal/fedocallib/fedora_calendar.py:46-59 | Each date of the month sits in the column of its weekday, with that weekday's class. Its text reads back as the date. It links to the date's page exactly when the calendar has a name. |
| MonthProperties.PaddingCell | fedocal/fedocallib/fedora_calendar.py:43-44 | A cell is the blank `noday` cell exactly when its slot lies before the first or after the last date of the month. |
| MonthProperties.February2024Table | fedocal/fedocallib/fedora_calendar.py:101-104 | February 2024 renders five rows. With reference day 14, exactly the third row, the one holding the 14th, is marked current. |
| Gregorian.MonthDays2Calendar | fedocal/fedocallib/fedora_calendar.py:101 | The grid layout succeeds exactly for months 1..12 and fails, carrying the month, for any other month. |
| Gregorian.MonthGrid | fedocal/fedocallib/fedora_calendar.py:101 | A month's grid has four to six weeks of seven slots. Column j is weekday j, Monday first. Every slot holds 0 or a date of the month. |
| Gregorian.GridSlot | fedocal/fedocallib/fedora_calendar.py:101 | The slot in row i, column j holds the (7i+j)-th position of the month in reading order: a date after the leading blanks, 0 outside the month. |
| Gregorian.GridPlacesEachDateOnce | fedocal/fedocallib/fedora_calendar.py:101 | Every date of the month appears in exactly one slot of the grid, under its own weekday. |
| Gregorian.WeekdayStep | fedocal/fedocallib/fedora_calendar.py:101 | The weekday of a date is the weekday of the 1st shifted by the date's offset, modulo 7. |
| Gregorian.February2024 | fedocal/fedocallib/fedora_calendar.py:101 | 1 February 2024 is a Thursday, and that month's grid has five weeks. |
| Decimal.IntToString | fedocal/fedocallib/fedora_calendar.py:48 | An integer renders as decimal digits, with a leading `-` exactly when it is negative. |
| Decimal.IntRoundTrip | fedocal/fedocallib/fedora_calendar.py:48 | The decimal rendering of any integer parses back to that integer. |

## Left out

- The URL builder is a total function parameter. Its failures (a missing route, routing context) and its escaping are not modelled.
- The current date is read once per rendering. The source reads the clock once per cell, so a rendering that straddles midnight could mark two dates. That is not modelled.
- The grid is computed by the model's own Monday-first Gregorian calendar. The library's locale and first-weekday settings and its year-range limits are not modelled. The weekday classes and the month names are inputs.
- The commented-out week-header row and the inherited HTML-calendar methods that this class does not override are not modelled.
- HTML validity and escaping are not modelled. The placeholder links' literal `<` and `>` are copied as text.
- FedoraCalendar.FedocalCalendar.FormatDay: requires the weekday to index the seven classes. The source would raise IndexError instead, which the month grid never triggers (see `MonthProperties.MonthGridIndexable`).
- FedoraCalendar.FedocalCalendar.FormatMonthName: requires the month to index the month-name table. For a month outside -13..12 the source raises IndexError at the month-name lookup instead. `FedoraCalendar.MonthTitle` has the same requires. Their one caller, `FormatMonth`, models that error as `MonthNameIndexError` before calling them.
- Gregorian.MonthDays2Calendar: models only that the grid fails for a month outside 1..12, not the type of the exception the library raises. That type depends on the library version, which is not part of this model.
- FedoraCalendar.FedocalCalendar.FormatMonth: requires the weekday-class and month-name tables to have the library's sizes (7 and 13).
- CalendarMarkup.MonthReadBack: holds only for weekday classes without `"` or spaces, month names without `<` and URLs without `"` (`MarkupSafe`). Outside those bounds the unescaped markup does not read back unambiguously.
- Arguments are modelled with the types the code uses them with: integers, an optional string, booleans. Python's dynamic typing is not modelled.
