/**
 * A reader for the calendar's table markup, written independently of the
 * renderer: it recovers, from the text alone, the title, which rows are
 * marked current, and each cell's class and contents (plain text or a link).
 * Reading back what the renderer wrote is how the properties of the
 * rendered text are stated.
 */
module MarkupReader {
  import opened Wrappers
  import opened Strings

  /** The contents of a cell: plain text, or a link with its target and its visible text. */
  datatype Content = Text(text: string) | Anchor(href: string, text: string)

  datatype CellView = CellView(cls: string, content: Content)

  datatype RowView = RowView(current: bool, cells: seq<CellView>)

  datatype MonthView = MonthView(title: string, rows: seq<RowView>)

  /** A class attribute that carries the extra class `today`. */
  predicate HasTodayClass(cls: string) {
    EndsWith(cls, " today")
  }

  function ReadContent(s: string): (r: Option<(Content, string)>)
    ensures r.Some? ==> |r.value.1| <= |s|
  {
    match StripPrefix("<a href=\"", s)
    case Some(s1) =>
      var (href, s2) := ReadUntil('"', s1);
      (match StripPrefix("\">", s2)
       case None => None
       case Some(s3) =>
         var (text, s4) := ReadUntil('<', s3);
         match StripPrefix("</a>", s4)
         case None => None
         case Some(s5) => Some((Anchor(href, text), s5)))
    case None =>
      var (text, s1) := ReadUntil('<', s);
      Some((Text(text), s1))
  }

  function ReadCell(s: string): (r: Option<(CellView, string)>)
    ensures r.Some? ==> |r.value.1| < |s|
  {
    match StripPrefix("<td class=\"", s)
    case None => None
    case Some(s1) =>
      var (cls, s2) := ReadUntil('"', s1);
      match StripPrefix("\">", s2)
      case None => None
      case Some(s3) =>
        match ReadContent(s3)
        case None => None
        case Some((content, s4)) =>
          match StripPrefix("</td>", s4)
          case None => None
          case Some(s5) => Some((CellView(cls, content), s5))
  }

  /** Reads cells for as long as there are cells to read. */
  function ReadCells(s: string): (r: (seq<CellView>, string))
    ensures |r.1| <= |s|
    decreases |s|
  {
    match ReadCell(s)
    case None => ([], s)
    case Some((cell, s1)) =>
      var (cells, s2) := ReadCells(s1);
      ([cell] + cells, s2)
  }

  /** The opening tag of a row: whether it carries the class current_week. */
  function ReadRowOpen(s: string): (r: Option<(bool, string)>)
    ensures r.Some? ==> |r.value.1| < |s|
  {
    match StripPrefix("<tr class=\"current_week\">", s)
    case Some(s1) => Some((true, s1))
    case None =>
      match StripPrefix("<tr>", s)
      case Some(s1) => Some((false, s1))
      case None => None
  }

  function ReadRow(s: string): (r: Option<(RowView, string)>)
    ensures r.Some? ==> |r.value.1| < |s|
  {
    match ReadRowOpen(s)
    case None => None
    case Some((current, s1)) =>
      var (cells, s2) := ReadCells(s1);
      match StripPrefix("</tr>", s2)
      case None => None
      case Some(s3) => Some((RowView(current, cells), s3))
  }

  /** Reads rows, each ended by a newline, for as long as there are rows to read. */
  function ReadRows(s: string): (r: (seq<RowView>, string))
    ensures |r.1| <= |s|
    decreases |s|
  {
    match ReadRow(s)
    case None => ([], s)
    case Some((row, s1)) =>
      match StripPrefix("\n", s1)
      case None => ([], s)
      case Some(s2) =>
        var (rows, s3) := ReadRows(s2);
        ([row] + rows, s3)
  }

  /** The title row: the text between the two placeholder links, each followed or preceded by a space. */
  function ReadTitleRow(s: string): (r: Option<(string, string)>) {
    match StripPrefix("<tr><th colspan=\"7\" class=\"month\">", s)
    case None => None
    case Some(s1) =>
      match StripPrefix("<a class=\"button\" href=\"#\"><</a>", s1)
      case None => None
      case Some(s2) =>
        match StripPrefix(" ", s2)
        case None => None
        case Some(s3) =>
          var (text, s4) := ReadUntil('<', s3);
          if text == [] || text[|text| - 1] != ' ' then None
          else
            match StripPrefix("<a class=\"button\" href=\"#\">></a>", s4)
            case None => None
            case Some(s5) =>
              match StripPrefix("</th></tr>", s5)
              case None => None
              case Some(s6) => Some((text[..|text| - 1], s6))
  }

  /** A whole month table, which must end the text. */
  function ReadMonth(s: string): (r: Option<MonthView>) {
    match StripPrefix("<table class=\"month\">", s)
    case None => None
    case Some(s1) =>
      match StripPrefix("\n", s1)
      case None => None
      case Some(s2) =>
        match ReadTitleRow(s2)
        case None => None
        case Some((title, s3)) =>
          match StripPrefix("\n", s3)
          case None => None
          case Some(s4) =>
            var (rows, s5) := ReadRows(s4);
            if s5 == "</table>" + "\n" then Some(MonthView(title, rows)) else None
  }

  /** Text without '<' reads back as plain text, up to the next tag. */
  lemma ReadTextContent(t: string, rest: string)
    requires t != [] && '<' !in t
    requires rest == [] || rest[0] == '<'
    ensures ReadContent(t + rest) == Some((Text(t), rest))
  {
    assert t[0] in t;
    assert (t + rest)[0] == t[0];
    ReadUntilSplit('<', t, rest);
  }

  /** A link whose target has no '"' and whose text has no '<' reads back as that link. */
  lemma ReadAnchorContent(href: string, text: string, rest: string)
    requires '"' !in href && '<' !in text
    requires rest == [] || rest[0] == '<'
    ensures ReadContent("<a href=\"" + href + "\">" + text + "</a>" + rest) == Some((Anchor(href, text), rest))
  {
    var tail := "</a>" + rest;
    var s3 := text + tail;
    var s2 := "\">" + s3;
    var s1 := href + s2;
    Regroup5("<a href=\"", href, "\">", text, tail);
    assert "<a href=\"" + href + "\">" + text + "</a>" + rest == "<a href=\"" + href + "\">" + text + tail;
    StripPrefixOf("<a href=\"", s1);
    ReadUntilSplit('"', href, s2);
    StripPrefixOf("\">", s3);
    ReadUntilSplit('<', text, tail);
    StripPrefixOf("</a>", rest);
  }

  /** A cell whose class has no '"' reads back as that class and the contents its body reads as. */
  lemma ReadCellOf(cls: string, body: string, content: Content, rest: string)
    requires '"' !in cls
    requires ReadContent(body + ("</td>" + rest)) == Some((content, "</td>" + rest))
    ensures ReadCell("<td class=\"" + cls + "\">" + body + "</td>" + rest) == Some((CellView(cls, content), rest))
  {
    var s3 := body + ("</td>" + rest);
    var s2 := "\">" + s3;
    var s1 := cls + s2;
    Regroup5("<td class=\"", cls, "\">", body, "</td>" + rest);
    assert "<td class=\"" + cls + "\">" + body + "</td>" + rest == "<td class=\"" + cls + "\">" + body + ("</td>" + rest);
    StripPrefixOf("<td class=\"", s1);
    ReadUntilSplit('"', cls, s2);
    StripPrefixOf("\">", s3);
    StripPrefixOf("</td>", rest);
  }

  /** One step of reading cells: stop at the first text that is not a cell. */
  lemma ReadCellsStep(s: string)
    ensures ReadCell(s).None? ==> ReadCells(s) == ([], s)
    ensures ReadCell(s).Some? ==>
      ReadCells(s) == ([ReadCell(s).value.0] + ReadCells(ReadCell(s).value.1).0, ReadCells(ReadCell(s).value.1).1)
  {
  }

  /** A cell followed by more cells read back as that cell's view followed by theirs. */
  lemma ReadCellsCons(cell: string, view: CellView, more: string, views: seq<CellView>, rest: string)
    requires ReadCell(cell + (more + rest)) == Some((view, more + rest))
    requires ReadCells(more + rest) == (views, rest)
    ensures ReadCells(cell + (more + rest)) == ([view] + views, rest)
  {
    ReadCellsStep(cell + (more + rest));
  }

  /** A row followed by a newline and more rows read back as that row followed by the others. */
  lemma ReadRowsCons(line: string, view: RowView, more: string, views: seq<RowView>, rest: string)
    requires ReadRow(line + ("\n" + (more + rest))) == Some((view, "\n" + (more + rest)))
    requires ReadRows(more + rest) == (views, rest)
    ensures ReadRows(line + "\n" + more + rest) == ([view] + views, rest)
  {
    Regroup4(line, "\n", more, rest);
    ReadRowsStep(view, line + ("\n" + (more + rest)), more + rest);
  }

  /** The opening tag of a row, with or without the class current_week, read back as that mark. */
  lemma ReadRowOpenOf(current: bool, s: string)
    ensures ReadRowOpen((if current then "<tr class=\"current_week\">" else "<tr>") + s) == Some((current, s))
  {
    if current {
      StripPrefixOf("<tr class=\"current_week\">", s);
    } else {
      NotStartsWith("<tr>" + s, "<tr class=\"current_week\">", 3);
      StripPrefixOf("<tr>", s);
    }
  }

  /** A row tag, a body that reads as `cells` up to the closing tag, and the closing tag read back as one row. */
  lemma ReadRowOf(current: bool, body: string, cells: seq<CellView>, rest: string)
    requires ReadCells(body + ("</tr>" + rest)) == (cells, "</tr>" + rest)
    ensures ReadRow((if current then "<tr class=\"current_week\">" else "<tr>") + body + "</tr>" + rest)
      == Some((RowView(current, cells), rest))
  {
    var open := if current then "<tr class=\"current_week\">" else "<tr>";
    var s1 := body + ("</tr>" + rest);
    Regroup4(open, body, "</tr>", rest);
    ReadRowOpenOf(current, s1);
    StripPrefixOf("</tr>", rest);
  }

  /** One step of reading rows: a row followed by a newline, or the end of the rows. */
  lemma ReadRowsStep(row: RowView, s: string, rest: string)
    requires ReadRow(s) == Some((row, "\n" + rest))
    ensures ReadRows(s) == ([row] + ReadRows(rest).0, ReadRows(rest).1)
  {
    StripPrefixOf("\n", rest);
  }

  lemma ReadRowsStop(s: string)
    requires ReadRow(s).None?
    ensures ReadRows(s) == ([], s)
  {
  }

  /** A title without '<' between the two placeholder links reads back as that title. */
  lemma ReadTitleRowOf(title: string, rest: string)
    requires '<' !in title
    ensures ReadTitleRow("<tr><th colspan=\"7\" class=\"month\">" + "<a class=\"button\" href=\"#\"><</a>" + " "
      + title + " " + "<a class=\"button\" href=\"#\">></a>" + "</th></tr>" + rest) == Some((title, rest))
  {
    var head, prev, next, close := "<tr><th colspan=\"7\" class=\"month\">", "<a class=\"button\" href=\"#\"><</a>",
      "<a class=\"button\" href=\"#\">></a>", "</th></tr>";
    var text := title + " ";
    var s4 := next + (close + rest);
    assert '<' !in text;
    Regroup4(text, next, close, rest);
    Regroup4(title, " ", next + close, rest);
    Regroup5(head, prev, " ", title + " " + next + close, rest);
    assert head + prev + " " + title + " " + next + close + rest == head + (prev + (" " + (text + s4)));
    StripPrefixOf(head, prev + (" " + (text + s4)));
    StripPrefixOf(prev, " " + (text + s4));
    StripPrefixOf(" ", text + s4);
    ReadUntilSplit('<', text, s4);
    StripPrefixOf(next, close + rest);
    StripPrefixOf(close, rest);
    assert text[..|text| - 1] == title;
  }

  /** The table's frame around a title row and week rows that read back, read back as the whole month. */
  lemma ReadMonthOf(titleRow: string, title: string, body: string, rows: seq<RowView>)
    requires ReadTitleRow(titleRow + ("\n" + (body + ("</table>" + "\n"))))
      == Some((title, "\n" + (body + ("</table>" + "\n"))))
    requires ReadRows(body + ("</table>" + "\n")) == (rows, "</table>" + "\n")
    ensures ReadMonth("<table class=\"month\">" + "\n" + titleRow + "\n" + body + "</table>" + "\n")
      == Some(MonthView(title, rows))
  {
    var open, nl, close := "<table class=\"month\">", "\n", "</table>";
    var s3 := nl + (body + (close + nl));
    var s2 := titleRow + s3;
    Regroup7(open, nl, titleRow, nl, body, close, nl);
    StripPrefixOf(open, nl + s2);
    StripPrefixOf(nl, s2);
    StripPrefixOf(nl, body + (close + nl));
  }
}
