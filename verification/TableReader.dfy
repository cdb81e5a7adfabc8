/** Reading the HTML text of a table back: the caption, and of every cell its
    spans and its text. */
module TableReader {
  import opened Options
  import opened Strings
  import opened Utf8
  import opened Sheet
  import opened SheetTable
  import Concat
  import Entities

  // ------------------------------------------------------------------ the reader

  /** The attribute at the start of `s`, a space, a name and a quoted value, and
      the length it takes. */
  function ReadAttribute(s: string): (r: Option<(string, string, nat)>)
    ensures r.Some? ==> 0 < r.value.2 <= |s|
  {
    match Find(s, "=\"")
    case None => None
    case Some(i) =>
      match Find(s[i + 2..], "\"")
      case None => None
      case Some(j) => Some((s[..i], s[i + 2..i + 2 + j], i + 2 + j + 1))
  }

  function ReadAttributes(s: string): map<string, string> {
    match ReadAttribute(s)
    case None => map[]
    case Some((name, value, n)) => map[name := value] + ReadAttributes(s[n..])
  }

  function SpanIn(attributes: map<string, string>, name: string): nat {
    if name in attributes then Number(attributes[name]) else 1
  }

  datatype Td = Td(span: Span, text: string)

  /** The table cell at the start of `s`, and the length it takes. */
  function ReadCell(s: string): (r: Option<(Td, nat)>)
    ensures r.Some? ==> 0 < r.value.1 <= |s|
  {
    if !("<td" <= s) then None
    else
      match Find(s, ">")
      case None => None
      case Some(i) =>
        match Find(s[i + 1..], "</td>")
        case None => None
        case Some(j) =>
          if i < 3 then None
          else
            var attributes := ReadAttributes(s[3..i]);
            Some((Td(Span(SpanIn(attributes, " rowspan"), SpanIn(attributes, " colspan")),
                     Entities.DecodeBasicEntities(s[i + 1..i + 1 + j])),
                  i + 1 + j + 5))
  }

  /** The cells at the start of `s`, and the length they take. */
  function ReadCells(s: string): (r: (seq<Td>, nat))
    ensures r.1 <= |s|
  {
    match ReadCell(s)
    case None => ([], 0)
    case Some((cell, n)) => ([cell] + ReadCells(s[n..]).0, n + ReadCells(s[n..]).1)
  }

  /** The rows of which `s` consists, up to what closes the table. */
  function ReadRows(s: string): Option<seq<seq<Td>>> {
    if s == "</table>" then Some([])
    else if !("<tr>" <= s) then None
    else
      var (cells, n) := ReadCells(s[4..]);
      if !("</tr>" <= s[4 + n..]) then None
      else
        match ReadRows(s[4 + n + 5..])
        case None => None
        case Some(rows) => Some([cells] + rows)
  }

  function ReadTable(s: string): Option<(string, seq<seq<Td>>)> {
    if !("<table><caption>" <= s) then None
    else
      match Find(s[16..], "</caption>")
      case None => None
      case Some(i) =>
        match ReadRows(s[16 + i + 10..])
        case None => None
        case Some(rows) => Some((Entities.DecodeBasicEntities(s[16..16 + i]), rows))
  }

  // ------------------------------------------------------------------- numerals

  lemma {:induction false} DigitsQuiet(n: nat)
    ensures '"' !in Digits(n) && '>' !in Digits(n)
  {
    if n >= 10 {
      DigitsQuiet(n / 10);
    }
  }

  // ----------------------------------------------------------------- attributes

  lemma ReadOneOf(s: string, i: nat, j: nat)
    requires Find(s, "=\"") == Some(i) && i + 2 <= |s|
    requires Find(s[i + 2..], "\"") == Some(j) && i + 2 + j + 1 <= |s|
    ensures ReadAttribute(s) == Some((s[..i], s[i + 2..i + 2 + j], i + 2 + j + 1))
  {
    hide Find;
  }

  function AttributeText(name: string, value: string, rest: string): string {
    name + "=\"" + value + "\"" + rest
  }

  lemma AttributePieces(name: string, value: string, rest: string)
    ensures var s, n := AttributeText(name, value, rest), |name| + 2;
            && |s| == n + |value| + 1 + |rest| && s[..|name|] == name && s[n..n + |value|] == value
            && s[n + |value| + 1..] == rest
  {
  }

  lemma AttributeEnds(name: string, value: string, rest: string)
    requires '=' !in name && '"' !in value
    ensures var s, n := AttributeText(name, value, rest), |name| + 2;
            && n <= |s| && Find(s, "=\"") == Some(|name|) && Find(s[n..], "\"") == Some(|value|)
  {
    hide Find;
    var after := value + "\"" + rest;
    FindClosing(name, "=\"", after);
    FindClosing(value, "\"", rest);
    assert AttributeText(name, value, rest) == name + "=\"" + after;
    Cut(name, "=\"", after);
  }

  /** Reading one attribute and then the rest. */
  lemma ReadOne(name: string, value: string, rest: string)
    requires '=' !in name && '"' !in value
    ensures ReadAttributes(AttributeText(name, value, rest)) == map[name := value] + ReadAttributes(rest)
  {
    hide Find, ReadAttribute, AttributeText;
    AttributePieces(name, value, rest);
    AttributeEnds(name, value, rest);
    ReadOneOf(AttributeText(name, value, rest), |name|, |value|);
  }

  lemma Cut(a: string, b: string, c: string)
    ensures (a + b + c)[..|a|] == a && (a + b + c)[|a|..|a| + |b|] == b && (a + b + c)[|a| + |b|..] == c
  {
  }

  lemma RowspanShape(n: nat, rest: string)
    ensures RowspanText(n) + rest == AttributeText(" rowspan", Digits(n), rest)
    ensures '>' !in RowspanText(n)
  {
    hide Digits;
    DigitsQuiet(n);
    assert " rowspan=\"" == " rowspan" + "=\"";
  }

  lemma ColspanShape(n: nat, rest: string)
    ensures ColspanText(n) + rest == AttributeText(" colspan", Digits(n), rest)
    ensures '>' !in ColspanText(n)
  {
    hide Digits;
    DigitsQuiet(n);
    assert " colspan=\"" == " colspan" + "=\"";
  }

  lemma ReadRowspan(n: nat, rest: string)
    ensures ReadAttributes(RowspanText(n) + rest) == map[" rowspan" := Digits(n)] + ReadAttributes(rest)
  {
    hide ReadAttributes, Digits, AttributeText;
    RowspanShape(n, rest);
    DigitsQuiet(n);
    ReadOne(" rowspan", Digits(n), rest);
  }

  lemma ReadColspan(n: nat, rest: string)
    ensures ReadAttributes(ColspanText(n) + rest) == map[" colspan" := Digits(n)] + ReadAttributes(rest)
  {
    hide ReadAttributes, Digits, AttributeText;
    ColspanShape(n, rest);
    DigitsQuiet(n);
    ReadOne(" colspan", Digits(n), rest);
  }

  lemma OneSpan(name: string, value: string, rest: map<string, string>)
    ensures SpanIn(map[name := value] + rest, name) == if name in rest then Number(rest[name]) else Number(value)
    ensures forall other :: other != name ==> SpanIn(map[name := value] + rest, other) == SpanIn(rest, other)
  {
    hide Number;
  }

  lemma NoAttributes()
    ensures ReadAttributes([]) == map[]
  {
  }

  lemma TwoNames()
    ensures " rowspan" != " colspan"
  {
    assert " rowspan"[1] == 'r' && " colspan"[1] == 'c';
  }

  lemma BothSpans(rows: nat, cols: nat)
    ensures var read := ReadAttributes(RowspanText(rows) + ColspanText(cols));
            SpanIn(read, " rowspan") == rows && SpanIn(read, " colspan") == cols
  {
    hide Digits, Number, RowspanText, ColspanText, ReadAttributes, SpanIn;
    ReadRowspan(rows, ColspanText(cols));
    OnlyColspan(cols);
    OneSpan(" rowspan", Digits(rows), ReadAttributes(ColspanText(cols)));
    TwoNames();
    NumberOfDigits(rows);
  }

  lemma OnlyColspan(cols: nat)
    ensures var read := ReadAttributes(ColspanText(cols));
            " rowspan" !in read && SpanIn(read, " rowspan") == 1 && SpanIn(read, " colspan") == cols
  {
    hide Digits, Number, ColspanText, ReadAttributes;
    ReadColspan(cols, []);
    assert ColspanText(cols) + [] == ColspanText(cols);
    NoAttributes();
    TwoNames();
    NumberOfDigits(cols);
  }

  lemma OnlyRowspan(rows: nat)
    ensures var read := ReadAttributes(RowspanText(rows));
            SpanIn(read, " rowspan") == rows && SpanIn(read, " colspan") == 1
  {
    hide Digits, Number, RowspanText, ReadAttributes;
    ReadRowspan(rows, []);
    assert RowspanText(rows) + [] == RowspanText(rows);
    NoAttributes();
    TwoNames();
    NumberOfDigits(rows);
  }

  /** The spans come back from the attributes, also when they are not written. */
  lemma SpansComeBack(span: Span)
    requires span.rows >= 1 && span.cols >= 1
    ensures var read := ReadAttributes(Attributes(span));
            SpanIn(read, " rowspan") == span.rows && SpanIn(read, " colspan") == span.cols
  {
    hide RowspanText, ColspanText, ReadAttributes;
    BothSpans(span.rows, span.cols);
    OnlyRowspan(span.rows);
    OnlyColspan(span.cols);
    NoAttributes();
  }

  lemma AttributesQuiet(span: Span)
    ensures '>' !in Attributes(span)
  {
    hide RowspanText, ColspanText;
    RowspanShape(span.rows, []);
    ColspanShape(span.cols, []);
  }

  // ---------------------------------------------------------------------- cells

  function CellText(attributes: string, text: string, rest: string): string {
    "<td" + attributes + ">" + text + "</td>" + rest
  }

  lemma CellPieces(attributes: string, text: string, rest: string)
    ensures var s, n := CellText(attributes, text, rest), |attributes| + 3;
            && |s| == n + |text| + 6 + |rest|
            && s[3..n] == attributes && s[n + 1..] == text + "</td>" + rest && s[n + 1..n + 1 + |text|] == text
  {
  }

  lemma CellAgain(attributes: string, text: string, rest: string)
    ensures CellText(attributes, text, rest) == ("<td" + attributes) + ">" + (text + "</td>" + rest)
  {
  }

  lemma ReadCellOf(s: string, i: nat, j: nat)
    requires "<td" <= s && 3 <= i < |s| && Find(s, ">") == Some(i)
    requires Find(s[i + 1..], "</td>") == Some(j) && i + 1 + j <= |s|
    ensures var read := ReadAttributes(s[3..i]);
            ReadCell(s) == Some((Td(Span(SpanIn(read, " rowspan"), SpanIn(read, " colspan")),
                                    Entities.DecodeBasicEntities(s[i + 1..i + 1 + j])), i + 1 + j + 5))
  {
    hide Find, ReadAttributes, SpanIn, Entities.DecodeBasicEntities;
  }

  lemma CellOpens(attributes: string, text: string, rest: string)
    ensures "<td" <= CellText(attributes, text, rest)
  {
  }

  lemma TagQuiet(attributes: string)
    requires '>' !in attributes
    ensures '>' !in "<td" + attributes
  {
  }

  lemma CellEnds(attributes: string, text: string, rest: string)
    requires '>' !in attributes && '<' !in text
    ensures var s, n := CellText(attributes, text, rest), |attributes| + 3;
            && n + 1 <= |s| && Find(s, ">") == Some(n) && Find(s[n + 1..], "</td>") == Some(|text|)
  {
    hide Find, CellText;
    CellPieces(attributes, text, rest);
    CellAgain(attributes, text, rest);
    TagQuiet(attributes);
    FindClosing("<td" + attributes, ">", text + "</td>" + rest);
    FindClosing(text, "</td>", rest);
  }

  lemma ReadCellParts(attributes: string, text: string, rest: string)
    requires '>' !in attributes && '<' !in text
    ensures var read := ReadAttributes(attributes);
            ReadCell(CellText(attributes, text, rest))
            == Some((Td(Span(SpanIn(read, " rowspan"), SpanIn(read, " colspan")),
                        Entities.DecodeBasicEntities(text)), |attributes| + |text| + 9))
  {
    hide Find, ReadAttributes, ReadCell, SpanIn, CellText, Entities.DecodeBasicEntities;
    CellPieces(attributes, text, rest);
    CellOpens(attributes, text, rest);
    CellEnds(attributes, text, rest);
    ReadCellOf(CellText(attributes, text, rest), |attributes| + 3, |text|);
  }

  lemma CellComesBack(cell: Cell, text: string, rest: string)
    requires cell.span.rows >= 1 && cell.span.cols >= 1
    ensures ReadCell(CellMarkup(cell, text) + rest) == Some((Td(cell.span, text), |CellMarkup(cell, text)|))
  {
    hide ReadCell, ReadAttributes, SpanIn, Attributes, Entities.HtmlEscape, Entities.DecodeBasicEntities;
    SpansComeBack(cell.span);
    AttributesQuiet(cell.span);
    Entities.EscapeLeavesNoMarkup(text);
    Entities.DecodeUndoesEscape(text);
    ReadCellParts(Attributes(cell.span), Entities.HtmlEscape(text), rest);
  }

  // ----------------------------------------------------------------------- rows

  /** What a reader should find of a row. */
  function TdsOf(cells: seq<Cell>, texts: seq<string>): seq<Td>
    requires Within(cells, |texts|)
  {
    seq(|cells|, i requires 0 <= i < |cells| => Td(cells[i].span, texts[cells[i].col]))
  }

  lemma {:induction false} RowMarkupFirst(cells: seq<Cell>, texts: seq<string>)
    requires Within(cells, |texts|) && cells != []
    ensures RowMarkup(cells, texts) == CellMarkup(cells[0], texts[cells[0].col]) + RowMarkup(cells[1..], texts)
  {
    hide CellMarkup;
    var n := |cells| - 1;
    if n > 0 {
      RowMarkupFirst(cells[..n], texts);
      assert cells[..n][1..] == cells[1..][..n - 1];
      Concat.AppendAssoc(CellMarkup(cells[0], texts[cells[0].col]), RowMarkup(cells[1..][..n - 1], texts),
                         CellMarkup(cells[n], texts[cells[n].col]));
    } else {
      assert cells[..0] == [] && cells[1..] == [];
    }
  }

  ghost predicate SpansPositive(cells: seq<Cell>) {
    forall i :: 0 <= i < |cells| ==> cells[i].span.rows >= 1 && cells[i].span.cols >= 1
  }

  lemma NoCell(rest: string)
    ensures ReadCell("</tr>" + rest) == None
  {
    var s := "</tr>" + rest;
    assert s[1] == '/';
  }

  lemma {:induction false} CellsComeBack(cells: seq<Cell>, texts: seq<string>, rest: string)
    requires Within(cells, |texts|) && SpansPositive(cells)
    ensures ReadCells(RowMarkup(cells, texts) + ("</tr>" + rest)) == (TdsOf(cells, texts), |RowMarkup(cells, texts)|)
    decreases |cells|
  {
    hide CellMarkup, ReadCell;
    var tail := "</tr>" + rest;
    if cells == [] {
      NoCell(rest);
      assert [] + tail == tail;
    } else {
      var first, more := CellMarkup(cells[0], texts[cells[0].col]), RowMarkup(cells[1..], texts);
      RowMarkupFirst(cells, texts);
      Concat.AppendAssoc(first, more, tail);
      CellComesBack(cells[0], texts[cells[0].col], more + tail);
      CellsComeBack(cells[1..], texts, rest);
      assert (first + (more + tail))[|first|..] == more + tail;
      assert TdsOf(cells, texts) == [TdsOf(cells, texts)[0]] + TdsOf(cells[1..], texts);
    }
  }

  // ---------------------------------------------------------------------- table

  /** The rows of the body from row `n` on, and what closes the table. */
  function BodyFrom(merges: seq<Merge>, rows: seq<seq<string>>, n: nat): string
    requires n <= |rows| && forall i :: 0 <= i < |merges| ==> merges[i].WellFormed()
    decreases |rows| - n
  {
    if n == |rows| then "</table>"
    else
      RowCellsWithin(merges, n, |rows[n]|);
      "<tr>" + RowMarkup(RowCells(merges, n, |rows[n]|), rows[n]) + "</tr>" + BodyFrom(merges, rows, n + 1)
  }

  function RowText(merges: seq<Merge>, row: nat, texts: seq<string>): string
    requires forall i :: 0 <= i < |merges| ==> merges[i].WellFormed()
  {
    RowCellsWithin(merges, row, |texts|);
    "<tr>" + RowMarkup(RowCells(merges, row, |texts|), texts) + "</tr>"
  }

  lemma BodyNext(merges: seq<Merge>, rows: seq<seq<string>>, n: nat)
    requires n < |rows| && forall i :: 0 <= i < |merges| ==> merges[i].WellFormed()
    ensures Body(merges, rows, n + 1) == Body(merges, rows, n) + RowText(merges, n, rows[n])
    ensures BodyFrom(merges, rows, n) == RowText(merges, n, rows[n]) + BodyFrom(merges, rows, n + 1)
  {
    hide RowMarkup, RowCells;
  }

  lemma {:induction false} BodySplit(merges: seq<Merge>, rows: seq<seq<string>>, n: nat)
    requires n <= |rows| && forall i :: 0 <= i < |merges| ==> merges[i].WellFormed()
    ensures Body(merges, rows, n) + BodyFrom(merges, rows, n) == Body(merges, rows, |rows|) + "</table>"
    decreases |rows| - n
  {
    hide RowText, Body;
    if n < |rows| {
      BodySplit(merges, rows, n + 1);
      BodyNext(merges, rows, n);
      Concat.AppendAssoc(Body(merges, rows, n), RowText(merges, n, rows[n]), BodyFrom(merges, rows, n + 1));
    }
  }

  /** What a reader should find of the rows from row `n` on. */
  function RowsOf(merges: seq<Merge>, rows: seq<seq<string>>, n: nat): seq<seq<Td>>
    requires n <= |rows| && forall i :: 0 <= i < |merges| ==> merges[i].WellFormed()
    decreases |rows| - n
  {
    if n == |rows| then []
    else
      RowCellsWithin(merges, n, |rows[n]|);
      [TdsOf(RowCells(merges, n, |rows[n]|), rows[n])] + RowsOf(merges, rows, n + 1)
  }

  lemma {:induction false} SpansArePositive(merges: seq<Merge>, row: nat, n: nat)
    requires forall i :: 0 <= i < |merges| ==> merges[i].WellFormed()
    ensures SpansPositive(RowCells(merges, row, n))
  {
    hide Covered;
    if n > 0 {
      SpansArePositive(merges, row, n - 1);
    }
  }

  lemma ReadRow(cells: seq<Td>, markup: string, rest: string, rows: seq<seq<Td>>)
    requires ReadCells(markup + ("</tr>" + rest)) == (cells, |markup|)
    requires ReadRows(rest) == Some(rows)
    ensures ReadRows("<tr>" + markup + "</tr>" + rest) == Some([cells] + rows)
  {
    hide ReadCells;
    var s := "<tr>" + markup + "</tr>" + rest;
    RowPieces(markup, rest);
    assert s != "</table>";
  }

  lemma RowPieces(markup: string, rest: string)
    ensures var s := "<tr>" + markup + "</tr>" + rest;
            && "<tr>" <= s && |s| == 9 + |markup| + |rest| && s != "</table>"
            && s[4..] == markup + ("</tr>" + rest) && "</tr>" <= s[4 + |markup|..] && s[9 + |markup|..] == rest
  {
    var s := "<tr>" + markup + "</tr>" + rest;
    assert s[2] == 'r' && "</table>"[2] == 't';
    assert s[4 + |markup|..] == "</tr>" + rest;
  }

  lemma {:induction false} RowsComeBack(merges: seq<Merge>, rows: seq<seq<string>>, n: nat)
    requires n <= |rows| && forall i :: 0 <= i < |merges| ==> merges[i].WellFormed()
    ensures ReadRows(BodyFrom(merges, rows, n)) == Some(RowsOf(merges, rows, n))
    decreases |rows| - n
  {
    hide RowMarkup, RowCells, ReadCells, TdsOf;
    if n < |rows| {
      var cells := RowCells(merges, n, |rows[n]|);
      RowCellsWithin(merges, n, |rows[n]|);
      SpansArePositive(merges, n, |rows[n]|);
      RowsComeBack(merges, rows, n + 1);
      CellsComeBack(cells, rows[n], BodyFrom(merges, rows, n + 1));
      ReadRow(TdsOf(cells, rows[n]), RowMarkup(cells, rows[n]), BodyFrom(merges, rows, n + 1), RowsOf(merges, rows, n + 1));
    }
  }

  lemma CaptionPieces(caption: string, rest: string)
    requires '<' !in caption
    ensures var s := "<table>" + ("<caption>" + caption + "</caption>") + rest;
            && "<table><caption>" <= s && |s| == 26 + |caption| + |rest|
            && s[16..] == caption + "</caption>" + rest && s[16..16 + |caption|] == caption
            && s[26 + |caption|..] == rest && Find(s[16..], "</caption>") == Some(|caption|)
  {
    hide Find;
    var s := "<table>" + ("<caption>" + caption + "</caption>") + rest;
    assert "<table>" + "<caption>" == "<table><caption>";
    assert s == "<table><caption>" + (caption + "</caption>" + rest);
    FindClosing(caption, "</caption>", rest);
  }

  /** The HTML of a sheet, from its name, rows and merges. */
  function TableText(sheetName: string, rows: seq<seq<string>>, merges: seq<Merge>): string
    requires forall i :: 0 <= i < |merges| ==> merges[i].WellFormed()
  {
    "<table>" + ("<caption>" + Entities.HtmlEscape(sheetName) + "</caption>") + Body(merges, rows, |rows|) + "</table>"
  }

  /** The text of the table reads back: the sheet's name, and row by row the
      spans and the text of every emitted cell, whatever characters they hold. */
  lemma TextReadsBack(sheetName: string, rows: seq<seq<string>>, merges: seq<Merge>)
    requires forall i :: 0 <= i < |merges| ==> merges[i].WellFormed()
    ensures ReadTable(TableText(sheetName, rows, merges)) == Some((sheetName, RowsOf(merges, rows, 0)))
  {
    hide Find, ReadRows, Body, BodyFrom, RowsOf, Entities.HtmlEscape, Entities.DecodeBasicEntities;
    var caption := Entities.HtmlEscape(sheetName);
    Entities.EscapeLeavesNoMarkup(sheetName);
    Entities.DecodeUndoesEscape(sheetName);
    BodySplit(merges, rows, 0);
    NoBody(merges, rows);
    RowsComeBack(merges, rows, 0);
    CaptionPieces(caption, Body(merges, rows, |rows|) + "</table>");
    Concat.AppendAssoc("<table>" + ("<caption>" + caption + "</caption>"), Body(merges, rows, |rows|), "</table>");
  }

  lemma NoBody(merges: seq<Merge>, rows: seq<seq<string>>)
    requires forall i :: 0 <= i < |merges| ==> merges[i].WellFormed()
    ensures Body(merges, rows, 0) + BodyFrom(merges, rows, 0) == BodyFrom(merges, rows, 0)
  {
  }

  /** The spans as a reader finds them, row by row. */
  function WrittenSpans(rows: seq<seq<Td>>): seq<seq<Span>> {
    seq(|rows|, k requires 0 <= k < |rows| => seq(|rows[k]|, i requires 0 <= i < |rows[k]| => rows[k][i].span))
  }

  lemma {:induction false} RowsOfAt(merges: seq<Merge>, rows: seq<seq<string>>, n: nat, k: nat)
    requires n <= k < |rows| && forall i :: 0 <= i < |merges| ==> merges[i].WellFormed()
    ensures Within(RowCells(merges, k, |rows[k]|), |rows[k]|)
    ensures |RowsOf(merges, rows, n)| == |rows| - n
    ensures RowsOf(merges, rows, n)[k - n] == TdsOf(RowCells(merges, k, |rows[k]|), rows[k])
    decreases |rows| - n
  {
    hide RowCells, TdsOf;
    RowCellsWithin(merges, k, |rows[k]|);
    RowsOfLength(merges, rows, n);
    if n < k {
      RowsOfAt(merges, rows, n + 1, k);
    }
  }

  lemma {:induction false} RowsOfLength(merges: seq<Merge>, rows: seq<seq<string>>, n: nat)
    requires n <= |rows| && forall i :: 0 <= i < |merges| ==> merges[i].WellFormed()
    ensures |RowsOf(merges, rows, n)| == |rows| - n
    decreases |rows| - n
  {
    hide RowCells, TdsOf;
    if n < |rows| {
      RowsOfLength(merges, rows, n + 1);
    }
  }

  lemma {:induction false} RowSpansAt(merges: seq<Merge>, height: nat, width: nat)
    requires forall i :: 0 <= i < |merges| ==> merges[i].WellFormed()
    ensures |RowSpans(merges, height, width)| == height
    ensures forall k :: 0 <= k < height ==> RowSpans(merges, height, width)[k] == Spans(RowCells(merges, k, width))
  {
    hide RowCells, Spans;
    if height > 0 {
      RowSpansAt(merges, height - 1, width);
    }
  }

  lemma {:induction false} SpansAt(cells: seq<Cell>)
    ensures |Spans(cells)| == |cells| && forall i :: 0 <= i < |cells| ==> Spans(cells)[i] == cells[i].span
  {
    if cells != [] {
      SpansAt(cells[..|cells| - 1]);
    }
  }

  /** The spans read from the text are those the placing rule needs. */
  lemma SpansReadBack(merges: seq<Merge>, rows: seq<seq<string>>, width: nat)
    requires forall i :: 0 <= i < |merges| ==> merges[i].WellFormed()
    requires forall k :: 0 <= k < |rows| ==> |rows[k]| == width
    ensures WrittenSpans(RowsOf(merges, rows, 0)) == RowSpans(merges, |rows|, width)
  {
    hide RowCells, Spans, RowSpans, RowsOf;
    var tds := RowsOf(merges, rows, 0);
    RowsOfLength(merges, rows, 0);
    RowSpansAt(merges, |rows|, width);
    forall k | 0 <= k < |rows|
      ensures WrittenSpans(tds)[k] == RowSpans(merges, |rows|, width)[k]
    {
      RowsOfAt(merges, rows, 0, k);
      SpansAt(RowCells(merges, k, width));
      assert WrittenSpans(tds)[k] == Spans(RowCells(merges, k, width));
    }
  }

  /** From the text alone a reader gets the name of the sheet and every emitted
      cell at its own row and column, with its spans and its text. */
  lemma SheetReadsBack(sheetName: string, rows: seq<seq<string>>, merges: seq<Merge>, width: nat)
    requires MergesOk(merges, |rows|, width) && forall k :: 0 <= k < |rows| ==> |rows[k]| == width
    ensures forall i :: 0 <= i < |merges| ==> merges[i].WellFormed()
    ensures ReadTable(TableText(sheetName, rows, merges)) == Some((sheetName, RowsOf(merges, rows, 0)))
    ensures PlaceTable(WrittenSpans(RowsOf(merges, rows, 0)), width) == TableCells(merges, |rows|, width)
    ensures forall k :: 0 <= k < |rows| ==>
              && Within(RowCells(merges, k, width), |rows[k]|)
              && |RowsOf(merges, rows, 0)| == |rows|
              && RowsOf(merges, rows, 0)[k] == TdsOf(RowCells(merges, k, width), rows[k])
  {
    hide MergesOk, ReadTable, RowsOf, PlaceTable, WrittenSpans, TableCells, RowCells, Body, TdsOf, Entities.HtmlEscape;
    MergesFormed(merges, |rows|, width);
    TextReadsBack(sheetName, rows, merges);
    SpansReadBack(merges, rows, width);
    TableReadsBack(merges, |rows|, width, |rows|);
    forall k | 0 <= k < |rows|
      ensures Within(RowCells(merges, k, width), |rows[k]|)
      ensures |RowsOf(merges, rows, 0)| == |rows|
      ensures RowsOf(merges, rows, 0)[k] == TdsOf(RowCells(merges, k, width), rows[k])
    {
      RowsOfAt(merges, rows, 0, k);
    }
  }

  /** Writes the table; what it writes reads back as the sheet's name and, row
      by row, the spans and texts of the emitted cells. */
  method RowsToHtmlTable(sheetName: string, rows: seq<seq<string>>, merges: seq<Merge>) returns (html: string)
    requires forall i :: 0 <= i < |merges| ==> merges[i].WellFormed()
    ensures html == TableText(sheetName, rows, merges)
    ensures ReadTable(html) == Some((sheetName, RowsOf(merges, rows, 0)))
  {
    hide RowCells, RowMarkup, ReadTable, RowsOf;
    var body := "";
    for row := 0 to |rows|
      invariant body == Body(merges, rows, row)
    {
      var cells := RowToHtml(row, rows[row], merges);
      body := body + cells;
    }
    html := "<table>" + ("<caption>" + Entities.HtmlEscape(sheetName) + "</caption>") + body + "</table>";
    TextReadsBack(sheetName, rows, merges);
  }
}
