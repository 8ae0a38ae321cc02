/**
  The table extractor: which reader a file is routed to by its extension, and how each reader
  turns the cell grids its parsing library returns into tables, with or without column names.
  The libraries themselves (pdfplumber, python-docx, python-pptx, pandas' CSV and Excel readers)
  are not modelled: what they return for a file is given as a TableSources value.
 */
module TableExtractor {
  import opened Wrappers
  import opened Strings
  import opened Paths
  import opened Seqs

  /** A pandas DataFrame as the extractor builds it: optional column names and the body rows. */
  datatype Table<T> = Table(columns: Option<seq<T>>, rows: seq<seq<T>>)

  /** A pdfplumber table cell: None when the library found no text for it. */
  type PdfCell = Option<string>

  /** The extensions the extractor accepts (TableExtractor.SUPPORTED). */
  const Supported: set<string> := {".pdf", ".docx", ".pptx", ".xlsx", ".csv", ".txt", ".md"}

  datatype Reader = PdfReader | DocxReader | PptxReader | XlsxReader | CsvReader | TextReader

  /** The extension extract() dispatches on: the path's suffix, lower-cased. */
  function Extension(path: string): string
  {
    Lower(Suffix(Parse(path)))
  }

  /**
    The reader an extension is routed to. Extensions outside Supported get none; every supported
    one gets exactly one, and ".txt" and ".md" share the text heuristic.
   */
  function Route(ext: string): (r: Option<Reader>)
    ensures r.None? <==> ext !in Supported
    ensures r == Some(PdfReader) <==> ext == ".pdf"
    ensures r == Some(DocxReader) <==> ext == ".docx"
    ensures r == Some(PptxReader) <==> ext == ".pptx"
    ensures r == Some(XlsxReader) <==> ext == ".xlsx"
    ensures r == Some(CsvReader) <==> ext == ".csv"
    ensures r == Some(TextReader) <==> ext == ".txt" || ext == ".md"
  {
    if ext !in Supported then None
    else if ext == ".pdf" then Some(PdfReader)
    else if ext == ".docx" then Some(DocxReader)
    else if ext == ".pptx" then Some(PptxReader)
    else if ext == ".xlsx" then Some(XlsxReader)
    else if ext == ".csv" then Some(CsvReader)
    else if ext == ".txt" || ext == ".md" then Some(TextReader)
    else None
  }

  // ---------- the DataFrame constructor and the header guess ----------

  /**
    Whether pd.DataFrame(body, columns=cols) raises. pandas pads short rows of a list of lists to
    the widest one; the model assumes it then raises exactly when column names are given, the
    body is not empty, and its widest row has another number of cells than there are names.
   */
  predicate ConstructionFails<T>(body: seq<seq<T>>, cols: Option<seq<T>>)
  {
    cols.Some? && |body| > 0 && MaxWidth(body) != |cols.value|
  }

  /** Every row has width w. */
  predicate SameWidth<T>(rows: seq<seq<T>>, w: nat)
  {
    forall k :: 0 <= k < |rows| ==> |rows[k]| == w
  }

  /** Python's all(h for h in header) over strings: no header cell is empty. */
  predicate AllCellsFilled(header: seq<string>)
  {
    forall k :: 0 <= k < |header| ==> header[k] != ""
  }

  /**
    The header guess of the DOCX, PPTX and text readers: the first row names the columns when
    all its cells are filled, and the rest is the body; if pandas refuses that, the whole grid
    becomes one headerless table. On a grid whose rows all have the same width pandas never refuses.
   */
  function HeaderGuess(rows: seq<seq<string>>): (t: Table<string>)
    requires |rows| >= 1
    ensures t.columns.Some? ==> AllCellsFilled(rows[0]) && t.columns.value == rows[0] && t.rows == rows[1..]
    ensures !AllCellsFilled(rows[0]) ==> t == Table(None, rows[1..])
    ensures AllCellsFilled(rows[0]) && !ConstructionFails(rows[1..], Some(rows[0])) ==> t == Table(Some(rows[0]), rows[1..])
    ensures AllCellsFilled(rows[0]) && ConstructionFails(rows[1..], Some(rows[0])) ==> t == Table(None, rows)
    ensures SameWidth(rows, |rows[0]|) ==>
      t == Table(if AllCellsFilled(rows[0]) then Some(rows[0]) else None, rows[1..])
  {
    var header := if AllCellsFilled(rows[0]) then Some(rows[0]) else None;
    var body := if |rows| > 1 then rows[1..] else [];
    if ConstructionFails(body, header) then Table(None, rows) else Table(header, body)
  }

  /** Python's max(len(r) for r in rows): the width of the widest row. */
  function MaxWidth<T>(rows: seq<seq<T>>): (w: nat)
    requires |rows| >= 1
    ensures forall k :: 0 <= k < |rows| ==> |rows[k]| <= w
    ensures exists k :: 0 <= k < |rows| && |rows[k]| == w
  {
    if |rows| == 1 then |rows[0]|
    else
      var m := MaxWidth(rows[1..]);
      if |rows[0]| >= m then |rows[0]| else m
  }

  /** r + [""] * (width - len(r)): the row filled up with empty cells, its own cells first and in order. */
  function PadRow(r: seq<string>, width: nat): (p: seq<string>)
    ensures |r| <= width ==> |p| == width
    ensures |p| >= |r| && p[..|r|] == r
    ensures forall k :: |r| <= k < |p| ==> p[k] == ""
  {
    if |r| < width then r + seq(width - |r|, _ => "") else r
  }

  /** Every row padded to the given width. */
  function PadRows(rows: seq<seq<string>>, width: nat): (padded: seq<seq<string>>)
    ensures |padded| == |rows|
  {
    seq(|rows|, k requires 0 <= k < |rows| => PadRow(rows[k], width))
  }

  /**
    Padding every row to the widest width gives a grid of that width in which each row starts
    with its own cells, in order, followed by nothing but empty cells.
   */
  lemma PadToMaxWidth(rows: seq<seq<string>>)
    requires |rows| >= 1
    ensures var w := MaxWidth(rows); var padded := PadRows(rows, w);
      && SameWidth(padded, w)
      && (forall k :: 0 <= k < |rows| ==> padded[k][..|rows[k]|] == rows[k])
      && (forall k, j :: 0 <= k < |rows| && |rows[k]| <= j < w ==> padded[k][j] == "")
  {
    var w := MaxWidth(rows);
    var padded := PadRows(rows, w);
    forall k | 0 <= k < |rows|
      ensures |padded[k]| == w && padded[k][..|rows[k]|] == rows[k]
    {
      assert padded[k] == PadRow(rows[k], w);
    }
  }

  /** Padding a grid whose rows already have one width changes nothing. */
  lemma PadUniform(rows: seq<seq<string>>)
    requires |rows| >= 1 && SameWidth(rows, |rows[0]|)
    ensures PadRows(rows, MaxWidth(rows)) == rows
  {
    var w := MaxWidth(rows);
    assert w == |rows[0]|;
    var padded := PadRows(rows, w);
    forall k | 0 <= k < |rows|
      ensures padded[k] == rows[k]
    {
      assert padded[k] == PadRow(rows[k], w);
    }
  }

  // ---------- text and markdown: the pipe-table heuristic ----------

  /** [ln for ln in lines if "|" in ln]: the candidate rows, in order. */
  function PipeLines(lines: seq<string>): (rows: seq<string>)
    ensures forall k :: 0 <= k < |rows| ==> '|' in rows[k] && rows[k] in lines
    ensures forall k :: 0 <= k < |lines| && '|' in lines[k] ==> lines[k] in rows
  {
    if lines == [] then []
    else (if '|' in lines[0] then [lines[0]] else []) + PipeLines(lines[1..])
  }

  /** The filter keeps order: the kept lines of a text in two parts are those of the first part, then those of the second. */
  lemma {:induction false} PipeLinesAppend(a: seq<string>, b: seq<string>)
    ensures PipeLines(a + b) == PipeLines(a) + PipeLines(b)
  {
    if a == [] {
      assert a + b == b;
    } else {
      PipeLinesAppend(a[1..], b);
      assert (a + b)[1..] == a[1..] + b;
      var head := if '|' in a[0] then [a[0]] else [];
      assert PipeLines(a + b) == head + (PipeLines(a[1..]) + PipeLines(b));
      AppendAssoc(head, PipeLines(a[1..]), PipeLines(b));
    }
  }

  /** [c.strip() for c in line.split("|")]: the stripped cells of one row. */
  function SplitCells(line: string): (cells: seq<string>)
    ensures |cells| == |Split(line, '|')|
    ensures forall k :: 0 <= k < |cells| ==> cells[k] == Strip(Split(line, '|')[k])
  {
    var pieces := Split(line, '|');
    seq(|pieces|, k requires 0 <= k < |pieces| => Strip(pieces[k]))
  }

  /** The rows of the text's pipe table before padding: one list of stripped cells per pipe line. */
  function CellGrid(text: string): (grid: seq<seq<string>>)
    ensures |grid| == |PipeLines(SplitLines(text))|
    ensures forall k :: 0 <= k < |grid| ==> grid[k] == SplitCells(PipeLines(SplitLines(text))[k])
  {
    var rows := PipeLines(SplitLines(text));
    seq(|rows|, k requires 0 <= k < |rows| => SplitCells(rows[k]))
  }

  /**
    _from_text_like on the decoded text: no table when no line holds '|'; otherwise one table
    over the pipe lines, padded to the widest row, with the header guess on its first row.
   */
  function FromTextLike(text: string): seq<Table<string>>
  {
    var grid := CellGrid(text);
    if grid == [] then []
    else
      var width := MaxWidth(grid);
      var padded := PadRows(grid, width);
      [HeaderGuess(padded)]
  }

  /** No line is kept exactly when no line holds '|'. */
  lemma {:induction false} PipeLinesEmpty(lines: seq<string>)
    ensures PipeLines(lines) == [] <==> forall k :: 0 <= k < |lines| ==> '|' !in lines[k]
  {
    if lines != [] {
      PipeLinesEmpty(lines[1..]);
      if '|' !in lines[0] {
        forall k | 0 < k < |lines|
          ensures lines[k] == lines[1..][k - 1]
        {
        }
      }
    }
  }

  /** The text yields no table exactly when it holds no '|' at all. */
  lemma TextWithoutPipeHasNoTable(text: string)
    ensures FromTextLike(text) == [] <==> '|' !in text
  {
    var lines := SplitLines(text);
    SplitLinesKeepChar(text, '|');
    PipeLinesEmpty(lines);
    if '|' in text {
      var l :| l in lines && '|' in l;
      var k :| 0 <= k < |lines| && lines[k] == l;
    } else {
      forall k | 0 <= k < |lines|
        ensures '|' !in lines[k]
      {
        assert lines[k] in lines;
      }
    }
  }

  /**
    With a '|' in the text there is exactly one table: every row, header included, is padded to
    the widest split, keeps its stripped cells in order and gains only empty cells; the columns are
    the first row exactly when all its cells are filled, and the body is always the rows after it.
   */
  lemma TextTableShape(text: string)
    requires '|' in text
    ensures var grid := CellGrid(text);
      && |grid| >= 1
      && var w := MaxWidth(grid);
      && var padded := PadRows(grid, w);
      && FromTextLike(text) == [Table(if AllCellsFilled(padded[0]) then Some(padded[0]) else None, padded[1..])]
      && SameWidth(padded, w)
      && (forall k :: 0 <= k < |grid| ==> padded[k][..|grid[k]|] == grid[k])
      && (forall k, j :: 0 <= k < |grid| && |grid[k]| <= j < w ==> padded[k][j] == "")
  {
    TextWithoutPipeHasNoTable(text);
    var grid := CellGrid(text);
    PadToMaxWidth(grid);
  }

  /** A first pipe line that starts with '|' has an empty first cell, so the table gets no column names. */
  lemma LeadingPipeMeansNoHeader(text: string)
    requires '|' in text
    requires var rows := PipeLines(SplitLines(text)); |rows| >= 1 && |rows[0]| >= 1 && rows[0][0] == '|'
    ensures |FromTextLike(text)| == 1 && FromTextLike(text)[0].columns.None?
  {
    var grid := CellGrid(text);
    LeadingPipeCell(PipeLines(SplitLines(text))[0]);
    assert grid[0][0] == "";
    var padded := PadRows(grid, MaxWidth(grid));
    assert padded[0] == PadRow(grid[0], MaxWidth(grid));
    assert padded[0][0] == "" by {
      assert padded[0][..|grid[0]|] == grid[0];
    }
    assert !AllCellsFilled(padded[0]);
  }

  /** A line that starts with '|' splits into an empty first cell. */
  lemma LeadingPipeCell(line: string)
    requires |line| >= 1 && line[0] == '|'
    ensures |SplitCells(line)| >= 1 && SplitCells(line)[0] == ""
  {
    assert line == [line[0]] + line[1..];
    SplitCons('|', line[1..], '|');
    assert Strip("") == "";
  }

  // ---------- DOCX ----------

  /** [[cell.text.strip() for cell in row.cells] for row in table.rows] */
  function StripGrid(raw: seq<seq<string>>): (rows: seq<seq<string>>)
    ensures |rows| == |raw|
    ensures forall k :: 0 <= k < |raw| ==> |rows[k]| == |raw[k]|
    ensures forall k, j :: 0 <= k < |raw| && 0 <= j < |raw[k]| ==> rows[k][j] == Strip(raw[k][j])
  {
    seq(|raw|, k requires 0 <= k < |raw| => seq(|raw[k]|, j requires 0 <= j < |raw[k]| => Strip(raw[k][j])))
  }

  /** len({len(r) for r in rows}) > 1: the rows do not all have the same width. */
  predicate Ragged<T>(rows: seq<seq<T>>)
  {
    exists i, j :: 0 <= i < |rows| && 0 <= j < |rows| && |rows[i]| != |rows[j]|
  }

  /** One DOCX table: nothing for a table without rows, otherwise the padded grid with the header guess. */
  function DocxTable(raw: seq<seq<string>>): seq<Table<string>>
  {
    var rows := StripGrid(raw);
    if rows == [] then []
    else
      var grid := if Ragged(rows) then PadRows(rows, MaxWidth(rows)) else rows;
      [HeaderGuess(grid)]
  }

  /** _from_docx: the tables of the document in order, empty ones skipped. */
  function DocxTables(tables: seq<seq<seq<string>>>): seq<Table<string>>
  {
    Concat(tables, DocxTable)
  }

  /**
    A DOCX table with rows gives one table over a grid of the widest row's width; a table whose
    rows already share one width keeps its stripped cells unchanged; the columns are row 0 exactly
    when all its cells are filled, and the body is rows 1 onward (none for a one-row table).
   */
  lemma DocxTableShape(raw: seq<seq<string>>)
    requires |raw| >= 1
    ensures var rows := StripGrid(raw);
      && var grid := PadRows(rows, MaxWidth(rows));
      && DocxTable(raw) == [Table(if AllCellsFilled(grid[0]) then Some(grid[0]) else None, grid[1..])]
      && SameWidth(grid, MaxWidth(rows))
      && (!Ragged(rows) ==> grid == rows)
  {
    var rows := StripGrid(raw);
    PadToMaxWidth(rows);
    if !Ragged(rows) {
      assert SameWidth(rows, |rows[0]|) by {
        forall k | 0 <= k < |rows|
          ensures |rows[k]| == |rows[0]|
        {
          if |rows[k]| != |rows[0]| {
            assert Ragged(rows);
          }
        }
      }
      PadUniform(rows);
    }
  }

  /** A table without rows adds nothing, wherever it stands among the document's tables. */
  lemma DocxSkipsEmptyTable(before: seq<seq<seq<string>>>, after: seq<seq<seq<string>>>)
    ensures DocxTables(before + [[]] + after) == DocxTables(before) + DocxTables(after)
  {
    ConcatSkips(before, [], after, DocxTable);
  }

  /** _from_docx's loop: each table's rows are stripped, padded when ragged, split into header and body, appended. */
  method FromDocx(tables: seq<seq<seq<string>>>) returns (dfs: seq<Table<string>>)
    ensures dfs == DocxTables(tables)
  {
    dfs := [];
    for ti := 0 to |tables|
      invariant dfs == Concat(tables[..ti], DocxTable)
    {
      ConcatUpTo(tables, ti, DocxTable);
      var rows := StripGrid(tables[ti]);
      if rows == [] {
        assert DocxTable(tables[ti]) == [];
        continue;
      }
      if Ragged(rows) {
        var maxw := MaxWidth(rows);
        rows := PadRows(rows, maxw);
      }
      var df := HeaderGuess(rows);
      assert [df] == DocxTable(tables[ti]);
      dfs := dfs + [df];
    }
    assert tables[..|tables|] == tables;
  }

  // ---------- PPTX ----------

  /** A python-pptx table cell: the text of its text frame, or None when it has none. */
  datatype PptxCell = PptxCell(textFrame: Option<string>)

  /** A slide shape: a table, or anything else (no has_table attribute, or has_table false). */
  datatype PptxShape = OtherShape | TableShape(cells: seq<seq<PptxCell>>)

  /** c.text_frame.text.strip() if c.text_frame else "" */
  function CellText(c: PptxCell): string
  {
    match c.textFrame
    case Some(text) => Strip(text)
    case None => ""
  }

  /** [[cell text for c in r.cells] for r in shape.table.rows] */
  function CellTexts(cells: seq<seq<PptxCell>>): (rows: seq<seq<string>>)
    ensures |rows| == |cells|
    ensures forall k :: 0 <= k < |cells| ==> |rows[k]| == |cells[k]|
    ensures forall k, j :: 0 <= k < |cells| && 0 <= j < |cells[k]| ==> rows[k][j] == CellText(cells[k][j])
  {
    seq(|cells|, k requires 0 <= k < |cells| => seq(|cells[k]|, j requires 0 <= j < |cells[k]| => CellText(cells[k][j])))
  }

  /** One shape: nothing unless it is a table with rows; then the header guess on its cell texts. */
  function ShapeTable(shape: PptxShape): seq<Table<string>>
  {
    match shape
    case OtherShape => []
    case TableShape(cells) =>
      var rows := CellTexts(cells);
      if rows == [] then [] else [HeaderGuess(rows)]
  }

  function SlideTables(shapes: seq<PptxShape>): seq<Table<string>>
  {
    Concat(shapes, ShapeTable)
  }

  /** _from_pptx: the tables of all slides, slide by slide and shape by shape. */
  function PptxTables(slides: seq<seq<PptxShape>>): seq<Table<string>>
  {
    Concat(slides, SlideTables)
  }

  /** A shape that is not a table, or a table without rows, adds nothing wherever it stands on the slide. */
  lemma PptxSkipsNonTable(before: seq<PptxShape>, shape: PptxShape, after: seq<PptxShape>)
    requires shape.OtherShape? || shape.cells == []
    ensures SlideTables(before + [shape] + after) == SlideTables(before) + SlideTables(after)
  {
    ConcatSkips(before, shape, after, ShapeTable);
  }

  /**
    A table whose texts fill the first row, but with a later row wider than it, cannot be built with
    that row as column names: the frame keeps every row, the first included, and has no columns.
   */
  lemma PptxWideRowDropsHeader(cells: seq<seq<PptxCell>>, k: nat)
    requires 1 <= k < |cells| && |cells[k]| > |cells[0]|
    requires AllCellsFilled(CellTexts(cells)[0])
    ensures ShapeTable(TableShape(cells)) == [Table(None, CellTexts(cells))]
  {
  }

  /** The inner loop of _from_pptx over one slide's shapes: the frames of its tables with rows, in shape order. */
  method SlideFrames(shapes: seq<PptxShape>) returns (dfs: seq<Table<string>>)
    ensures dfs == SlideTables(shapes)
  {
    dfs := [];
    for shi := 0 to |shapes|
      invariant dfs == Concat(shapes[..shi], ShapeTable)
    {
      ConcatUpTo(shapes, shi, ShapeTable);
      if shapes[shi].TableShape? {
        var rows := CellTexts(shapes[shi].cells);
        if rows != [] {
          var df := HeaderGuess(rows);
          assert [df] == ShapeTable(shapes[shi]);
          dfs := dfs + [df];
        }
      }
    }
    assert shapes[..|shapes|] == shapes;
  }

  /** _from_pptx's outer loop over the slides. */
  method FromPptx(slides: seq<seq<PptxShape>>) returns (dfs: seq<Table<string>>)
    ensures dfs == PptxTables(slides)
  {
    dfs := [];
    for si := 0 to |slides|
      invariant dfs == Concat(slides[..si], SlideTables)
    {
      ConcatUpTo(slides, si, SlideTables);
      var found := SlideFrames(slides[si]);
      dfs := dfs + found;
    }
    assert slides[..|slides|] == slides;
  }

  // ---------- PDF ----------

  /** What pdfplumber gives for one page: its tables, or Unreadable when extract_tables() raises. */
  datatype PdfPage = Unreadable | Extracted(tables: seq<seq<seq<PdfCell>>>)

  /** No cell of the first row is None. */
  predicate NoneFree(row: seq<PdfCell>)
  {
    forall k :: 0 <= k < |row| ==> row[k].Some?
  }

  /**
    One pdfplumber table: with a first row free of None, that row names the columns and the rest is
    the body; otherwise (and for an empty table) the whole grid is one headerless table. None when
    pandas refuses the header.
   */
  function PdfFrame(t: seq<seq<PdfCell>>): (r: Option<Table<PdfCell>>)
    ensures r.None? ==> |t| >= 1 && NoneFree(t[0])
    ensures r.Some? && r.value.columns.Some? ==> |t| >= 1 && NoneFree(t[0]) && r.value == Table(Some(t[0]), t[1..])
    ensures r.Some? && r.value.columns.None? ==> (|t| == 0 || !NoneFree(t[0])) && r.value.rows == t
    ensures |t| >= 1 && SameWidth(t, |t[0]|) ==> r.Some?
  {
    if |t| > 0 && NoneFree(t[0]) then
      if ConstructionFails(t[1..], Some(t[0])) then None else Some(Table(Some(t[0]), t[1..]))
    else Some(Table(None, t))
  }

  /** The tables of one readable page, up to the first one pandas refuses: that one ends the page. */
  function PageTables(ts: seq<seq<seq<PdfCell>>>): seq<Table<PdfCell>>
  {
    if ts == [] then []
    else match PdfFrame(ts[0])
      case None => []
      case Some(df) => [df] + PageTables(ts[1..])
  }

  /** One page's contribution: nothing for an unreadable page. */
  function PageContribution(page: PdfPage): seq<Table<PdfCell>>
  {
    match page
    case Unreadable => []
    case Extracted(ts) => PageTables(ts)
  }

  /** _from_pdf: the tables of all pages, in page order. */
  function PdfTables(pages: seq<PdfPage>): seq<Table<PdfCell>>
  {
    Concat(pages, PageContribution)
  }

  /**
    A page yields the frames of its tables up to, not including, the first table pandas refuses;
    with no refusal it yields one frame per table.
   */
  lemma {:induction false} PageTablesPrefix(ts: seq<seq<seq<PdfCell>>>)
    ensures var r := PageTables(ts);
      && |r| <= |ts|
      && (forall k :: 0 <= k < |r| ==> PdfFrame(ts[k]) == Some(r[k]))
      && (|r| < |ts| ==> PdfFrame(ts[|r|]).None?)
  {
    if ts != [] {
      PageTablesPrefix(ts[1..]);
      var r := PageTables(ts);
      if PdfFrame(ts[0]).Some? {
        assert r == [PdfFrame(ts[0]).value] + PageTables(ts[1..]);
        forall k | 0 < k < |r|
          ensures PdfFrame(ts[k]) == Some(r[k])
        {
          assert ts[k] == ts[1..][k - 1];
        }
        if |r| < |ts| {
          assert ts[|r|] == ts[1..][|r| - 1];
        }
      }
    }
  }

  /** An unreadable page is skipped: the pages around it yield their tables as if it were not there. */
  lemma PdfSkipsUnreadablePage(before: seq<PdfPage>, after: seq<PdfPage>)
    ensures PdfTables(before + [Unreadable] + after) == PdfTables(before) + PdfTables(after)
  {
    ConcatSkips(before, Unreadable, after, PageContribution);
  }

  /** Tables come in page order: the tables of a document are those of its first pages, then those of the rest. */
  lemma PdfPageOrder(first: seq<PdfPage>, rest: seq<PdfPage>)
    ensures PdfTables(first + rest) == PdfTables(first) + PdfTables(rest)
  {
    ConcatAppend(first, rest, PageContribution);
  }

  /** The body of _from_pdf's try block for one readable page: its frames, until pandas refuses one. */
  method PageFrames(tables: seq<seq<seq<PdfCell>>>) returns (found: seq<Table<PdfCell>>)
    ensures found == PageTables(tables)
  {
    found := [];
    var ti := 0;
    while ti < |tables|
      invariant 0 <= ti <= |tables|
      invariant found + PageTables(tables[ti..]) == PageTables(tables)
    {
      assert tables[ti..][0] == tables[ti] && tables[ti..][1..] == tables[ti + 1..];
      var df := PdfFrame(tables[ti]);
      if df.None? {
        break;
      }
      ghost var rest := PageTables(tables[ti + 1..]);
      assert found + ([df.value] + rest) == PageTables(tables);
      found := found + [df.value];
      assert found + rest == PageTables(tables);
      ti := ti + 1;
    }
  }

  /** _from_pdf's loop over the pages: an unreadable page is logged and skipped. */
  method FromPdf(pages: seq<PdfPage>) returns (dfs: seq<Table<PdfCell>>)
    ensures dfs == PdfTables(pages)
  {
    dfs := [];
    for pi := 0 to |pages|
      invariant dfs == Concat(pages[..pi], PageContribution)
    {
      ConcatUpTo(pages, pi, PageContribution);
      match pages[pi]
      case Unreadable =>
      case Extracted(tables) =>
        var found := PageFrames(tables);
        dfs := dfs + found;
    }
    assert pages[..|pages|] == pages;
  }

  // ---------- dispatch ----------

  /**
    What each library returns for the file: pdfplumber's pages, python-docx's tables as cell texts,
    python-pptx's slides, pandas' Excel sheets and its CSV frame, and the decoded text.
   */
  datatype TableSources = TableSources(
    pdfPages: seq<PdfPage>,
    docxTables: seq<seq<seq<string>>>,
    pptxSlides: seq<seq<PptxShape>>,
    xlsxSheets: seq<Table<string>>,
    csvTable: Table<string>,
    text: string)

  /** A DataFrame of strings, or one from pdfplumber whose cells may be None. */
  datatype Frame = Cells(cells: Table<string>) | PdfCells(pdfCells: Table<PdfCell>)

  function AsFrames(ts: seq<Table<string>>): (r: seq<Frame>)
    ensures |r| == |ts| && forall k :: 0 <= k < |ts| ==> r[k] == Cells(ts[k])
  {
    seq(|ts|, k requires 0 <= k < |ts| => Cells(ts[k]))
  }

  /**
    extract(file_path): an extension outside Supported gives no table and no error; otherwise the
    extension, compared lower-cased, picks one reader.
   */
  function Extract(path: string, src: TableSources): (r: seq<Frame>)
    ensures Route(Extension(path)).None? ==> r == []
    ensures Route(Extension(path)) == Some(TextReader) ==> r == AsFrames(FromTextLike(src.text))
    ensures Route(Extension(path)) == Some(CsvReader) ==> r == [Cells(src.csvTable)]
    ensures Route(Extension(path)) == Some(XlsxReader) ==> r == AsFrames(src.xlsxSheets)
    ensures Route(Extension(path)) == Some(DocxReader) ==> r == AsFrames(DocxTables(src.docxTables))
    ensures Route(Extension(path)) == Some(PptxReader) ==> r == AsFrames(PptxTables(src.pptxSlides))
    ensures Route(Extension(path)) == Some(PdfReader) ==>
      |r| == |PdfTables(src.pdfPages)| && forall k :: 0 <= k < |r| ==> r[k] == PdfCells(PdfTables(src.pdfPages)[k])
  {
    match Route(Extension(path))
    case None => []
    case Some(PdfReader) =>
      var ts := PdfTables(src.pdfPages);
      seq(|ts|, k requires 0 <= k < |ts| => PdfCells(ts[k]))
    case Some(DocxReader) => AsFrames(DocxTables(src.docxTables))
    case Some(PptxReader) => AsFrames(PptxTables(src.pptxSlides))
    case Some(XlsxReader) => AsFrames(src.xlsxSheets)
    case Some(CsvReader) => [Cells(src.csvTable)]
    case Some(TextReader) => AsFrames(FromTextLike(src.text))
  }

  /** The extension is compared lower-cased: "report.PDF" and "report.pdf" go to the same reader. */
  lemma UpperCaseExtension(path: string)
    requires Suffix(Parse(path)) == ".PDF"
    ensures Route(Extension(path)) == Some(PdfReader)
  {
    LowerPdf();
  }

  /** A file whose name is a stem followed by ".pdf", in any directory, is read by the PDF reader. */
  lemma PdfNameRoutesToPdf(absolute: bool, dirs: seq<string>, stem: string)
    requires stem != []
    ensures Route(Lower(Suffix(PurePath(absolute, dirs + [stem + ".pdf"])))) == Some(PdfReader)
  {
    PdfSuffix(absolute, dirs, stem);
    PdfLiterals();
  }

  /** The suffix of such a name is ".pdf". */
  lemma PdfSuffix(absolute: bool, dirs: seq<string>, stem: string)
    requires stem != []
    ensures Suffix(PurePath(absolute, dirs + [stem + ".pdf"])) == ".pdf"
  {
    PdfLiterals();
    SuffixOfExtension(absolute, dirs, stem, ".pdf");
  }

  /** ".pdf" has one '.', at its start, ".pdf".lower() is ".pdf", and ".pdf" goes to the PDF reader. */
  lemma PdfLiterals()
    ensures ".pdf"[0] == '.' && '.' !in ".pdf"[1..] && Lower(".pdf") == ".pdf"
    ensures Route(".pdf") == Some(PdfReader)
  {
    assert ".pdf"[1..] == "pdf";
    assert forall k :: 0 <= k < 3 ==> "pdf"[k] != '.';
    var l := Lower(".pdf");
    assert |l| == 4 && l[0] == '.' && l[1] == 'p' && l[2] == 'd' && l[3] == 'f';
  }

  /** ".PDF".lower() */
  lemma LowerPdf()
    ensures Lower(".PDF") == ".pdf"
  {
    var l := Lower(".PDF");
    assert |l| == 4 && l[0] == '.' && l[1] == 'p' && l[2] == 'd' && l[3] == 'f';
  }
}
