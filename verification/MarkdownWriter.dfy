/**
 Bounded Markdown rendering of documents: every converter stops early, and its text
 is still the first `limit` characters of the rendering without a limit.
 */
module MarkdownWriter {
  import opened Common

  // ----- the unlimited rendering -----

  /** A block is set off by a blank line unless it is empty or first; raw text follows directly. */
  datatype Write = Block(text: string) | Raw(text: string)

  function Append(full: string, write: Write): string {
    match write
    case Block(text) => if text == "" then full else full + (if full == "" then "" else "\n\n") + text
    case Raw(text) => full + text
  }

  function Render(full: string, writes: seq<Write>): string {
    if writes == [] then full
    else
      var n := |writes| - 1;
      Append(Render(full, writes[..n]), writes[n])
  }

  function Take(s: string, limit: nat): string {
    if |s| <= limit then s else s[..limit]
  }

  lemma {:induction false} RenderConcat(full: string, a: seq<Write>, b: seq<Write>)
    ensures Render(full, a + b) == Render(Render(full, a), b)
  {
    if b == [] {
      assert a + b == a;
    } else {
      var n := |b| - 1;
      assert (a + b)[..|a| + n] == a + b[..n];
      RenderConcat(full, a, b[..n]);
    }
  }

  lemma {:induction false} RenderExtends(full: string, writes: seq<Write>)
    ensures full <= Render(full, writes)
  {
    if writes != [] {
      RenderExtends(full, writes[..|writes| - 1]);
    }
  }

  /** Once the limit is passed, the writes left out cannot change the outcome. */
  lemma Overflow(full: string, done: seq<Write>, all: seq<Write>, limit: nat)
    requires done <= all
    requires |Render(full, done)| > limit
    ensures Take(Render(full, all), limit) == Take(Render(full, done), limit)
    ensures |Render(full, all)| > limit
  {
    var rest := all[|done|..];
    assert all == done + rest;
    RenderConcat(full, done, rest);
    RenderExtends(Render(full, done), rest);
  }

  // ----- lists of writes made item by item -----

  function FlatMap<T>(items: seq<T>, writes: (nat, T) -> seq<Write>): seq<Write> {
    if items == [] then []
    else
      var n := |items| - 1;
      FlatMap(items[..n], writes) + writes(n, items[n])
  }

  lemma {:induction false} FlatMapPrefix<T>(items: seq<T>, n: nat, writes: (nat, T) -> seq<Write>)
    requires n <= |items|
    ensures FlatMap(items[..n], writes) <= FlatMap(items, writes)
    ensures n < |items| ==>
      FlatMap(items[..n + 1], writes) == FlatMap(items[..n], writes) + writes(n, items[n])
    decreases |items|
  {
    if n < |items| {
      var m := |items| - 1;
      assert items[..n + 1][..n] == items[..n];
      FlatMapPrefix(items[..m], n, writes);
      assert items[..m][..n] == items[..n];
    } else {
      assert items[..n] == items;
    }
  }

  // ----- the buffer -----

  class Output {
    var text: string

    constructor ()
      ensures text == ""
    {
      text := "";
    }

    method WriteLimited(added: string, limit: nat) returns (ok: bool)
      requires |text| <= limit
      modifies this
      ensures text == Take(old(text) + added, limit)
      ensures ok <==> |old(text)| < limit && |old(text) + added| <= limit
    {
      var remaining := limit - |text|;
      if remaining <= 0 {
        return false;
      }
      text := text + Take(added, remaining);
      ok := |added| <= remaining;
    }

    method WriteBlock(added: string, limit: nat) returns (ok: bool)
      requires |text| <= limit
      modifies this
      ensures text == Take(Append(old(text), Block(added)), limit)
      ensures ok <==> |Append(old(text), Block(added))| <= limit
    {
      if added == "" {
        return true;
      }
      var prefix := if |text| > 0 then "\n\n" else "";
      ok := WriteLimited(prefix + added, limit);
      assert old(text) + (prefix + added) == old(text) + prefix + added;
    }

    /** Shape groups are written depth first, and the walk stops at the first refusal. */
    method AppendShape(shape: Shape, limit: nat) returns (ok: bool)
      requires |text| <= limit
      modifies this
      ensures text == Take(Render(old(text), ShapeWrites(shape)), limit)
      ensures ok <==> |Render(old(text), ShapeWrites(shape))| <= limit
      decreases shape, 0
    {
      match shape
      case Content(markdown) =>
        RenderOne(text, Block(markdown));
        ok := WriteBlock(markdown, limit);
      case Group(children) =>
        ok := AppendShapes(children, limit);
    }

    method AppendShapes(shapes: seq<Shape>, limit: nat) returns (ok: bool)
      requires |text| <= limit
      modifies this
      ensures text == Take(Render(old(text), ShapesWrites(shapes)), limit)
      ensures ok <==> |Render(old(text), ShapesWrites(shapes))| <= limit
      decreases shapes, 1
    {
      for i := 0 to |shapes|
        invariant |text| <= limit
        invariant text == Render(old(text), ShapesWrites(shapes[..i]))
      {
        ShapesPrefix(shapes, i);
        RenderConcat(old(text), ShapesWrites(shapes[..i]), ShapeWrites(shapes[i]));
        ok := AppendShape(shapes[i], limit);
        if !ok {
          Overflow(old(text), ShapesWrites(shapes[..i + 1]), ShapesWrites(shapes), limit);
          return;
        }
      }
      assert shapes[..|shapes|] == shapes;
      ok := true;
    }

    method WriteSlide(i: nat, slide: Slide, limit: nat) returns (ok: bool)
      requires |text| <= limit
      modifies this
      ensures text == Take(Render(old(text), SlideWrites(i, slide)), limit)
      ensures ok <==> |Render(old(text), SlideWrites(i, slide))| <= limit
    {
      ghost var header, shapes, notes :=
        [Block(SlideHeader(i))], ShapesWrites(slide.shapes), [Block(NotesText(slide.notes))];
      RenderOne(text, header[0]);
      RenderConcat(text, header, shapes);
      RenderConcat(text, header + shapes, notes);
      ok := WriteBlock(SlideHeader(i), limit);
      if !ok {
        Overflow(old(text), header, SlideWrites(i, slide), limit);
        return;
      }
      ok := AppendShapes(slide.shapes, limit);
      if !ok {
        Overflow(old(text), header + shapes, SlideWrites(i, slide), limit);
        return;
      }
      RenderOne(text, notes[0]);
      if slide.notes != "" {
        ok := WriteBlock(NotesText(slide.notes), limit);
      }
    }

    method WriteTables(tables: seq<string>, limit: nat) returns (ok: bool)
      requires |text| <= limit
      modifies this
      ensures text == Take(Render(old(text), Blocks(tables)), limit)
      ensures ok <==> |Render(old(text), Blocks(tables))| <= limit
    {
      for i := 0 to |tables|
        invariant |text| <= limit
        invariant text == Render(old(text), Blocks(tables[..i]))
      {
        RenderConcat(old(text), Blocks(tables[..i]), [Block(tables[i])]);
        RenderOne(text, Block(tables[i]));
        assert Blocks(tables[..i]) + [Block(tables[i])] == Blocks(tables[..i + 1]);
        ok := WriteBlock(tables[i], limit);
        if !ok {
          Overflow(old(text), Blocks(tables[..i + 1]), Blocks(tables), limit);
          return;
        }
      }
      assert tables[..|tables|] == tables;
      ok := true;
    }

    method WritePage(i: nat, page: Page, limit: nat) returns (ok: bool)
      requires |text| <= limit
      modifies this
      ensures text == Take(Render(old(text), PageWrites(i, page)), limit)
      ensures ok <==> |Render(old(text), PageWrites(i, page))| <= limit
    {
      ghost var header, body, tables := [Block(PageHeader(i))], [Block(page.text)], Blocks(page.tables);
      RenderOne(text, header[0]);
      RenderConcat(text, header, body);
      RenderConcat(text, header + body, tables);
      ok := WriteBlock(PageHeader(i), limit);
      if !ok {
        Overflow(old(text), header, PageWrites(i, page), limit);
        return;
      }
      RenderOne(text, body[0]);
      if page.text != "" {
        ok := WriteBlock(page.text, limit);
        if !ok {
          Overflow(old(text), header + body, PageWrites(i, page), limit);
          return;
        }
      }
      ok := WriteTables(page.tables, limit);
    }

    /** The lines of one row, with the rule below it when it is the first. */
    method WriteRow(cells: seq<string>, first: bool, limit: nat) returns (ok: bool)
      requires |text| <= limit && cells != []
      modifies this
      ensures text == Take(Render(old(text), LineWrites(cells, first)), limit)
      ensures ok <==> |Render(old(text), LineWrites(cells, first))| <= limit
    {
      ghost var line, rule := [Raw(Line(cells))], [Raw(Rule(cells))];
      RenderOne(text, line[0]);
      RenderConcat(text, line, rule);
      ok := WriteLimited(Line(cells), limit);
      if !ok {
        Overflow(old(text), line, LineWrites(cells, first), limit);
        return;
      }
      if first {
        RenderOne(text, rule[0]);
        ok := WriteLimited(Rule(cells), limit);
      }
    }

    method WriteRows(sheet: Sheet, limit: nat) returns (ok: bool)
      requires |text| <= limit
      modifies this
      ensures text == Take(Render(old(text), RowWrites(sheet, Rows(sheet))), limit)
      ensures ok <==> |Render(old(text), RowWrites(sheet, Rows(sheet)))| <= limit
    {
      var rows, first := Rows(sheet), true;
      for row := 0 to rows
        invariant |text| <= limit
        invariant text == Render(old(text), RowWrites(sheet, row))
        invariant first <==> RowWrites(sheet, row) == []
      {
        var cells := Rendered(sheet, row);
        if cells == [] {
          continue;
        }
        NextRow(old(text), sheet, row, rows, limit);
        ok := WriteRow(cells, first, limit);
        if !ok {
          return;
        }
        first := false;
      }
      ok := true;
    }

    method WriteSheet(i: nat, sheet: Sheet, limit: nat) returns (ok: bool)
      requires |text| <= limit
      modifies this
      ensures text == Take(Render(old(text), SheetWrites(i, sheet)), limit)
      ensures ok <==> |Render(old(text), SheetWrites(i, sheet))| <= limit
    {
      ghost var title, rows := [Block("## " + sheet.title)], RowWrites(sheet, Rows(sheet));
      RenderOne(text, title[0]);
      RenderConcat(text, title, rows);
      ok := WriteBlock("## " + sheet.title, limit);
      if !ok {
        Overflow(old(text), title, SheetWrites(i, sheet), limit);
        return;
      }
      ok := WriteRows(sheet, limit);
    }
  }

  // ----- slides -----

  datatype Shape = Group(children: seq<Shape>) | Content(markdown: string)

  function ShapeWrites(shape: Shape): seq<Write>
    decreases shape, 0
  {
    match shape
    case Content(markdown) => [Block(markdown)]
    case Group(children) => ShapesWrites(children)
  }

  function ShapesWrites(shapes: seq<Shape>): seq<Write>
    decreases shapes, |shapes|
  {
    if shapes == [] then []
    else
      var n := |shapes| - 1;
      ShapesWrites(shapes[..n]) + ShapeWrites(shapes[n])
  }

  lemma {:induction false} ShapesPrefix(shapes: seq<Shape>, n: nat)
    requires n < |shapes|
    ensures ShapesWrites(shapes[..n + 1]) == ShapesWrites(shapes[..n]) + ShapeWrites(shapes[n])
    ensures ShapesWrites(shapes[..n + 1]) <= ShapesWrites(shapes)
    decreases |shapes|
  {
    assert shapes[..n + 1][..n] == shapes[..n];
    if n + 1 < |shapes| {
      var m := |shapes| - 1;
      ShapesPrefix(shapes[..m], n);
      assert shapes[..m][..n + 1] == shapes[..n + 1];
    } else {
      assert shapes[..n + 1] == shapes;
    }
  }

  // ----- word processor documents -----

  datatype DocxBlock = Table(markdown: string) | Paragraph(body: string, heading: nat, listed: bool)

  function Hashes(n: nat): string {
    seq(n, _ => '#')
  }

  function DocxText(block: DocxBlock): string {
    match block
    case Table(markdown) => markdown
    case Paragraph(body, heading, listed) =>
      if body == "" then ""
      else if heading > 0 then Hashes(heading) + " " + body
      else if listed then "- " + body
      else body
  }

  function DocxBlockWrites(i: nat, block: DocxBlock): seq<Write> {
    [Block(DocxText(block))]
  }

  function DocxWrites(blocks: seq<DocxBlock>): seq<Write> {
    FlatMap(blocks, DocxBlockWrites)
  }

  lemma RenderOne(full: string, write: Write)
    ensures Render(full, [write]) == Append(full, write)
  {
    assert [write][..0] == [];
  }

  /** What a converter knows between two items, and what it may return when an item is refused. */
  lemma NextItem<T>(items: seq<T>, i: nat, writes: (nat, T) -> seq<Write>, limit: nat)
    requires i < |items|
    ensures var next := Render(Render("", FlatMap(items[..i], writes)), writes(i, items[i]));
      && Render("", FlatMap(items[..i + 1], writes)) == next
      && (|next| > limit ==>
            && Take(Render("", FlatMap(items, writes)), limit) == Take(next, limit)
            && |Render("", FlatMap(items, writes))| > limit)
  {
    FlatMapPrefix(items, i, writes);
    FlatMapPrefix(items, i + 1, writes);
    RenderConcat("", FlatMap(items[..i], writes), writes(i, items[i]));
    if |Render("", FlatMap(items[..i + 1], writes))| > limit {
      Overflow("", FlatMap(items[..i + 1], writes), FlatMap(items, writes), limit);
    }
  }

  method DocxMarkdown(blocks: seq<DocxBlock>, limit: nat) returns (text: string, truncated: bool)
    ensures text == Take(Render("", DocxWrites(blocks)), limit)
    ensures truncated <==> |Render("", DocxWrites(blocks))| > limit
  {
    var output := new Output();
    for i := 0 to |blocks|
      invariant |output.text| <= limit
      invariant output.text == Render("", DocxWrites(blocks[..i]))
    {
      NextItem(blocks, i, DocxBlockWrites, limit);
      RenderOne(output.text, Block(DocxText(blocks[i])));
      if blocks[i].Paragraph? && blocks[i].body == "" {
        continue;
      }
      var ok := output.WriteBlock(DocxText(blocks[i]), limit);
      if !ok {
        return output.text, true;
      }
    }
    assert blocks[..|blocks|] == blocks;
    return output.text, false;
  }

  // ----- presentations -----

  function Decimal(n: nat): string {
    if n < 10 then ['0' + n as char] else Decimal(n / 10) + ['0' + (n % 10) as char]
  }

  /** The shapes are in reading order: top to bottom, then left to right. */
  datatype Slide = Slide(shapes: seq<Shape>, notes: string)

  function SlideHeader(i: nat): string {
    "<!-- Slide number: " + Decimal(i + 1) + " -->"
  }

  function NotesText(notes: string): string {
    if notes == "" then "" else "### Notes:\n\n" + notes
  }

  function SlideWrites(i: nat, slide: Slide): seq<Write> {
    [Block(SlideHeader(i))] + ShapesWrites(slide.shapes) + [Block(NotesText(slide.notes))]
  }

  method PptxMarkdown(slides: seq<Slide>, limit: nat) returns (text: string, truncated: bool)
    ensures text == Take(Render("", FlatMap(slides, SlideWrites)), limit)
    ensures truncated <==> |Render("", FlatMap(slides, SlideWrites))| > limit
  {
    var output := new Output();
    for i := 0 to |slides|
      invariant |output.text| <= limit
      invariant output.text == Render("", FlatMap(slides[..i], SlideWrites))
    {
      NextItem(slides, i, SlideWrites, limit);
      var ok := output.WriteSlide(i, slides[i], limit);
      if !ok {
        return output.text, true;
      }
    }
    assert slides[..|slides|] == slides;
    return output.text, false;
  }

  // ----- pages -----

  datatype Page = Page(text: string, tables: seq<string>)

  function PageHeader(i: nat): string {
    "<!-- Page number: " + Decimal(i + 1) + " -->"
  }

  function Blocks(texts: seq<string>): seq<Write> {
    seq(|texts|, i requires 0 <= i < |texts| => Block(texts[i]))
  }

  function PageWrites(i: nat, page: Page): seq<Write> {
    [Block(PageHeader(i))] + [Block(page.text)] + Blocks(page.tables)
  }

  method PdfMarkdown(pages: seq<Page>, limit: nat) returns (text: string, truncated: bool)
    ensures text == Take(Render("", FlatMap(pages, PageWrites)), limit)
    ensures truncated <==> |Render("", FlatMap(pages, PageWrites))| > limit
  {
    var output := new Output();
    for i := 0 to |pages|
      invariant |output.text| <= limit
      invariant output.text == Render("", FlatMap(pages[..i], PageWrites))
    {
      NextItem(pages, i, PageWrites, limit);
      var ok := output.WritePage(i, pages[i], limit);
      if !ok {
        return output.text, true;
      }
    }
    assert pages[..|pages|] == pages;
    return output.text, false;
  }

  // ----- workbooks -----

  const CELL_CAP := 100_000

  /** The declared size may be unknown (zero); `cells` are the values that are really there. */
  datatype Sheet = Sheet(title: string, maxRow: nat, maxColumn: nat, cells: seq<seq<string>>)

  function Columns(sheet: Sheet): (n: nat)
    ensures 1 <= n <= CELL_CAP
  {
    var declared := if sheet.maxColumn == 0 then 1 else sheet.maxColumn;
    if declared < CELL_CAP then declared else CELL_CAP
  }

  function Rows(sheet: Sheet): nat {
    var declared := if sheet.maxRow == 0 then 1 else sheet.maxRow;
    var allowed := CELL_CAP / Columns(sheet);
    var bounded := if declared < allowed then declared else allowed;
    if bounded > 1 then bounded else 1
  }

  predicate OverCap(sheet: Sheet) {
    sheet.maxRow * sheet.maxColumn > CELL_CAP
  }

  lemma DivideTimes(x: nat, y: nat)
    requires y > 0
    ensures x / y * y <= x < (x / y + 1) * y
  {
  }

  lemma Monotone(a: nat, b: nat, c: nat)
    requires a <= b
    ensures a * c <= b * c && c * a <= c * b
  {
  }

  /** The cells read never exceed the cap, a declared grid is read whole exactly when within it, and no row more would fit. */
  lemma CellCap(sheet: Sheet)
    ensures Rows(sheet) * Columns(sheet) <= CELL_CAP
    ensures sheet.maxRow > 0 && sheet.maxColumn > 0 ==>
      (Rows(sheet) == sheet.maxRow && Columns(sheet) == sheet.maxColumn <==> !OverCap(sheet))
    ensures Rows(sheet) < sheet.maxRow ==> (Rows(sheet) + 1) * Columns(sheet) > CELL_CAP
    ensures Columns(sheet) < sheet.maxColumn ==> Columns(sheet) == CELL_CAP
  {
    var columns := Columns(sheet);
    var allowed := CELL_CAP / columns;
    DivideTimes(CELL_CAP, columns);
    Monotone(Rows(sheet), allowed, columns);
    if sheet.maxRow > 0 && sheet.maxColumn > 0 && !OverCap(sheet) {
      Monotone(1, sheet.maxRow, sheet.maxColumn);
      assert columns == sheet.maxColumn;
      if sheet.maxRow > allowed {
        Monotone(allowed + 1, sheet.maxRow, columns);
      }
    }
  }

  function Cell(sheet: Sheet, row: nat, column: nat): string {
    if row < |sheet.cells| && column < |sheet.cells[row]| then sheet.cells[row][column] else ""
  }

  function EscapeCell(value: string): string {
    if value == "" then ""
    else (if value[0] == '|' then "\\|" else if value[0] == '\n' then " " else [value[0]]) + EscapeCell(value[1..])
  }

  function DropTrailingEmpty(cells: seq<string>): seq<string> {
    if cells != [] && cells[|cells| - 1] == "" then DropTrailingEmpty(cells[..|cells| - 1]) else cells
  }

  function Rendered(sheet: Sheet, row: nat): seq<string> {
    DropTrailingEmpty(seq(Columns(sheet), c requires c >= 0 => EscapeCell(Cell(sheet, row, c))))
  }

  function Join(cells: seq<string>): string {
    if cells == [] then "" else if |cells| == 1 then cells[0] else cells[0] + " | " + Join(cells[1..])
  }

  function Line(cells: seq<string>): string {
    "\n| " + Join(cells) + " |"
  }

  function Rule(cells: seq<string>): string {
    Line(seq(|cells|, _ => "---"))
  }

  function LineWrites(cells: seq<string>, first: bool): seq<Write> {
    [Raw(Line(cells))] + if first then [Raw(Rule(cells))] else []
  }

  /** A row that is not empty adds its line; the first such line is followed by a rule. */
  function WithRow(before: seq<Write>, cells: seq<string>): (writes: seq<Write>)
    ensures before <= writes
  {
    if cells == [] then before else before + LineWrites(cells, before == [])
  }

  function Lines(row: nat -> seq<string>, n: nat): seq<Write> {
    if n == 0 then [] else WithRow(Lines(row, n - 1), row(n - 1))
  }

  function RowOf(sheet: Sheet): nat -> seq<string> {
    (row: nat) => Rendered(sheet, row)
  }

  /** The lines of the first `n` rows. */
  function RowWrites(sheet: Sheet, n: nat): seq<Write> {
    Lines(RowOf(sheet), n)
  }

  lemma {:induction false} LinesPrefix(row: nat -> seq<string>, m: nat, n: nat)
    requires m <= n
    ensures Lines(row, m) <= Lines(row, n)
    decreases n
  {
    if m < n {
      LinesPrefix(row, m, n - 1);
    }
  }

  /** The effect of one more row that is not empty. */
  lemma NextRow(full: string, sheet: Sheet, row: nat, rows: nat, limit: nat)
    requires row < rows && Rendered(sheet, row) != []
    ensures var added := LineWrites(Rendered(sheet, row), RowWrites(sheet, row) == []);
      var next := Render(Render(full, RowWrites(sheet, row)), added);
      && RowWrites(sheet, row + 1) != []
      && Render(full, RowWrites(sheet, row + 1)) == next
      && (|next| > limit ==>
            && Take(Render(full, RowWrites(sheet, rows)), limit) == Take(next, limit)
            && |Render(full, RowWrites(sheet, rows))| > limit)
  {
    RenderConcat(full, RowWrites(sheet, row), LineWrites(Rendered(sheet, row), RowWrites(sheet, row) == []));
    LinesPrefix(RowOf(sheet), row + 1, rows);
    if |Render(full, RowWrites(sheet, row + 1))| > limit {
      Overflow(full, RowWrites(sheet, row + 1), RowWrites(sheet, rows), limit);
    }
  }

  function SheetWrites(i: nat, sheet: Sheet): seq<Write> {
    [Block("## " + sheet.title)] + RowWrites(sheet, Rows(sheet))
  }

  /** How many sheets are read: reading ends with the first one declared above the cap. */
  function SheetsRead(sheets: seq<Sheet>): (n: nat)
    ensures n <= |sheets|
  {
    if sheets == [] then 0 else if OverCap(sheets[0]) then 1 else 1 + SheetsRead(sheets[1..])
  }

  predicate AnyOverCap(sheets: seq<Sheet>) {
    exists i :: 0 <= i < |sheets| && OverCap(sheets[i])
  }

  lemma {:induction false} SheetsReadBounds(sheets: seq<Sheet>, i: nat)
    requires i <= |sheets| && !AnyOverCap(sheets[..i])
    ensures i <= SheetsRead(sheets)
    ensures i < |sheets| ==> i < SheetsRead(sheets)
    ensures i < |sheets| && OverCap(sheets[i]) ==> SheetsRead(sheets) == i + 1
  {
    if i > 0 {
      assert !OverCap(sheets[..i][0]);
      assert sheets[1..][..i - 1] == sheets[..i][1..];
      SheetsReadBounds(sheets[1..], i - 1);
    }
  }

  lemma AnyOverCapNext(sheets: seq<Sheet>, i: nat)
    requires i < |sheets| && !AnyOverCap(sheets[..i])
    ensures OverCap(sheets[i]) ==> AnyOverCap(sheets)
    ensures !OverCap(sheets[i]) ==> !AnyOverCap(sheets[..i + 1])
  {
    var longer := sheets[..i + 1];
    forall j | 0 <= j < i ensures !OverCap(longer[j]) {
      assert longer[j] == sheets[..i][j];
    }
  }

  lemma {:induction false} EmptyCellsAreDropped(cells: seq<string>)
    requires forall c :: 0 <= c < |cells| ==> cells[c] == ""
    ensures DropTrailingEmpty(cells) == []
  {
    if cells != [] {
      EmptyCellsAreDropped(cells[..|cells| - 1]);
    }
  }

  lemma {:induction false} EmptyRows(sheet: Sheet, n: nat)
    requires sheet.cells == []
    ensures RowWrites(sheet, n) == []
  {
    if n > 0 {
      EmptyRows(sheet, n - 1);
      EmptyCellsAreDropped(seq(Columns(sheet), c requires c >= 0 => EscapeCell(Cell(sheet, n - 1, c))));
    }
  }

  /** An empty sheet declared above the cap: all the text there is fits in four characters, and yet it counts as cut. */
  lemma EmptySheetOverCap(sheet: Sheet)
    requires sheet == Sheet("S", 100_001, 1, [])
    ensures AnyOverCap([sheet]) && Render("", FlatMap([sheet][..SheetsRead([sheet])], SheetWrites)) == "## S"
  {
    EmptyRows(sheet, Rows(sheet));
    assert OverCap([sheet][0]);
    assert [sheet][..1] == [sheet] && [sheet][..0] == [];
    assert SheetWrites(0, sheet) == [Block("## S")] by {
      assert "## " + "S" == "## S";
    }
    assert FlatMap([sheet], SheetWrites) == [Block("## S")];
    RenderOne("", Block("## S"));
  }

  method XlsxMarkdown(sheets: seq<Sheet>, limit: nat) returns (text: string, truncated: bool)
    ensures var full := Render("", FlatMap(sheets[..SheetsRead(sheets)], SheetWrites));
      && text == Take(full, limit)
      && (truncated <==> |full| > limit || AnyOverCap(sheets))
  {
    var output := new Output();
    ghost var read := sheets[..SheetsRead(sheets)];
    for i := 0 to |sheets|
      invariant i <= |read| && !AnyOverCap(sheets[..i])
      invariant |output.text| <= limit
      invariant output.text == Render("", FlatMap(read[..i], SheetWrites))
    {
      SheetsReadBounds(sheets, i);
      AnyOverCapNext(sheets, i);
      NextItem(read, i, SheetWrites, limit);
      var ok := output.WriteSheet(i, sheets[i], limit);
      if !ok {
        return output.text, true;
      }
      if OverCap(sheets[i]) {
        assert read[..i + 1] == read;
        return output.text, true;
      }
    }
    assert sheets[..|sheets|] == sheets;
    assert read[..|sheets|] == read;
    return output.text, false;
  }

  // ----- dispatch -----

  datatype Document =
    | Docx(blocks: seq<DocxBlock>) | Xlsx(sheets: seq<Sheet>) | Pptx(slides: seq<Slide>) | Pdf(pages: seq<Page>)

  function AllWrites(document: Document): seq<Write> {
    match document
    case Docx(blocks) => DocxWrites(blocks)
    case Xlsx(sheets) => FlatMap(sheets[..SheetsRead(sheets)], SheetWrites)
    case Pptx(slides) => FlatMap(slides, SlideWrites)
    case Pdf(pages) => FlatMap(pages, PageWrites)
  }

  /** A workbook with a sheet above the cell cap is reported as truncated whatever its text. */
  predicate CapReached(document: Document) {
    document.Xlsx? && AnyOverCap(document.sheets)
  }

  /**
   The text is exactly the first `limit` characters of the unlimited rendering, and the flag is
   set exactly when that rendering is longer or the cell cap cut a sheet.
   */
  method DocumentToMarkdown(document: Document, limit: int) returns (result: Option<(string, bool)>)
    ensures result.None? <==> limit <= 0
    ensures result.Some? ==>
      && result.value.0 == Take(Render("", AllWrites(document)), limit)
      && (result.value.1 <==> |Render("", AllWrites(document))| > limit || CapReached(document))
  {
    if limit <= 0 {
      return None;
    }
    var text, truncated;
    match document {
      case Docx(blocks) => text, truncated := DocxMarkdown(blocks, limit);
      case Xlsx(sheets) => text, truncated := XlsxMarkdown(sheets, limit);
      case Pptx(slides) => text, truncated := PptxMarkdown(slides, limit);
      case Pdf(pages) => text, truncated := PdfMarkdown(pages, limit);
    }
    return Some((text, truncated));
  }
}
