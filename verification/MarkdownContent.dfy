/**
 What the unlimited rendering says: blocks and their separation, numbered headers, and table rows that a reader
 of the text gets back cell by cell.
 */
module MarkdownContent {
  import opened Common
  import opened MarkdownWriter

  // ----- blocks -----

  /** The texts of the blocks that are not empty. */
  function Texts(writes: seq<Write>): seq<string> {
    if writes == [] then []
    else
      var n := |writes| - 1;
      Texts(writes[..n]) + if writes[n].text == "" then [] else [writes[n].text]
  }

  /** One after the other, with a blank line between two. */
  function Spaced(texts: seq<string>): string {
    if texts == [] then ""
    else
      var n := |texts| - 1;
      (if n == 0 then "" else Spaced(texts[..n]) + "\n\n") + texts[n]
  }

  lemma {:induction false} SpacedIsEmpty(texts: seq<string>)
    requires forall i :: 0 <= i < |texts| ==> texts[i] != ""
    ensures Spaced(texts) == "" <==> texts == []
  {
  }

  lemma {:induction false} TextsAreFull(writes: seq<Write>)
    ensures forall i :: 0 <= i < |Texts(writes)| ==> Texts(writes)[i] != ""
  {
    if writes != [] {
      TextsAreFull(writes[..|writes| - 1]);
    }
  }

  /** A document of blocks is the blocks that are not empty, in order, with a blank line between two. */
  lemma {:induction false} BlocksAreSpaced(writes: seq<Write>)
    requires forall i :: 0 <= i < |writes| ==> writes[i].Block?
    ensures Render("", writes) == Spaced(Texts(writes))
  {
    if writes != [] {
      var n := |writes| - 1;
      BlocksAreSpaced(writes[..n]);
      TextsAreFull(writes[..n]);
      SpacedIsEmpty(Texts(writes[..n]));
      var texts := Texts(writes[..n]);
      if writes[n].text != "" {
        assert (texts + [writes[n].text])[..|texts|] == texts;
      } else {
        assert texts + [] == texts;
      }
    }
  }

  // ----- numbers and word processor blocks -----

  predicate IsDigit(c: char) {
    '0' <= c <= '9'
  }

  predicate AllDigits(s: string) {
    forall i :: 0 <= i < |s| ==> IsDigit(s[i])
  }

  /** The number that decimal digits spell. */
  function Value(s: string): nat
    requires AllDigits(s)
  {
    if s == "" then 0 else 10 * Value(s[..|s| - 1]) + (s[|s| - 1] - '0') as nat
  }

  /** Numbers are written in decimal, without a leading zero. */
  lemma {:induction false} DecimalSpells(n: nat)
    ensures AllDigits(Decimal(n)) && Value(Decimal(n)) == n && Decimal(n) != ""
    ensures n > 0 ==> Decimal(n)[0] != '0'
  {
    if n >= 10 {
      DecimalSpells(n / 10);
      assert Decimal(n)[..|Decimal(n)| - 1] == Decimal(n / 10);
    } else {
      assert Decimal(n)[..0] == "";
    }
  }

  /** Pages and slides are headed by their number, counted from 1. */
  lemma HeadersCount(i: nat)
    ensures AllDigits(Decimal(i + 1)) && Value(Decimal(i + 1)) == i + 1
    ensures PageHeader(i) == "<!-- Page number: " + Decimal(i + 1) + " -->"
    ensures SlideHeader(i) == "<!-- Slide number: " + Decimal(i + 1) + " -->"
  {
    DecimalSpells(i + 1);
  }

  /** A heading has as many marks as its level and keeps its text; lists get a dash, and an empty paragraph is nothing. */
  lemma ParagraphShows(body: string, heading: nat, listed: bool)
    ensures var text := DocxText(Paragraph(body, heading, listed));
      && (body == "" ==> text == "")
      && (body != "" && heading > 0 ==>
            |text| == heading + 1 + |body| && text[heading] == ' ' && text[heading + 1..] == body
            && forall i :: 0 <= i < heading ==> text[i] == '#')
      && (body != "" && heading == 0 && listed ==> text == "- " + body)
      && (body != "" && heading == 0 && !listed ==> text == body)
  {
  }

  // ----- table cells -----

  /** A cell as it is read back: line ends have become spaces. */
  function Flat(value: string): string {
    seq(|value|, i requires 0 <= i < |value| => if value[i] == '\n' then ' ' else value[i])
  }

  /** Reads a cell: a backslash before a bar only marks it. */
  function Unescape(text: string): string {
    if text == "" then ""
    else if |text| > 1 && text[0] == '\\' && text[1] == '|' then "|" + Unescape(text[2..])
    else [text[0]] + Unescape(text[1..])
  }

  lemma {:induction false} FlatFirst(value: string)
    requires value != ""
    ensures Flat(value) == [if value[0] == '\n' then ' ' else value[0]] + Flat(value[1..])
  {
  }

  lemma {:induction false} EscapedStart(value: string)
    ensures EscapeCell(value) == "" <==> value == ""
    ensures value != "" ==> EscapeCell(value)[0] != '|'
  {
  }

  /** An escaped cell is read back as the cell. */
  lemma {:induction false} CellIsRead(value: string)
    ensures Unescape(EscapeCell(value)) == Flat(value)
  {
    if value != "" {
      var rest := EscapeCell(value[1..]);
      FlatFirst(value);
      CellIsRead(value[1..]);
      EscapedStart(value[1..]);
      if value[0] == '|' {
        assert EscapeCell(value)[2..] == rest;
      } else {
        assert EscapeCell(value)[1..] == rest;
      }
    }
  }

  /** No line end, and no bar without a backslash before it. */
  predicate Contained(text: string) {
    forall i :: 0 <= i < |text| ==> text[i] != '\n' && (text[i] == '|' ==> i > 0 && text[i - 1] == '\\')
  }

  lemma {:induction false} EscapedIsContained(value: string)
    ensures Contained(EscapeCell(value))
  {
    if value != "" {
      var rest, whole := EscapeCell(value[1..]), EscapeCell(value);
      var k := if value[0] == '|' then 2 else 1;
      EscapedIsContained(value[1..]);
      EscapedStart(value[1..]);
      assert whole[k..] == rest;
      forall i | 0 <= i < |whole|
        ensures whole[i] != '\n' && (whole[i] == '|' ==> i > 0 && whole[i - 1] == '\\')
      {
        if i >= k {
          assert whole[i] == rest[i - k];
          assert i > k ==> whole[i - 1] == rest[i - k - 1];
        }
      }
    }
  }

  // ----- table rows -----

  /** Cuts a row at its bars that no backslash marks; `last` is the character before, `field` what was read since. */
  function Fields(text: string, last: char, field: string): seq<string> {
    if text == "" then [field]
    else if text[0] == '|' && last != '\\' then [field] + Fields(text[1..], '|', "")
    else Fields(text[1..], text[0], field + [text[0]])
  }

  /** If it is a bar, a backslash comes before it. */
  predicate Marked(text: string, i: nat, last: char)
    requires i < |text|
  {
    text[i] == '|' ==> (if i == 0 then last else text[i - 1]) == '\\'
  }

  lemma {:induction false} FieldsOver(text: string, rest: string, last: char, field: string)
    requires forall i {:trigger Marked(text, i, last)} :: 0 <= i < |text| ==> Marked(text, i, last)
    ensures Fields(text + rest, last, field)
         == Fields(rest, if text == "" then last else text[|text| - 1], field + text)
  {
    if text == "" {
      assert text + rest == rest && field + text == field;
    } else {
      var tail := text[1..];
      assert (text + rest)[1..] == tail + rest && (text + rest)[0] == text[0];
      forall i | 0 <= i < |tail| ensures Marked(tail, i, text[0]) {
        assert Marked(text, i + 1, last);
      }
      assert Marked(text, 0, last);
      FieldsOver(tail, rest, text[0], field + [text[0]]);
      assert tail == "" ==> text[|text| - 1] == text[0];
      assert tail != "" ==> tail[|tail| - 1] == text[|text| - 1];
      assert text[0] == '|' ==> last == '\\';
      assert Fields(text + rest, last, field) == Fields(tail + rest, text[0], field + [text[0]]);
      assert field + [text[0]] + text[1..] == field + text;
    }
  }

  lemma PaddedOver(padded: string, rest: string)
    requires padded != "" && padded[|padded| - 1] == ' ' && rest != "" && rest[0] == '|'
    requires forall i :: 0 <= i < |padded| && padded[i] == '|' ==> i > 0 && padded[i - 1] == '\\'
    ensures Fields(padded + rest, '|', "") == [padded] + Fields(rest[1..], '|', "")
  {
    forall i | 0 <= i < |padded| ensures Marked(padded, i, '|') {
      assert padded[i] == '|' ==> i > 0;
    }
    FieldsOver(padded, rest, '|', "");
    assert "" + padded == padded;
  }

  /** One cell between its bars. */
  lemma FieldsCell(cell: string, rest: string)
    requires Contained(cell) && rest != "" && rest[0] == '|'
    ensures Fields(" " + cell + " " + rest, '|', "") == [" " + cell + " "] + Fields(rest[1..], '|', "")
  {
    var padded := " " + cell + " ";
    forall i | 0 <= i < |padded| && padded[i] == '|' ensures i > 0 && padded[i - 1] == '\\' {
      assert cell[i - 1] == '|';
      assert padded[i - 1] == cell[i - 2];
    }
    PaddedOver(padded, rest);
  }

  function Padded(cells: seq<string>): seq<string> {
    seq(|cells|, i requires 0 <= i < |cells| => " " + cells[i] + " ")
  }

  lemma {:induction false} JoinedFields(cells: seq<string>)
    requires cells != [] && forall i :: 0 <= i < |cells| ==> Contained(cells[i])
    ensures Fields(" " + Join(cells) + " |", '|', "") == Padded(cells) + [""]
  {
    if |cells| == 1 {
      FieldsCell(cells[0], "|");
      assert " " + Join(cells) + " |" == " " + cells[0] + " " + "|";
      assert "|"[1..] == "";
      assert Padded(cells) == [" " + cells[0] + " "];
    } else {
      var rest := "| " + Join(cells[1..]) + " |";
      assert Join(cells) == cells[0] + " | " + Join(cells[1..]);
      assert " " + Join(cells) + " |" == " " + cells[0] + " " + rest;
      assert rest[1..] == " " + Join(cells[1..]) + " |";
      FieldsCell(cells[0], rest);
      JoinedFields(cells[1..]);
      assert Padded(cells) == [" " + cells[0] + " "] + Padded(cells[1..]);
    }
  }

  /** A row without its line end, cut at its bars: an empty field, the cells with a space on each side, an empty field. */
  lemma LineIsRead(cells: seq<string>)
    requires cells != [] && forall i :: 0 <= i < |cells| ==> Contained(cells[i])
    ensures Line(cells) != "" && Line(cells)[0] == '\n'
    ensures Fields(Line(cells)[1..], '\n', "") == [""] + Padded(cells) + [""]
  {
    var row := Line(cells)[1..];
    assert row == "| " + Join(cells) + " |";
    assert row[1..] == " " + Join(cells) + " |";
    JoinedFields(cells);
    assert [""] + (Padded(cells) + [""]) == [""] + Padded(cells) + [""];
  }

  // ----- workbook rows -----

  /** The value of a cell of the grid, from the values that are there. */
  function Grid(sheet: Sheet, row: nat, column: nat): string {
    if row < |sheet.cells| && column < |sheet.cells[row]| then sheet.cells[row][column] else ""
  }

  lemma {:induction false} TrailingDropped(cells: seq<string>)
    ensures DropTrailingEmpty(cells) <= cells
    ensures forall c :: |DropTrailingEmpty(cells)| <= c < |cells| ==> cells[c] == ""
    ensures DropTrailingEmpty(cells) != [] ==> DropTrailingEmpty(cells)[|DropTrailingEmpty(cells)| - 1] != ""
  {
    if cells != [] && cells[|cells| - 1] == "" {
      TrailingDropped(cells[..|cells| - 1]);
    }
  }

  /** The fields of a line of cells hold, between their spaces, the cells. */
  lemma FieldsHold(cells: seq<string>, c: nat)
    requires c < |cells| && forall i :: 0 <= i < |cells| ==> Contained(cells[i])
    ensures var fields := Fields(Line(cells)[1..], '\n', "");
      |fields| == |cells| + 2 && |fields[c + 1]| == |cells[c]| + 2 && fields[c + 1][1..|cells[c]| + 1] == cells[c]
  {
    LineIsRead(cells);
    var padded := " " + cells[c] + " ";
    assert Padded(cells)[c] == padded && padded[1..|cells[c]| + 1] == cells[c];
  }

  function Escaped(sheet: Sheet, row: nat): seq<string> {
    seq(Columns(sheet), c requires c >= 0 => EscapeCell(Grid(sheet, row, c)))
  }

  lemma RenderedIs(sheet: Sheet, row: nat)
    ensures Rendered(sheet, row) == DropTrailingEmpty(Escaped(sheet, row))
  {
    assert seq(Columns(sheet), c requires c >= 0 => EscapeCell(Cell(sheet, row, c))) == Escaped(sheet, row);
  }

  lemma RenderedCell(sheet: Sheet, row: nat, c: nat)
    requires c < Columns(sheet)
    ensures c < |Rendered(sheet, row)| ==> Rendered(sheet, row)[c] == EscapeCell(Grid(sheet, row, c))
    ensures c >= |Rendered(sheet, row)| ==> Grid(sheet, row, c) == ""
    ensures c + 1 == |Rendered(sheet, row)| ==> Grid(sheet, row, c) != ""
  {
    RenderedIs(sheet, row);
    TrailingDropped(Escaped(sheet, row));
    assert Escaped(sheet, row)[c] == EscapeCell(Grid(sheet, row, c));
    EscapedStart(Grid(sheet, row, c));
  }

  /**
   The line of a row, read back, gives in column c what the grid holds there, up to its last cell that is not empty; a
   column that has no field is empty.
   */
  lemma RowIsRead(sheet: Sheet, row: nat, c: nat)
    requires c < Columns(sheet)
    ensures var width := |Rendered(sheet, row)|;
      && width <= Columns(sheet)
      && (c >= width ==> Grid(sheet, row, c) == "")
      && (c + 1 == width ==> Grid(sheet, row, c) != "")
      && (c < width ==>
            var fields := Fields(Line(Rendered(sheet, row))[1..], '\n', "");
            && |fields| == width + 2 && |fields[c + 1]| >= 2
            && Unescape(fields[c + 1][1..|fields[c + 1]| - 1]) == Flat(Grid(sheet, row, c)))
  {
    var shown := Rendered(sheet, row);
    RenderedIs(sheet, row);
    TrailingDropped(Escaped(sheet, row));
    RenderedCell(sheet, row, c);
    if c < |shown| {
      forall k | 0 <= k < |shown| ensures Contained(shown[k]) {
        RenderedCell(sheet, row, k);
        EscapedIsContained(Grid(sheet, row, k));
      }
      FieldsHold(shown, c);
      CellIsRead(Grid(sheet, row, c));
    }
  }

  /** The rows that are not empty, in order. */
  function FullRows(row: nat -> seq<string>, n: nat): seq<seq<string>> {
    if n == 0 then [] else FullRows(row, n - 1) + if row(n - 1) == [] then [] else [row(n - 1)]
  }

  function LinesOf(rows: seq<seq<string>>): seq<Write> {
    seq(|rows|, i requires 0 <= i < |rows| => Raw(Line(rows[i])))
  }

  /** The first row, a rule of as many dashes as it has cells, and the other rows. */
  function Table(rows: seq<seq<string>>): seq<Write> {
    if rows == [] then [] else [Raw(Line(rows[0])), Raw(Line(seq(|rows[0]|, _ => "---")))] + LinesOf(rows[1..])
  }

  /** A table grows by one row as lines are added, whatever was there before. */
  ghost predicate Grows(table: seq<seq<string>> -> seq<Write>, before: seq<seq<string>>, cells: seq<string>) {
    WithRow(table(before), cells) == table(before + if cells == [] then [] else [cells])
  }

  lemma {:induction false} LinesGrow(row: nat -> seq<string>, n: nat, table: seq<seq<string>> -> seq<Write>)
    requires table([]) == []
    requires forall before, cells {:trigger Grows(table, before, cells)} :: Grows(table, before, cells)
    ensures Lines(row, n) == table(FullRows(row, n))
  {
    if n > 0 {
      LinesGrow(row, n - 1, table);
      assert Grows(table, FullRows(row, n - 1), row(n - 1));
    }
  }

  lemma LinesAreTable(row: nat -> seq<string>, n: nat)
    ensures Lines(row, n) == Table(FullRows(row, n))
  {
    forall before, cells ensures Grows(Table, before, cells) {
      TableNext(before, cells, if cells == [] then [] else [cells]);
    }
    LinesGrow(row, n, Table);
  }

  lemma TableNext(before: seq<seq<string>>, cells: seq<string>, shown: seq<seq<string>>)
    requires shown == if cells == [] then [] else [cells]
    ensures WithRow(Table(before), cells) == Table(before + shown)
  {
    if cells == [] {
      assert before + shown == before;
    } else {
      var rows := before + [cells];
      if before == [] {
        assert rows[1..] == [];
      } else {
        assert rows[0] == before[0] && rows[1..] == before[1..] + [cells];
        assert LinesOf(rows[1..]) == LinesOf(before[1..]) + [Raw(Line(cells))];
      }
    }
  }

  /** A sheet's table is made of its rows that are not empty. */
  lemma TableIs(sheet: Sheet, n: nat)
    ensures RowWrites(sheet, n) == Table(FullRows(RowOf(sheet), n))
  {
    LinesAreTable(RowOf(sheet), n);
  }

  // ----- whole documents, front to back -----

  /** Without the empty ones. */
  function Full(texts: seq<string>): seq<string> {
    if texts == [] then []
    else
      var n := |texts| - 1;
      Full(texts[..n]) + if texts[n] == "" then [] else [texts[n]]
  }

  lemma {:induction false} TextsOfBlocks(texts: seq<string>)
    ensures Texts(Blocks(texts)) == Full(texts)
  {
    if texts != [] {
      assert Blocks(texts)[..|texts| - 1] == Blocks(texts[..|texts| - 1]);
      TextsOfBlocks(texts[..|texts| - 1]);
    }
  }

  /** What the items from the i-th on show. */
  function FromItem<T>(items: seq<T>, i: nat, shown: (nat, T) -> seq<string>): seq<string>
    decreases |items| - i
  {
    if i >= |items| then [] else shown(i, items[i]) + FromItem(items, i + 1, shown)
  }

  lemma {:induction false} FromItemSnoc<T>(items: seq<T>, i: nat, shown: (nat, T) -> seq<string>)
    requires items != [] && i < |items|
    ensures var n := |items| - 1;
      FromItem(items, i, shown) == FromItem(items[..n], i, shown) + shown(n, items[n])
    decreases |items| - i
  {
    var n := |items| - 1;
    if i < n {
      FromItemSnoc(items, i + 1, shown);
      assert items[..n][i] == items[i];
    } else {
      assert shown(n, items[n]) + [] == [] + shown(n, items[n]);
    }
  }

  lemma BlocksConcat(a: seq<string>, b: seq<string>)
    ensures Blocks(a + b) == Blocks(a) + Blocks(b)
  {
  }

  lemma {:induction false} ItemsAre<T>(items: seq<T>, writes: (nat, T) -> seq<Write>, shown: (nat, T) -> seq<string>)
    requires forall i, x :: writes(i, x) == Blocks(shown(i, x))
    ensures FlatMap(items, writes) == Blocks(FromItem(items, 0, shown))
  {
    if items != [] {
      var n := |items| - 1;
      ItemsAre(items[..n], writes, shown);
      FromItemSnoc(items, 0, shown);
      BlocksConcat(FromItem(items[..n], 0, shown), shown(n, items[n]));
    }
  }

  /** The contents of shapes in reading order, from inside their groups. */
  function Leaves(shapes: seq<Shape>): seq<string>
    decreases shapes, |shapes|
  {
    if shapes == [] then []
    else
      (match shapes[0] case Content(markdown) => [markdown] case Group(children) => Leaves(children)) + Leaves(shapes[1..])
  }

  lemma {:induction false} ShapesAreFlat(shapes: seq<Shape>)
    ensures ShapesWrites(shapes) == FlatMap(shapes, WritesOf())
    decreases |shapes|
  {
    if shapes != [] {
      ShapesAreFlat(shapes[..|shapes| - 1]);
    }
  }

  function WritesOf(): (nat, Shape) -> seq<Write> {
    (i: nat, shape: Shape) => ShapeWrites(shape)
  }

  /** What is written for items one by one starts with the first, if their numbers play no part. */
  lemma {:induction false} FlatMapFirst<T>(items: seq<T>, writes: (nat, T) -> seq<Write>)
    requires items != [] && forall i, j, x :: writes(i, x) == writes(j, x)
    ensures FlatMap(items, writes) == writes(0, items[0]) + FlatMap(items[1..], writes)
    decreases |items|
  {
    var n := |items| - 1;
    if n > 0 {
      FlatMapFirst(items[..n], writes);
      assert items[..n][1..] == items[1..][..n - 1];
      assert writes(n - 1, items[n]) == writes(n, items[n]);
    }
  }

  lemma FirstShape(shapes: seq<Shape>)
    requires shapes != []
    ensures ShapesWrites(shapes) == ShapeWrites(shapes[0]) + ShapesWrites(shapes[1..])
  {
    ShapesAreFlat(shapes);
    ShapesAreFlat(shapes[1..]);
    FlatMapFirst(shapes, WritesOf());
  }

  lemma {:induction false} ShapesAre(shapes: seq<Shape>)
    ensures ShapesWrites(shapes) == Blocks(Leaves(shapes))
    decreases shapes, |shapes|
  {
    if shapes != [] {
      FirstShape(shapes);
      ShapesAre(shapes[1..]);
      match shapes[0]
      case Content(markdown) =>
      case Group(children) => ShapesAre(children);
    }
  }

  function BlockShown(i: nat, block: DocxBlock): seq<string> {
    [DocxText(block)]
  }

  function SlideShown(i: nat, slide: Slide): seq<string> {
    ["<!-- Slide number: " + Decimal(i + 1) + " -->"] + Leaves(slide.shapes)
    + [if slide.notes == "" then "" else "### Notes:\n\n" + slide.notes]
  }

  function PageShown(i: nat, page: Page): seq<string> {
    ["<!-- Page number: " + Decimal(i + 1) + " -->", page.text] + page.tables
  }

  /** The blocks of a document in the order they are read: each slide or page has its header, its contents, its end. */
  function Shown(document: Document): seq<string>
    requires !document.Xlsx?
  {
    match document
    case Docx(blocks) => FromItem(blocks, 0, BlockShown)
    case Pptx(slides) => FromItem(slides, 0, SlideShown)
    case Pdf(pages) => FromItem(pages, 0, PageShown)
  }

  /** A document shows its blocks that are not empty, from front to back, with a blank line between two. */
  lemma DocumentShows(document: Document)
    requires !document.Xlsx?
    ensures Render("", AllWrites(document)) == Spaced(Full(Shown(document)))
  {
    match document {
      case Docx(blocks) => ItemsAre(blocks, DocxBlockWrites, BlockShown);
      case Pptx(slides) =>
        forall i, slide: Slide ensures SlideWrites(i, slide) == Blocks(SlideShown(i, slide)) {
          ShapesAre(slide.shapes);
        }
        ItemsAre(slides, SlideWrites, SlideShown);
      case Pdf(pages) => ItemsAre(pages, PageWrites, PageShown);
    }
    TextsOfBlocks(Shown(document));
    BlocksAreSpaced(Blocks(Shown(document)));
  }

  // ----- whole workbooks -----

  function RawText(writes: seq<Write>): string {
    if writes == [] then "" else RawText(writes[..|writes| - 1]) + writes[|writes| - 1].text
  }

  lemma {:induction false} RawsFollow(full: string, writes: seq<Write>)
    requires forall i :: 0 <= i < |writes| ==> writes[i].Raw?
    ensures Render(full, writes) == full + RawText(writes)
  {
    if writes != [] {
      RawsFollow(full, writes[..|writes| - 1]);
    } else {
      assert full + "" == full;
    }
  }

  /** The title of a sheet and its table. */
  function SheetText(sheet: Sheet): string {
    "## " + sheet.title + RawText(Table(FullRows(RowOf(sheet), Rows(sheet))))
  }

  lemma TitleAndLines(full: string, title: string, lines: seq<Write>)
    requires title != "" && forall i :: 0 <= i < |lines| ==> lines[i].Raw?
    ensures Render(full, [Block(title)] + lines) == Append(full, Block(title + RawText(lines)))
  {
    RenderConcat(full, [Block(title)], lines);
    RenderOne(full, Block(title));
    RawsFollow(Append(full, Block(title)), lines);
    var start := full + if full == "" then "" else "\n\n";
    assert start + title + RawText(lines) == start + (title + RawText(lines));
  }

  lemma SheetShows(full: string, i: nat, sheet: Sheet)
    ensures Render(full, SheetWrites(i, sheet)) == Append(full, Block(SheetText(sheet)))
  {
    TableIs(sheet, Rows(sheet));
    TableIsRaw(FullRows(RowOf(sheet), Rows(sheet)));
    TitleAndLines(full, "## " + sheet.title, Table(FullRows(RowOf(sheet), Rows(sheet))));
  }

  lemma TableIsRaw(rows: seq<seq<string>>)
    ensures forall i :: 0 <= i < |Table(rows)| ==> Table(rows)[i].Raw?
  {
  }

  lemma SpacedNext(texts: seq<string>, last: string)
    requires last != "" && forall i :: 0 <= i < |texts| ==> texts[i] != ""
    ensures Spaced(texts + [last]) == Append(Spaced(texts), Block(last))
  {
    SpacedIsEmpty(texts);
    assert (texts + [last])[..|texts|] == texts;
  }

  lemma SheetTextIsFull(sheet: Sheet)
    ensures SheetText(sheet) != ""
  {
    assert |SheetText(sheet)| >= |"## "|;
  }

  /** Whatever is written before it, the item adds its text as one block. */
  ghost predicate AddsText<T>(writes: (nat, T) -> seq<Write>, text: T -> string, full: string, i: nat, x: T) {
    text(x) != "" && Render(full, writes(i, x)) == Append(full, Block(text(x)))
  }

  function Each<T>(items: seq<T>, text: T -> string): seq<string> {
    seq(|items|, i requires 0 <= i < |items| => text(items[i]))
  }

  lemma {:induction false} EachAddsText<T>(items: seq<T>, writes: (nat, T) -> seq<Write>, text: T -> string)
    requires forall full, i, x {:trigger AddsText(writes, text, full, i, x)} :: AddsText(writes, text, full, i, x)
    ensures Render("", FlatMap(items, writes)) == Spaced(Each(items, text))
  {
    if items != [] {
      var n := |items| - 1;
      var texts := Each(items[..n], text);
      EachAddsText(items[..n], writes, text);
      RenderConcat("", FlatMap(items[..n], writes), writes(n, items[n]));
      assert AddsText(writes, text, Spaced(texts), n, items[n]);
      forall i | 0 <= i < |texts| ensures texts[i] != "" {
        assert AddsText(writes, text, "", i, items[i]);
      }
      SpacedNext(texts, text(items[n]));
      assert Each(items, text) == texts + [text(items[n])];
    }
  }

  lemma SheetsShow(sheets: seq<Sheet>)
    ensures Render("", FlatMap(sheets, SheetWrites)) == Spaced(Each(sheets, SheetText))
  {
    forall full, i, sheet ensures AddsText(SheetWrites, SheetText, full, i, sheet) {
      SheetShows(full, i, sheet);
      SheetTextIsFull(sheet);
    }
    EachAddsText(sheets, SheetWrites, SheetText);
  }

  /** Reading ends with the first sheet above the cap: nothing before it is. */
  predicate ReadUpTo(sheets: seq<Sheet>, n: nat) {
    && n <= |sheets|
    && (forall i :: 0 <= i < n - 1 ==> sheets[i].maxRow * sheets[i].maxColumn <= 100_000)
    && (n == |sheets| || (n > 0 && sheets[n - 1].maxRow * sheets[n - 1].maxColumn > 100_000))
  }

  lemma {:induction false} SheetsReadIs(sheets: seq<Sheet>)
    ensures ReadUpTo(sheets, SheetsRead(sheets))
  {
    if sheets != [] && !OverCap(sheets[0]) {
      SheetsReadIs(sheets[1..]);
    }
  }

  /** A workbook shows its sheets in order, up to the first that is above the cap. */
  lemma WorkbookShows(sheets: seq<Sheet>) returns (n: nat)
    ensures ReadUpTo(sheets, n) && Render("", AllWrites(Xlsx(sheets))) == Spaced(Each(sheets[..n], SheetText))
  {
    n := SheetsRead(sheets);
    SheetsReadIs(sheets);
    SheetsShow(sheets[..n]);
  }
}
