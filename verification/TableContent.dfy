/**
 What a reader sees in a rendered table: the visible characters at a column's positions, taken down the
 lines of a row without blanks, are the visible characters of the cell without whitespace.
 */
module TableContent {
  import opened Basics
  import opened Utf8
  import opened VisibleText
  import opened WrapCell
  import opened WrapCellProofs
  import opened RenderTable
  import opened TableWidth
  import opened TableReading
  import opened SplitLines
  import ColumnShrink

  // ----- Characters of a cell -----

  lemma SilentBlock(s: Text)
    requires Block(s, 0)
    ensures Spells(s, [])
  {
    OneCharacterPerColumn(s);
  }

  lemma StyleSpells(header: bool)
    ensures Spells(BORDER, []) && Spells(RESET, [])
    ensures Spells(if header then HEADER else [], []) && Spells(if header then RESET else [], [])
  {
    StyleBlocks();
    SilentBlock(BORDER);
    SilentBlock(HEADER);
    SilentBlock(RESET);
  }

  lemma GapSpells()
    ensures Spells([SPACE], GAP) && Solid(GAP) == []
  {
    var s: Text := [SPACE];
    assert PieceLen(s) == 1 && s[..1] == s;
    PieceAlone(s);
    assert Shown([s]) == [s] + Shown([s][1..]);
    assert IsSpacePiece(GAP[0]) && GAP[1..] == [];
  }

  lemma {:induction false} BlanksSpell(n: nat)
    ensures WellFormed(Blanks(n)) && Solid(Characters(Blanks(n))) == []
  {
    BlanksBlock(n);
    if n > 0 {
      BlanksSpell(n - 1);
      GapSpells();
      assert Blanks(n) == [SPACE] + Blanks(n - 1);
      JoinSpells([SPACE], GAP, Blanks(n - 1), Characters(Blanks(n - 1)));
      SolidConcat(GAP, Characters(Blanks(n - 1)));
    }
  }

  lemma SolidBetween(a: seq<Text>, b: seq<Text>, c: seq<Text>)
    requires Solid(a) == [] && Solid(c) == []
    ensures Solid(a + b + c) == Solid(b)
  {
    SolidConcat(a, b);
    SolidConcat(a + b, c);
  }

  /** Padding adds blanks only. */
  lemma AlignedSpells(text: Text, width: nat, alignment: Alignment) returns (cs: seq<Text>)
    requires Block(text, Visible(text)) && Visible(text) <= width
    ensures Spells(Align(text, width, alignment), cs) && |cs| == width && Solid(cs) == Solid(Characters(text))
  {
    var l, r := AlignPads(text, width, alignment);
    var left, right, mine := Characters(Blanks(l)), Characters(Blanks(r)), Characters(text);
    BlanksSpell(l);
    BlanksSpell(r);
    BlanksBlock(l);
    BlanksBlock(r);
    JoinSpells(Blanks(l), left, text, mine);
    JoinSpells(Blanks(l) + text, left + mine, Blanks(r), right);
    cs := left + mine + right;
    SolidBetween(left, mine, right);
    OneCharacterPerColumn(Blanks(l));
    OneCharacterPerColumn(Blanks(r));
    OneCharacterPerColumn(text);
  }

  lemma BarSpells() returns (bar: seq<Text>)
    ensures Spells(BAR, bar) && |bar| == 1
  {
    BoxBlock(0x82);
    OneCharacterPerColumn(BAR);
    bar := Characters(BAR);
  }

  /** A blank, the aligned text, a blank and the border, whatever the styles between them. */
  lemma CellSpells(text: Text, col: Column, header: bool, cs: seq<Text>, bar: seq<Text>)
    requires Spells(Align(text, col.width, col.alignment), cs) && Spells(BAR, bar)
    ensures Spells(Cell(text, col, header), GAP + cs + GAP + bar)
  {
    var on: Text, off: Text := if header then HEADER else [], if header then RESET else [];
    var aligned := Align(text, col.width, col.alignment);
    StyleSpells(header);
    GapSpells();
    JoinSilent([SPACE], GAP, on);
    var s2 := [SPACE] + on;
    JoinSpells(s2, GAP, aligned, cs);
    JoinSilent(s2 + aligned, GAP + cs, off);
    var s4 := s2 + aligned + off;
    JoinSpells(s4, GAP + cs, [SPACE], GAP);
    JoinSilent(s4 + [SPACE], GAP + cs + GAP, BORDER);
    JoinSpells(s4 + [SPACE] + BORDER, GAP + cs + GAP, BAR, bar);
  }

  // ----- Characters of a line -----

  function CellText(row: seq<Text>, cols: seq<Column>, c: nat, h: nat, header: bool): Text
    requires c < |cols|
  {
    Cell(CellLine(row, cols, c, h), cols[c], header)
  }

  /** The characters at the place of a cell. */
  function Part(row: seq<Text>, cols: seq<Column>, c: nat, h: nat): seq<Text>
    requires c < |cols|
  {
    Characters(Align(CellLine(row, cols, c, h), cols[c].width, cols[c].alignment))
  }

  function CellTexts(row: seq<Text>, cols: seq<Column>, h: nat, header: bool): (texts: seq<Text>)
    ensures |texts| == |cols| && forall c :: 0 <= c < |cols| ==> texts[c] == CellText(row, cols, c, h, header)
  {
    seq(|cols|, c requires 0 <= c < |cols| => CellText(row, cols, c, h, header))
  }

  function Parts(row: seq<Text>, cols: seq<Column>, h: nat): (parts: seq<seq<Text>>)
    ensures |parts| == |cols| && forall c :: 0 <= c < |cols| ==> parts[c] == Part(row, cols, c, h)
  {
    seq(|cols|, c requires 0 <= c < |cols| => Part(row, cols, c, h))
  }

  lemma {:induction false} CellsAreFlat(row: seq<Text>, cols: seq<Column>, first: nat, h: nat, header: bool, texts: seq<Text>)
    requires first <= |cols| && |texts| == |cols| - first
    requires forall k :: 0 <= k < |texts| ==> texts[k] == CellText(row, cols, first + k, h, header)
    ensures Cells(row, cols, first, h, header) == Flat(texts)
    decreases |cols| - first
  {
    if first < |cols| {
      assert texts[0] == CellText(row, cols, first + 0, h, header);
      forall k | 0 <= k < |texts[1..]| ensures texts[1..][k] == CellText(row, cols, first + 1 + k, h, header) {
        assert texts[1..][k] == texts[k + 1] == CellText(row, cols, first + (k + 1), h, header);
      }
      CellsAreFlat(row, cols, first + 1, h, header, texts[1..]);
    }
  }

  lemma PartIsTheLine(row: seq<Text>, cols: seq<Column>, c: nat, h: nat)
    requires c < |cols| && CellFits(CellOf(row, c), cols[c].width)
    ensures |Part(row, cols, c, h)| == cols[c].width
    ensures Solid(Part(row, cols, c, h)) == Solid(Characters(CellLine(row, cols, c, h)))
    ensures Spells(Align(CellLine(row, cols, c, h), cols[c].width, cols[c].alignment), Part(row, cols, c, h))
  {
    CellLineBlock(row, cols, c, h);
    var part := AlignedSpells(CellLine(row, cols, c, h), cols[c].width, cols[c].alignment);
  }

  lemma OneCell(row: seq<Text>, cols: seq<Column>, c: nat, h: nat, header: bool, bar: seq<Text>)
    requires c < |cols| && CellFits(CellOf(row, c), cols[c].width) && Spells(BAR, bar)
    ensures Spells(CellText(row, cols, c, h, header), GAP + Part(row, cols, c, h) + GAP + bar)
    ensures var text := CellText(row, cols, c, h, header); text != [] && text[|text| - 1] != ESC
  {
    PartIsTheLine(row, cols, c, h);
    CellSpells(CellLine(row, cols, c, h), cols[c], header, Part(row, cols, c, h), bar);
    EndsWithBar(CellLine(row, cols, c, h), cols[c], header);
  }

  lemma PartsSpell(row: seq<Text>, cols: seq<Column>, h: nat, header: bool, bar: seq<Text>, texts: seq<Text>, parts: seq<seq<Text>>)
    requires RowFits(row, cols) && Spells(BAR, bar)
    requires texts == CellTexts(row, cols, h, header) && parts == Parts(row, cols, h)
    ensures SpellParts(texts, parts, bar)
  {
    forall c | 0 <= c < |cols|
      ensures Spells(texts[c], GAP + parts[c] + GAP + bar) && texts[c] != [] && texts[c][|texts[c]| - 1] != ESC
    {
      assert CellFits(CellOf(row, c), cols[c].width);
      OneCell(row, cols, c, h, header, bar);
    }
  }

  lemma LineSpells(cells: Text, cs: seq<Text>, bar: seq<Text>)
    requires Spells(cells, cs) && Spells(BAR, bar)
    ensures Spells(BORDER + BAR + cells + RESET, bar + cs)
  {
    StyleSpells(false);
    JoinSpells(BORDER, [], BAR, bar);
    assert [] + bar == bar;
    JoinSpells(BORDER + BAR, bar, cells, cs);
    JoinSilent(BORDER + BAR + cells, bar + cs, RESET);
  }

  lemma PartWidths(row: seq<Text>, cols: seq<Column>, h: nat, parts: seq<seq<Text>>)
    requires RowFits(row, cols) && parts == Parts(row, cols, h)
    ensures HaveWidths(parts, Widths(cols))
  {
    forall c | 0 <= c < |cols| ensures |parts[c]| == Widths(cols)[c] {
      assert CellFits(CellOf(row, c), cols[c].width);
      PartIsTheLine(row, cols, c, h);
    }
  }

  lemma CellsLine(row: seq<Text>, cols: seq<Column>, h: nat, header: bool, bar: seq<Text>, parts: seq<seq<Text>>)
    requires RowFits(row, cols) && Spells(BAR, bar) && parts == Parts(row, cols, h)
    ensures Spells(TextLine(row, cols, h, header), bar + CellsOf(parts, bar))
  {
    var texts := CellTexts(row, cols, h, header);
    CellsAreFlat(row, cols, 0, h, header, texts);
    PartsSpell(row, cols, h, header, bar, texts, parts);
    FlatSpells(texts, parts, bar);
    LineSpells(Flat(texts), CellsOf(parts, bar), bar);
  }

  /** Read without blanks, a line has at a column's place just the cell's line. */
  lemma LineShowsCellLine(row: seq<Text>, cols: seq<Column>, c: nat, h: nat, header: bool)
    requires c < |cols| && RowFits(row, cols)
    ensures Solid(ReadAt(TextLine(row, cols, h, header), Widths(cols), c)) == Solid(Characters(CellLine(row, cols, c, h)))
  {
    var parts := Parts(row, cols, h);
    var bar := BarSpells();
    CellsLine(row, cols, h, header, bar, parts);
    PartWidths(row, cols, h, parts);
    ReadCells(TextLine(row, cols, h, header), parts, Widths(cols), bar, c);
    assert CellFits(CellOf(row, c), cols[c].width);
    PartIsTheLine(row, cols, c, h);
  }

  // ----- Characters of a row -----

  lemma {:induction false} TextLineAt(row: seq<Text>, cols: seq<Column>, n: nat, h: nat, header: bool)
    requires h < n
    ensures |TextLines(row, cols, n, header)| == n && TextLines(row, cols, n, header)[h] == TextLine(row, cols, h, header)
  {
    TextLinesCount(row, cols, n - 1, header);
    if h < n - 1 {
      TextLineAt(row, cols, n - 1, h, header);
    }
  }

  lemma RowShowsCell(row: seq<Text>, cols: seq<Column>, c: nat, header: bool, h: nat)
    requires c < |cols| && RowFits(row, cols) && h == Height(row, cols, |cols|)
    ensures ReadColumn(TextLines(row, cols, h, header), Widths(cols), c) == Solid(Characters(CellOf(row, c)))
  {
    var lines, wrapped := TextLines(row, cols, h, header), Wrap(CellOf(row, c), cols[c].width);
    TextLinesCount(row, cols, h, header);
    assert |wrapped| <= h;
    forall k | 0 <= k < h ensures Solid(ReadAt(lines[k], Widths(cols), c)) == Solid(Characters(CellLineAt(wrapped, k))) {
      TextLineAt(row, cols, h, k, header);
      LineShowsCellLine(row, cols, c, k, header);
    }
    WrappedShows(CellOf(row, c), cols[c].width);
    ReadDown(lines, Widths(cols), c, wrapped);
    assert LinesUpTo(wrapped, h) == wrapped;
  }

  lemma {:induction false} TextLinesCount(row: seq<Text>, cols: seq<Column>, h: nat, header: bool)
    ensures |TextLines(row, cols, h, header)| == h
  {
    if h > 0 {
      TextLinesCount(row, cols, h - 1, header);
    }
  }

  // ----- The table -----

  function Heights(rows: seq<seq<Text>>, cols: seq<Column>): (hs: seq<nat>)
    ensures |hs| == |rows| && forall r :: 0 <= r < |rows| ==> hs[r] == Height(rows[r], cols, |cols|)
  {
    seq(|rows|, r requires 0 <= r < |rows| => Height(rows[r], cols, |cols|))
  }

  function RowBlock(rows: seq<seq<Text>>, cols: seq<Column>, r: nat): seq<Text>
    requires r < |rows|
  {
    RowText(rows[r], cols, r == 0)
  }

  function Blocks(rows: seq<seq<Text>>, cols: seq<Column>): (bs: seq<seq<Text>>)
    ensures |bs| == |rows| && forall r :: 0 <= r < |rows| ==> bs[r] == RowBlock(rows, cols, r)
  {
    seq(|rows|, r requires 0 <= r < |rows| => RowBlock(rows, cols, r))
  }

  lemma {:induction false} RowLinesAreFlat(rows: seq<seq<Text>>, cols: seq<Column>, r: nat, blocks: seq<seq<Text>>)
    requires r <= |rows| && blocks == Blocks(rows, cols)
    ensures RowLines(rows, cols, r) == Flat(blocks[..r])
  {
    if r > 0 {
      RowLinesAreFlat(rows, cols, r - 1, blocks);
      assert blocks[..r] == blocks[..r - 1] + [blocks[r - 1]];
      FlatAppend(blocks[..r - 1], blocks[r - 1]);
      assert blocks[r - 1] == RowBlock(rows, cols, r - 1);
    }
  }

  /** The block of a row starts with its text lines. */
  lemma BlockLines(rows: seq<seq<Text>>, cols: seq<Column>, r: nat, h: nat)
    requires r < |rows| && h == Height(rows[r], cols, |cols|)
    ensures TextLines(rows[r], cols, h, r == 0) <= RowBlock(rows, cols, r)
    ensures |TextLines(rows[r], cols, h, r == 0)| == h && |RowBlock(rows, cols, r)| == h + if r == 0 then 1 else 0
  {
    TextLinesCount(rows[r], cols, h, r == 0);
  }

  lemma BlockHeights(rows: seq<seq<Text>>, cols: seq<Column>)
    ensures HaveHeights(Blocks(rows, cols), Heights(rows, cols))
  {
    forall r | 0 <= r < |rows| ensures |RowBlock(rows, cols, r)| == Heights(rows, cols)[r] + if r == 0 then 1 else 0 {
      BlockLines(rows, cols, r, Heights(rows, cols)[r]);
    }
  }

  lemma TableEnds(rows: seq<seq<Text>>, cols: seq<Column>, blocks: seq<seq<Text>>) returns (top: Text, bottom: Text)
    requires blocks == Blocks(rows, cols)
    ensures TableLines(rows, cols) == [top] + Flat(blocks) + [bottom]
  {
    top, bottom := BorderLine(Widths(cols), 0x8C, 0xAC, 0x90), BorderLine(Widths(cols), 0x94, 0xB4, 0x98);
    RowLinesAreFlat(rows, cols, |rows|, blocks);
    assert blocks[..|rows|] == blocks;
  }

  lemma RowInBlocks(rows: seq<seq<Text>>, cols: seq<Column>, r: nat, blocks: seq<seq<Text>>, hs: seq<nat>, mine: seq<Text>)
    requires r < |rows| && blocks == Blocks(rows, cols) && hs == Heights(rows, cols)
    requires mine == TextLines(rows[r], cols, hs[r], r == 0)
    ensures HaveHeights(blocks, hs) && mine <= blocks[r] && |mine| == hs[r]
  {
    BlockHeights(rows, cols);
    BlockLines(rows, cols, r, hs[r]);
    assert blocks[r] == RowBlock(rows, cols, r);
  }

  lemma RowInTable(rows: seq<seq<Text>>, cols: seq<Column>, r: nat, hs: seq<nat>, mine: seq<Text>)
    requires r < |rows| && hs == Heights(rows, cols) && mine == TextLines(rows[r], cols, hs[r], r == 0)
    ensures FirstLine(hs, r) + hs[r] <= |TableLines(rows, cols)|
    ensures TableLines(rows, cols)[FirstLine(hs, r)..FirstLine(hs, r) + hs[r]] == mine
  {
    var blocks := Blocks(rows, cols);
    var top, bottom := TableEnds(rows, cols, blocks);
    RowInBlocks(rows, cols, r, blocks, hs, mine);
    RowAt(top, blocks, hs, bottom, r, mine);
  }

  lemma RenderedLines(children: seq<Child>, maxWidth: nat)
    requires CellsWellFormed(children) && Columns(children) != []
    ensures Lines(TableText(children, maxWidth)) == TableLines(Rows(children), FinalColumns(children, maxWidth)) + [RESET]
  {
    var cols := FinalColumns(children, maxWidth);
    FinalColumnsFit(children, maxWidth);
    TableLinesBlocks(Rows(children), cols);
    ReadBack(TableLines(Rows(children), cols), ColumnShrink.TotalWidth(Widths(cols)));
  }

  lemma RowOfTable(rows: seq<seq<Text>>, cols: seq<Column>, r: nat, c: nat, hs: seq<nat>, table: seq<Text>, ws: seq<nat>, cell: Text)
    returns (mine: seq<Text>, from: nat, h: nat)
    requires r < |rows| && c < |cols| && RowFits(rows[r], cols) && hs == Heights(rows, cols)
    requires table == TableLines(rows, cols) && ws == Widths(cols) && cell == CellOf(rows[r], c)
    ensures from == FirstLine(hs, r) && h == hs[r]
    ensures from + h <= |table| && table[from..from + h] == mine
    ensures ReadColumn(mine, ws, c) == Solid(Characters(cell))
  {
    from, h, mine := FirstLine(hs, r), hs[r], TextLines(rows[r], cols, hs[r], r == 0);
    RowStands(rows, cols, r, hs, table, mine, from, h);
    RowReads(rows, cols, r, c, hs, ws, cell, mine);
  }

  lemma RowStands(rows: seq<seq<Text>>, cols: seq<Column>, r: nat, hs: seq<nat>, table: seq<Text>, mine: seq<Text>, from: nat, h: nat)
    requires r < |rows| && hs == Heights(rows, cols) && table == TableLines(rows, cols)
    requires mine == TextLines(rows[r], cols, hs[r], r == 0) && from == FirstLine(hs, r) && h == hs[r]
    ensures from + h <= |table| && table[from..from + h] == mine
  {
    RowInTable(rows, cols, r, hs, mine);
  }

  lemma RowReads(rows: seq<seq<Text>>, cols: seq<Column>, r: nat, c: nat, hs: seq<nat>, ws: seq<nat>, cell: Text, mine: seq<Text>)
    requires r < |rows| && c < |cols| && RowFits(rows[r], cols) && hs == Heights(rows, cols)
    requires ws == Widths(cols) && cell == CellOf(rows[r], c) && mine == TextLines(rows[r], cols, hs[r], r == 0)
    ensures ReadColumn(mine, ws, c) == Solid(Characters(cell))
  {
    RowShowsCell(rows[r], cols, c, r == 0, hs[r]);
  }

  lemma RowShown(rows: seq<seq<Text>>, cols: seq<Column>, r: nat, c: nat, hs: seq<nat>, table: seq<Text>, ws: seq<nat>, cell: Text)
    requires r < |rows| && c < |cols| && RowFits(rows[r], cols) && hs == Heights(rows, cols)
    requires table == TableLines(rows, cols) && ws == Widths(cols) && cell == CellOf(rows[r], c)
    ensures ShowsCell(table + [RESET], FirstLine(hs, r), hs[r], ws, c, cell)
  {
    var mine, from, h := RowOfTable(rows, cols, r, c, hs, table, ws, cell);
    ShownIn(table, [RESET], from, h, mine, ws, c, cell);
  }

  lemma FinalRowFits(children: seq<Child>, maxWidth: nat, r: nat)
    requires CellsWellFormed(children) && r < |Rows(children)|
    ensures RowFits(Rows(children)[r], FinalColumns(children, maxWidth))
  {
    FinalColumnsFit(children, maxWidth);
  }

  /**
   For every table of well-formed cells and every limit: the lines of each row in the rendered text, read at
   the positions of each column without blanks, show exactly the visible characters of the cell without
   whitespace, in order. Where a row has no cell they show nothing.
   */
  lemma TableShowsEveryCell(children: seq<Child>, maxWidth: nat, r: nat, c: nat)
    requires CellsWellFormed(children) && r < |Rows(children)| && c < |Columns(children)|
    ensures var rows, cols := Rows(children), FinalColumns(children, maxWidth);
            var hs := Heights(rows, cols);
            ShowsCell(Lines(TableText(children, maxWidth)), FirstLine(hs, r), hs[r], Widths(cols), c, CellOf(rows[r], c))
  {
    var rows, cols := Rows(children), FinalColumns(children, maxWidth);
    FinalRowFits(children, maxWidth, r);
    RenderedLines(children, maxWidth);
    RowShown(rows, cols, r, c, Heights(rows, cols), TableLines(rows, cols), Widths(cols), CellOf(rows[r], c));
  }
}
