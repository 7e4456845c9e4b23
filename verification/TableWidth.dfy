/** Every line of a rendered table is exactly as wide as its columns say. */
module TableWidth {
  import opened Basics
  import opened Utf8
  import opened VisibleText
  import opened WrapCell
  import opened WrapCellProofs
  import opened ColumnShrink
  import opened RenderTable
  import opened SplitLines

  /** A well-formed stretch of one line that takes `n` columns. */
  ghost predicate Block(t: Text, n: nat) {
    WellFormed(t) && Visible(t) == n && NEWLINE !in t
  }

  lemma JoinBlocks(s: Text, m: nat, t: Text, n: nat)
    requires Block(s, m) && Block(t, n) && Joinable(s, t)
    ensures Block(s + t, m + n)
  {
    Concat(s, t);
  }

  /** A complete escape sequence takes no column. */
  lemma EscapeBlock(s: Text)
    requires StartsCsi(s) && IsFinal(s[|s| - 1]) && |s| > 2
    requires forall i :: 2 <= i < |s| - 1 ==> !IsFinal(s[i]) && !IsSpace(s[i])
    ensures Block(s, 0)
  {
    assert FinalAt(s, 2) == |s| - 1;
    assert PieceLen(s) == |s| && s[|s|..] == [];
    assert !IsSpace(s[0]) && !IsSpace(s[1]) && !IsSpace(s[|s| - 1]);
  }

  lemma StyleBlocks()
    ensures Block(BORDER, 0) && Block(HEADER, 0) && Block(RESET, 0)
  {
    EscapeBlock(BORDER);
    EscapeBlock(HEADER);
    EscapeBlock(RESET);
  }

  lemma BoxBlock(last: byte)
    requires IsContinuation(last)
    ensures Block(Box(last), 1)
  {
    var s := Box(last);
    assert PieceLen(s) == 3 && s[3..] == [] && s[..3] == s;
    PieceAlone(s);
  }

  lemma BlanksBlock(n: nat)
    ensures Block(Blanks(n), n)
  {
    PlainAscii(Blanks(n));
  }

  lemma {:induction false} DashesBlock(n: nat)
    ensures Block(Dashes(n), n)
    ensures n > 0 ==> Dashes(n)[|Dashes(n)| - 1] == 0x80
  {
    if n > 0 {
      DashesBlock(n - 1);
      BoxBlock(0x80);
      JoinBlocks(Dashes(n - 1), n - 1, DASH, 1);
    }
  }

  // ----- Borders -----

  lemma {:induction false} SegmentsBlock(ws: seq<nat>, c: nat, joint: byte)
    requires c < |ws| && IsContinuation(joint)
    ensures TotalWidth(ws[c..]) >= 4
    ensures Block(Segments(ws, c, Box(joint)), TotalWidth(ws[c..]) - 2)
    decreases |ws| - c
  {
    var dashes := Dashes(ws[c] + 2);
    DashesBlock(ws[c] + 2);
    assert ws[c..][1..] == ws[c + 1..];
    assert TotalWidth(ws[c..]) == ws[c] + 3 + TotalWidth(ws[c + 1..]);
    if c < |ws| - 1 {
      BoxBlock(joint);
      SegmentsBlock(ws, c + 1, joint);
      JoinBlocks(dashes, ws[c] + 2, Box(joint), 1);
      JoinBlocks(dashes + Box(joint), ws[c] + 3, Segments(ws, c + 1, Box(joint)), TotalWidth(ws[c + 1..]) - 2);
    } else {
      assert ws[c + 1..] == [];
      assert Segments(ws, c, Box(joint)) == dashes;
    }
  }

  lemma BorderLineBlock(ws: seq<nat>, left: byte, joint: byte, right: byte)
    requires ws != [] && IsContinuation(left) && IsContinuation(joint) && IsContinuation(right)
    ensures Block(BorderLine(ws, left, joint, right), TotalWidth(ws))
  {
    var middle := Segments(ws, 0, Box(joint));
    assert ws[0..] == ws;
    SegmentsBlock(ws, 0, joint);
    StyleBlocks();
    BoxBlock(left);
    BoxBlock(right);
    JoinBlocks(BORDER, 0, Box(left), 1);
    JoinBlocks(BORDER + Box(left), 1, middle, TotalWidth(ws) - 2);
    JoinBlocks(BORDER + Box(left) + middle, TotalWidth(ws) - 1, Box(right), 1);
  }

  // ----- Cells -----

  /** Alignment keeps the text whole and pads left and right as asked, a text wider than the column not at all. */
  lemma AlignPads(text: Text, width: nat, alignment: Alignment) returns (l: nat, r: nat)
    ensures Align(text, width, alignment) == Blanks(l) + text + Blanks(r)
    ensures if Visible(text) <= width then l + Visible(text) + r == width else l == 0 && r == 0
    ensures match alignment case Left => l == 0 case Right => r == 0 case Center => l <= r <= l + 1
  {
    var extra := if Visible(text) <= width then width - Visible(text) else 0;
    l := match alignment case Left => 0 case Right => extra case Center => extra / 2;
    r := extra - l;
    assert Align(text, width, alignment) == Blanks(l) + text + Blanks(r);
  }

  lemma AlignBlock(text: Text, v: nat, width: nat, alignment: Alignment)
    requires Block(text, v) && v <= width
    ensures Block(Align(text, width, alignment), width)
  {
    var l, r := AlignPads(text, width, alignment);
    BlanksBlock(l);
    BlanksBlock(r);
    JoinBlocks(Blanks(l), l, text, v);
    JoinBlocks(Blanks(l) + text, l + v, Blanks(r), r);
  }

  lemma CellBlock(text: Text, v: nat, col: Column, header: bool)
    requires Block(text, v) && v <= col.width
    ensures Block(Cell(text, col, header), col.width + 3)
  {
    var aligned := Align(text, col.width, col.alignment);
    AlignBlock(text, v, col.width, col.alignment);
    StyleBlocks();
    BoxBlock(0x82);
    BlanksBlock(1);
    assert [SPACE] == Blanks(1);
    var on: Text, off: Text := if header then HEADER else [], if header then RESET else [];
    JoinBlocks([SPACE], 1, on, 0);
    JoinBlocks([SPACE] + on, 1, aligned, col.width);
    JoinBlocks([SPACE] + on + aligned, col.width + 1, off, 0);
    JoinBlocks([SPACE] + on + aligned + off, col.width + 1, [SPACE], 1);
    JoinBlocks([SPACE] + on + aligned + off + [SPACE], col.width + 2, BORDER, 0);
    JoinBlocks([SPACE] + on + aligned + off + [SPACE] + BORDER, col.width + 2, BAR, 1);
  }

  /** The cell is well formed, and invisible if its column has no width at all. */
  ghost predicate CellFits(cell: Text, width: nat) {
    WellFormed(cell) && (width == 0 ==> Visible(cell) == 0)
  }

  lemma {:induction false} InvisibleHasNoSpace(s: Text)
    requires WellFormed(s) && Visible(s) == 0
    ensures Spaceless(s)
    decreases |s|
  {
    if s != [] {
      VisiblePiece(s);
      var n := PieceLen(s);
      InvisibleHasNoSpace(s[n..]);
      forall i | 0 <= i < |s| ensures !IsSpace(s[i]) {
        if i >= n {
          assert s[i] == s[n..][i - n];
        }
      }
    }
  }

  lemma CellLineBlock(row: seq<Text>, cols: seq<Column>, c: nat, h: nat)
    requires c < |cols| && CellFits(CellOf(row, c), cols[c].width)
    ensures var line := CellLine(row, cols, c, h); Block(line, Visible(line)) && Visible(line) <= cols[c].width
  {
    var cell, width := CellOf(row, c), cols[c].width;
    WrapKeepsPiecesAndWidth(cell, width);
    if width > 0 {
      WrapLeavesOnlyBlanks(cell, width);
    } else {
      InvisibleHasNoSpace(cell);
    }
  }

  ghost predicate RowFits(row: seq<Text>, cols: seq<Column>) {
    forall c :: 0 <= c < |cols| ==> CellFits(CellOf(row, c), cols[c].width)
  }

  lemma {:induction false} CellsBlock(row: seq<Text>, cols: seq<Column>, c: nat, h: nat, header: bool)
    requires c <= |cols| && RowFits(row, cols)
    ensures TotalWidth(Widths(cols)[c..]) >= 1
    ensures Block(Cells(row, cols, c, h, header), TotalWidth(Widths(cols)[c..]) - 1)
    decreases |cols| - c
  {
    var ws := Widths(cols);
    if c < |cols| {
      var line := CellLine(row, cols, c, h);
      CellLineBlock(row, cols, c, h);
      CellBlock(line, Visible(line), cols[c], header);
      CellsBlock(row, cols, c + 1, h, header);
      assert ws[c..][1..] == ws[c + 1..];
      var rest := Cells(row, cols, c + 1, h, header);
      assert Joinable(Cell(line, cols[c], header), rest) by {
        EndsWithBar(line, cols[c], header);
      }
      JoinBlocks(Cell(line, cols[c], header), cols[c].width + 3, rest, TotalWidth(ws[c + 1..]) - 1);
    } else {
      assert ws[c..] == [];
    }
  }

  lemma EndsWithBar(text: Text, col: Column, header: bool)
    ensures var s := Cell(text, col, header); s != [] && s[|s| - 1] == 0x82
  {
  }

  lemma TextLineBlock(row: seq<Text>, cols: seq<Column>, h: nat, header: bool)
    requires RowFits(row, cols)
    ensures Block(TextLine(row, cols, h, header), TotalWidth(Widths(cols)))
  {
    var ws := Widths(cols);
    var cells := Cells(row, cols, 0, h, header);
    assert ws[0..] == ws;
    CellsBlock(row, cols, 0, h, header);
    StyleBlocks();
    BoxBlock(0x82);
    JoinBlocks(BORDER, 0, BAR, 1);
    JoinBlocks(BORDER + BAR, 1, cells, TotalWidth(ws) - 1);
    JoinBlocks(BORDER + BAR + cells, TotalWidth(ws), RESET, 0);
  }

  // ----- Lines of the table -----

  ghost predicate AllBlocks(lines: seq<Text>, n: nat) {
    forall i :: 0 <= i < |lines| ==> Block(lines[i], n)
  }

  lemma BlocksConcat(a: seq<Text>, b: seq<Text>, n: nat)
    requires AllBlocks(a, n) && AllBlocks(b, n)
    ensures AllBlocks(a + b, n)
  {
  }

  lemma {:induction false} TextLinesBlocks(row: seq<Text>, cols: seq<Column>, h: nat, header: bool)
    requires RowFits(row, cols)
    ensures AllBlocks(TextLines(row, cols, h, header), TotalWidth(Widths(cols)))
  {
    if h > 0 {
      TextLinesBlocks(row, cols, h - 1, header);
      assert AllBlocks([TextLine(row, cols, h - 1, header)], TotalWidth(Widths(cols))) by {
        TextLineBlock(row, cols, h - 1, header);
      }
      BlocksConcat(TextLines(row, cols, h - 1, header), [TextLine(row, cols, h - 1, header)], TotalWidth(Widths(cols)));
    }
  }

  lemma RowTextBlocks(row: seq<Text>, cols: seq<Column>, header: bool)
    requires cols != [] && RowFits(row, cols)
    ensures AllBlocks(RowText(row, cols, header), TotalWidth(Widths(cols)))
  {
    TextLinesBlocks(row, cols, Height(row, cols, |cols|), header);
    BorderLineBlock(Widths(cols), 0x9C, 0xBC, 0xA4);
  }

  lemma NextRowBlocks(row: seq<Text>, cols: seq<Column>, header: bool, before: seq<Text>)
    requires cols != [] && RowFits(row, cols) && AllBlocks(before, TotalWidth(Widths(cols)))
    ensures AllBlocks(before + RowText(row, cols, header), TotalWidth(Widths(cols)))
  {
    RowTextBlocks(row, cols, header);
    BlocksConcat(before, RowText(row, cols, header), TotalWidth(Widths(cols)));
  }

  ghost predicate RowsFit(rows: seq<seq<Text>>, cols: seq<Column>) {
    forall r :: 0 <= r < |rows| ==> RowFits(rows[r], cols)
  }

  lemma {:induction false} RowLinesBlocks(rows: seq<seq<Text>>, cols: seq<Column>, r: nat)
    requires cols != [] && RowsFit(rows, cols) && r <= |rows|
    ensures AllBlocks(RowLines(rows, cols, r), TotalWidth(Widths(cols)))
  {
    if r > 0 {
      RowLinesBlocks(rows, cols, r - 1);
      NextRowBlocks(rows[r - 1], cols, r == 1, RowLines(rows, cols, r - 1));
    }
  }

  lemma TableLinesBlocks(rows: seq<seq<Text>>, cols: seq<Column>)
    requires cols != [] && RowsFit(rows, cols)
    ensures AllBlocks(TableLines(rows, cols), TotalWidth(Widths(cols)))
  {
    var ws := Widths(cols);
    var top, bottom := BorderLine(ws, 0x8C, 0xAC, 0x90), BorderLine(ws, 0x94, 0xB4, 0x98);
    RowLinesBlocks(rows, cols, |rows|);
    BorderLineBlock(ws, 0x8C, 0xAC, 0x90);
    BorderLineBlock(ws, 0x94, 0xB4, 0x98);
    BlocksConcat([top], RowLines(rows, cols, |rows|), TotalWidth(ws));
    BlocksConcat([top] + RowLines(rows, cols, |rows|), [bottom], TotalWidth(ws));
  }

  // ----- Column widths -----

  /** No column of `a` is lost or narrowed in `b`. */
  ghost predicate Grows(a: seq<Column>, b: seq<Column>) {
    |a| <= |b| && forall c :: 0 <= c < |a| ==> a[c].width <= b[c].width
  }

  lemma {:induction false} AddCellsCovers(cols: seq<Column>, cells: seq<Text>, c: nat)
    requires c <= |cells| && c <= |cols|
    ensures var r := AddCells(cols, cells, c);
            && Grows(cols, r) && |cells| <= |r|
            && (forall k :: c <= k < |cells| ==> Visible(cells[k]) <= r[k].width)
            && (c == 0 ==> CoversRow(r, cells))
    decreases |cells| - c
  {
    if c < |cells| {
      var next := AddCell(cols, c, Visible(cells[c]));
      AddCellsCovers(next, cells, c + 1);
      assert next[c].width >= Visible(cells[c]);
    }
  }

  lemma {:induction false} SetAlignmentsGrows(cols: seq<Column>, marks: seq<Mark>, c: nat)
    requires c <= |marks|
    ensures Grows(cols, SetAlignments(cols, marks, c))
    decreases |marks| - c
  {
    if c < |marks| {
      SetAlignmentsGrows(SetAlignment(cols, c, marks[c]), marks, c + 1);
    }
  }

  /** Every column is wide enough for each of its cells. */
  ghost predicate CoversRow(cols: seq<Column>, row: seq<Text>) {
    |row| <= |cols| && forall c :: 0 <= c < |row| ==> Visible(row[c]) <= cols[c].width
  }

  ghost predicate Covers(cols: seq<Column>, rows: seq<seq<Text>>) {
    forall r :: 0 <= r < |rows| ==> CoversRow(cols, rows[r])
  }

  lemma GrownCovers(a: seq<Column>, b: seq<Column>, rows: seq<seq<Text>>)
    requires Covers(a, rows) && Grows(a, b)
    ensures Covers(b, rows)
  {
    forall r | 0 <= r < |rows| ensures CoversRow(b, rows[r]) {
      assert CoversRow(a, rows[r]);
    }
  }

  lemma {:induction false} ColumnsCover(children: seq<Child>)
    ensures Covers(Columns(children), Rows(children))
  {
    if children != [] {
      var front, child := children[..|children| - 1], children[|children| - 1];
      ColumnsCover(front);
      var cols, rows := Columns(front), Rows(front);
      if child.Row? {
        AddCellsCovers(cols, child.cells, 0);
        GrownCovers(cols, AddChild(cols, child), rows);
        assert CoversRow(AddChild(cols, child), child.cells);
      } else {
        SetAlignmentsGrows(cols, child.marks, 0);
        GrownCovers(cols, AddChild(cols, child), rows);
        assert rows + [] == rows;
      }
    }
  }

  ghost predicate CellsWellFormed(children: seq<Child>) {
    forall row :: row in Rows(children) ==> AllWellFormed(row)
  }

  lemma FinalColumnsFit(children: seq<Child>, maxWidth: nat)
    requires CellsWellFormed(children)
    ensures RowsFit(Rows(children), FinalColumns(children, maxWidth))
  {
    var cols, final, rows := Columns(children), FinalColumns(children, maxWidth), Rows(children);
    ColumnsCover(children);
    ShrinkingIsGentle(Widths(cols), maxWidth);
    forall r | 0 <= r < |rows| ensures RowFits(rows[r], final) {
      assert CoversRow(cols, rows[r]) && rows[r] in rows;
      forall c | 0 <= c < |final| ensures CellFits(CellOf(rows[r], c), final[c].width) {
        assert final[c].width == Widths(final)[c];
        assert Min(cols[c].width, 5) <= final[c].width;
      }
    }
  }

  // ----- Reading the text back as lines -----

  lemma {:induction false} TerminatedFront(line: Text, lines: seq<Text>)
    ensures Terminated([line] + lines) == line + [NEWLINE] + Terminated(lines)
  {
    if lines == [] {
      assert [line] + lines == [line] && [line][..0] == [];
      assert Terminated([line]) == Terminated([]) + line + [NEWLINE];
    } else {
      var front, last := lines[..|lines| - 1], lines[|lines| - 1];
      TerminatedFront(line, front);
      assert ([line] + lines)[..|lines|] == [line] + front;
    }
  }

  lemma {:induction false} LinesOfTerminated(lines: seq<Text>, tail: Text)
    requires forall i :: 0 <= i < |lines| ==> NEWLINE !in lines[i]
    requires NEWLINE !in tail
    ensures Lines(Terminated(lines) + tail) == lines + [tail]
  {
    if lines == [] {
      assert Terminated(lines) + tail == tail;
    } else {
      var line, rest := lines[0], lines[1..];
      assert lines == [line] + rest;
      TerminatedFront(line, rest);
      LineInFront(line, Terminated(rest) + tail);
      assert Terminated(lines) + tail == line + [NEWLINE] + (Terminated(rest) + tail);
      LinesOfTerminated(rest, tail);
      Reassociate([line], rest, [tail]);
    }
  }

  /**
   For every table of well-formed cells and every limit: each line of the rendered text, borders and
   wrapped rows alike, takes exactly 1 + sum(width + 3) columns over the final widths, and what
   follows the last line end is the style reset. With a limit set, that is at most the limit unless
   shrinking has brought every column down to at most 5.
   */
  lemma EveryLineHasTheTableWidth(children: seq<Child>, maxWidth: nat)
    requires CellsWellFormed(children) && Columns(children) != []
    ensures var lines := Lines(TableText(children, maxWidth));
            var ws := Widths(FinalColumns(children, maxWidth));
            && |lines| >= 3 && lines[|lines| - 1] == RESET
            && (forall i :: 0 <= i < |lines| - 1 ==> Visible(lines[i]) == 1 + Sum(ws) + 3 * |ws|)
            && (maxWidth > 0 ==>
                  1 + Sum(ws) + 3 * |ws| <= maxWidth || forall c :: 0 <= c < |ws| ==> ws[c] <= 5)
  {
    var lines := TextAsLines(children, maxWidth);
    LimitIsKept(children, maxWidth);
    TotalIsSum(Widths(FinalColumns(children, maxWidth)));
  }

  lemma TextAsLines(children: seq<Child>, maxWidth: nat) returns (lines: seq<Text>)
    requires CellsWellFormed(children) && Columns(children) != []
    ensures |lines| >= 2 && Lines(TableText(children, maxWidth)) == lines + [RESET]
    ensures forall i :: 0 <= i < |lines| ==> Visible(lines[i]) == TotalWidth(Widths(FinalColumns(children, maxWidth)))
  {
    var cols := FinalColumns(children, maxWidth);
    lines := TableLines(Rows(children), cols);
    FinalColumnsFit(children, maxWidth);
    TableLinesBlocks(Rows(children), cols);
    ReadBack(lines, TotalWidth(Widths(cols)));
  }

  lemma LimitIsKept(children: seq<Child>, maxWidth: nat)
    ensures var ws := Widths(FinalColumns(children, maxWidth));
            maxWidth > 0 ==> TotalWidth(ws) <= maxWidth || forall c :: 0 <= c < |ws| ==> ws[c] <= 5
  {
    ShrinkingIsGentle(Widths(Columns(children)), maxWidth);
  }

  lemma ReadBack(lines: seq<Text>, n: nat)
    requires AllBlocks(lines, n)
    ensures Lines(Terminated(lines) + RESET) == lines + [RESET]
    ensures forall i :: 0 <= i < |lines| ==> Visible(lines[i]) == n
  {
    StyleBlocks();
    assert forall i :: 0 <= i < |lines| ==> Block(lines[i], n);
    LinesOfTerminated(lines, RESET);
  }
}
