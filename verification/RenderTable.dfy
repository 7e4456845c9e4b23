/** Rendering of a Markdown table as boxed text (markdown/renderer.cpp), from its cells as strings. */
module RenderTable {
  import opened Basics
  import opened Utf8
  import opened VisibleText
  import opened WrapCell
  import opened SplitLines
  import ColumnShrink

  datatype Alignment = Left | Right | Center

  datatype Column = Column(width: nat, alignment: Alignment)

  /** The colons of a delimiter cell. */
  datatype Mark = Mark(left: bool, right: bool)

  /** A child of the table node: a header or body row with its trimmed cells, or the delimiter row. */
  datatype Child = Row(cells: seq<Text>) | Delimiter(marks: seq<Mark>)

  const BORDER: Text := [0x1B, 0x5B, 0x39, 0x30, 0x6D]              // ESC [ 9 0 m
  const HEADER: Text := [0x1B, 0x5B, 0x31, 0x3B, 0x33, 0x36, 0x6D]  // ESC [ 1 ; 3 6 m
  const RESET: Text := [0x1B, 0x5B, 0x30, 0x6D]                     // ESC [ 0 m

  /** A box-drawing character U+25xx, given its last byte and its row in the block. */
  function Box(last: byte): Text {
    [0xE2, 0x94, last]
  }

  const DASH: Text := Box(0x80)
  const BAR: Text := Box(0x82)

  // ----- Columns -----

  function AddCell(cols: seq<Column>, c: nat, width: nat): (r: seq<Column>)
    ensures |r| >= |cols|
  {
    if c >= |cols| then cols + [Column(width, Left)]
    else if cols[c].width < width then cols[c := cols[c].(width := width)]
    else cols
  }

  function AddCells(cols: seq<Column>, cells: seq<Text>, c: nat): seq<Column>
    requires c <= |cells|
    decreases |cells| - c
  {
    if c == |cells| then cols else AddCells(AddCell(cols, c, Visible(cells[c])), cells, c + 1)
  }

  function AlignmentOf(mark: Mark): Alignment {
    if mark.left && mark.right then Center else if mark.right then Right else Left
  }

  function SetAlignment(cols: seq<Column>, c: nat, mark: Mark): seq<Column> {
    if c >= |cols| then cols + [Column(0, AlignmentOf(mark))] else cols[c := cols[c].(alignment := AlignmentOf(mark))]
  }

  function SetAlignments(cols: seq<Column>, marks: seq<Mark>, c: nat): seq<Column>
    requires c <= |marks|
    decreases |marks| - c
  {
    if c == |marks| then cols else SetAlignments(SetAlignment(cols, c, marks[c]), marks, c + 1)
  }

  function AddChild(cols: seq<Column>, child: Child): seq<Column> {
    match child
    case Row(cells) => AddCells(cols, cells, 0)
    case Delimiter(marks) => SetAlignments(cols, marks, 0)
  }

  function Columns(children: seq<Child>): seq<Column> {
    if children == [] then [] else AddChild(Columns(children[..|children| - 1]), children[|children| - 1])
  }

  function Rows(children: seq<Child>): seq<seq<Text>> {
    if children == [] then []
    else
      var child := children[|children| - 1];
      Rows(children[..|children| - 1]) + if child.Row? then [child.cells] else []
  }

  function Widths(cols: seq<Column>): (ws: seq<nat>)
    ensures |ws| == |cols| && forall i :: 0 <= i < |ws| ==> ws[i] == cols[i].width
  {
    seq(|cols|, i requires 0 <= i < |cols| => cols[i].width)
  }

  function WithWidths(cols: seq<Column>, ws: seq<nat>): (r: seq<Column>)
    requires |cols| == |ws|
    ensures |r| == |cols| && Widths(r) == ws
  {
    seq(|cols|, i requires 0 <= i < |cols| => cols[i].(width := ws[i]))
  }

  // ----- Lines, without their line ends -----

  function Blanks(n: nat): (s: Text)
    ensures |s| == n
  {
    seq(n, _ => SPACE)
  }

  function Align(text: Text, width: nat, alignment: Alignment): Text {
    var dw := Visible(text);
    if dw >= width then text
    else
      var extra := width - dw;
      match alignment
      case Left => text + Blanks(extra)
      case Right => Blanks(extra) + text
      case Center => Blanks(extra / 2) + text + Blanks(extra - extra / 2)
  }

  function Dashes(n: nat): Text {
    if n == 0 then [] else Dashes(n - 1) + DASH
  }

  /** The segments of a border from column `c` on, with `joint` between columns. */
  function Segments(ws: seq<nat>, c: nat, joint: Text): Text
    requires c <= |ws|
    decreases |ws| - c
  {
    if c == |ws| then []
    else Dashes(ws[c] + 2) + (if c < |ws| - 1 then joint else []) + Segments(ws, c + 1, joint)
  }

  function BorderLine(ws: seq<nat>, left: byte, joint: byte, right: byte): Text {
    BORDER + Box(left) + Segments(ws, 0, Box(joint)) + Box(right)
  }

  function CellOf(row: seq<Text>, c: nat): Text {
    if c < |row| then row[c] else []
  }

  function CellLine(row: seq<Text>, cols: seq<Column>, c: nat, h: nat): Text
    requires c < |cols|
  {
    var lines := Wrap(CellOf(row, c), cols[c].width);
    if h < |lines| then lines[h] else []
  }

  /** One cell of a text line with its blanks and the border to its right. */
  function Cell(text: Text, col: Column, header: bool): Text {
    [SPACE] + (if header then HEADER else []) + Align(text, col.width, col.alignment)
    + (if header then RESET else []) + [SPACE] + BORDER + BAR
  }

  function Cells(row: seq<Text>, cols: seq<Column>, c: nat, h: nat, header: bool): Text
    requires c <= |cols|
    decreases |cols| - c
  {
    if c == |cols| then [] else Cell(CellLine(row, cols, c, h), cols[c], header) + Cells(row, cols, c + 1, h, header)
  }

  function TextLine(row: seq<Text>, cols: seq<Column>, h: nat, header: bool): Text {
    BORDER + BAR + Cells(row, cols, 0, h, header) + RESET
  }

  function Height(row: seq<Text>, cols: seq<Column>, c: nat): (h: nat)
    requires c <= |cols|
    ensures h >= 1
    ensures forall k :: 0 <= k < c ==> |Wrap(CellOf(row, k), cols[k].width)| <= h
  {
    if c == 0 then 1
    else
      var h := Height(row, cols, c - 1);
      var n := |Wrap(CellOf(row, c - 1), cols[c - 1].width)|;
      if h < n then n else h
  }

  /** The first `h` text lines of a row. */
  function TextLines(row: seq<Text>, cols: seq<Column>, h: nat, header: bool): seq<Text> {
    if h == 0 then [] else TextLines(row, cols, h - 1, header) + [TextLine(row, cols, h - 1, header)]
  }

  /** All lines of one row, with the separator below the header. */
  function RowText(row: seq<Text>, cols: seq<Column>, header: bool): seq<Text> {
    TextLines(row, cols, Height(row, cols, |cols|), header)
    + if header then [BorderLine(Widths(cols), 0x9C, 0xBC, 0xA4)] else []
  }

  /** The lines of the first `r` rows; the first row is the header. */
  function RowLines(rows: seq<seq<Text>>, cols: seq<Column>, r: nat): seq<Text>
    requires r <= |rows|
  {
    if r == 0 then [] else RowLines(rows, cols, r - 1) + RowText(rows[r - 1], cols, r == 1)
  }

  function TableLines(rows: seq<seq<Text>>, cols: seq<Column>): seq<Text> {
    [BorderLine(Widths(cols), 0x8C, 0xAC, 0x90)]
    + RowLines(rows, cols, |rows|)
    + [BorderLine(Widths(cols), 0x94, 0xB4, 0x98)]
  }

  /** Lines with a line end after each. */
  function Terminated(lines: seq<Text>): Text {
    if lines == [] then [] else Terminated(lines[..|lines| - 1]) + lines[|lines| - 1] + [NEWLINE]
  }

  function FinalColumns(children: seq<Child>, maxWidth: nat): seq<Column> {
    var cols := Columns(children);
    WithWidths(cols, ColumnShrink.FinalWidths(Widths(cols), maxWidth))
  }

  function TableText(children: seq<Child>, maxWidth: nat): Text {
    if Columns(children) == [] then []
    else Terminated(TableLines(Rows(children), FinalColumns(children, maxWidth))) + RESET
  }

  // ----- The loops of the code -----

  method CollectColumns(children: seq<Child>) returns (cols: seq<Column>, rows: seq<seq<Text>>)
    ensures cols == Columns(children) && rows == Rows(children)
  {
    cols, rows := [], [];
    for i := 0 to |children|
      invariant cols == Columns(children[..i]) && rows == Rows(children[..i])
    {
      assert children[..i + 1][..i] == children[..i];
      ghost var before := cols;
      match children[i] {
        case Row(cells) =>
          for c := 0 to |cells|
            invariant AddCells(cols, cells, c) == AddCells(before, cells, 0)
          {
            var width := VisibleLength(cells[c]);
            if c >= |cols| {
              cols := cols + [Column(width, Left)];
            } else if cols[c].width < width {
              cols := cols[c := cols[c].(width := width)];
            }
          }
          rows := rows + [cells];
        case Delimiter(marks) =>
          for c := 0 to |marks|
            invariant c <= |cols|
            invariant SetAlignments(cols, marks, c) == SetAlignments(before, marks, 0)
          {
            ghost var next := SetAlignment(cols, c, marks[c]);
            if c >= |cols| {
              cols := cols + [Column(0, Left)];
            }
            var alignment := Left;
            if marks[c].left && marks[c].right {
              alignment := Center;
            } else if marks[c].right {
              alignment := Right;
            }
            cols := cols[c := cols[c].(alignment := alignment)];
            assert cols == next;
          }
      }
    }
    assert children[..|children|] == children;
  }

  method AppendBorder(output: Text, ws: seq<nat>, left: byte, joint: byte, right: byte) returns (r: Text)
    requires ws != []
    ensures r == output + BorderLine(ws, left, joint, right) + [NEWLINE]
  {
    r := output + BORDER + Box(left);
    ghost var start := r;
    for i := 0 to |ws|
      invariant r + Segments(ws, i, Box(joint)) == start + Segments(ws, 0, Box(joint))
    {
      ghost var head := r;
      for j := 0 to ws[i] + 2
        invariant r == head + Dashes(j)
      {
        r := r + DASH;
      }
      if i < |ws| - 1 {
        r := r + Box(joint);
      }
      assert r + Segments(ws, i + 1, Box(joint)) == head + Segments(ws, i, Box(joint));
    }
    assert r + [] == r;
    Regroup4(output, BORDER, Box(left), Segments(ws, 0, Box(joint)), Box(right));
    r := r + Box(right) + [NEWLINE];
  }

  lemma Regroup4(o: Text, a: Text, b: Text, c: Text, d: Text)
    ensures o + a + b + c + d == o + (a + b + c + d)
  {
  }

  method AlignText(text: Text, width: nat, alignment: Alignment) returns (r: Text)
    ensures r == Align(text, width, alignment)
  {
    var dw := VisibleLength(text);
    if dw >= width {
      return text;
    }
    var extra := width - dw;
    match alignment {
      case Left => r := text + Blanks(extra);
      case Right => r := Blanks(extra) + text;
      case Center => r := Blanks(extra / 2) + text + Blanks(extra - extra / 2);
    }
  }

  /** The wrapped lines of the first `c` cells of a row. */
  function WrappedCells(row: seq<Text>, cols: seq<Column>, c: nat): (r: seq<seq<Text>>)
    requires c <= |cols|
    ensures |r| == c && forall k :: 0 <= k < c ==> r[k] == Wrap(CellOf(row, k), cols[k].width)
  {
    if c == 0 then [] else WrappedCells(row, cols, c - 1) + [Wrap(CellOf(row, c - 1), cols[c - 1].width)]
  }

  method WrapRow(row: seq<Text>, cols: seq<Column>) returns (cellLines: seq<seq<Text>>, height: nat)
    ensures cellLines == WrappedCells(row, cols, |cols|)
    ensures height == Height(row, cols, |cols|)
  {
    cellLines, height := [], 1;
    for c := 0 to |cols|
      invariant cellLines == WrappedCells(row, cols, c)
      invariant height == Height(row, cols, c)
    {
      var content := if c < |row| then row[c] else [];
      var lines := WrapLines(content, cols[c].width);
      if height < |lines| {
        height := |lines|;
      }
      cellLines := cellLines + [lines];
    }
  }

  method AppendTextLine(output: Text, row: seq<Text>, cols: seq<Column>, cellLines: seq<seq<Text>>, h: nat, header: bool)
    returns (r: Text)
    requires |cellLines| == |cols|
    requires forall c :: 0 <= c < |cols| ==> cellLines[c] == Wrap(CellOf(row, c), cols[c].width)
    ensures r == output + TextLine(row, cols, h, header) + [NEWLINE]
  {
    r := output + BORDER + BAR;
    ghost var start := r;
    for c := 0 to |cols|
      invariant r + Cells(row, cols, c, h, header) == start + Cells(row, cols, 0, h, header)
    {
      ghost var head := r;
      var content := if h < |cellLines[c]| then cellLines[c][h] else [];
      var aligned := AlignText(content, cols[c].width, cols[c].alignment);
      r := AppendCell(r, content, aligned, cols[c], header);
      Reassociate(head, Cell(content, cols[c], header), Cells(row, cols, c + 1, h, header));
    }
    assert r + [] == r;
    Regroup4(output, BORDER, BAR, Cells(row, cols, 0, h, header), RESET);
    r := r + RESET + [NEWLINE];
  }

  method AppendCell(output: Text, content: Text, aligned: Text, col: Column, header: bool) returns (r: Text)
    requires aligned == Align(content, col.width, col.alignment)
    ensures r == output + Cell(content, col, header)
  {
    r := output + [SPACE];
    if header {
      r := r + HEADER;
    }
    r := r + aligned;
    if header {
      r := r + RESET;
    }
    r := r + [SPACE];
    r := r + BORDER + BAR;
    assert r == output + Cell(content, col, header);
  }

  lemma TerminatedAppend(lines: seq<Text>, line: Text)
    ensures Terminated(lines + [line]) == Terminated(lines) + line + [NEWLINE]
  {
    assert (lines + [line])[..|lines|] == lines;
  }

  lemma NextTextLine(done: seq<Text>, row: seq<Text>, cols: seq<Column>, h: nat, header: bool)
    ensures Terminated(done + TextLines(row, cols, h + 1, header))
         == Terminated(done + TextLines(row, cols, h, header)) + TextLine(row, cols, h, header) + [NEWLINE]
  {
    var before, line := TextLines(row, cols, h, header), TextLine(row, cols, h, header);
    assert done + (before + [line]) == (done + before) + [line];
    TerminatedAppend(done + before, line);
  }

  method AppendTextLines(output: Text, row: seq<Text>, cols: seq<Column>, header: bool, ghost done: seq<Text>)
    returns (r: Text)
    requires output == Terminated(done)
    ensures r == Terminated(done + TextLines(row, cols, Height(row, cols, |cols|), header))
  {
    var cellLines, height := WrapRow(row, cols);
    r := output;
    assert done + TextLines(row, cols, 0, header) == done;
    for h := 0 to height
      invariant r == Terminated(done + TextLines(row, cols, h, header))
    {
      r := AppendTextLine(r, row, cols, cellLines, h, header);
      NextTextLine(done, row, cols, h, header);
    }
  }

  method AppendRow(output: Text, row: seq<Text>, cols: seq<Column>, ws: seq<nat>, header: bool, ghost done: seq<Text>)
    returns (r: Text)
    requires output == Terminated(done) && ws == Widths(cols) && cols != []
    ensures r == Terminated(done + RowText(row, cols, header))
  {
    r := AppendTextLines(output, row, cols, header, done);
    ghost var text := TextLines(row, cols, Height(row, cols, |cols|), header);
    if header {
      r := AppendBorder(r, ws, 0x9C, 0xBC, 0xA4);
      ghost var separator := BorderLine(ws, 0x9C, 0xBC, 0xA4);
      TerminatedAppend(done + text, separator);
      Reassociate(done, text, [separator]);
    } else {
      assert text + [] == text;
    }
  }

  lemma NextRow(top: seq<Text>, rows: seq<seq<Text>>, cols: seq<Column>, k: nat)
    requires k < |rows|
    ensures top + RowLines(rows, cols, k) + RowText(rows[k], cols, k == 0) == top + RowLines(rows, cols, k + 1)
  {
    Reassociate(top, RowLines(rows, cols, k), RowText(rows[k], cols, k == 0));
  }

  method AppendRowAt(output: Text, rows: seq<seq<Text>>, k: nat, cols: seq<Column>, ws: seq<nat>, ghost top: seq<Text>,
                     ghost done: seq<Text>)
    returns (r: Text, ghost next: seq<Text>)
    requires k < |rows| && output == Terminated(done) && done == top + RowLines(rows, cols, k)
    requires ws == Widths(cols) && cols != []
    ensures r == Terminated(next) && next == top + RowLines(rows, cols, k + 1)
  {
    r := AppendRow(output, rows[k], cols, ws, k == 0, done);
    NextRow(top, rows, cols, k);
    next := done + RowText(rows[k], cols, k == 0);
  }

  lemma NoRows(top: seq<Text>, rows: seq<seq<Text>>, cols: seq<Column>)
    ensures top + RowLines(rows, cols, 0) == top
  {
  }

  method AppendRows(output: Text, rows: seq<seq<Text>>, cols: seq<Column>, ws: seq<nat>, ghost top: seq<Text>)
    returns (r: Text, ghost done: seq<Text>)
    requires output == Terminated(top) && ws == Widths(cols) && cols != []
    ensures r == Terminated(done)
    ensures done == top + RowLines(rows, cols, |rows|)
  {
    NoRows(top, rows, cols);
    r, done := output, top;
    var k := 0;
    while k < |rows|
      invariant k <= |rows|
      invariant r == Terminated(done)
      invariant done == top + RowLines(rows, cols, k)
    {
      r, done := AppendRowAt(r, rows, k, cols, ws, top, done);
      k := k + 1;
    }
    assert k == |rows|;
  }

  method Render(children: seq<Child>, maxWidth: nat) returns (output: Text)
    ensures output == TableText(children, maxWidth)
  {
    var cols, rows := CollectColumns(children);
    if cols == [] {
      return [];
    }
    var widths := new nat[|cols|](i requires 0 <= i < |cols| => cols[i].width);
    assert widths[..] == Widths(cols);
    var _ := ColumnShrink.ShrinkColumns(widths, maxWidth);
    var ws := widths[..];
    cols := WithWidths(cols, ws);

    output := AppendBorder([], ws, 0x8C, 0xAC, 0x90);
    ghost var top := BorderLine(ws, 0x8C, 0xAC, 0x90);
    TerminatedAppend([], top);
    assert [] + [top] == [top] && [] + top == top;
    ghost var done;
    output, done := AppendRows(output, rows, cols, ws, [top]);
    output := AppendBorder(output, ws, 0x94, 0xB4, 0x98);
    TerminatedAppend(done, BorderLine(ws, 0x94, 0xB4, 0x98));
    output := output + RESET;
  }
}
