/** The rendered table said of the table's children: columns, rows from top to bottom, borders and styles. */
module TableMeaning {
  import opened Basics
  import opened Utf8
  import opened VisibleText
  import opened WrapCell
  import opened WrapCellProofs
  import opened RenderTable
  import opened TableWidth
  import opened TableReading
  import opened TableContent
  import opened SplitLines
  import opened ColumnShrink

  // ----- Columns -----

  function CellCount(child: Child): nat {
    match child case Row(cells) => |cells| case Delimiter(marks) => |marks|
  }

  lemma {:induction false} AddCellsCount(cols: seq<Column>, cells: seq<Text>, c: nat)
    requires c <= |cells| && c <= |cols|
    ensures |AddCells(cols, cells, c)| == if |cols| < |cells| then |cells| else |cols|
    decreases |cells| - c
  {
    if c < |cells| {
      AddCellsCount(AddCell(cols, c, Visible(cells[c])), cells, c + 1);
    }
  }

  lemma {:induction false} SetAlignmentsCount(cols: seq<Column>, marks: seq<Mark>, c: nat)
    requires c <= |marks| && c <= |cols|
    ensures |SetAlignments(cols, marks, c)| == if |cols| < |marks| then |marks| else |cols|
    decreases |marks| - c
  {
    if c < |marks| {
      SetAlignmentsCount(SetAlignment(cols, c, marks[c]), marks, c + 1);
    }
  }

  lemma AddChildCount(cols: seq<Column>, child: Child)
    ensures |AddChild(cols, child)| == if |cols| < CellCount(child) then CellCount(child) else |cols|
  {
    if child.Row? {
      AddCellsCount(cols, child.cells, 0);
    } else {
      SetAlignmentsCount(cols, child.marks, 0);
    }
  }

  /** There are as many columns as the longest child has cells. */
  lemma {:induction false} LongestChildCounts(children: seq<Child>) returns (k: nat)
    ensures forall i :: 0 <= i < |children| ==> CellCount(children[i]) <= |Columns(children)|
    ensures Columns(children) == [] || (k < |children| && CellCount(children[k]) == |Columns(children)|)
  {
    k := 0;
    if children != [] {
      var n := |children| - 1;
      k := LongestChildCounts(children[..n]);
      AddChildCount(Columns(children[..n]), children[n]);
      forall i | 0 <= i < |children| ensures CellCount(children[i]) <= |Columns(children)| {
        if i < n {
          assert children[..n][i] == children[i];
        }
      }
      k := if |Columns(children[..n])| < CellCount(children[n]) then n else k;
    }
  }

  lemma {:induction false} AddCellsWidth(cols: seq<Column>, cells: seq<Text>, from: nat, c: nat)
    requires from <= |cells| && from <= |cols| && c < |AddCells(cols, cells, from)|
    ensures var was := if c < |cols| then cols[c].width else 0;
            AddCells(cols, cells, from)[c].width
              == if from <= c < |cells| && was < Visible(cells[c]) then Visible(cells[c]) else was
    ensures c < |cols| ==> AddCells(cols, cells, from)[c].alignment == cols[c].alignment
    ensures c >= |cols| ==> AddCells(cols, cells, from)[c].alignment == Left
    decreases |cells| - from
  {
    if from < |cells| {
      AddCellsWidth(AddCell(cols, from, Visible(cells[from])), cells, from + 1, c);
    }
  }

  lemma {:induction false} SetAlignmentsWidth(cols: seq<Column>, marks: seq<Mark>, from: nat, c: nat)
    requires from <= |marks| && from <= |cols| && c < |SetAlignments(cols, marks, from)|
    ensures SetAlignments(cols, marks, from)[c].width == if c < |cols| then cols[c].width else 0
    ensures SetAlignments(cols, marks, from)[c].alignment
              == if from <= c < |marks| then AlignmentOf(marks[c]) else if c < |cols| then cols[c].alignment else Left
    decreases |marks| - from
  {
    if from < |marks| {
      SetAlignmentsWidth(SetAlignment(cols, from, marks[from]), marks, from + 1, c);
    }
  }

  ghost predicate HasCell(child: Child, c: nat) {
    child.Row? && c < |child.cells|
  }

  ghost predicate HasMark(child: Child, c: nat) {
    child.Delimiter? && c < |child.marks|
  }

  /** Before shrinking, column `c` is as wide as the widest c-th cell of the rows. */
  lemma {:induction false} ColumnIsItsWidestCell(children: seq<Child>, c: nat) returns (k: nat)
    requires c < |Columns(children)|
    ensures forall i :: 0 <= i < |children| && HasCell(children[i], c) ==> Visible(children[i].cells[c]) <= Columns(children)[c].width
    ensures Columns(children)[c].width == 0
            || (k < |children| && HasCell(children[k], c) && Visible(children[k].cells[c]) == Columns(children)[c].width)
  {
    var n := |children| - 1;
    var before, child := Columns(children[..n]), children[n];
    k := 0;
    if c < |before| {
      k := ColumnIsItsWidestCell(children[..n], c);
    } else {
      var _ := LongestChildCounts(children[..n]);
      NoCellBefore(children[..n], c);
    }
    if child.Row? {
      AddCellsWidth(before, child.cells, 0, c);
    } else {
      SetAlignmentsWidth(before, child.marks, 0, c);
    }
    forall i | 0 <= i < |children| && HasCell(children[i], c)
      ensures Visible(children[i].cells[c]) <= Columns(children)[c].width
    {
      if i < n {
        assert HasCell(children[..n][i], c);
      }
    }
    k := if HasCell(child, c) && Visible(child.cells[c]) == Columns(children)[c].width then n else k;
  }

  lemma NoCellBefore(children: seq<Child>, c: nat)
    requires forall i :: 0 <= i < |children| ==> CellCount(children[i]) <= c
    ensures forall i :: 0 <= i < |children| ==> !HasCell(children[i], c) && !HasMark(children[i], c)
  {
    forall i | 0 <= i < |children| ensures !HasCell(children[i], c) && !HasMark(children[i], c) {
      assert CellCount(children[i]) <= c;
    }
  }

  ghost predicate NoMarkFrom(children: seq<Child>, from: nat, c: nat) {
    forall i :: from <= i < |children| ==> !HasMark(children[i], c)
  }

  /** Colons on both sides centre a column, one on the right moves it right, anything else leaves it left. */
  ghost predicate Asks(mark: Mark, a: Alignment) {
    && (mark.left && mark.right ==> a == Center)
    && (!mark.left && mark.right ==> a == Right)
    && (!mark.right ==> a == Left)
  }

  lemma NoMarkNext(front: seq<Child>, child: Child, from: nat, c: nat)
    requires NoMarkFrom(front, from, c) && !HasMark(child, c)
    ensures NoMarkFrom(front + [child], from, c)
  {
    forall i | from <= i < |front + [child]| ensures !HasMark((front + [child])[i], c) {
      if i < |front| {
        assert !HasMark(front[i], c);
      }
    }
  }

  /** A column is aligned as the last delimiter row with a cell for it says, and left if there is none. */
  lemma {:induction false} ColumnIsAlignedAsMarked(children: seq<Child>, c: nat) returns (found: bool, k: nat)
    requires c < |Columns(children)|
    ensures if found then k < |children| && HasMark(children[k], c) && Asks(children[k].marks[c], Columns(children)[c].alignment)
                          && NoMarkFrom(children, k + 1, c)
            else Columns(children)[c].alignment == Left && NoMarkFrom(children, 0, c)
  {
    var n := |children| - 1;
    var front, child := children[..n], children[n];
    assert children == front + [child];
    found, k := false, 0;
    if c < |Columns(front)| {
      found, k := ColumnIsAlignedAsMarked(front, c);
    } else {
      var _ := LongestChildCounts(front);
      NoCellBefore(front, c);
    }
    if child.Row? {
      AddCellsWidth(Columns(front), child.cells, 0, c);
    } else {
      SetAlignmentsWidth(Columns(front), child.marks, 0, c);
    }
    if HasMark(child, c) {
      found, k := true, n;
    } else {
      NoMarkNext(front, child, if found then k + 1 else 0, c);
    }
  }

  /** Shrinking changes widths only. */
  lemma FinalColumnsKeepAlignments(children: seq<Child>, maxWidth: nat)
    ensures var cols, final := Columns(children), FinalColumns(children, maxWidth);
            && |final| == |cols| && Widths(final) == FinalWidths(Widths(cols), maxWidth)
            && forall c :: 0 <= c < |cols| ==> final[c].alignment == cols[c].alignment
  {
  }

  // ----- Rows -----

  function RowsAmong(children: seq<Child>): nat {
    if children == [] then 0
    else RowsAmong(children[..|children| - 1]) + if children[|children| - 1].Row? then 1 else 0
  }

  lemma {:induction false} RowsInOrder(children: seq<Child>, k: nat)
    requires k <= |children|
    ensures |Rows(children)| == RowsAmong(children)
    ensures k < |children| && children[k].Row? ==>
              RowsAmong(children[..k]) < |Rows(children)| && Rows(children)[RowsAmong(children[..k])] == children[k].cells
  {
    if children != [] {
      var n := |children| - 1;
      RowsInOrder(children[..n], if k < n then k else n);
      if k < n {
        assert children[..n][..k] == children[..k];
      }
    }
  }

  ghost predicate RowsWellFormed(children: seq<Child>) {
    forall child :: child in children && child.Row? ==> AllWellFormed(child.cells)
  }

  lemma {:induction false} RowsAreOfChildren(children: seq<Child>)
    ensures forall row :: row in Rows(children) ==> Row(row) in children
  {
    if children != [] {
      RowsAreOfChildren(children[..|children| - 1]);
    }
  }

  lemma ChildrenWellFormed(children: seq<Child>)
    requires RowsWellFormed(children)
    ensures CellsWellFormed(children)
  {
    RowsAreOfChildren(children);
    forall row | row in Rows(children) ensures AllWellFormed(row) {
      assert Row(row) in children;
    }
  }

  // ----- Borders -----

  /** `n` horizontal lines and what ends them. */
  function Stroke(n: nat, end: Text): (cs: seq<Text>)
    ensures |cs| == n + 1
  {
    seq(n, _ => [0xE2, 0x94, 0x80]) + [end]
  }

  /** Left corner, and for each column a stroke over it and its two blanks up to the joint or the right corner. */
  ghost predicate IsBorder(line: Text, ws: seq<nat>, left: Text, joint: Text, right: Text) {
    var cs := Characters(line);
    && |cs| == TotalWidth(ws) && cs[0] == left
    && forall c :: 0 <= c < |ws| ==>
         Slice(cs, Start(ws, c) - 1, ws[c] + 3) == Stroke(ws[c] + 2, if c == |ws| - 1 then right else joint)
  }

  lemma BoxSpells(last: byte)
    requires IsContinuation(last)
    ensures Spells(Box(last), [Box(last)])
  {
    var s := Box(last);
    assert PieceLen(s) == 3 && s[..3] == s;
    PieceAlone(s);
    assert Shown([s]) == [s] + Shown([s][1..]);
  }

  lemma {:induction false} DashesSpell(n: nat)
    ensures Spells(Dashes(n), seq(n, _ => [0xE2, 0x94, 0x80]))
  {
    if n > 0 {
      DashesSpell(n - 1);
      DashesBlock(n - 1);
      BoxSpells(0x80);
      JoinSpells(Dashes(n - 1), seq(n - 1, _ => [0xE2, 0x94, 0x80]), DASH, [DASH]);
      assert seq(n - 1, _ => [0xE2, 0x94, 0x80]) + [DASH] == seq(n, _ => [0xE2, 0x94, 0x80]);
    }
  }

  lemma StrokeSpells(n: nat, last: byte)
    requires IsContinuation(last)
    ensures Spells(Dashes(n) + Box(last), Stroke(n, Box(last)))
  {
    DashesSpell(n);
    DashesBlock(n);
    BoxSpells(last);
    JoinSpells(Dashes(n), seq(n, _ => [0xE2, 0x94, 0x80]), Box(last), [Box(last)]);
  }

  /** The strokes of the columns from column `c` on. */
  function Strokes(ws: seq<nat>, c: nat, joint: Text, right: Text): (parts: seq<seq<Text>>)
    requires c <= |ws|
    ensures |parts| == |ws| - c
    ensures forall k :: 0 <= k < |parts| ==> parts[k] == Stroke(ws[c + k] + 2, if c + k == |ws| - 1 then right else joint)
  {
    seq(|ws| - c, k requires 0 <= k < |ws| - c => Stroke(ws[c + k] + 2, if c + k == |ws| - 1 then right else joint))
  }

  lemma StrokesNext(ws: seq<nat>, c: nat, joint: Text, right: Text)
    requires c < |ws|
    ensures Strokes(ws, c, joint, right)
         == [Stroke(ws[c] + 2, if c == |ws| - 1 then right else joint)] + Strokes(ws, c + 1, joint, right)
  {
  }

  lemma LastSegment(ws: seq<nat>, c: nat, joint: Text)
    requires c == |ws| - 1
    ensures Segments(ws, c, joint) == Dashes(ws[c] + 2)
  {
    var dashes := Dashes(ws[c] + 2);
    assert Segments(ws, c + 1, joint) == [] && dashes + [] == dashes;
  }

  lemma LastStroke(ws: seq<nat>, c: nat, joint: Text, right: Text)
    requires c == |ws| - 1
    ensures Flat(Strokes(ws, c, joint, right)) == Stroke(ws[c] + 2, right)
  {
    var stroke := Stroke(ws[c] + 2, right);
    var parts := Strokes(ws, c, joint, right);
    StrokesNext(ws, c, joint, right);
    assert parts == [stroke] && parts[1..] == [];
    assert stroke + [] == stroke;
  }

  lemma {:induction false} SegmentsSpell(ws: seq<nat>, c: nat, joint: byte, right: byte)
    requires c < |ws| && IsContinuation(joint) && IsContinuation(right)
    ensures Spells(Segments(ws, c, Box(joint)) + Box(right), Flat(Strokes(ws, c, Box(joint), Box(right))))
    decreases |ws| - c
  {
    if c == |ws| - 1 {
      LastSegment(ws, c, Box(joint));
      LastStroke(ws, c, Box(joint), Box(right));
      StrokeSpells(ws[c] + 2, right);
    } else {
      var stroke, rest := Dashes(ws[c] + 2) + Box(joint), Segments(ws, c + 1, Box(joint)) + Box(right);
      StrokeSpells(ws[c] + 2, joint);
      SegmentsSpell(ws, c + 1, joint, right);
      StrokesNext(ws, c, Box(joint), Box(right));
      JoinSpells(stroke, Stroke(ws[c] + 2, Box(joint)), rest, Flat(Strokes(ws, c + 1, Box(joint), Box(right))));
      Reassociate(stroke, Segments(ws, c + 1, Box(joint)), Box(right));
    }
  }

  /** Part `c` of a line of parts, each three places wider than its column. */
  lemma {:induction false} PartAt(parts: seq<seq<Text>>, ws: seq<nat>, c: nat)
    requires |parts| == |ws| && c < |ws| && forall k :: 0 <= k < |ws| ==> |parts[k]| == ws[k] + 3
    ensures Before(ws, c) + ws[c] + 3 <= |Flat(parts)|
    ensures Flat(parts)[Before(ws, c)..Before(ws, c) + ws[c] + 3] == parts[c]
    decreases c
  {
    if c == 0 {
      SliceFront(parts[0], Flat(parts[1..]), 0, ws[0] + 3);
      assert parts[0][0..ws[0] + 3] == parts[0];
    } else {
      PartAt(parts[1..], ws[1..], c - 1);
      SliceBehind(parts[0], Flat(parts[1..]), Before(ws[1..], c - 1), ws[c] + 3);
    }
  }

  lemma BorderSpells(ws: seq<nat>, left: byte, joint: byte, right: byte)
    requires ws != [] && IsContinuation(left) && IsContinuation(joint) && IsContinuation(right)
    ensures Spells(BorderLine(ws, left, joint, right), [Box(left)] + Flat(Strokes(ws, 0, Box(joint), Box(right))))
  {
    StyleSpells(false);
    BoxSpells(left);
    JoinSpells(BORDER, [], Box(left), [Box(left)]);
    assert [] + [Box(left)] == [Box(left)];
    SegmentsSpell(ws, 0, joint, right);
    JoinSpells(BORDER + Box(left), [Box(left)], Segments(ws, 0, Box(joint)) + Box(right), Flat(Strokes(ws, 0, Box(joint), Box(right))));
    Reassociate(BORDER + Box(left), Segments(ws, 0, Box(joint)), Box(right));
  }

  lemma StrokeReads(cs: seq<Text>, first: Text, parts: seq<seq<Text>>, ws: seq<nat>, c: nat)
    requires cs == [first] + Flat(parts) && |parts| == |ws| && c < |ws|
    requires forall k :: 0 <= k < |ws| ==> |parts[k]| == ws[k] + 3
    ensures Slice(cs, Start(ws, c) - 1, ws[c] + 3) == parts[c]
  {
    PartAt(parts, ws, c);
    StartIsBefore(ws, c);
    SliceBehind([first], Flat(parts), Before(ws, c), ws[c] + 3);
  }

  lemma BorderReads(ws: seq<nat>, left: byte, joint: byte, right: byte)
    requires ws != [] && IsContinuation(left) && IsContinuation(joint) && IsContinuation(right)
    ensures IsBorder(BorderLine(ws, left, joint, right), ws, Box(left), Box(joint), Box(right))
  {
    var line := BorderLine(ws, left, joint, right);
    assert Spells(line, [Box(left)] + Flat(Strokes(ws, 0, Box(joint), Box(right)))) by {
      BorderSpells(ws, left, joint, right);
    }
    assert Block(line, TotalWidth(ws)) by {
      BorderLineBlock(ws, left, joint, right);
    }
    StrokesMakeABorder(line, ws, Box(left), Box(joint), Box(right));
  }

  lemma StrokesMakeABorder(line: Text, ws: seq<nat>, left: Text, joint: Text, right: Text)
    requires Spells(line, [left] + Flat(Strokes(ws, 0, joint, right))) && Visible(line) == TotalWidth(ws)
    ensures IsBorder(line, ws, left, joint, right)
  {
    OneCharacterPerColumn(line);
    var parts := Strokes(ws, 0, joint, right);
    forall c | 0 <= c < |ws|
      ensures Slice(Characters(line), Start(ws, c) - 1, ws[c] + 3) == Stroke(ws[c] + 2, if c == |ws| - 1 then right else joint)
    {
      assert parts[c] == Stroke(ws[0 + c] + 2, if 0 + c == |ws| - 1 then right else joint);
      StrokeReads(Characters(line), left, parts, ws, c);
    }
  }

  // ----- Text lines -----

  /** The line between blanks that fill the width: on its right, on its left, or on both sides. */
  ghost predicate Placed(text: Text, line: Text, col: Column) {
    exists l: nat, r: nat ::
      && text == Blanks(l) + line + Blanks(r) && l + Visible(line) + r == col.width
      && (col.alignment == Left ==> l == 0) && (col.alignment == Right ==> r == 0)
      && (col.alignment == Center ==> l <= r <= l + 1)
  }

  /** Each text between two blanks, in the header's style or none, with the border behind. */
  function FramedCells(texts: seq<Text>, header: bool): Text {
    if texts == [] then []
    else
      (if header then [SPACE] + HEADER + texts[0] + RESET + [SPACE] else [SPACE] + texts[0] + [SPACE])
      + (BORDER + BAR) + FramedCells(texts[1..], header)
  }

  function FramedLine(texts: seq<Text>, header: bool): Text {
    BORDER + BAR + FramedCells(texts, header) + RESET
  }

  /** Line `h` of a row: at each column the h-th line of the wrapped cell, or blanks behind its last line. */
  ghost predicate ShowsLine(line: Text, cells: seq<Text>, cols: seq<Column>, h: nat, header: bool) {
    exists texts: seq<Text> ::
      && line == FramedLine(texts, header) && |texts| == |cols|
      && forall c :: 0 <= c < |cols| ==> Placed(texts[c], CellLineAt(Wrap(CellOf(cells, c), cols[c].width), h), cols[c])
  }

  lemma CellFramed(line: Text, col: Column, header: bool)
    ensures Cell(line, col, header)
         == (if header then [SPACE] + HEADER + Align(line, col.width, col.alignment) + RESET + [SPACE]
             else [SPACE] + Align(line, col.width, col.alignment) + [SPACE]) + (BORDER + BAR)
  {
  }

  lemma {:induction false} CellsFramed(row: seq<Text>, cols: seq<Column>, first: nat, h: nat, header: bool, texts: seq<Text>)
    requires first <= |cols| && |texts| == |cols| - first
    requires forall k :: 0 <= k < |texts| ==>
               texts[k] == Align(CellLine(row, cols, first + k, h), cols[first + k].width, cols[first + k].alignment)
    ensures Cells(row, cols, first, h, header) == FramedCells(texts, header)
    decreases |cols| - first
  {
    if first < |cols| {
      assert texts[0] == Align(CellLine(row, cols, first + 0, h), cols[first + 0].width, cols[first + 0].alignment);
      CellFramed(CellLine(row, cols, first, h), cols[first], header);
      forall k | 0 <= k < |texts[1..]|
        ensures texts[1..][k] == Align(CellLine(row, cols, first + 1 + k, h), cols[first + 1 + k].width, cols[first + 1 + k].alignment)
      {
        assert texts[1..][k] == texts[k + 1];
        assert first + (k + 1) == first + 1 + k;
      }
      CellsFramed(row, cols, first + 1, h, header, texts[1..]);
    }
  }

  /** The aligned lines of a row's cells, one for each column. */
  function AlignedCells(row: seq<Text>, cols: seq<Column>, h: nat): (texts: seq<Text>)
    ensures |texts| == |cols|
    ensures forall c :: 0 <= c < |cols| ==> texts[c] == Align(CellLine(row, cols, c, h), cols[c].width, cols[c].alignment)
  {
    seq(|cols|, c requires 0 <= c < |cols| => Align(CellLine(row, cols, c, h), cols[c].width, cols[c].alignment))
  }

  lemma CellPlaced(row: seq<Text>, cols: seq<Column>, c: nat, h: nat)
    requires c < |cols| && CellFits(CellOf(row, c), cols[c].width)
    ensures Placed(Align(CellLine(row, cols, c, h), cols[c].width, cols[c].alignment),
                   CellLineAt(Wrap(CellOf(row, c), cols[c].width), h), cols[c])
  {
    CellLineBlock(row, cols, c, h);
    var l, r := AlignPads(CellLine(row, cols, c, h), cols[c].width, cols[c].alignment);
  }

  lemma LineIsFramed(row: seq<Text>, cols: seq<Column>, h: nat, header: bool)
    ensures TextLine(row, cols, h, header) == FramedLine(AlignedCells(row, cols, h), header)
  {
    CellsFramed(row, cols, 0, h, header, AlignedCells(row, cols, h));
  }

  lemma LineShown(row: seq<Text>, cols: seq<Column>, h: nat, header: bool)
    requires RowFits(row, cols)
    ensures ShowsLine(TextLine(row, cols, h, header), row, cols, h, header)
  {
    var texts := AlignedCells(row, cols, h);
    LineIsFramed(row, cols, h, header);
    forall c | 0 <= c < |cols| ensures Placed(texts[c], CellLineAt(Wrap(CellOf(row, c), cols[c].width), h), cols[c]) {
      assert CellFits(CellOf(row, c), cols[c].width);
      CellPlaced(row, cols, c, h);
    }
  }

  // ----- The table -----

  /** A row is as high as its highest wrapped cell, and at least one line high. */
  ghost predicate HasHeight(h: nat, cells: seq<Text>, cols: seq<Column>) {
    && h >= 1 && (forall c :: 0 <= c < |cols| ==> |Wrap(CellOf(cells, c), cols[c].width)| <= h)
    && (h == 1 || exists c :: 0 <= c < |cols| && |Wrap(CellOf(cells, c), cols[c].width)| == h)
  }

  lemma {:induction false} HeightIsReached(row: seq<Text>, cols: seq<Column>, n: nat) returns (c: nat)
    requires n <= |cols|
    ensures Height(row, cols, n) == 1 || (c < n && |Wrap(CellOf(row, c), cols[c].width)| == Height(row, cols, n))
  {
    c := 0;
    if n > 0 {
      c := HeightIsReached(row, cols, n - 1);
      c := if Height(row, cols, n) == Height(row, cols, n - 1) then c else n - 1;
    }
  }

  lemma RowHasHeight(row: seq<Text>, cols: seq<Column>)
    ensures HasHeight(Height(row, cols, |cols|), row, cols)
  {
    var c := HeightIsReached(row, cols, |cols|);
  }

  /** Line by line the wrapped cells of the row. */
  ghost predicate LinesStand(lines: seq<Text>, from: nat, h: nat, cells: seq<Text>, cols: seq<Column>, header: bool) {
    from + h <= |lines| && forall i :: from <= i < from + h ==> ShowsLine(lines[i], cells, cols, i - from, header)
  }

  /** `h` lines from line `from` on are the row, and each column shows its whole cell. */
  ghost predicate RowStandsAt(lines: seq<Text>, from: nat, h: nat, cells: seq<Text>, cols: seq<Column>, header: bool) {
    && HasHeight(h, cells, cols) && LinesStand(lines, from, h, cells, cols, header)
    && (forall c :: 0 <= c < |cols| ==> ShowsCell(lines, from, h, Widths(cols), c, CellOf(cells, c)))
  }

  /** Row `k` of the children stands below the rows before it, and only the first is in the header's style. */
  ghost predicate ChildStands(lines: seq<Text>, hs: seq<nat>, children: seq<Child>, k: nat, cols: seq<Column>)
    requires k < |children| && children[k].Row?
  {
    var r := RowsAmong(children[..k]);
    r < |hs| && RowStandsAt(lines, FirstLine(hs, r), hs[r], children[k].cells, cols, r == 0)
  }

  lemma InSlice(table: seq<Text>, from: nat, mine: seq<Text>, i: nat)
    requires from + |mine| <= |table| && table[from..from + |mine|] == mine && from <= i < from + |mine|
    ensures table[i] == mine[i - from]
  {
  }

  lemma TextLineInTable(table: seq<Text>, from: nat, h: nat, row: seq<Text>, cols: seq<Column>, header: bool, i: nat)
    requires from + h <= |table| && table[from..from + h] == TextLines(row, cols, h, header) && from <= i < from + h
    ensures table[i] == TextLine(row, cols, i - from, header)
  {
    TextLineAt(row, cols, h, i - from, header);
    InSlice(table, from, TextLines(row, cols, h, header), i);
  }

  lemma TextLineStands(line: Text, row: seq<Text>, cols: seq<Column>, h: nat, header: bool)
    requires RowFits(row, cols) && line == TextLine(row, cols, h, header)
    ensures ShowsLine(line, row, cols, h, header)
  {
    LineShown(row, cols, h, header);
  }

  lemma TextLinesStand(table: seq<Text>, from: nat, h: nat, row: seq<Text>, cols: seq<Column>, header: bool)
    requires RowFits(row, cols) && from + h <= |table| && table[from..from + h] == TextLines(row, cols, h, header)
    ensures LinesStand(table, from, h, row, cols, header)
  {
    forall i | from <= i < from + h ensures ShowsLine(table[i], row, cols, i - from, header) {
      assert table[i] == TextLine(row, cols, i - from, header) by {
        TextLineInTable(table, from, h, row, cols, header, i);
      }
      TextLineStands(table[i], row, cols, i - from, header);
    }
  }

  lemma RowLinesStand(rows: seq<seq<Text>>, cols: seq<Column>, r: nat, hs: seq<nat>, table: seq<Text>, from: nat)
    requires r < |rows| && RowFits(rows[r], cols) && hs == Heights(rows, cols) && table == TableLines(rows, cols)
    requires from == FirstLine(hs, r)
    ensures LinesStand(table, from, hs[r], rows[r], cols, r == 0)
  {
    RowStands(rows, cols, r, hs, table, TextLines(rows[r], cols, hs[r], r == 0), from, hs[r]);
    TextLinesStand(table, from, hs[r], rows[r], cols, r == 0);
  }

  lemma MoreLinesStand(lines: seq<Text>, more: seq<Text>, from: nat, h: nat, cells: seq<Text>, cols: seq<Column>, header: bool)
    requires LinesStand(lines, from, h, cells, cols, header)
    ensures LinesStand(lines + more, from, h, cells, cols, header)
  {
  }

  lemma RowStandsInTable(rows: seq<seq<Text>>, cols: seq<Column>, r: nat, hs: seq<nat>, table: seq<Text>, from: nat)
    requires r < |rows| && RowFits(rows[r], cols) && hs == Heights(rows, cols) && table == TableLines(rows, cols)
    requires from == FirstLine(hs, r)
    ensures RowStandsAt(table + [RESET], from, hs[r], rows[r], cols, r == 0)
  {
    assert HasHeight(hs[r], rows[r], cols) by {
      RowHasHeight(rows[r], cols);
    }
    assert LinesStand(table + [RESET], from, hs[r], rows[r], cols, r == 0) by {
      RowLinesStand(rows, cols, r, hs, table, from);
      MoreLinesStand(table, [RESET], from, hs[r], rows[r], cols, r == 0);
    }
    forall c | 0 <= c < |cols| ensures ShowsCell(table + [RESET], from, hs[r], Widths(cols), c, CellOf(rows[r], c)) {
      RowShown(rows, cols, r, c, hs, table, Widths(cols), CellOf(rows[r], c));
    }
  }

  /** The top border, the separator below the first row and the bottom border, each with its own corners and joints. */
  ghost predicate BordersStand(lines: seq<Text>, hs: seq<nat>, ws: seq<nat>) {
    && |lines| == FirstLine(hs, |hs|) + 2
    && IsBorder(lines[0], ws, [0xE2, 0x94, 0x8C], [0xE2, 0x94, 0xAC], [0xE2, 0x94, 0x90])
    && (hs != [] ==> 1 + hs[0] < |lines| && IsBorder(lines[1 + hs[0]], ws, [0xE2, 0x94, 0x9C], [0xE2, 0x94, 0xBC], [0xE2, 0x94, 0xA4]))
    && IsBorder(lines[|lines| - 2], ws, [0xE2, 0x94, 0x94], [0xE2, 0x94, 0xB4], [0xE2, 0x94, 0x98])
    && lines[|lines| - 1] == RESET
  }

  lemma RowLinesCount(rows: seq<seq<Text>>, cols: seq<Column>, hs: seq<nat>)
    requires hs == Heights(rows, cols)
    ensures |RowLines(rows, cols, |rows|)| + 1 == FirstLine(hs, |hs|)
  {
    var blocks := Blocks(rows, cols);
    RowLinesAreFlat(rows, cols, |rows|, blocks);
    BlockHeights(rows, cols);
    LinesBefore(blocks, hs, |blocks|);
  }

  lemma {:induction false} HeaderComesFirst(rows: seq<seq<Text>>, cols: seq<Column>, r: nat)
    requires 1 <= r <= |rows|
    ensures RowText(rows[0], cols, true) <= RowLines(rows, cols, r)
  {
    if r > 1 {
      HeaderComesFirst(rows, cols, r - 1);
    } else {
      assert RowLines(rows, cols, 0) == [];
    }
  }

  lemma SeparatorStands(rows: seq<seq<Text>>, cols: seq<Column>, hs: seq<nat>)
    requires rows != [] && hs == Heights(rows, cols)
    ensures hs[0] < |RowLines(rows, cols, |rows|)|
    ensures RowLines(rows, cols, |rows|)[hs[0]] == BorderLine(Widths(cols), 0x9C, 0xBC, 0xA4)
  {
    HeaderComesFirst(rows, cols, |rows|);
    TextLinesCount(rows[0], cols, hs[0], true);
    assert RowText(rows[0], cols, true)[hs[0]] == BorderLine(Widths(cols), 0x9C, 0xBC, 0xA4);
  }

  lemma Around(top: Text, middle: seq<Text>, bottom: Text, lines: seq<Text>)
    requires lines == [top] + middle + [bottom] + [RESET]
    ensures |lines| == |middle| + 3 && lines[0] == top && lines[|lines| - 2] == bottom && lines[|lines| - 1] == RESET
    ensures forall j :: 0 <= j < |middle| ==> middle[j] == lines[1 + j]
  {
  }

  lemma BordersStandInTable(rows: seq<seq<Text>>, cols: seq<Column>, hs: seq<nat>)
    requires cols != [] && hs == Heights(rows, cols)
    ensures BordersStand(TableLines(rows, cols) + [RESET], hs, Widths(cols))
  {
    var ws, middle := Widths(cols), RowLines(rows, cols, |rows|);
    BorderReads(ws, 0x8C, 0xAC, 0x90);
    BorderReads(ws, 0x9C, 0xBC, 0xA4);
    BorderReads(ws, 0x94, 0xB4, 0x98);
    RowLinesCount(rows, cols, hs);
    if rows != [] {
      SeparatorStands(rows, cols, hs);
    }
    Around(BorderLine(ws, 0x8C, 0xAC, 0x90), middle, BorderLine(ws, 0x94, 0xB4, 0x98), TableLines(rows, cols) + [RESET]);
  }

  /**
   For every table of well-formed cells with a column and every limit: from top to bottom the text has the
   top border, the rows in the children's order with the separator below the first, the bottom border and a
   style reset. Each row stands line by line as its wrapped cells, placed as the columns' alignments say.
   */
  lemma TableReadsAsItsChildren(children: seq<Child>, maxWidth: nat) returns (hs: seq<nat>)
    requires RowsWellFormed(children) && Columns(children) != []
    ensures var lines, cols := Lines(TableText(children, maxWidth)), FinalColumns(children, maxWidth);
            && |hs| == RowsAmong(children) && BordersStand(lines, hs, Widths(cols))
            && forall k :: 0 <= k < |children| && children[k].Row? ==> ChildStands(lines, hs, children, k, cols)
  {
    var rows, cols := Rows(children), FinalColumns(children, maxWidth);
    hs := Heights(rows, cols);
    ChildrenWellFormed(children);
    RenderedLines(children, maxWidth);
    BordersStandInTable(rows, cols, hs);
    RowsInOrder(children, 0);
    forall k | 0 <= k < |children| && children[k].Row?
      ensures ChildStands(Lines(TableText(children, maxWidth)), hs, children, k, cols)
    {
      RowsInOrder(children, k);
      FinalRowFits(children, maxWidth, RowsAmong(children[..k]));
      RowStandsInTable(rows, cols, RowsAmong(children[..k]), hs, TableLines(rows, cols), FirstLine(hs, RowsAmong(children[..k])));
    }
  }

  /** Children without any cell render to nothing. */
  lemma NoCellsNoText(children: seq<Child>, maxWidth: nat)
    requires forall child :: child in children ==> CellCount(child) == 0
    ensures TableText(children, maxWidth) == []
  {
    var k := LongestChildCounts(children);
  }
}
