/** Reading text by visible positions, whatever the text shows. */
module TableReading {
  import opened Basics
  import opened Utf8
  import opened VisibleText
  import opened WrapCell
  import opened WrapCellProofs

  // ----- Visible characters -----

  /** The pieces that take a column. */
  function Shown(ps: seq<Text>): seq<Text> {
    if ps == [] then [] else (if StartsCsi(ps[0]) then [] else [ps[0]]) + Shown(ps[1..])
  }

  /** The visible characters of a text, one for each column it takes. */
  function Characters(s: Text): seq<Text> {
    if WellFormed(s) then Shown(Pieces(s)) else []
  }

  lemma {:induction false} ShownConcat(a: seq<Text>, b: seq<Text>)
    ensures Shown(a + b) == Shown(a) + Shown(b)
  {
    if a == [] {
      assert a + b == b;
    } else {
      assert (a + b)[1..] == a[1..] + b;
      ShownConcat(a[1..], b);
    }
  }

  lemma {:induction false} ShownCount(ps: seq<Text>)
    ensures |Shown(ps)| == Glyphs(ps)
  {
    if ps != [] {
      ShownCount(ps[1..]);
    }
  }

  lemma OneCharacterPerColumn(s: Text)
    requires WellFormed(s)
    ensures |Characters(s)| == Visible(s)
  {
    ShownCount(Pieces(s));
    VisibleCountsGlyphs(s);
  }

  /** `t` is well formed and shows the characters `cs`. */
  ghost predicate Spells(t: Text, cs: seq<Text>) {
    WellFormed(t) && Characters(t) == cs
  }

  lemma JoinSpells(s: Text, a: seq<Text>, t: Text, b: seq<Text>)
    requires Spells(s, a) && Spells(t, b) && Joinable(s, t)
    ensures Spells(s + t, a + b)
  {
    Concat(s, t);
    ShownConcat(Pieces(s), Pieces(t));
  }

  lemma JoinSilent(s: Text, a: seq<Text>, t: Text)
    requires Spells(s, a) && Spells(t, []) && Joinable(s, t)
    ensures Spells(s + t, a)
  {
    JoinSpells(s, a, t, []);
    assert a + [] == a;
  }

  lemma OnePiece(p: Text)
    ensures Solid(Shown([p])) == Shown(Solid([p]))
  {
    assert Shown([p]) == (if StartsCsi(p) then [] else [p]) + Shown([p][1..]);
    assert Solid([p]) == (if IsSpacePiece(p) then [] else [p]) + Solid([p][1..]);
  }

  /** Dropping escape sequences and dropping whitespace do not depend on the order. */
  lemma {:induction false} SolidShown(ps: seq<Text>)
    ensures Solid(Shown(ps)) == Shown(Solid(ps))
  {
    if ps != [] {
      var p, rest := ps[0], ps[1..];
      assert ps == [p] + rest;
      ShownConcat([p], rest);
      SolidConcat([p], rest);
      SolidConcat(Shown([p]), Shown(rest));
      ShownConcat(Solid([p]), Solid(rest));
      OnePiece(p);
      SolidShown(rest);
    }
  }

  // ----- Reading a line -----

  /** Where the text of column `c` starts, `from` being the first column's place behind its border. */
  function Start(ws: seq<nat>, c: nat): nat
    requires c <= |ws|
  {
    if c == 0 then 2 else Start(ws, c - 1) + ws[c - 1] + 3
  }

  function Slice(cs: seq<Text>, from: nat, n: nat): seq<Text> {
    if from + n <= |cs| then cs[from..from + n] else []
  }

  /** The characters of a line at the positions of column `c`. */
  function ReadAt(line: Text, ws: seq<nat>, c: nat): seq<Text>
    requires c < |ws|
  {
    Slice(Characters(line), Start(ws, c), ws[c])
  }

  /** The characters of column `c` down the lines, without blanks. */
  function ReadColumn(lines: seq<Text>, ws: seq<nat>, c: nat): seq<Text>
    requires c < |ws|
  {
    if lines == [] then []
    else ReadColumn(lines[..|lines| - 1], ws, c) + Solid(ReadAt(lines[|lines| - 1], ws, c))
  }

  // ----- A line made of cells -----

  const GAP: seq<Text> := [[SPACE]]

  /** Cells of the given characters, each between two blanks and with a border to its right. */
  function CellsOf(parts: seq<seq<Text>>, bar: seq<Text>): seq<Text> {
    if parts == [] then [] else (GAP + parts[0] + GAP + bar) + CellsOf(parts[1..], bar)
  }

  /** The places that the columns before column `c` take. */
  function Before(ws: seq<nat>, c: nat): nat
    requires c <= |ws|
    decreases c
  {
    if c == 0 then 0 else ws[0] + 3 + Before(ws[1..], c - 1)
  }

  ghost predicate HaveWidths(parts: seq<seq<Text>>, ws: seq<nat>) {
    |parts| == |ws| && forall c :: 0 <= c < |ws| ==> |parts[c]| == ws[c]
  }

  lemma SliceBehind(a: seq<Text>, b: seq<Text>, at: nat, n: nat)
    requires at + n <= |b|
    ensures (a + b)[|a| + at..|a| + at + n] == b[at..at + n]
  {
  }

  lemma SliceFront(a: seq<Text>, b: seq<Text>, at: nat, n: nat)
    requires at + n <= |a|
    ensures (a + b)[at..at + n] == a[at..at + n]
  {
  }

  lemma CellFront(part: seq<Text>, bar: seq<Text>)
    ensures (GAP + part + GAP + bar)[1..1 + |part|] == part
    ensures |GAP + part + GAP + bar| == |part| + 2 + |bar|
  {
  }

  lemma {:induction false} CellsAt(parts: seq<seq<Text>>, ws: seq<nat>, bar: seq<Text>, c: nat)
    requires HaveWidths(parts, ws) && |bar| == 1 && c < |ws|
    ensures Before(ws, c) + 1 + ws[c] <= |CellsOf(parts, bar)|
    ensures CellsOf(parts, bar)[Before(ws, c) + 1..Before(ws, c) + 1 + ws[c]] == parts[c]
    decreases c
  {
    var cell, rest := GAP + parts[0] + GAP + bar, CellsOf(parts[1..], bar);
    CellFront(parts[0], bar);
    if c == 0 {
      SliceFront(cell, rest, 1, ws[0]);
    } else {
      assert HaveWidths(parts[1..], ws[1..]);
      CellsAt(parts[1..], ws[1..], bar, c - 1);
      SliceBehind(cell, rest, Before(ws[1..], c - 1) + 1, ws[c]);
    }
  }

  lemma {:induction false} StartIsBefore(ws: seq<nat>, c: nat)
    requires c <= |ws|
    ensures Start(ws, c) == 2 + Before(ws, c)
    decreases c
  {
    if c > 0 {
      StartIsBefore(ws, c - 1);
      BeforeNext(ws, c - 1);
    }
  }

  lemma {:induction false} BeforeNext(ws: seq<nat>, c: nat)
    requires c < |ws|
    ensures Before(ws, c + 1) == Before(ws, c) + ws[c] + 3
    decreases c
  {
    if c > 0 {
      BeforeNext(ws[1..], c - 1);
    }
  }

  /** A line of cells behind a border, read at the place of column `c`. */
  lemma ReadCells(line: Text, parts: seq<seq<Text>>, ws: seq<nat>, bar: seq<Text>, c: nat)
    requires Spells(line, bar + CellsOf(parts, bar))
    requires HaveWidths(parts, ws) && |bar| == 1 && c < |ws|
    ensures ReadAt(line, ws, c) == parts[c]
  {
    var cells, at := CellsOf(parts, bar), Before(ws, c) + 1;
    assert at + ws[c] <= |cells| && cells[at..at + ws[c]] == parts[c] by {
      CellsAt(parts, ws, bar, c);
    }
    assert Start(ws, c) == |bar| + at by {
      StartIsBefore(ws, c);
    }
    SliceBehind(bar, cells, at, ws[c]);
  }

  // ----- Lines of a row -----

  function CellLineAt(cells: seq<Text>, h: nat): Text {
    if h < |cells| then cells[h] else []
  }

  /** The first `h` wrapped lines of a cell, or all. */
  function LinesUpTo(cells: seq<Text>, h: nat): seq<Text> {
    if h < |cells| then cells[..h] else cells
  }

  lemma NextPieces(cells: seq<Text>, h: nat)
    requires AllWellFormed(cells)
    ensures Solid(Shown(AllPieces(LinesUpTo(cells, h + 1))))
         == Solid(Shown(AllPieces(LinesUpTo(cells, h)))) + Solid(Characters(CellLineAt(cells, h)))
  {
    if h < |cells| {
      assert LinesUpTo(cells, h + 1) == cells[..h] + [cells[h]];
      AllPiecesAppend(cells[..h], cells[h]);
      ShownConcat(AllPieces(cells[..h]), Pieces(cells[h]));
      SolidConcat(Shown(AllPieces(cells[..h])), Shown(Pieces(cells[h])));
    } else {
      var all := Solid(Shown(AllPieces(cells)));
      assert Solid(Characters([])) == [] && all + [] == all;
    }
  }

  /** Each line shows, at the place of column `c`, the wrapped line of the cell. */
  ghost predicate ShowCell(lines: seq<Text>, ws: seq<nat>, c: nat, cells: seq<Text>)
    requires c < |ws|
  {
    forall h :: 0 <= h < |lines| ==> Solid(ReadAt(lines[h], ws, c)) == Solid(Characters(CellLineAt(cells, h)))
  }

  lemma {:induction false} ReadDown(lines: seq<Text>, ws: seq<nat>, c: nat, cells: seq<Text>)
    requires c < |ws| && ShowCell(lines, ws, c, cells) && AllWellFormed(cells)
    ensures ReadColumn(lines, ws, c) == Solid(Shown(AllPieces(LinesUpTo(cells, |lines|))))
  {
    if lines != [] {
      var front, h := lines[..|lines| - 1], |lines| - 1;
      ReadDown(front, ws, c, cells);
      NextPieces(cells, h);
    } else if cells != [] {
      assert LinesUpTo(cells, 0) == [];
    }
  }

  /** `h` lines from line `from` on, read at the positions of column `c` without blanks, show the cell's visible characters. */
  ghost predicate ShowsCell(lines: seq<Text>, from: nat, h: nat, ws: seq<nat>, c: nat, cell: Text)
    requires c < |ws|
  {
    from + h <= |lines| && ReadColumn(lines[from..from + h], ws, c) == Solid(Characters(cell))
  }

  lemma ShownIn(lines: seq<Text>, more: seq<Text>, from: nat, h: nat, mine: seq<Text>, ws: seq<nat>, c: nat, cell: Text)
    requires c < |ws| && from + h <= |lines| && lines[from..from + h] == mine
    requires ReadColumn(mine, ws, c) == Solid(Characters(cell))
    ensures ShowsCell(lines + more, from, h, ws, c, cell)
  {
    SliceFront(lines, more, from, h);
  }

  lemma WrappedShows(cell: Text, width: nat)
    requires WellFormed(cell)
    ensures AllWellFormed(Wrap(cell, width))
    ensures Solid(Shown(AllPieces(Wrap(cell, width)))) == Solid(Characters(cell))
  {
    WrapKeepsPiecesAndWidth(cell, width);
    SolidShown(AllPieces(Wrap(cell, width)));
    SolidShown(Pieces(cell));
  }

  // ----- Sequences put together -----

  /** A text for each part that spells the part's cell, and ends so that another may follow. */
  ghost predicate SpellParts(texts: seq<Text>, parts: seq<seq<Text>>, bar: seq<Text>) {
    |texts| == |parts| && forall c :: 0 <= c < |texts| ==>
      Spells(texts[c], GAP + parts[c] + GAP + bar) && texts[c] != [] && texts[c][|texts[c]| - 1] != ESC
  }

  lemma {:induction false} FlatSpells(texts: seq<Text>, parts: seq<seq<Text>>, bar: seq<Text>)
    requires SpellParts(texts, parts, bar)
    ensures Spells(Flat(texts), CellsOf(parts, bar))
  {
    if texts != [] {
      assert SpellParts(texts[1..], parts[1..], bar);
      FlatSpells(texts[1..], parts[1..], bar);
      JoinSpells(texts[0], GAP + parts[0] + GAP + bar, Flat(texts[1..]), CellsOf(parts[1..], bar));
    }
  }

  /** The blocks before block `r`, that block, and those behind. */
  lemma {:induction false} FlatSplit<T>(blocks: seq<seq<T>>, r: nat)
    requires r < |blocks|
    ensures Flat(blocks) == Flat(blocks[..r]) + blocks[r] + Flat(blocks[r + 1..])
    decreases r
  {
    if r > 0 {
      FlatSplit(blocks[1..], r - 1);
      assert blocks[..r][1..] == blocks[1..][..r - 1] && blocks[1..][r..] == blocks[r + 1..];
      Regroup(blocks[0], Flat(blocks[1..][..r - 1]), blocks[r], Flat(blocks[r + 1..]));
    } else {
      assert Flat(blocks[..0]) == [];
    }
  }

  /** The number of the first line of row `r`: behind the top border, and the separator below the header. */
  function FirstLine(heights: seq<nat>, r: nat): nat
    requires r <= |heights|
  {
    if r == 0 then 1 else FirstLine(heights, r - 1) + heights[r - 1] + if r == 1 then 1 else 0
  }

  ghost predicate HaveHeights(blocks: seq<seq<Text>>, heights: seq<nat>) {
    |blocks| == |heights| && forall r :: 0 <= r < |blocks| ==> |blocks[r]| == heights[r] + if r == 0 then 1 else 0
  }

  lemma {:induction false} LinesBefore(blocks: seq<seq<Text>>, heights: seq<nat>, r: nat)
    requires HaveHeights(blocks, heights) && r <= |blocks|
    ensures 1 + |Flat(blocks[..r])| == FirstLine(heights, r)
  {
    if r > 0 {
      LinesBefore(blocks, heights, r - 1);
      assert blocks[..r] == blocks[..r - 1] + [blocks[r - 1]];
      FlatAppend(blocks[..r - 1], blocks[r - 1]);
    }
  }

  lemma SliceMiddle<T>(top: T, before: seq<T>, mine: seq<T>, tail: seq<T>, rest: seq<T>, bottom: T)
    ensures 1 + |before| + |mine| <= |[top] + (before + (mine + tail) + rest) + [bottom]|
    ensures ([top] + (before + (mine + tail) + rest) + [bottom])[1 + |before|..1 + |before| + |mine|] == mine
  {
  }

  /** Row `r` in a table of borders and rows. */
  lemma RowAt(top: Text, blocks: seq<seq<Text>>, heights: seq<nat>, bottom: Text, r: nat, mine: seq<Text>)
    requires HaveHeights(blocks, heights) && r < |blocks| && mine <= blocks[r] && |mine| == heights[r]
    ensures FirstLine(heights, r) + heights[r] <= |[top] + Flat(blocks) + [bottom]|
    ensures ([top] + Flat(blocks) + [bottom])[FirstLine(heights, r)..FirstLine(heights, r) + heights[r]] == mine
  {
    var tail := blocks[r][|mine|..];
    assert blocks[r] == mine + tail;
    FlatSplit(blocks, r);
    LinesBefore(blocks, heights, r);
    SliceMiddle(top, Flat(blocks[..r]), mine, tail, Flat(blocks[r + 1..]), bottom);
  }
}
