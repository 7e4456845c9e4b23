/** What greedy wrapping keeps: every byte, every piece, the width, and the least number of lines. */
module WrapCellProofs {
  import opened Basics
  import opened Utf8
  import opened VisibleText
  import opened WrapCell

  // ----- Bytes: wrapping only adds and removes whitespace -----

  /** The bytes of `s` that are not whitespace. */
  function Squeeze(s: Text): Text {
    if s == [] then [] else (if IsSpace(s[0]) then [] else [s[0]]) + Squeeze(s[1..])
  }

  /** Everything a filling holds, in order. */
  function Held(f: Filling): Text {
    Flat(f.lines) + f.line
  }

  lemma {:induction false} SqueezeConcat(s: Text, t: Text)
    ensures Squeeze(s + t) == Squeeze(s) + Squeeze(t)
  {
    if s == [] {
      assert s + t == t;
    } else {
      assert (s + t)[1..] == s[1..] + t;
      SqueezeConcat(s[1..], t);
    }
  }

  predicate Spaceless(s: Text) {
    forall i :: 0 <= i < |s| ==> !IsSpace(s[i])
  }

  lemma {:induction false} SqueezeSpaceless(s: Text)
    requires Spaceless(s)
    ensures Squeeze(s) == s
  {
    if s != [] {
      SqueezeSpaceless(s[1..]);
    }
  }

  /** Words are non-empty, hold no whitespace, and together are the text without its whitespace. */
  lemma {:induction false} WordsAreTheText(s: Text)
    ensures forall w :: w in Words(s) ==> w != [] && Spaceless(w)
    ensures Flat(Words(s)) == Squeeze(s)
    decreases |s|
  {
    if s != [] {
      if IsSpace(s[0]) {
        WordsAreTheText(s[1..]);
      } else {
        var k := WordEnd(s, 0);
        WordsAreTheText(s[k..]);
        assert s == s[..k] + s[k..];
        SqueezeConcat(s[..k], s[k..]);
        SqueezeSpaceless(s[..k]);
      }
    }
  }

  lemma NextKeepsBytes(full: bool, f: Filling)
    ensures Held(NextIf(full, f)) == Held(f)
  {
    FlatAppend(f.lines, f.line);
  }

  /** Breaking a long word loses and adds no byte. */
  lemma {:induction false} BreakKeepsBytes(w: Text, width: nat, f: Filling)
    ensures Held(BreakWord(w, width, f)) == Held(f) + w
    decreases |w|
  {
    if w != [] {
      var n := Chunk(w);
      var g := PlaceChunk(w[..n], StartsCsi(w), width, f);
      NextKeepsBytes(!StartsCsi(w) && f.width + 1 > width && f.line != [], f);
      assert Held(g) == Held(f) + w[..n];
      BreakKeepsBytes(w[n..], width, g);
      Cut(Held(f), w, n);
    }
  }

  lemma Cut(a: Text, w: Text, n: nat)
    requires n <= |w|
    ensures a + w[..n] + w[n..] == a + w
  {
  }

  lemma AppendWordKeepsBytes(w: Text, f: Filling)
    requires Spaceless(w)
    ensures Squeeze(Held(AppendWord(w, f))) == Squeeze(Held(f)) + w
  {
    SqueezeSpaceless(w);
    if f.line != [] {
      assert Held(AppendWord(w, f)) == Held(f) + [SPACE] + w;
      SqueezeConcat(Held(f) + [SPACE], w);
      SqueezeConcat(Held(f), [SPACE]);
      assert [SPACE][1..] == [];
    } else {
      assert Held(AppendWord(w, f)) == Held(f) + w;
      SqueezeConcat(Held(f), w);
    }
  }

  lemma AddWordKeepsBytes(w: Text, width: nat, f: Filling)
    requires Spaceless(w)
    ensures Squeeze(Held(AddWord(w, width, f))) == Squeeze(Held(f)) + w
  {
    var full := f.line != [] && f.width + 1 + Visible(w) > width;
    NextKeepsBytes(full, f);
    BreakKeepsBytes(w, width, NextIf(full, f));
    AppendWordKeepsBytes(w, NextIf(full, f));
    SqueezeConcat(Held(f), w);
    SqueezeSpaceless(w);
  }

  lemma {:induction false} AddWordsKeepsBytes(ws: seq<Text>, width: nat, f: Filling)
    requires forall w :: w in ws ==> Spaceless(w)
    ensures Squeeze(Held(AddWords(ws, width, f))) == Squeeze(Held(f)) + Flat(ws)
    decreases |ws|
  {
    if ws != [] {
      var g := AddWord(ws[0], width, f);
      AddWordKeepsBytes(ws[0], width, f);
      AddWordsKeepsBytes(ws[1..], width, g);
      Reassociate(Squeeze(Held(f)), ws[0], Flat(ws[1..]));
    }
  }

  /** For any bytes and any width: the lines, without whitespace, are the text without whitespace. */
  lemma WrapKeepsText(text: Text, width: nat)
    ensures Squeeze(Flat(Wrap(text, width))) == Squeeze(text)
  {
    if width == 0 {
      assert [text][1..] == [];
      assert Flat([text]) == text + Flat([text][1..]) == text;
    } else {
      var f := AddWords(Words(text), width, Filling([], [], 0));
      WordsAreTheText(text);
      AddWordsKeepsBytes(Words(text), width, Filling([], [], 0));
      FlatAppend(f.lines, f.line);
      assert Flat(Wrap(text, width)) == Held(f);
    }
  }

  // ----- Pieces and width, for well-formed cells -----

  predicate IsSpacePiece(p: Text) {
    |p| == 1 && IsSpace(p[0])
  }

  /** The pieces that are not whitespace. */
  function Solid(ps: seq<Text>): seq<Text> {
    if ps == [] then [] else (if IsSpacePiece(ps[0]) then [] else [ps[0]]) + Solid(ps[1..])
  }

  predicate AllWellFormed(ls: seq<Text>) {
    forall i :: 0 <= i < |ls| ==> WellFormed(ls[i])
  }

  function AllPieces(ls: seq<Text>): seq<Text>
    requires AllWellFormed(ls)
  {
    if ls == [] then [] else Pieces(ls[0]) + AllPieces(ls[1..])
  }

  lemma {:induction false} SolidConcat(a: seq<Text>, b: seq<Text>)
    ensures Solid(a + b) == Solid(a) + Solid(b)
  {
    if a == [] {
      assert a + b == b;
    } else {
      assert (a + b)[1..] == a[1..] + b;
      SolidConcat(a[1..], b);
    }
  }

  lemma {:induction false} AllPiecesAppend(ls: seq<Text>, l: Text)
    requires AllWellFormed(ls) && WellFormed(l)
    ensures AllPieces(ls + [l]) == AllPieces(ls) + Pieces(l)
  {
    if ls == [] {
      assert ls + [l] == [l];
    } else {
      assert (ls + [l])[1..] == ls[1..] + [l];
      AllPiecesAppend(ls[1..], l);
    }
  }

  /** The words of well-formed text are well formed and carry all its solid pieces. */
  lemma {:induction false} WordsAreWellFormed(s: Text)
    requires WellFormed(s)
    ensures AllWellFormed(Words(s))
    ensures Solid(AllPieces(Words(s))) == Solid(Pieces(s))
    decreases |s|
  {
    if s != [] {
      if IsSpace(s[0]) {
        CutAtFrontSpace(s);
        WordsAreWellFormed(s[1..]);
        assert Pieces(s) == [[s[0]]] + Pieces(s[1..]);
        SolidConcat([[s[0]]], Pieces(s[1..]));
      } else {
        var k := WordEnd(s, 0);
        var w, rest := s[..k], s[k..];
        SplitAtWordEnd(s);
        WordsAreWellFormed(rest);
        assert Words(s) == [w] + Words(rest);
        SolidConcat(Pieces(w), AllPieces(Words(rest)));
        SolidConcat(Pieces(w), Pieces(rest));
      }
    }
  }

  lemma SplitAtWordEnd(s: Text)
    requires WellFormed(s) && s != [] && !IsSpace(s[0])
    ensures var k := WordEnd(s, 0);
            WellFormed(s[..k]) && WellFormed(s[k..]) && Pieces(s) == Pieces(s[..k]) + Pieces(s[k..])
  {
    var k := WordEnd(s, 0);
    if k == |s| {
      assert s[..k] == s && s[k..] == [];
    } else {
      CutAtSpace(s, k);
      SpaceInFront(s[k..]);
      assert s[k..][1..] == s[k + 1..];
      Reassociate(Pieces(s[..k]), [[s[k]]], Pieces(s[k + 1..]));
    }
  }

  lemma SpaceInFront(s: Text)
    requires s != [] && IsSpace(s[0]) && WellFormed(s[1..])
    ensures WellFormed(s) && Pieces(s) == [[s[0]]] + Pieces(s[1..])
  {
    assert PieceLen(s) == 1 && s[..1] == [s[0]];
    PrependPiece(s);
  }

  /** A filling whose lines are whole pieces within the width, its own count of columns being right. */
  ghost predicate FillingOk(f: Filling, width: nat) {
    && AllWellFormed(f.lines) && WellFormed(f.line)
    && (forall i :: 0 <= i < |f.lines| ==> Visible(f.lines[i]) <= width)
    && Visible(f.line) == f.width <= width
  }

  ghost function FillingPieces(f: Filling): seq<Text>
    requires AllWellFormed(f.lines) && WellFormed(f.line)
  {
    AllPieces(f.lines) + Pieces(f.line)
  }

  /** On well-formed text the code's chunk is the front piece. */
  lemma ChunkIsPiece(w: Text)
    requires PieceLen(w) > 0
    ensures Chunk(w) == PieceLen(w)
  {
  }

  lemma NextKeepsPieces(full: bool, f: Filling, width: nat)
    requires FillingOk(f, width)
    ensures FillingOk(NextIf(full, f), width) && FillingPieces(NextIf(full, f)) == FillingPieces(f)
  {
    if full {
      AllPiecesAppend(f.lines, f.line);
    }
  }

  lemma AppendPiece(w: Text, line: Text)
    requires PieceLen(w) > 0 && WellFormed(line) && Joinable(line, w)
    ensures var p := w[..PieceLen(w)];
            && WellFormed(line + p) && Pieces(line + p) == Pieces(line) + [p]
            && Visible(line + p) == Visible(line) + (if StartsCsi(w) then 0 else 1)
            && Joinable(line + p, w[PieceLen(w)..])
  {
    PieceAlone(w);
    Concat(line, w[..PieceLen(w)]);
  }

  lemma PlaceKeepsPieces(w: Text, width: nat, f: Filling)
    requires width > 0 && PieceLen(w) > 0 && FillingOk(f, width) && Joinable(f.line, w)
    ensures var p := w[..PieceLen(w)]; var g := PlaceChunk(p, StartsCsi(w), width, f);
            FillingOk(g, width) && FillingPieces(g) == FillingPieces(f) + [p] && Joinable(g.line, w[PieceLen(w)..])
  {
    var g := NextIf(!StartsCsi(w) && f.width + 1 > width && f.line != [], f);
    NextKeepsPieces(!StartsCsi(w) && f.width + 1 > width && f.line != [], f, width);
    AppendPiece(w, g.line);
    Reassociate(AllPieces(g.lines), Pieces(g.line), [w[..PieceLen(w)]]);
  }

  lemma {:induction false} BreakKeepsPieces(w: Text, width: nat, f: Filling)
    requires width > 0 && WellFormed(w) && FillingOk(f, width) && Joinable(f.line, w)
    ensures var g := BreakWord(w, width, f);
            FillingOk(g, width) && FillingPieces(g) == FillingPieces(f) + Pieces(w)
    decreases |w|
  {
    if w != [] {
      ChunkIsPiece(w);
      PlaceKeepsPieces(w, width, f);
      var n := Chunk(w);
      BreakKeepsPieces(w[n..], width, PlaceChunk(w[..n], StartsCsi(w), width, f));
      Reassociate(FillingPieces(f), [w[..n]], Pieces(w[n..]));
    }
  }

  lemma SpacedWord(line: Text, w: Text)
    requires WellFormed(line) && WellFormed(w)
    ensures WellFormed(line + [SPACE] + w)
    ensures Pieces(line + [SPACE] + w) == Pieces(line) + [[SPACE]] + Pieces(w)
    ensures Visible(line + [SPACE] + w) == Visible(line) + 1 + Visible(w)
  {
    PieceAlone([SPACE]);
    assert [SPACE][..1] == [SPACE];
    Concat(line, [SPACE]);
    Concat(line + [SPACE], w);
  }

  lemma FirstWordKeepsPieces(w: Text, width: nat, f: Filling)
    requires WellFormed(w) && FillingOk(f, width) && f.line == [] && Visible(w) <= width
    ensures FillingOk(AppendWord(w, f), width) && FillingPieces(AppendWord(w, f)) == FillingPieces(f) + Pieces(w)
  {
    assert Pieces([]) == [] && AllPieces(f.lines) + [] == AllPieces(f.lines);
  }

  lemma NextWordKeepsPieces(w: Text, width: nat, f: Filling)
    requires WellFormed(w) && FillingOk(f, width) && f.line != [] && f.width + 1 + Visible(w) <= width
    ensures FillingOk(AppendWord(w, f), width) && FillingPieces(AppendWord(w, f)) == FillingPieces(f) + [[SPACE]] + Pieces(w)
  {
    SpacedWord(f.line, w);
    Reassociate(AllPieces(f.lines), Pieces(f.line), [[SPACE]]);
    Reassociate(AllPieces(f.lines), Pieces(f.line) + [[SPACE]], Pieces(w));
  }

  lemma BlankIsNotSolid(ps: seq<Text>)
    ensures Solid(ps + [[SPACE]]) == Solid(ps)
  {
    SolidConcat(ps, [[SPACE]]);
    assert IsSpacePiece([SPACE]) && [[SPACE]][1..] == [];
    assert Solid([[SPACE]]) == [];
  }

  lemma AppendWordKeepsPieces(w: Text, width: nat, f: Filling)
    requires WellFormed(w) && FillingOk(f, width)
    requires f.line != [] ==> f.width + 1 + Visible(w) <= width
    requires Visible(w) <= width
    ensures var g := AppendWord(w, f);
            FillingOk(g, width) && Solid(FillingPieces(g)) == Solid(FillingPieces(f)) + Solid(Pieces(w))
  {
    if f.line == [] {
      FirstWordKeepsPieces(w, width, f);
      SolidConcat(FillingPieces(f), Pieces(w));
    } else {
      NextWordKeepsPieces(w, width, f);
      BlankIsNotSolid(FillingPieces(f));
      SolidConcat(FillingPieces(f) + [[SPACE]], Pieces(w));
    }
  }

  lemma AddWordKeepsPieces(w: Text, width: nat, f: Filling)
    requires width > 0 && WellFormed(w) && FillingOk(f, width)
    ensures var g := AddWord(w, width, f);
            FillingOk(g, width) && Solid(FillingPieces(g)) == Solid(FillingPieces(f)) + Solid(Pieces(w))
  {
    var full := f.line != [] && f.width + 1 + Visible(w) > width;
    var g := NextIf(full, f);
    NextKeepsPieces(full, f, width);
    if Visible(w) > width {
      BreakKeepsPieces(w, width, g);
      SolidConcat(FillingPieces(g), Pieces(w));
    } else {
      AppendWordKeepsPieces(w, width, g);
    }
  }

  lemma {:induction false} AddWordsKeepsPieces(ws: seq<Text>, width: nat, f: Filling)
    requires width > 0 && AllWellFormed(ws) && FillingOk(f, width)
    ensures var g := AddWords(ws, width, f);
            FillingOk(g, width) && Solid(FillingPieces(g)) == Solid(FillingPieces(f)) + Solid(AllPieces(ws))
    decreases |ws|
  {
    if ws != [] {
      var g := AddWord(ws[0], width, f);
      AddWordKeepsPieces(ws[0], width, f);
      AddWordsKeepsPieces(ws[1..], width, g);
      SolidConcat(Pieces(ws[0]), AllPieces(ws[1..]));
      Reassociate(Solid(FillingPieces(f)), Solid(Pieces(ws[0])), Solid(AllPieces(ws[1..])));
    }
  }

  /**
   Every line of a wrapped well-formed cell fits the width and is made of whole characters and whole
   escape sequences; line by line these are, whitespace aside, the pieces of the cell in order. Long
   words are broken, so the width holds whatever the text.
   */
  lemma WrapKeepsPiecesAndWidth(text: Text, width: nat)
    requires WellFormed(text)
    ensures var lines := Wrap(text, width);
            && AllWellFormed(lines)
            && Solid(AllPieces(lines)) == Solid(Pieces(text))
            && (width > 0 ==> forall i :: 0 <= i < |lines| ==> Visible(lines[i]) <= width)
  {
    if width > 0 {
      WordsAreWellFormed(text);
      AddWordsKeepsPieces(Words(text), width, Filling([], [], 0));
      LastLineKeepsPieces(AddWords(Words(text), width, Filling([], [], 0)), width);
    } else {
      assert [text][1..] == [];
      assert AllPieces([text]) == Pieces(text) + AllPieces([text][1..]) == Pieces(text);
    }
  }

  lemma LastLineKeepsPieces(f: Filling, width: nat)
    requires FillingOk(f, width)
    ensures var lines := if f.line != [] || f.lines == [] then f.lines + [f.line] else f.lines;
            && AllWellFormed(lines) && AllPieces(lines) == FillingPieces(f)
            && forall i :: 0 <= i < |lines| ==> Visible(lines[i]) <= width
  {
    AllPiecesAppend(f.lines, f.line);
  }

  // ----- No whitespace but blanks -----

  ghost predicate OnlyBlanks(s: Text) {
    forall i :: 0 <= i < |s| && IsSpace(s[i]) ==> s[i] == SPACE
  }

  ghost predicate FillingBlanks(f: Filling) {
    OnlyBlanks(f.line) && forall i :: 0 <= i < |f.lines| ==> OnlyBlanks(f.lines[i])
  }

  lemma {:induction false} BreakKeepsBlanks(w: Text, width: nat, f: Filling)
    requires Spaceless(w) && FillingBlanks(f)
    ensures FillingBlanks(BreakWord(w, width, f))
    decreases |w|
  {
    if w != [] {
      var n := Chunk(w);
      BreakKeepsBlanks(w[n..], width, PlaceChunk(w[..n], StartsCsi(w), width, f));
    }
  }

  lemma {:induction false} AddWordsKeepsBlanks(ws: seq<Text>, width: nat, f: Filling)
    requires (forall w :: w in ws ==> Spaceless(w)) && FillingBlanks(f)
    ensures FillingBlanks(AddWords(ws, width, f))
    decreases |ws|
  {
    if ws != [] {
      var w := ws[0];
      BreakKeepsBlanks(w, width, NextIf(f.line != [] && f.width + 1 + Visible(w) > width, f));
      AddWordsKeepsBlanks(ws[1..], width, AddWord(w, width, f));
    }
  }

  /** A wrapped line holds no line break, tab or other whitespace than blanks. */
  lemma WrapLeavesOnlyBlanks(text: Text, width: nat)
    requires width > 0
    ensures forall i :: 0 <= i < |Wrap(text, width)| ==> OnlyBlanks(Wrap(text, width)[i])
  {
    WordsAreTheText(text);
    AddWordsKeepsBlanks(Words(text), width, Filling([], [], 0));
  }

  // ----- Fewest lines -----

  function JoinWords(g: seq<Text>): Text {
    if g == [] then []
    else if |g| == 1 then g[0]
    else JoinWords(g[..|g| - 1]) + [SPACE] + g[|g| - 1]
  }

  /** Columns of the words of one line with one blank between neighbours. */
  function LineWidth(g: seq<Text>): nat {
    if g == [] then 0
    else if |g| == 1 then Visible(g[0])
    else LineWidth(g[..|g| - 1]) + 1 + Visible(g[|g| - 1])
  }

  /** An order-preserving distribution of the words over lines that all fit. */
  ghost predicate IsSplit(groups: seq<seq<Text>>, ws: seq<Text>, width: nat) {
    Flat(groups) == ws && forall i :: 0 <= i < |groups| ==> LineWidth(groups[i]) <= width
  }

  /** The greedy distribution, `g` being the words of the line being filled. */
  function Greedy(ws: seq<Text>, width: nat, g: seq<Text>): seq<seq<Text>>
    decreases |ws|
  {
    if ws == [] then [g]
    else if LineWidth(g) + 1 + Visible(ws[0]) <= width then Greedy(ws[1..], width, g + [ws[0]])
    else [g] + Greedy(ws[1..], width, [ws[0]])
  }

  /** Lines after the current one that the greedy rule needs when the current one is `c` columns wide. */
  function More(ws: seq<Text>, width: nat, c: nat): nat
    decreases |ws|
  {
    if ws == [] then 0
    else if c + 1 + Visible(ws[0]) <= width then More(ws[1..], width, c + 1 + Visible(ws[0]))
    else 1 + More(ws[1..], width, Visible(ws[0]))
  }

  predicate AllFit(ws: seq<Text>, width: nat) {
    forall i :: 0 <= i < |ws| ==> ws[i] != [] && Visible(ws[i]) <= width
  }

  lemma AppendToLine(g: seq<Text>, w: Text)
    requires g != []
    ensures JoinWords(g + [w]) == JoinWords(g) + [SPACE] + w
    ensures LineWidth(g + [w]) == LineWidth(g) + 1 + Visible(w)
  {
    assert (g + [w])[..|g|] == g;
  }

  lemma {:induction false} JoinWordsNonEmpty(g: seq<Text>)
    requires g != [] && g[0] != []
    ensures JoinWords(g) != []
  {
  }

  /** The columns of a line of well-formed words are its visible length. */
  lemma {:induction false} LineWidthIsVisible(g: seq<Text>)
    requires AllWellFormed(g)
    ensures WellFormed(JoinWords(g)) && Visible(JoinWords(g)) == LineWidth(g)
  {
    if |g| > 1 {
      LineWidthIsVisible(g[..|g| - 1]);
      SpacedWord(JoinWords(g[..|g| - 1]), g[|g| - 1]);
    }
  }

  lemma {:induction false} PartOfFlat(groups: seq<seq<Text>>, i: nat, ws: seq<Text>)
    requires i < |groups| && Flat(groups) == ws && AllWellFormed(ws)
    ensures AllWellFormed(groups[i])
    decreases |groups|
  {
    var rest := Flat(groups[1..]);
    if i == 0 {
      forall k | 0 <= k < |groups[0]| ensures WellFormed(groups[0][k]) {
        assert ws[k] == groups[0][k];
      }
    } else {
      forall k | 0 <= k < |rest| ensures WellFormed(rest[k]) {
        assert ws[|groups[0]| + k] == rest[k];
      }
      PartOfFlat(groups[1..], i - 1, rest);
    }
  }

  function Rendered(groups: seq<seq<Text>>): seq<Text> {
    if groups == [] then [] else [JoinWords(groups[0])] + Rendered(groups[1..])
  }

  lemma PrependLine(g: seq<Text>, tail: seq<seq<Text>>, ws: seq<Text>, width: nat)
    requires LineWidth(g) <= width && IsSplit(tail, ws, width)
    ensures IsSplit([g] + tail, g + ws, width)
  {
    assert ([g] + tail)[1..] == tail;
  }

  lemma {:induction false} GreedyIsASplit(ws: seq<Text>, width: nat, g: seq<Text>)
    requires g != [] && LineWidth(g) <= width && AllFit(ws, width)
    ensures IsSplit(Greedy(ws, width, g), g + ws, width)
    ensures |Greedy(ws, width, g)| == 1 + More(ws, width, LineWidth(g))
    decreases |ws|
  {
    if ws == [] {
      assert Flat([g]) == g + Flat([]);
    } else if LineWidth(g) + 1 + Visible(ws[0]) <= width {
      AppendToLine(g, ws[0]);
      GreedyIsASplit(ws[1..], width, g + [ws[0]]);
      assert g + [ws[0]] + ws[1..] == g + ws;
    } else {
      var tail := Greedy(ws[1..], width, [ws[0]]);
      GreedyIsASplit(ws[1..], width, [ws[0]]);
      assert [ws[0]] + ws[1..] == ws;
      PrependLine(g, tail, ws, width);
    }
  }

  /** Every line but the last has no room for the first word of the next. */
  ghost predicate NoRoomLeft(groups: seq<seq<Text>>, width: nat) {
    forall i :: 0 < i < |groups| ==> groups[i] != [] && LineWidth(groups[i - 1]) + 1 + Visible(groups[i][0]) > width
  }

  lemma {:induction false} GreedyFillsLines(ws: seq<Text>, width: nat, g: seq<Text>)
    requires g != []
    ensures var groups := Greedy(ws, width, g); NoRoomLeft(groups, width) && groups != [] && g <= groups[0]
    decreases |ws|
  {
    if ws != [] {
      if LineWidth(g) + 1 + Visible(ws[0]) <= width {
        GreedyFillsLines(ws[1..], width, g + [ws[0]]);
      } else {
        var tail := Greedy(ws[1..], width, [ws[0]]);
        GreedyFillsLines(ws[1..], width, [ws[0]]);
        var groups := [g] + tail;
        forall i | 0 < i < |groups| ensures groups[i] != [] && LineWidth(groups[i - 1]) + 1 + Visible(groups[i][0]) > width {
          assert groups[i] == tail[i - 1];
          if i > 1 {
            assert groups[i - 1] == tail[i - 2];
          } else {
            assert [ws[0]][0] == tail[0][0];
          }
        }
      }
    }
  }

  lemma AddFittingWord(w: Text, width: nat, lines: seq<Text>, g: seq<Text>)
    requires w != [] && Visible(w) <= width && g != [] && g[0] != []
    ensures var f := AddWord(w, width, Filling(lines, JoinWords(g), LineWidth(g)));
            if LineWidth(g) + 1 + Visible(w) <= width then
              f == Filling(lines, JoinWords(g + [w]), LineWidth(g + [w]))
            else
              f == Filling(lines + [JoinWords(g)], JoinWords([w]), LineWidth([w]))
  {
    JoinWordsNonEmpty(g);
    AppendToLine(g, w);
  }

  /** The wrapping loop builds exactly the greedy lines. */
  lemma {:induction false} WrapIsGreedy(ws: seq<Text>, width: nat, lines: seq<Text>, g: seq<Text>)
    requires AllFit(ws, width) && g != [] && g[0] != []
    ensures var f := AddWords(ws, width, Filling(lines, JoinWords(g), LineWidth(g)));
            f.line != [] && f.lines + [f.line] == lines + Rendered(Greedy(ws, width, g))
    decreases |ws|
  {
    JoinWordsNonEmpty(g);
    if ws == [] {
      assert [g][1..] == [];
      assert Rendered([g]) == [JoinWords(g)] + Rendered([g][1..]) == [JoinWords(g)];
    } else {
      AddFittingWord(ws[0], width, lines, g);
      if LineWidth(g) + 1 + Visible(ws[0]) <= width {
        assert (g + [ws[0]])[0] == g[0];
        WrapIsGreedy(ws[1..], width, lines, g + [ws[0]]);
      } else {
        WrapIsGreedy(ws[1..], width, lines + [JoinWords(g)], [ws[0]]);
        var tail := Greedy(ws[1..], width, [ws[0]]);
        assert ([g] + tail)[1..] == tail;
        Reassociate(lines, [JoinWords(g)], Rendered(tail));
      }
    }
  }

  /** A fuller current line never helps, and costs at most one line. */
  lemma {:induction false} MoreIsMonotone(ws: seq<Text>, width: nat, c: nat, d: nat)
    requires c <= d
    ensures More(ws, width, c) <= More(ws, width, d) <= More(ws, width, c) + 1
    decreases |ws|
  {
    if ws != [] {
      var v := Visible(ws[0]);
      if d + 1 + v <= width {
        MoreIsMonotone(ws[1..], width, c + 1 + v, d + 1 + v);
      } else if c + 1 + v <= width {
        MoreIsMonotone(ws[1..], width, v, c + 1 + v);
      }
    }
  }

  lemma {:induction false} LineWidthFront(g: seq<Text>, k: nat)
    requires 0 < k <= |g|
    ensures LineWidth(g[..k]) <= LineWidth(g)
    decreases |g|
  {
    if k < |g| {
      LineWidthFront(g[..|g| - 1], k);
      assert g[..|g| - 1][..k] == g[..k];
    } else {
      assert g[..k] == g;
    }
  }

  /** Words that share a fitting line need no further line. */
  lemma {:induction false} MoreOverALine(g: seq<Text>, k: nat, rest: seq<Text>, width: nat)
    requires 0 < k <= |g| && LineWidth(g) <= width
    ensures More(g[k..] + rest, width, LineWidth(g[..k])) == More(rest, width, LineWidth(g))
    decreases |g| - k
  {
    if k == |g| {
      assert g[k..] + rest == rest && g[..k] == g;
    } else {
      var all := g[k..] + rest;
      assert all[0] == g[k] && all[1..] == g[k + 1..] + rest;
      assert g[..k + 1] == g[..k] + [g[k]];
      AppendToLine(g[..k], g[k]);
      LineWidthFront(g, k + 1);
      MoreOverALine(g, k + 1, rest, width);
    }
  }

  /** Greedy stays ahead of every other split. */
  lemma {:induction false} GreedyStaysAhead(ws: seq<Text>, groups: seq<seq<Text>>, width: nat)
    requires ws != [] && IsSplit(groups, ws, width)
    ensures 1 + More(ws[1..], width, Visible(ws[0])) <= |groups|
    decreases |groups|
  {
    var g, others := groups[0], groups[1..];
    var rest := Flat(others);
    assert forall i :: 0 <= i < |others| ==> others[i] == groups[i + 1];
    if g == [] {
      assert ws == rest;
      GreedyStaysAhead(ws, others, width);
    } else {
      assert ws == g + rest && ws[0] == g[0] && ws[1..] == g[1..] + rest;
      assert g[..1] == [g[0]];
      MoreOverALine(g, 1, rest, width);
      if rest != [] {
        GreedyStaysAhead(rest, others, width);
        MoreIsMonotone(rest[1..], width, Visible(rest[0]), LineWidth(g) + 1 + Visible(rest[0]));
      }
    }
  }

  /**
   When every word fits, the lines are a distribution of the words over fitting lines, one blank
   between words; no other such distribution has fewer lines, and every line takes all words that have room
   on it. In a well-formed text the width of a line in any distribution is its visible length.
   */
  lemma WrapUsesFewestLines(text: Text, width: nat) returns (groups: seq<seq<Text>>)
    requires width > 0 && Words(text) != [] && AllFit(Words(text), width)
    ensures IsSplit(groups, Words(text), width)
    ensures Wrap(text, width) == Rendered(groups) && |Wrap(text, width)| == |groups| && NoRoomLeft(groups, width)
    ensures forall other :: IsSplit(other, Words(text), width) ==> |groups| <= |other|
    ensures WellFormed(text) ==> forall other, i :: IsSplit(other, Words(text), width) && 0 <= i < |other| ==>
              WellFormed(JoinWords(other[i])) && Visible(JoinWords(other[i])) == LineWidth(other[i]) <= width
  {
    var ws := Words(text);
    if WellFormed(text) {
      WordsAreWellFormed(text);
      forall other, i | IsSplit(other, ws, width) && 0 <= i < |other|
        ensures WellFormed(JoinWords(other[i])) && Visible(JoinWords(other[i])) == LineWidth(other[i]) <= width
      {
        PartOfFlat(other, i, ws);
        LineWidthIsVisible(other[i]);
      }
    }
    groups := Greedy(ws[1..], width, [ws[0]]);
    GreedyIsASplit(ws[1..], width, [ws[0]]);
    GreedyFillsLines(ws[1..], width, [ws[0]]);
    assert [ws[0]] + ws[1..] == ws;
    assert AddWord(ws[0], width, Filling([], [], 0)) == Filling([], JoinWords([ws[0]]), LineWidth([ws[0]]));
    WrapIsGreedy(ws[1..], width, [], [ws[0]]);
    RenderedLength(groups);
    forall other | IsSplit(other, ws, width) ensures |groups| <= |other| {
      GreedyStaysAhead(ws, other, width);
    }
  }

  lemma {:induction false} RenderedLength(groups: seq<seq<Text>>)
    ensures |Rendered(groups)| == |groups|
  {
    if groups != [] {
      RenderedLength(groups[1..]);
    }
  }
}
