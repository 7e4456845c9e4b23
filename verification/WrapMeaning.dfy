/**
 Wrapping said of the text: what its words are, how a word longer than the width is broken, and how texts
 around such a word are wrapped. With WrapUsesFewestLines this fixes every wrapping of a well-formed text.
 */
module WrapMeaning {
  import opened Basics
  import opened Utf8
  import opened VisibleText
  import opened WrapCell
  import opened WrapCellProofs

  const NEW: Filling := Filling([], [], 0)

  // ----- Words -----

  /** Blank, tab, line end, vertical tab, form feed and carriage return. */
  predicate White(b: byte) {
    b == 0x20 || 9 <= b <= 13
  }

  predicate Blank(gap: Text) {
    forall i :: 0 <= i < |gap| ==> White(gap[i])
  }

  predicate IsWord(w: Text) {
    w != [] && forall i :: 0 <= i < |w| ==> !White(w[i])
  }

  /** The first gap, the first word, the next gap and so on, and the last gap. */
  function Spaced(gaps: seq<Text>, words: seq<Text>): Text
    requires |gaps| == |words| + 1
  {
    if words == [] then gaps[0] else gaps[0] + words[0] + Spaced(gaps[1..], words[1..])
  }

  /** Whitespace, and at least one byte of it between two words; the first gap is empty only before a text that starts with a word. */
  ghost predicate AreGaps(gaps: seq<Text>, s: Text) {
    && |gaps| > 0 && (forall i :: 0 <= i < |gaps| ==> Blank(gaps[i])) && (forall i :: 0 < i < |gaps| - 1 ==> gaps[i] != [])
    && (s != [] ==> (gaps[0] == [] <==> !White(s[0])))
  }

  lemma GapsAfterWord(s: Text, k: nat, rest: seq<Text>)
    requires 0 < k <= |s| && !IsSpace(s[0]) && (k < |s| ==> IsSpace(s[k])) && AreGaps(rest, s[k..]) && (k == |s| ==> |rest| == 1)
    ensures AreGaps([[]] + rest, s)
  {
    var gaps := [[]] + rest;
    forall i | 0 <= i < |gaps| ensures Blank(gaps[i]) && (0 < i < |gaps| - 1 ==> gaps[i] != []) {
      if i > 0 {
        assert gaps[i] == rest[i - 1];
      }
    }
  }

  lemma GapsAfterSpace(s: Text, rest: seq<Text>)
    requires s != [] && IsSpace(s[0]) && AreGaps(rest, s[1..])
    ensures AreGaps([[s[0]] + rest[0]] + rest[1..], s)
  {
    var gaps := [[s[0]] + rest[0]] + rest[1..];
    forall i | 0 <= i < |gaps| ensures Blank(gaps[i]) && (0 < i < |gaps| - 1 ==> gaps[i] != []) {
      if i > 0 {
        assert gaps[i] == rest[i];
      }
    }
  }

  /** The words stand in the text with whitespace around, at least one byte of it between any two. */
  lemma {:induction false} WordsStandInTheText(s: Text) returns (gaps: seq<Text>)
    ensures |gaps| == |Words(s)| + 1 && s == Spaced(gaps, Words(s)) && AreGaps(gaps, s)
    ensures forall i :: 0 <= i < |Words(s)| ==> IsWord(Words(s)[i])
    decreases |s|
  {
    if s == [] {
      gaps := [[]];
    } else if IsSpace(s[0]) {
      var rest := WordsStandInTheText(s[1..]);
      gaps := [[s[0]] + rest[0]] + rest[1..];
      GapsAfterSpace(s, rest);
      WiderGap(s[0], rest, Words(s));
    } else {
      var k := WordEnd(s, 0);
      var rest := WordsStandInTheText(s[k..]);
      gaps := [[]] + rest;
      GapsAfterWord(s, k, rest);
      assert gaps[1..] == rest && Words(s)[1..] == Words(s[k..]);
      assert s == [] + s[..k] + s[k..];
    }
  }

  lemma WiderGap(c: byte, gaps: seq<Text>, words: seq<Text>)
    requires |gaps| == |words| + 1
    ensures Spaced([[c] + gaps[0]] + gaps[1..], words) == [c] + Spaced(gaps, words)
  {
    var wider := [[c] + gaps[0]] + gaps[1..];
    assert wider[1..] == gaps[1..];
  }

  lemma {:induction false} WordsOfBoth(a: Text, b: Text)
    ensures Words(a + [SPACE] + b) == Words(a) + Words(b)
    decreases |a|
  {
    var s := a + [SPACE] + b;
    if a == [] {
      assert s[1..] == b;
    } else if IsSpace(a[0]) {
      assert s[1..] == a[1..] + [SPACE] + b;
      WordsOfBoth(a[1..], b);
    } else {
      var k := WordEnd(a, 0);
      assert forall j :: 0 <= j < |a| ==> s[j] == a[j];
      assert IsSpace(s[k]);
      assert WordEnd(s, 0) == k && s[..k] == a[..k];
      assert s[k..] == a[k..] + [SPACE] + b;
      WordsOfBoth(a[k..], b);
      Reassociate([a[..k]], Words(a[k..]), Words(b));
    }
  }

  lemma OneWord(w: Text)
    requires w != [] && Spaceless(w)
    ensures Words(w) == [w]
  {
    assert WordEnd(w, 0) == |w| && w[..|w|] == w && w[|w|..] == [];
  }

  // ----- Lines in front do not matter -----

  function Behind(lines: seq<Text>, f: Filling): Filling {
    Filling(lines + f.lines, f.line, f.width)
  }

  lemma {:induction false} BreakBehind(lines: seq<Text>, w: Text, width: nat, f: Filling)
    ensures BreakWord(w, width, Behind(lines, f)) == Behind(lines, BreakWord(w, width, f))
    decreases |w|
  {
    if w != [] {
      var n := Chunk(w);
      Reassociate(lines, f.lines, [f.line]);
      BreakBehind(lines, w[n..], width, PlaceChunk(w[..n], StartsCsi(w), width, f));
    }
  }

  lemma AddBehind(lines: seq<Text>, w: Text, width: nat, f: Filling)
    ensures AddWord(w, width, Behind(lines, f)) == Behind(lines, AddWord(w, width, f))
  {
    var full := f.line != [] && f.width + 1 + Visible(w) > width;
    Reassociate(lines, f.lines, [f.line]);
    assert NextIf(full, Behind(lines, f)) == Behind(lines, NextIf(full, f));
    BreakBehind(lines, w, width, NextIf(full, f));
  }

  lemma {:induction false} WordsBehind(lines: seq<Text>, ws: seq<Text>, width: nat, f: Filling)
    ensures AddWords(ws, width, Behind(lines, f)) == Behind(lines, AddWords(ws, width, f))
    decreases |ws|
  {
    if ws != [] {
      AddBehind(lines, ws[0], width, f);
      WordsBehind(lines, ws[1..], width, AddWord(ws[0], width, f));
    }
  }

  lemma {:induction false} WordsInTurn(a: seq<Text>, b: seq<Text>, width: nat, f: Filling)
    ensures AddWords(a + b, width, f) == AddWords(b, width, AddWords(a, width, f))
    decreases |a|
  {
    if a == [] {
      assert a + b == b;
    } else {
      assert (a + b)[1..] == a[1..] + b;
      WordsInTurn(a[1..], b, width, AddWord(a[0], width, f));
    }
  }

  // ----- A line with a word is not empty -----

  lemma {:induction false} BreakLeavesALine(w: Text, width: nat, f: Filling)
    requires w != [] || f.line != []
    ensures BreakWord(w, width, f).line != []
    decreases |w|
  {
    if w != [] {
      var n := Chunk(w);
      BreakLeavesALine(w[n..], width, PlaceChunk(w[..n], StartsCsi(w), width, f));
    }
  }

  lemma {:induction false} WordsLeaveALine(ws: seq<Text>, width: nat, f: Filling)
    requires (ws != [] || f.line != []) && forall i :: 0 <= i < |ws| ==> ws[i] != []
    ensures AddWords(ws, width, f).line != []
    decreases |ws|
  {
    if ws != [] {
      var w := ws[0];
      BreakLeavesALine(w, width, NextIf(f.line != [] && f.width + 1 + Visible(w) > width, f));
      WordsLeaveALine(ws[1..], width, AddWord(w, width, f));
    }
  }

  lemma WrapsTo(text: Text, width: nat)
    requires width > 0 && Words(text) != []
    ensures var f := AddWords(Words(text), width, NEW); f.line != [] && Wrap(text, width) == f.lines + [f.line]
  {
    WordsAreTheText(text);
    assert forall i :: 0 <= i < |Words(text)| ==> Words(text)[i] in Words(text);
    WordsLeaveALine(Words(text), width, NEW);
  }

  // ----- A word longer than the width -----

  lemma LongWordInFront(b: Text, width: nat, f: Filling)
    requires Words(b) != [] && Visible(Words(b)[0]) > width && f.line != []
    ensures AddWords(Words(b), width, f) == Behind(f.lines + [f.line], AddWords(Words(b), width, NEW))
  {
    var w, before := Words(b)[0], f.lines + [f.line];
    assert before + [] == before;
    assert Behind(before, NEW) == Filling(before, [], 0);
    AddBehind(before, w, width, NEW);
    WordsBehind(before, Words(b)[1..], width, AddWord(w, width, NEW));
  }

  /** A word longer than the width opens a line, whatever stands before and behind it. */
  lemma LongWordOpensALine(a: Text, b: Text, width: nat)
    requires width > 0 && Words(a) != [] && Words(b) != [] && Visible(Words(b)[0]) > width
    ensures Wrap(a + [SPACE] + b, width) == Wrap(a, width) + Wrap(b, width)
  {
    WordsOfBoth(a, b);
    WordsInTurn(Words(a), Words(b), width, NEW);
    WrapsTo(a, width);
    WrapsTo(b, width);
    WrapsTo(a + [SPACE] + b, width);
    var f, g := AddWords(Words(a), width, NEW), AddWords(Words(b), width, NEW);
    LongWordInFront(b, width, f);
    Reassociate(f.lines + [f.line], g.lines, [g.line]);
  }

  /** Full lines, each but the first starting with a character. */
  ghost predicate FullLines(lines: seq<Text>, width: nat) {
    && (forall i :: 0 <= i < |lines| ==> Visible(lines[i]) == width)
    && (forall i :: 1 <= i < |lines| ==> !StartsCsi(lines[i]))
  }

  ghost predicate Filled(f: Filling, width: nat) {
    FullLines(f.lines, width) && (f.lines != [] ==> f.line != [] && !StartsCsi(f.line))
  }

  lemma LineStaysPlain(line: Text, p: Text)
    requires line != [] && !StartsCsi(line) && Joinable(line, p)
    ensures !StartsCsi(line + p)
  {
  }

  lemma PlaceKeepsFilled(w: Text, width: nat, f: Filling)
    requires width > 0 && PieceLen(w) > 0 && FillingOk(f, width) && Joinable(f.line, w) && Filled(f, width)
    ensures Filled(PlaceChunk(w[..PieceLen(w)], StartsCsi(w), width, f), width)
  {
    var p := w[..PieceLen(w)];
    if !StartsCsi(w) && f.width + 1 > width && f.line != [] {
      assert FullLines(f.lines + [f.line], width);
      assert [] + p == p && !StartsCsi(p);
    } else if f.lines != [] {
      LineStaysPlain(f.line, p);
    }
  }

  lemma {:induction false} BreakFillsLines(w: Text, width: nat, f: Filling)
    requires width > 0 && WellFormed(w) && FillingOk(f, width) && Joinable(f.line, w) && Filled(f, width)
    ensures Filled(BreakWord(w, width, f), width)
    decreases |w|
  {
    if w != [] {
      ChunkIsPiece(w);
      PlaceKeepsPieces(w, width, f);
      PlaceKeepsFilled(w, width, f);
      var n := Chunk(w);
      BreakFillsLines(w[n..], width, PlaceChunk(w[..n], StartsCsi(w), width, f));
    }
  }

  lemma WordAlone(w: Text, width: nat)
    requires width > 0 && w != [] && WellFormed(w)
    ensures var f := AddWord(w, width, NEW);
            Filled(f, width) && Held(f) == w && FillingOk(f, width) && f.line != []
  {
    if Visible(w) > width {
      BreakKeepsBytes(w, width, NEW);
      BreakFillsLines(w, width, NEW);
      BreakKeepsPieces(w, width, NEW);
      BreakLeavesALine(w, width, NEW);
      assert Held(NEW) + w == w;
    } else {
      assert [] + w == w;
    }
  }

  lemma WordWrapsAlone(w: Text, width: nat)
    requires width > 0 && w != [] && Spaceless(w)
    ensures Words(w) == [w] && AddWords(Words(w), width, NEW) == AddWord(w, width, NEW)
    ensures var f := AddWord(w, width, NEW); Wrap(w, width) == f.lines + [f.line]
  {
    OneWord(w);
    WrapsTo(w, width);
    assert [w][1..] == [];
  }

  /**
   A word is cut into lines that together are the word: every line but the last is exactly as wide as the
   column, and a line is opened by a character, never by an escape sequence.
   */
  lemma WordFillsItsLines(w: Text, width: nat)
    requires width > 0 && w != [] && WellFormed(w) && Spaceless(w)
    ensures var lines := Wrap(w, width);
            && Flat(lines) == w && lines[|lines| - 1] != [] && Visible(lines[|lines| - 1]) <= width
            && FullLines(lines[..|lines| - 1], width) && (|lines| > 1 ==> !StartsCsi(lines[|lines| - 1]))
  {
    var f := AddWord(w, width, NEW);
    WordAlone(w, width);
    WordWrapsAlone(w, width);
    FlatAppend(f.lines, f.line);
    assert (f.lines + [f.line])[..|f.lines|] == f.lines;
  }

  lemma RestIsSpaceless(a: Text, b: Text)
    requires Spaceless(a + b)
    ensures Spaceless(b)
  {
    forall i | 0 <= i < |b| ensures !IsSpace(b[i]) {
      assert b[i] == (a + b)[|a| + i];
    }
  }

  lemma LastPieceOfWord(w: Text, width: nat)
    requires width > 0 && w != [] && WellFormed(w) && Spaceless(w)
    ensures var f := AddWord(w, width, NEW);
            && f.line != [] && Words(f.line) == [f.line]
            && f == Behind(f.lines, AddWord(f.line, width, NEW))
  {
    var f := AddWord(w, width, NEW);
    WordAlone(w, width);
    RestIsSpaceless(Flat(f.lines), f.line);
    OneWord(f.line);
    assert f.lines + [] == f.lines;
  }

  /** What follows a word is wrapped as if only the word's last line stood before it. */
  lemma WordIsContinued(w: Text, rest: Text, width: nat)
    requires width > 0 && w != [] && WellFormed(w) && Spaceless(w)
    ensures var lines := Wrap(w, width);
            var n := |lines| - 1;
            Wrap(w + [SPACE] + rest, width) == lines[..n] + Wrap(lines[n] + [SPACE] + rest, width)
  {
    var f := AddWord(w, width, NEW);
    WordWrapsAlone(w, width);
    LastPieceOfWord(w, width);
    assert (f.lines + [f.line])[..|f.lines|] == f.lines;
    FirstWord(w, rest, width);
    FirstWord(f.line, rest, width);
    var g := AddWords(Words(rest), width, AddWord(f.line, width, NEW));
    WordsBehind(f.lines, Words(rest), width, AddWord(f.line, width, NEW));
    Reassociate(f.lines, g.lines, [g.line]);
  }

  lemma FirstWord(w: Text, rest: Text, width: nat)
    requires width > 0 && Words(w) == [w]
    ensures var g := AddWords(Words(rest), width, AddWord(w, width, NEW)); Wrap(w + [SPACE] + rest, width) == g.lines + [g.line]
  {
    WordsOfBoth(w, rest);
    WrapsTo(w + [SPACE] + rest, width);
    var all := [w] + Words(rest);
    assert all[0] == w && all[1..] == Words(rest);
  }
}
