/** The greedy wrapping of one table cell (markdown/renderer.cpp). */
module WrapCell {
  import opened Basics
  import opened Utf8
  import opened VisibleText


  /** The index of the first whitespace byte at or after `i`, or the end. */
  function WordEnd(s: Text, i: nat): (k: nat)
    requires i <= |s|
    ensures i <= k <= |s|
    ensures k < |s| ==> IsSpace(s[k])
    ensures forall j :: i <= j < k ==> !IsSpace(s[j])
    decreases |s| - i
  {
    if i == |s| || IsSpace(s[i]) then i else WordEnd(s, i + 1)
  }

  /** The words that `stream >> word` reads. */
  function Words(s: Text): seq<Text>
    decreases |s|
  {
    if s == [] then []
    else if IsSpace(s[0]) then Words(s[1..])
    else [s[..WordEnd(s, 0)]] + Words(s[WordEnd(s, 0)..])
  }

  /** The bytes of a character as the code reads them off its first byte. */
  function LeadLen(b: byte): nat {
    if 0xC0 <= b < 0xE0 then 2 else if 0xE0 <= b < 0xF0 then 3 else if 0xF0 <= b < 0xF8 then 4 else 1
  }

  /** The ranges of LeadLen are the code's bit tests, tried in its order. */
  lemma LeadLenIsMasks(v: bv8)
    ensures LeadLen(v as int)
         == if v & 0xE0 == 0xC0 then 2 else if v & 0xF0 == 0xE0 then 3 else if v & 0xF8 == 0xF0 then 4 else 1
  {
    RangesOfMasks(v);
  }

  /** How many bytes the breaking loop moves at once. */
  function Chunk(w: Text): (n: nat)
    requires w != []
    ensures 1 <= n <= |w|
  {
    if StartsCsi(w) then Min(FinalAt(w, 2) + 1, |w|) else Min(LeadLen(w[0]), |w|)
  }

  /** Lines completed so far, the line being filled, and its width. */
  datatype Filling = Filling(lines: seq<Text>, line: Text, width: nat)

  /** The line is finished when there is no room. */
  function NextIf(full: bool, f: Filling): Filling {
    if full then Filling(f.lines + [f.line], [], 0) else f
  }

  /** An escape sequence joins the line as it is; a character takes a column of a line with room. */
  function PlaceChunk(chunk: Text, escape: bool, width: nat, f: Filling): Filling {
    var g := NextIf(!escape && f.width + 1 > width && f.line != [], f);
    Filling(g.lines, g.line + chunk, g.width + if escape then 0 else 1)
  }

  function BreakWord(w: Text, width: nat, f: Filling): Filling
    decreases |w|
  {
    if w == [] then f
    else BreakWord(w[Chunk(w)..], width, PlaceChunk(w[..Chunk(w)], StartsCsi(w), width, f))
  }

  function AppendWord(w: Text, f: Filling): Filling {
    if f.line != [] then Filling(f.lines, f.line + [SPACE] + w, f.width + 1 + Visible(w))
    else Filling(f.lines, w, f.width + Visible(w))
  }

  function AddWord(w: Text, width: nat, f: Filling): Filling {
    var g := NextIf(f.line != [] && f.width + 1 + Visible(w) > width, f);
    if Visible(w) > width then BreakWord(w, width, g) else AppendWord(w, g)
  }

  function AddWords(ws: seq<Text>, width: nat, f: Filling): Filling
    decreases |ws|
  {
    if ws == [] then f else AddWords(ws[1..], width, AddWord(ws[0], width, f))
  }

  function Wrap(text: Text, width: nat): (lines: seq<Text>)
    ensures |lines| >= 1
  {
    if width == 0 then [text]
    else
      var f := AddWords(Words(text), width, Filling([], [], 0));
      if f.line != [] || f.lines == [] then f.lines + [f.line] else f.lines
  }

  // ----- The loops of the code -----

  lemma BreakStep(w: Text, i: nat, j: nat, width: nat, f: Filling, g: Filling)
    requires i < j <= |w| && j == i + Chunk(w[i..]) && g == PlaceChunk(w[i..j], StartsCsi(w[i..]), width, f)
    ensures BreakWord(w[j..], width, g) == BreakWord(w[i..], width, f)
  {
    assert w[i..][..j - i] == w[i..j] && w[i..][j - i..] == w[j..];
  }

  /** The inner scan over an escape sequence. */
  method SkipEscape(w: Text, start: nat) returns (i: nat)
    requires start < |w| && StartsCsi(w[start..])
    ensures i == start + Chunk(w[start..])
  {
    i := start + 2;
    while i < |w| && !IsFinal(w[i])
      invariant start + 2 <= i <= |w|
      invariant FinalAt(w[start..], 2) == FinalAt(w[start..], i - start)
    {
      i := i + 1;
    }
    if i < |w| {
      i := i + 1;
    }
  }

  /** One round of the breaking loop: the next escape sequence or character finds its line. */
  method PlaceNext(w: Text, i: nat, width: nat, f: Filling) returns (j: nat, g: Filling)
    requires i < |w|
    ensures i < j <= |w| && BreakWord(w[j..], width, g) == BreakWord(w[i..], width, f)
  {
    g := f;
    if w[i] == ESC && i + 1 < |w| && w[i + 1] == BRACKET {
      j := SkipEscape(w, i);
      g := g.(line := g.line + w[i..j]);
    } else {
      j := i + Min(LeadLen(w[i]), |w| - i);
      if g.width + 1 > width && g.line != [] {
        g := Filling(g.lines + [g.line], [], 0);
      }
      g := Filling(g.lines, g.line + w[i..j], g.width + 1);
    }
    BreakStep(w, i, j, width, f, g);
  }

  method BreakLongWord(w: Text, width: nat, f0: Filling) returns (f: Filling)
    ensures f == BreakWord(w, width, f0)
  {
    f := f0;
    var i := 0;
    while i < |w|
      invariant i <= |w|
      invariant BreakWord(w[i..], width, f) == BreakWord(w, width, f0)
    {
      i, f := PlaceNext(w, i, width, f);
    }
    assert w[i..] == [];
  }

  method WrapLines(text: Text, width: nat) returns (lines: seq<Text>)
    ensures lines == Wrap(text, width)
  {
    if width == 0 {
      return [text];
    }
    var f := Filling([], [], 0);
    var pos := 0;
    while pos < |text|
      invariant pos <= |text|
      invariant AddWords(Words(text[pos..]), width, f) == AddWords(Words(text), width, Filling([], [], 0))
    {
      ghost var rest := text[pos..];
      if IsSpace(text[pos]) {
        assert rest[1..] == text[pos + 1..];
        pos := pos + 1;
      } else {
        var start := pos;
        while pos < |text| && !IsSpace(text[pos])
          invariant start <= pos <= |text|
          invariant WordEnd(rest, 0) == WordEnd(rest, pos - start)
        {
          pos := pos + 1;
        }
        var word := text[start..pos];
        assert WordEnd(rest, 0) == pos - start && rest[..pos - start] == word && rest[pos - start..] == text[pos..];
        assert Words(rest)[0] == word && Words(rest)[1..] == Words(text[pos..]);
        var wordWidth := VisibleLength(word);
        ghost var before := f;
        if f.line != [] && f.width + 1 + wordWidth > width {
          f := Filling(f.lines + [f.line], [], 0);
        }
        if wordWidth > width {
          f := BreakLongWord(word, width, f);
        } else {
          if f.line != [] {
            f := f.(line := f.line + [SPACE], width := f.width + 1);
          }
          assert [] + word == word;
          f := f.(line := f.line + word, width := f.width + wordWidth);
        }
        assert f == AddWord(word, width, before);
      }
    }
    assert text[pos..] == [];
    lines := f.lines;
    if f.line != [] || lines == [] {
      lines := lines + [f.line];
    }
  }
}
