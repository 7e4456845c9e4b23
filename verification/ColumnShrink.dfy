/** The greedy shrinking of table columns (markdown/renderer.cpp). */
module ColumnShrink {
  import opened Basics

  const MIN_WIDTH := 5

  function Sum(ws: seq<nat>): nat {
    if ws == [] then 0 else ws[0] + Sum(ws[1..])
  }

  /** The columns of a line: the left border, and per column its width, two blanks and a border. */
  function TotalWidth(ws: seq<nat>): nat {
    if ws == [] then 1 else ws[0] + 3 + TotalWidth(ws[1..])
  }

  lemma {:induction false} TotalIsSum(ws: seq<nat>)
    ensures TotalWidth(ws) == 1 + Sum(ws) + 3 * |ws|
  {
    if ws != [] {
      TotalIsSum(ws[1..]);
    }
  }

  lemma {:induction false} SumUpdate(ws: seq<nat>, i: nat, w: nat)
    requires i < |ws|
    ensures Sum(ws[i := w]) + ws[i] == Sum(ws) + w
  {
    if i == 0 {
      assert ws[i := w][1..] == ws[1..];
    } else {
      assert ws[i := w][1..] == ws[1..][i - 1 := w];
      SumUpdate(ws[1..], i - 1, w);
    }
  }

  /** The widest of the first `n` columns, the leftmost among equals. */
  function WidestOf(ws: seq<nat>, n: nat): (k: nat)
    requires 1 <= n <= |ws|
    ensures k < n
    ensures forall j :: 0 <= j < n ==> ws[j] <= ws[k]
    ensures forall j :: 0 <= j < k ==> ws[j] < ws[k]
  {
    if n == 1 then 0
    else
      var k := WidestOf(ws, n - 1);
      if ws[n - 1] > ws[k] then n - 1 else k
  }

  function Shrunk(ws: seq<nat>, maxWidth: nat): (r: seq<nat>)
    ensures |r| == |ws|
    decreases Sum(ws)
  {
    if ws == [] || TotalWidth(ws) <= maxWidth then ws
    else
      var k := WidestOf(ws, |ws|);
      if ws[k] <= MIN_WIDTH then ws
      else
        SumUpdate(ws, k, ws[k] - 1);
        Shrunk(ws[k := ws[k] - 1], maxWidth)
  }

  /** A limit of 0 means no limit. */
  function FinalWidths(ws: seq<nat>, maxWidth: nat): (r: seq<nat>)
    ensures |r| == |ws|
  {
    if maxWidth > 0 then Shrunk(ws, maxWidth) else ws
  }

  // ----- The loops of the code, on the widths in place -----

  method AddUp(widths: array<nat>) returns (total: nat)
    ensures total == TotalWidth(widths[..])
  {
    total := 1;
    for i := 0 to widths.Length
      invariant total + TotalWidth(widths[i..]) == 1 + TotalWidth(widths[..])
    {
      total := total + widths[i] + 3;
    }
  }

  method FindWidest(widths: array<nat>) returns (widest: nat)
    requires widths.Length > 0
    ensures widest == WidestOf(widths[..], widths.Length)
  {
    widest := 0;
    for i := 1 to widths.Length
      invariant widest < widths.Length
      invariant widest == WidestOf(widths[..], i)
    {
      if widths[i] > widths[widest] {
        widest := i;
      }
    }
  }

  lemma NarrowOne(ws: seq<nat>)
    requires ws != [] && ws[WidestOf(ws, |ws|)] > 0
    ensures var k := WidestOf(ws, |ws|); TotalWidth(ws[k := ws[k] - 1]) == TotalWidth(ws) - 1
  {
    var k := WidestOf(ws, |ws|);
    SumUpdate(ws, k, ws[k] - 1);
    TotalIsSum(ws);
    TotalIsSum(ws[k := ws[k] - 1]);
  }

  lemma ShrunkNext(ws: seq<nat>, maxWidth: nat, k: nat)
    requires ws != [] && TotalWidth(ws) > maxWidth && k == WidestOf(ws, |ws|) && ws[k] > MIN_WIDTH
    ensures Shrunk(ws[k := ws[k] - 1], maxWidth) == Shrunk(ws, maxWidth)
    ensures TotalWidth(ws[k := ws[k] - 1]) == TotalWidth(ws) - 1
  {
    NarrowOne(ws);
  }

  method ShrinkColumns(widths: array<nat>, maxWidth: nat) returns (total: nat)
    requires widths.Length > 0
    modifies widths
    ensures widths[..] == FinalWidths(old(widths[..]), maxWidth)
    ensures total == TotalWidth(widths[..])
  {
    total := AddUp(widths);
    if maxWidth > 0 && total > maxWidth {
      while total > maxWidth
        invariant total == TotalWidth(widths[..])
        invariant Shrunk(widths[..], maxWidth) == Shrunk(old(widths[..]), maxWidth)
        decreases total
      {
        var widest := FindWidest(widths);
        if widths[widest] <= MIN_WIDTH {
          break;
        }
        ghost var before := widths[..];
        ShrunkNext(before, maxWidth, widest);
        widths[widest] := widths[widest] - 1;
        assert widths[..] == before[widest := before[widest] - 1];
        total := total - 1;
      }
    }
  }

  // ----- What shrinking keeps -----

  function MaxOf(ws: seq<nat>): nat {
    if ws == [] then 0 else ws[WidestOf(ws, |ws|)]
  }

  /** `ws` came from `original` by taking single columns off widest columns. */
  ghost predicate ShrunkFrom(original: seq<nat>, ws: seq<nat>) {
    && |ws| == |original|
    && (forall i :: 0 <= i < |ws| ==> Min(original[i], MIN_WIDTH) <= ws[i] <= original[i])
    && (forall i :: 0 <= i < |ws| && ws[i] < original[i] ==> MaxOf(ws) <= ws[i] + 1)
  }

  lemma ShrinkStep(original: seq<nat>, ws: seq<nat>)
    requires ws != [] && ShrunkFrom(original, ws) && ws[WidestOf(ws, |ws|)] > MIN_WIDTH
    ensures var k := WidestOf(ws, |ws|); ShrunkFrom(original, ws[k := ws[k] - 1])
  {
    var k := WidestOf(ws, |ws|);
    var next := ws[k := ws[k] - 1];
    assert MaxOf(next) <= MaxOf(ws);
  }

  lemma {:induction false} ShrunkKeeps(original: seq<nat>, ws: seq<nat>, maxWidth: nat)
    requires ShrunkFrom(original, ws)
    ensures var r := Shrunk(ws, maxWidth);
            && ShrunkFrom(original, r)
            && (TotalWidth(r) <= maxWidth || MaxOf(r) <= MIN_WIDTH)
            && (TotalWidth(ws) >= maxWidth ==> TotalWidth(r) >= maxWidth)
    decreases Sum(ws)
  {
    if ws != [] && TotalWidth(ws) > maxWidth {
      var k := WidestOf(ws, |ws|);
      if ws[k] > MIN_WIDTH {
        ShrinkStep(original, ws);
        SumUpdate(ws, k, ws[k] - 1);
        NarrowOne(ws);
        ShrunkKeeps(original, ws[k := ws[k] - 1], maxWidth);
      }
    } else if ws == [] {
      assert MaxOf(ws) == 0;
    }
  }

  /**
   Without a limit, or in one that the table fits, nothing changes. Otherwise shrinking ends with the table
   in its limit or every width at most 5; it takes no column below min(original, 5), leaves every shrunk
   column within 1 of the widest, and takes no more than needed.
   */
  lemma ShrinkingIsGentle(ws: seq<nat>, maxWidth: nat)
    ensures var r := FinalWidths(ws, maxWidth);
            && (maxWidth == 0 || TotalWidth(ws) <= maxWidth ==> r == ws)
            && (forall i :: 0 <= i < |r| ==> Min(ws[i], 5) <= r[i] <= ws[i])
            && (maxWidth == 0 || TotalWidth(r) <= maxWidth || forall i :: 0 <= i < |r| ==> r[i] <= 5)
            && (forall i, j :: 0 <= i < |r| && 0 <= j < |r| && r[i] < ws[i] ==> r[j] <= r[i] + 1)
            && (r == ws || TotalWidth(r) >= maxWidth)
  {
    if maxWidth > 0 {
      ShrunkKeeps(ws, ws, maxWidth);
    }
  }

  lemma {:induction false} SumMonotone(a: seq<nat>, b: seq<nat>)
    requires |a| == |b| && forall i :: 0 <= i < |a| ==> a[i] <= b[i]
    ensures Sum(a) <= Sum(b)
    ensures (exists i :: 0 <= i < |a| && a[i] < b[i]) ==> Sum(a) < Sum(b)
  {
    if a != [] {
      assert forall i :: 0 <= i < |a[1..]| ==> a[1..][i] == a[i + 1] && b[1..][i] == b[i + 1];
      SumMonotone(a[1..], b[1..]);
      if i :| 0 <= i < |a| && a[i] < b[i] {
        if i > 0 {
          assert a[1..][i - 1] < b[1..][i - 1];
        }
      }
    }
  }

  /**
   The outcome is the most even one: no choice of widths within the original ones that is at least
   as wide in total has a narrower widest column.
   */
  lemma ShrinkingIsFair(ws: seq<nat>, maxWidth: nat, other: seq<nat>)
    requires |other| == |ws| && forall i :: 0 <= i < |ws| ==> other[i] <= ws[i]
    requires TotalWidth(other) >= TotalWidth(FinalWidths(ws, maxWidth))
    ensures MaxOf(other) >= MaxOf(FinalWidths(ws, maxWidth))
  {
    var r := FinalWidths(ws, maxWidth);
    ShrinkingIsGentle(ws, maxWidth);
    TotalIsSum(r);
    TotalIsSum(other);
    if MaxOf(other) < MaxOf(r) {
      var k := WidestOf(r, |r|);
      forall i | 0 <= i < |r| ensures other[i] <= r[i] {
        assert other[i] <= MaxOf(other);
      }
      assert other[k] < r[k];
      SumMonotone(other, r);
    }
  }
}
