/**
 Terminal text: bytes with UTF-8 characters and CSI escape sequences (section 5.4 of ECMA-48), and the
 number of columns it occupies as interface/color.h counts them.
 */
module VisibleText {
  import opened Utf8

  const ESC: byte := 0x1B
  const BRACKET: byte := 0x5B

  predicate StartsCsi(s: Text) {
    |s| >= 2 && s[0] == ESC && s[1] == BRACKET
  }

  predicate IsFinal(b: byte) {
    0x40 <= b <= 0x7E
  }

  /** What `isspace` accepts in the C locale. */
  predicate IsSpace(b: byte) {
    b == 0x20 || 9 <= b <= 13
  }

  /** The index of the first final byte at or after `i`, or the end. */
  function FinalAt(s: Text, i: nat): (k: nat)
    requires i <= |s|
    ensures i <= k <= |s|
    ensures k < |s| ==> IsFinal(s[k])
    ensures forall j :: i <= j < k ==> !IsFinal(s[j])
    decreases |s| - i
  {
    if i == |s| || IsFinal(s[i]) then i else FinalAt(s, i + 1)
  }

  /** The number of columns VisibleLength reports, for any bytes. */
  function Visible(s: Text): nat
    decreases |s|
  {
    if s == [] then 0
    else if StartsCsi(s) then
      var k := FinalAt(s, 2);
      if k < |s| then Visible(s[k + 1..]) else 0
    else (if IsContinuation(s[0]) then 0 else 1) + Visible(s[1..])
  }

  /** The index loop of color.h computes it. */
  method VisibleLength(s: Text) returns (len: nat)
    ensures len == Visible(s)
  {
    len := 0;
    var i := 0;
    while i < |s|
      invariant i <= |s| + 1
      invariant len + Visible(s[if i <= |s| then i else |s|..]) == Visible(s)
    {
      if s[i] == ESC && i + 1 < |s| && s[i + 1] == BRACKET {
        ghost var start := i;
        i := i + 2;
        while i < |s| && !IsFinal(s[i])
          invariant start + 2 <= i <= |s|
          invariant FinalAt(s[start..], 2) == FinalAt(s[start..], i - start)
        {
          i := i + 1;
        }
        assert FinalAt(s[start..], 2) == i - start;
        if i < |s| {
          assert s[start..][i - start + 1..] == s[i + 1..];
        }
      } else {
        if !IsContinuation(s[i]) {
          len := len + 1;
        }
        assert s[i..][1..] == s[i + 1..];
      }
      i := i + 1;
    }
  }

  // ----- Pieces: whole characters and whole escape sequences -----

  /** The length of the piece at the front of `s`, 0 when it is broken off or holds whitespace. */
  function PieceLen(s: Text): (n: nat)
    ensures n <= |s|
  {
    if StartsCsi(s) then
      var k := FinalAt(s, 2);
      if k < |s| && (forall j :: 2 <= j < k ==> !IsSpace(s[j])) then k + 1 else 0
    else CharLen(s)
  }

  predicate WellFormed(s: Text)
    decreases |s|
  {
    s == [] || (PieceLen(s) > 0 && WellFormed(s[PieceLen(s)..]))
  }

  function Pieces(s: Text): seq<Text>
    requires WellFormed(s)
    decreases |s|
  {
    if s == [] then [] else [s[..PieceLen(s)]] + Pieces(s[PieceLen(s)..])
  }

  function Glyphs(ps: seq<Text>): nat {
    if ps == [] then 0 else (if StartsCsi(ps[0]) then 0 else 1) + Glyphs(ps[1..])
  }

  lemma {:induction false} VisibleSkipsContinuations(s: Text, n: nat)
    requires n <= |s| && forall i :: 0 <= i < n ==> IsContinuation(s[i])
    ensures Visible(s) == Visible(s[n..])
    decreases n
  {
    if n > 0 {
      VisibleSkipsContinuations(s[1..], n - 1);
      assert s[1..][n - 1..] == s[n..];
    } else {
      assert s[n..] == s;
    }
  }

  /** The first piece of well-formed text takes one column, or none if it is an escape sequence. */
  lemma VisiblePiece(s: Text)
    requires PieceLen(s) > 0
    ensures Visible(s) == (if StartsCsi(s) then 0 else 1) + Visible(s[PieceLen(s)..])
  {
    if !StartsCsi(s) {
      var n := CharLen(s);
      VisibleSkipsContinuations(s[1..], n - 1);
      assert s[1..][n - 1..] == s[n..];
    }
  }

  /** Reference meaning of the visible length: the characters outside escape sequences. */
  lemma {:induction false} VisibleCountsGlyphs(s: Text)
    requires WellFormed(s)
    ensures Visible(s) == Glyphs(Pieces(s))
    decreases |s|
  {
    if s != [] {
      VisiblePiece(s);
      VisibleCountsGlyphs(s[PieceLen(s)..]);
    }
  }

  /** ESC, [, bytes outside 0x40..0x7E and one inside take no column, whatever follows them. */
  lemma SequenceTakesNoColumn(parameters: Text, last: byte, rest: Text)
    requires 0x40 <= last <= 0x7E && forall c :: c in parameters ==> c < 0x40 || c > 0x7E
    ensures Visible([0x1B, 0x5B] + parameters + [last] + rest) == Visible(rest)
  {
    var s := [0x1B, 0x5B] + parameters + [last] + rest;
    var k := 2 + |parameters|;
    forall j | 2 <= j < k ensures !IsFinal(s[j]) {
      assert s[j] == parameters[j - 2] && parameters[j - 2] in parameters;
    }
    assert s[k] == last && IsFinal(s[k]);
    assert FinalAt(s, 2) == k;
    assert s[k + 1..] == rest;
  }

  // ----- Concatenation -----

  /** Joining must not turn a lone escape byte and a bracket into a sequence. */
  predicate Joinable(s: Text, t: Text) {
    !(s != [] && t != [] && s[|s| - 1] == ESC && t[0] == BRACKET)
  }

  lemma {:induction false} FinalAtAgrees(s: Text, t: Text, i: nat)
    requires i <= |s| && i <= |t| && FinalAt(s, i) < |s| && FinalAt(s, i) < |t|
    requires forall j :: i <= j <= FinalAt(s, i) ==> s[j] == t[j]
    ensures FinalAt(t, i) == FinalAt(s, i)
    decreases |s| - i
  {
    if !IsFinal(s[i]) {
      assert s[i] == t[i];
      FinalAtAgrees(s, t, i + 1);
    }
  }

  /** The front piece depends only on its own bytes, and on no bracket following a lone escape byte. */
  lemma PieceLenAgrees(s: Text, t: Text)
    requires PieceLen(s) > 0 && |t| >= PieceLen(s) && t[..PieceLen(s)] == s[..PieceLen(s)]
    requires PieceLen(s) == 1 && s[0] == ESC ==> !StartsCsi(t)
    ensures PieceLen(t) == PieceLen(s) && (StartsCsi(t) <==> StartsCsi(s))
  {
    var n := PieceLen(s);
    assert forall j :: 0 <= j < n ==> s[j] == s[..n][j] == t[..n][j] == t[j];
    if StartsCsi(s) {
      FinalAtAgrees(s, t, 2);
    }
  }

  lemma ConcatFront(s: Text, t: Text)
    requires PieceLen(s) > 0 && Joinable(s, t)
    ensures var n := PieceLen(s);
            && PieceLen(s + t) == n && (StartsCsi(s + t) <==> StartsCsi(s))
            && (s + t)[..n] == s[..n] && (s + t)[n..] == s[n..] + t
            && Joinable(s[n..], t)
  {
    PieceLenAgrees(s, s + t);
  }

  /** Additivity: well-formed texts concatenate piece by piece, so their visible lengths add up. */
  lemma {:induction false} Concat(s: Text, t: Text)
    requires WellFormed(s) && WellFormed(t) && Joinable(s, t)
    ensures WellFormed(s + t)
    ensures Pieces(s + t) == Pieces(s) + Pieces(t)
    ensures Visible(s + t) == Visible(s) + Visible(t)
    decreases |s|
  {
    if s == [] {
      assert s + t == t;
    } else {
      ConcatFront(s, t);
      var n, u := PieceLen(s), s + t;
      Concat(s[n..], t);
      VisiblePiece(s);
      VisiblePiece(u);
      assert WellFormed(u);
      assert Pieces(u) == [u[..n]] + Pieces(u[n..]);
    }
  }

  lemma PieceAlone(s: Text)
    requires PieceLen(s) > 0
    ensures var p := s[..PieceLen(s)];
            WellFormed(p) && Pieces(p) == [p] && Visible(p) == if StartsCsi(s) then 0 else 1
    ensures Joinable(s[..PieceLen(s)], s[PieceLen(s)..])
  {
    var n := PieceLen(s);
    var p := s[..n];
    assert p[..n] == s[..n] && p[..n] == p;
    PieceLenAgrees(s, p);
    assert p[n..] == [];
    assert Pieces(p) == [p] + Pieces([]);
    VisiblePiece(p);
  }

  /** A whitespace byte is a piece of its own: no character or escape sequence contains one. */
  lemma SpaceIsAPiece(s: Text, i: nat)
    requires PieceLen(s) > 0 && i < |s| && IsSpace(s[i])
    ensures i == 0 ==> PieceLen(s) == 1
    ensures i > 0 ==> i >= PieceLen(s)
  {
  }

  lemma CutFront(s: Text, i: nat)
    requires PieceLen(s) > 0 && PieceLen(s) <= i < |s| && IsSpace(s[i])
    ensures var n := PieceLen(s);
            && PieceLen(s[..i]) == n && s[..i][..n] == s[..n] && s[..i][n..] == s[n..][..i - n]
            && s[n..][i - n] == s[i] && s[n..][i - n + 1..] == s[i + 1..]
  {
    assert s[..i][..PieceLen(s)] == s[..PieceLen(s)];
    PieceLenAgrees(s, s[..i]);
  }

  lemma PrependPiece(s: Text)
    requires PieceLen(s) > 0 && WellFormed(s[PieceLen(s)..])
    ensures WellFormed(s) && Pieces(s) == [s[..PieceLen(s)]] + Pieces(s[PieceLen(s)..])
  {
  }

  lemma Regroup<T>(a: seq<T>, b: seq<T>, c: seq<T>, d: seq<T>)
    ensures a + (b + c + d) == (a + b) + c + d
  {
  }

  /** A cut behind the front piece is a cut of the rest. */
  lemma CutBehindFront(s: Text, i: nat, rest: Text, k: nat)
    requires PieceLen(s) > 0 && PieceLen(s) <= i < |s| && IsSpace(s[i])
    requires rest == s[PieceLen(s)..] && k == i - PieceLen(s)
    requires WellFormed(rest) && WellFormed(rest[..k]) && WellFormed(rest[k + 1..])
    requires Pieces(rest) == Pieces(rest[..k]) + [[rest[k]]] + Pieces(rest[k + 1..])
    ensures WellFormed(s[..i]) && WellFormed(s[i + 1..]) && WellFormed(s)
    ensures Pieces(s) == Pieces(s[..i]) + [[s[i]]] + Pieces(s[i + 1..])
  {
    CutFront(s, i);
    PrependPiece(s[..i]);
    PrependPiece(s);
    Regroup([s[..PieceLen(s)]], Pieces(rest[..k]), [[rest[k]]], Pieces(rest[k + 1..]));
  }

  lemma {:induction false} CutAtSpace(s: Text, i: nat)
    requires WellFormed(s) && i < |s| && IsSpace(s[i])
    ensures WellFormed(s[..i]) && WellFormed(s[i + 1..])
    ensures Pieces(s) == Pieces(s[..i]) + [[s[i]]] + Pieces(s[i + 1..])
    decreases |s|
  {
    SpaceIsAPiece(s, i);
    if i == 0 {
      CutAtFrontSpace(s);
    } else {
      var rest, k := s[PieceLen(s)..], i - PieceLen(s);
      CutAtSpace(rest, k);
      CutBehindFront(s, i, rest, k);
    }
  }

  lemma CutAtFrontSpace(s: Text)
    requires WellFormed(s) && s != [] && IsSpace(s[0])
    ensures WellFormed(s[..0]) && WellFormed(s[1..])
    ensures Pieces(s) == Pieces(s[..0]) + [[s[0]]] + Pieces(s[1..])
  {
    assert PieceLen(s) == 1 && s[..1] == [s[0]];
    PrependPiece(s);
  }

  /** Plain ASCII without the escape byte is well formed and takes one column a byte. */
  lemma {:induction false} PlainAscii(s: Text)
    requires forall i :: 0 <= i < |s| ==> s[i] < 0x80 && s[i] != ESC
    ensures WellFormed(s) && Visible(s) == |s|
    ensures forall t: Text :: Joinable(s, t)
    decreases |s|
  {
    if s != [] {
      assert PieceLen(s) == 1;
      PlainAscii(s[1..]);
    }
  }
}
