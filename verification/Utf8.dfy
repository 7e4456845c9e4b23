/** Byte strings and well-formed UTF-8 (sections 3 and 4 of RFC 3629). */
module Utf8 {
  type byte = x: int | 0 <= x < 256

  type Text = seq<byte>

  const SPACE: byte := 0x20

  /** The code's test `(b & 0xC0) == 0x80`. */
  predicate IsContinuation(b: byte) {
    0x80 <= b < 0xC0
  }

  /** The ranges in this model are the code's bit tests, on eight bits. */
  lemma RangesOfMasks(v: bv8)
    ensures (v & 0xC0 == 0x80) <==> 0x80 <= v < 0xC0
    ensures (v & 0xE0 == 0xC0) <==> 0xC0 <= v < 0xE0
    ensures (v & 0xF0 == 0xE0) <==> 0xE0 <= v < 0xF0
    ensures (v & 0xF8 == 0xF0) <==> 0xF0 <= v < 0xF8
  {
  }

  lemma ContinuationIsMask(v: bv8)
    ensures IsContinuation(v as int) <==> v & 0xC0 == 0x80
  {
    RangesOfMasks(v);
  }

  /** The length of the UTF-8 character at the front of `s`, 0 when there is none. */
  function CharLen(s: Text): (n: nat)
    ensures n <= 4 && n <= |s|
    ensures n > 0 ==> !IsContinuation(s[0]) && forall i :: 0 < i < n ==> IsContinuation(s[i])
    ensures n > 1 ==> s[0] >= 0xC2
  {
    if |s| >= 1 && s[0] < 0x80 then 1
    else if |s| >= 2 && 0xC2 <= s[0] < 0xE0 && IsContinuation(s[1]) then 2
    else if |s| >= 3 && 0xE0 <= s[0] < 0xF0 && ThreeByteSecond(s[0], s[1]) && IsContinuation(s[2]) then 3
    else if |s| >= 4 && 0xF0 <= s[0] < 0xF5 && FourByteSecond(s[0], s[1])
            && IsContinuation(s[2]) && IsContinuation(s[3]) then 4
    else 0
  }

  /** The second byte of a three-byte character: no overlong forms, no surrogates. */
  predicate ThreeByteSecond(first: byte, second: byte) {
    IsContinuation(second) && (first == 0xE0 ==> second >= 0xA0) && (first == 0xED ==> second < 0xA0)
  }

  /** The second byte of a four-byte character: no overlong forms, nothing above U+10FFFF. */
  predicate FourByteSecond(first: byte, second: byte) {
    IsContinuation(second) && (first == 0xF0 ==> second >= 0x90) && (first == 0xF4 ==> second < 0x90)
  }

  predicate Valid(s: Text) {
    s == [] || (CharLen(s) > 0 && Valid(s[CharLen(s)..]))
  }

  /** A place where the text can be cut: the end, or before a byte that starts a character. */
  predicate Boundary(s: Text, i: nat) {
    i == |s| || (i < |s| && !IsContinuation(s[i]))
  }

  lemma CharLenOfExtension(s: Text, t: Text)
    requires CharLen(s) > 0
    ensures CharLen(s + t) == CharLen(s)
  {
  }

  lemma {:induction false} ValidConcat(s: Text, t: Text)
    requires Valid(s) && Valid(t)
    ensures Valid(s + t)
    decreases |s|
  {
    if s == [] {
      assert s + t == t;
    } else {
      var n := CharLen(s);
      CharLenOfExtension(s, t);
      assert (s + t)[n..] == s[n..] + t;
      ValidConcat(s[n..], t);
    }
  }

  /** Cutting valid text at a boundary leaves two valid texts. */
  lemma {:induction false} ValidCut(s: Text, i: nat)
    requires Valid(s) && Boundary(s, i)
    ensures Valid(s[..i]) && Valid(s[i..])
    decreases |s|
  {
    if i > 0 {
      var n := CharLen(s);
      assert i >= n;
      ValidCut(s[n..], i - n);
      assert s[n..][..i - n] == s[n..i] && s[n..][i - n..] == s[i..];
      assert CharLen(s[..i]) == n by {
        assert s[..i][..n] == s[..n];
      }
      assert s[..i][n..] == s[n..i];
    } else {
      assert s[i..] == s;
    }
  }

  lemma {:induction false} AsciiIsValid(s: Text)
    requires forall i :: 0 <= i < |s| ==> s[i] < 0x80
    ensures Valid(s)
    decreases |s|
  {
    if s != [] {
      assert CharLen(s) == 1;
      AsciiIsValid(s[1..]);
    }
  }

  /** In valid text a boundary is never more than three bytes back. */
  lemma {:induction false} BoundaryWithinThree(s: Text, i: nat)
    requires Valid(s) && i < |s|
    ensures exists j: nat :: j <= i <= j + 3 && !IsContinuation(s[j])
    decreases |s|
  {
    var n := CharLen(s);
    if i < n {
      assert !IsContinuation(s[0]);
    } else {
      BoundaryWithinThree(s[n..], i - n);
      var j: nat :| j <= i - n <= j + 3 && !IsContinuation(s[n..][j]);
      assert !IsContinuation(s[j + n]);
    }
  }

  /** In valid text a boundary is never more than three bytes ahead. */
  lemma {:induction false} BoundaryAhead(s: Text, i: nat)
    requires Valid(s) && i <= |s|
    ensures exists j: nat :: i <= j <= i + 3 && Boundary(s, j)
    decreases |s|
  {
    if i == 0 || i == |s| {
      assert Boundary(s, i);
    } else {
      var n := CharLen(s);
      if i < n {
        assert Boundary(s, n) by {
          if n < |s| {
            assert CharLen(s[n..]) > 0;
          }
        }
      } else {
        BoundaryAhead(s[n..], i - n);
        var j: nat :| i - n <= j <= i - n + 3 && Boundary(s[n..], j);
        assert Boundary(s, j + n);
      }
    }
  }

  /** The bytes of an ASCII literal. */
  function Ascii(s: string): (t: Text)
    ensures |t| == |s|
    ensures forall i :: 0 <= i < |t| ==> t[i] < 0x80
  {
    seq(|s|, i requires 0 <= i < |s| => (s[i] as int) % 0x80)
  }
}
