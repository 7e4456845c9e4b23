/** Byte-limited, UTF-8-safe truncation: Orchestrator::SmarterTruncate of core/orchestrator.cpp. */
module Truncation {
  import opened Utf8

  function Digits(n: nat): (t: Text)
    ensures |t| >= 1
    ensures forall i :: 0 <= i < |t| ==> t[i] < 0x80
  {
    if n < 10 then [0x30 + n] else Digits(n / 10) + [0x30 + n % 10]
  }

  const DOTS: Text := Ascii("...")

  const LOOK_UP: Text := Ascii("\n\n... [TRUNCATED. Use query_db(sql=\"SELECT content FROM messages WHERE id=")
  const LOOK_UP_END: Text := Ascii("\") to see full output] ...\n\n")
  const SHOWING: Text := Ascii("\n\n... [TRUNCATED: Showing partial output of ")
  const SHOWING_END: Text := Ascii(" bytes. Use query_db or specific tool range to see more.] ...\n\n")

  lemma HintsAreAscii()
    ensures forall i :: 0 <= i < |LOOK_UP| ==> LOOK_UP[i] < 0x80
    ensures forall i :: 0 <= i < |LOOK_UP_END| ==> LOOK_UP_END[i] < 0x80
    ensures forall i :: 0 <= i < |SHOWING| ==> SHOWING[i] < 0x80
    ensures forall i :: 0 <= i < |SHOWING_END| ==> SHOWING_END[i] < 0x80
  {
  }

  /** The hint that stands for the part cut out. */
  function Hint(messageId: int, size: nat): (t: Text)
    ensures forall i :: 0 <= i < |t| ==> t[i] < 0x80
  {
    HintsAreAscii();
    if messageId > 0 then LOOK_UP + Digits(messageId) + LOOK_UP_END
    else SHOWING + Digits(size) + SHOWING_END
  }

  /** The last boundary at or before `i`, or 0. */
  function Back(s: Text, i: nat): (k: nat)
    requires i < |s|
    ensures k <= i
    ensures k > 0 ==> !IsContinuation(s[k])
    ensures forall j :: k < j <= i ==> IsContinuation(s[j])
  {
    if i > 0 && IsContinuation(s[i]) then Back(s, i - 1) else i
  }

  /** The first boundary at or after `i`. */
  function Forward(s: Text, i: nat): (k: nat)
    requires i <= |s|
    ensures i <= k <= |s| && Boundary(s, k)
    ensures forall j :: i <= j < k ==> IsContinuation(s[j])
    decreases |s| - i
  {
    if i < |s| && IsContinuation(s[i]) then Forward(s, i + 1) else i
  }

  /** Where the head ends before it is moved back: a fifth of the room, at least one byte. */
  function HeadTarget(available: nat): (h: nat)
    requires available >= 1
    ensures 1 <= h <= available
  {
    var fifth := (available as real * 0.2).Floor;
    if fifth < 1 then 1 else fifth
  }

  function TinyTarget(limit: nat): nat {
    if limit > 3 then limit - 3 else limit
  }

  predicate SandwichFits(limit: nat, hint: Text) {
    limit > |hint| + 10
  }

  function HeadEnd(content: Text, limit: nat, hint: Text): (k: nat)
    requires |content| > limit && SandwichFits(limit, hint)
    ensures k < |content|
  {
    Back(content, HeadTarget(limit - |hint|))
  }

  function TailStart(content: Text, limit: nat, hint: Text): (k: nat)
    requires |content| > limit && SandwichFits(limit, hint)
    ensures k <= |content|
  {
    Forward(content, |content| - (limit - |hint| - HeadTarget(limit - |hint|)))
  }

  /** Head, hint and tail if the hint leaves room for them, else a bare head. */
  function CutTo(content: Text, limit: nat, hint: Text): Text {
    if |content| <= limit then content
    else if !SandwichFits(limit, hint) then content[..Back(content, TinyTarget(limit))] + DOTS
    else content[..HeadEnd(content, limit, hint)] + hint + content[TailStart(content, limit, hint)..]
  }

  function Truncated(content: Text, limit: nat, messageId: int): Text {
    CutTo(content, limit, Hint(messageId, |content|))
  }

  // ----- The stepping loops of the code -----

  method StepBack(content: Text, start: nat) returns (i: nat)
    requires start < |content|
    ensures i == Back(content, start)
  {
    i := start;
    while i > 0 && IsContinuation(content[i])
      invariant i <= start
      invariant Back(content, i) == Back(content, start)
    {
      i := i - 1;
    }
  }

  method StepForward(content: Text, start: nat) returns (i: nat)
    requires start <= |content|
    ensures i == Forward(content, start)
  {
    i := start;
    while i < |content| && IsContinuation(content[i])
      invariant i <= |content|
      invariant Forward(content, i) == Forward(content, start)
    {
      i := i + 1;
    }
  }

  method CutWithHint(content: Text, limit: nat, hint: Text) returns (r: Text)
    requires |content| > limit
    ensures r == CutTo(content, limit, hint)
  {
    if limit <= |hint| + 10 {
      var tinyLimit := StepBack(content, TinyTarget(limit));
      return content[..tinyLimit] + DOTS;
    }
    var available: nat := limit - |hint|;
    var headSize := HeadTarget(available);
    var tailSize := available - headSize;
    headSize := StepBack(content, headSize);
    var tailStart := StepForward(content, |content| - tailSize);
    r := content[..headSize] + hint + content[tailStart..];
  }

  method SmarterTruncate(content: Text, limit: nat, messageId: int) returns (r: Text)
    ensures r == Truncated(content, limit, messageId)
  {
    if |content| <= limit {
      return content;
    }
    var hint := Hint(messageId, |content|);
    r := CutWithHint(content, limit, hint);
  }

  // ----- What is kept -----

  /** The last place at or before `target` where a character starts, or 0. */
  ghost predicate LastStartBefore(s: Text, target: nat, k: nat) {
    && k <= target < |s|
    && (k > 0 ==> !(0x80 <= s[k] < 0xC0))
    && forall j :: k < j <= target ==> 0x80 <= s[j] < 0xC0
  }

  /** The first place at or after `target` where a character starts, or the end. */
  ghost predicate FirstStartFrom(s: Text, target: nat, k: nat) {
    && target <= k <= |s|
    && (k < |s| ==> !(0x80 <= s[k] < 0xC0))
    && forall j :: target <= j < k ==> 0x80 <= s[j] < 0xC0
  }

  /** The room for content beside a hint of `n` bytes goes to one fifth, but at least one byte, to the head. */
  function HeadRoom(limit: nat, n: nat): nat
    requires limit > n
  {
    if (limit - n) / 5 < 1 then 1 else (limit - n) / 5
  }

  lemma FifthIsAFifth(available: nat)
    ensures (available as real * 0.2).Floor == available / 5
  {
    assert available as real * 0.2 == available as real / 5.0;
    assert available == 5 * (available / 5) + available % 5;
    assert (available / 5) as real <= available as real / 5.0 < (available / 5) as real + 1.0;
  }

  /**
   What is cut begins as the content begins and, when the hint leaves room, ends as the content ends, the
   hint between. Head and tail reach to the character starts nearest to the room they have.
   */
  lemma CutKeepsTheEnds(content: Text, limit: nat, messageId: int) returns (a: nat, b: nat)
    requires |content| > limit
    ensures var hint := Hint(messageId, |content|);
            if limit > |hint| + 10 then
              && a <= b <= |content|
              && Truncated(content, limit, messageId) == content[..a] + hint + content[b..]
              && LastStartBefore(content, HeadRoom(limit, |hint|), a)
              && FirstStartFrom(content, |content| - (limit - |hint| - HeadRoom(limit, |hint|)), b)
            else
              && a <= |content|
              && Truncated(content, limit, messageId) == content[..a] + [0x2E, 0x2E, 0x2E]
              && LastStartBefore(content, if limit > 3 then limit - 3 else limit, a)
  {
    var hint := Hint(messageId, |content|);
    b := 0;
    if limit > |hint| + 10 {
      a, b := SandwichAtStarts(content, limit, hint, HeadRoom(limit, |hint|));
    } else {
      a := HeadAtStart(content, limit, hint);
    }
  }

  lemma SandwichAtStarts(content: Text, limit: nat, hint: Text, room: nat) returns (a: nat, b: nat)
    requires |content| > limit && limit > |hint| + 10 && room == HeadRoom(limit, |hint|)
    ensures a <= b <= |content| && CutTo(content, limit, hint) == content[..a] + hint + content[b..]
    ensures LastStartBefore(content, room, a) && FirstStartFrom(content, |content| - (limit - |hint| - room), b)
  {
    FifthIsAFifth(limit - |hint|);
    HeadBeforeTail(content, limit, hint);
    a, b := HeadEnd(content, limit, hint), TailStart(content, limit, hint);
  }

  lemma HeadAtStart(content: Text, limit: nat, hint: Text) returns (a: nat)
    requires |content| > limit && limit <= |hint| + 10
    ensures a <= |content| && CutTo(content, limit, hint) == content[..a] + [0x2E, 0x2E, 0x2E]
    ensures LastStartBefore(content, if limit > 3 then limit - 3 else limit, a)
  {
    a := Back(content, TinyTarget(limit));
    assert DOTS == [0x2E, 0x2E, 0x2E];
  }

  // ----- The hint -----

  /** The number that decimal digits write. */
  function Decimal(t: Text): nat
    requires forall i :: 0 <= i < |t| ==> 0x30 <= t[i] <= 0x39
  {
    if t == [] then 0 else 10 * Decimal(t[..|t| - 1]) + (t[|t| - 1] - 0x30)
  }

  lemma {:induction false} DigitsWriteTheNumber(n: nat)
    ensures forall i :: 0 <= i < |Digits(n)| ==> 0x30 <= Digits(n)[i] <= 0x39
    ensures Decimal(Digits(n)) == n
    ensures n > 0 ==> Digits(n)[0] != 0x30
  {
    if n >= 10 {
      DigitsWriteTheNumber(n / 10);
      assert Digits(n)[..|Digits(n)| - 1] == Digits(n / 10);
    } else {
      assert Digits(n)[..0] == [];
    }
  }

  /** The hint names the message to look up, or else the number of bytes there were. */
  lemma HintNamesItsSource(messageId: int, size: nat) returns (number: Text)
    ensures forall i :: 0 <= i < |number| ==> 0x30 <= number[i] <= 0x39
    ensures messageId > 0 ==> Decimal(number) == messageId && Hint(messageId, size) == LOOK_UP + number + LOOK_UP_END
    ensures messageId <= 0 ==> Decimal(number) == size && Hint(messageId, size) == SHOWING + number + SHOWING_END
  {
    number := Digits(if messageId > 0 then messageId else size);
    DigitsWriteTheNumber(if messageId > 0 then messageId else size);
  }

  // ----- Size -----

  /** Head and tail are disjoint, and together with the hint they never pass the limit. */
  lemma HeadBeforeTail(content: Text, limit: nat, hint: Text)
    requires |content| > limit && SandwichFits(limit, hint)
    ensures HeadEnd(content, limit, hint) < TailStart(content, limit, hint)
    ensures |CutTo(content, limit, hint)| <= limit
  {
  }

  lemma CutSize(content: Text, limit: nat, hint: Text)
    ensures |CutTo(content, limit, hint)| <= limit
            <==> |content| <= limit || limit > 3 || (limit == 3 && Back(content, 3) == 0)
  {
    if |content| > limit && SandwichFits(limit, hint) {
      HeadBeforeTail(content, limit, hint);
    }
  }

  /**
   The result is at most `limit` bytes exactly when nothing is cut, or the limit is above 3, or the
   limit is 3 and bytes 1 to 3 are all continuation bytes.
   */
  lemma SizeWithinLimit(content: Text, limit: nat, messageId: int)
    ensures |Truncated(content, limit, messageId)| <= limit
            <==> |content| <= limit || limit > 3
                 || (limit == 3 && IsContinuation(content[1]) && IsContinuation(content[2]) && IsContinuation(content[3]))
  {
    CutSize(content, limit, Hint(messageId, |content|));
  }

  lemma CutSandwich(content: Text, limit: nat, hint: Text)
    requires Valid(content) && |content| > limit && SandwichFits(limit, hint)
    ensures limit - 6 <= |CutTo(content, limit, hint)| <= limit
  {
    var head := HeadTarget(limit - |hint|);
    var tail := |content| - (limit - |hint| - head);
    BoundaryWithinThree(content, head);
    BoundaryAhead(content, tail);
    HeadBeforeTail(content, limit, hint);
  }

  /** In valid text with room for the hint, each cut moves by at most three bytes. */
  lemma SandwichSize(content: Text, limit: nat, messageId: int)
    requires Valid(content) && |content| > limit && SandwichFits(limit, Hint(messageId, |content|))
    ensures limit - 6 <= |Truncated(content, limit, messageId)| <= limit
  {
    CutSandwich(content, limit, Hint(messageId, |content|));
  }

  // ----- Validity -----

  lemma BackIsBoundary(s: Text, i: nat)
    requires Valid(s) && i < |s|
    ensures Boundary(s, Back(s, i))
  {
  }

  lemma CutIsValid(content: Text, limit: nat, hint: Text)
    requires Valid(content) && Valid(hint)
    ensures Valid(CutTo(content, limit, hint))
  {
    if |content| > limit {
      if !SandwichFits(limit, hint) {
        var k := Back(content, TinyTarget(limit));
        BackIsBoundary(content, TinyTarget(limit));
        ValidCut(content, k);
        AsciiIsValid(DOTS);
        ValidConcat(content[..k], DOTS);
      } else {
        var head, tail := HeadEnd(content, limit, hint), TailStart(content, limit, hint);
        BackIsBoundary(content, HeadTarget(limit - |hint|));
        ValidCut(content, head);
        ValidCut(content, tail);
        ValidConcat(content[..head], hint);
        ValidConcat(content[..head] + hint, content[tail..]);
      }
    }
  }

  /** Cutting valid UTF-8 gives valid UTF-8, whatever the limit. */
  lemma TruncatedIsValid(content: Text, limit: nat, messageId: int)
    requires Valid(content)
    ensures Valid(Truncated(content, limit, messageId))
  {
    AsciiIsValid(Hint(messageId, |content|));
    CutIsValid(content, limit, Hint(messageId, |content|));
  }

  /** Truncating again at the same limit changes nothing. */
  lemma TruncatingTwice(content: Text, limit: nat, messageId: int)
    requires limit > 3
    ensures Truncated(Truncated(content, limit, messageId), limit, messageId) == Truncated(content, limit, messageId)
  {
    var once := Truncated(content, limit, messageId);
    SizeWithinLimit(content, limit, messageId);
    assert CutTo(once, limit, Hint(messageId, |once|)) == once;
  }
}
