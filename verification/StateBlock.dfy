/** The state block of a text: Orchestrator::ExtractState of core/orchestrator.cpp. */
module StateBlock {
  import opened Basics
  import opened Utf8
  import opened Search
  import opened Stripping
  import VisibleText

  const HEADER: Text := [0x23, 0x23, 0x23, 0x20, 0x53, 0x54, 0x41, 0x54, 0x45]  // ### STATE
  const NEXT_HEADER: Text := [0x0A, 0x23]                                      // line end, #
  const RULE: Text := [0x0A, 0x2D, 0x2D, 0x2D]                                 // line end, ---

  /** Where the block that starts at `start` ends: before the next header, else the next rule, else at the end. */
  function BlockEnd(text: Text, start: nat): (e: nat)
    requires start + |HEADER| <= |text|
    ensures start + |HEADER| <= e <= |text|
  {
    var header := Find(text, NEXT_HEADER, start + |HEADER|);
    var end := if header <= |text| then header else Find(text, RULE, start + |HEADER|);
    if end <= |text| then end else |text|
  }

  function ExtractState(text: Text): Option<Text> {
    var start := Find(text, HEADER, 0);
    if start > |text| then None else Some(Strip(text[start..BlockEnd(text, start)]))
  }

  lemma SliceOfSlice(s: Text, start: nat, end: nat, i: nat, n: nat)
    requires start <= end <= |s| && i + n <= end - start
    ensures s[start..end][i..i + n] == s[start + i..start + i + n]
  {
    var a, b := s[start..end][i..i + n], s[start + i..start + i + n];
    forall k | 0 <= k < n ensures a[k] == b[k] {
      assert a[k] == s[start..end][i + k] == s[start + i + k];
    }
  }

  lemma BlockIsHeaded(text: Text, start: nat)
    requires start <= |text| && MatchAt(text, HEADER, start)
    ensures var block, b := text[start..BlockEnd(text, start)], Strip(text[start..BlockEnd(text, start)]);
            HEADER <= b && b <= block && Trimmed(b) && |HEADER| <= |b|
  {
    var block := text[start..BlockEnd(text, start)];
    SliceOfSlice(text, start, BlockEnd(text, start), 0, |HEADER|);
    assert block[0..0 + |HEADER|] == HEADER;
    assert block[0] == HEADER[0] && block[|HEADER| - 1] == HEADER[|HEADER| - 1];
    assert StripLeading(block) == block;
    StripTrailingTrims(block);
    StripTrims(block);
    StripStopsAt(block, |HEADER| - 1);
  }

  /** Trailing whitespace ends behind a byte that is none. */
  lemma {:induction false} StripStopsAt(s: Text, i: nat)
    requires i < |s| && !VisibleText.IsSpace(s[i])
    ensures i < |StripTrailing(s)|
    decreases |s|
  {
    if VisibleText.IsSpace(s[|s| - 1]) {
      StripStopsAt(s[..|s| - 1], i);
    }
  }

  /** What starts with a line end cannot start inside the header. */
  lemma BehindHeader(b: Text, pattern: Text, j: nat)
    requires HEADER <= b && pattern != [] && pattern[0] == 0x0A
    ensures MatchAt(b, pattern, j) ==> j >= |HEADER|
  {
    assert forall i :: 0 <= i < |HEADER| ==> b[i] == HEADER[i] && HEADER[i] != 0x0A;
    assert MatchAt(b, pattern, j) ==> b[j..j + |pattern|][0] == b[j];
  }

  /** What stands in the front of a part of a text stands in the text. */
  lemma MatchInPart(text: Text, start: nat, end: nat, b: Text, pattern: Text, j: nat)
    requires start <= end <= |text| && b <= text[start..end]
    ensures MatchAt(b, pattern, j) ==> MatchAt(text, pattern, start + j) && start + j + |pattern| <= end
  {
    if j + |pattern| <= |b| {
      assert b[j..j + |pattern|] == text[start..end][j..j + |pattern|];
      SliceOfSlice(text, start, end, j, |pattern|);
    }
  }

  lemma NoHeaderInBlock(text: Text, start: nat, b: Text, j: nat)
    requires start <= |text| && MatchAt(text, HEADER, start) && HEADER <= b && b <= text[start..BlockEnd(text, start)]
    ensures !MatchAt(b, NEXT_HEADER, j)
  {
    BehindHeader(b, NEXT_HEADER, j);
    MatchInPart(text, start, BlockEnd(text, start), b, NEXT_HEADER, j);
  }

  /**
   A state is found exactly when the text has the header in it. It starts with the header, has no
   whitespace at its end and no other header line in it.
   */
  lemma StateMeaning(text: Text)
    ensures ExtractState(text).Some? <==> Occurs(text, HEADER)
    ensures ExtractState(text).Some? ==>
              var b := ExtractState(text).value;
              HEADER <= b && Trimmed(b) && !Occurs(b, NEXT_HEADER)
  {
    FindFindsOccurrence(text, HEADER);
    var start := Find(text, HEADER, 0);
    if start <= |text| {
      BlockIsHeaded(text, start);
      var b := ExtractState(text).value;
      forall j: nat ensures !MatchAt(b, NEXT_HEADER, j) {
        NoHeaderInBlock(text, start, b, j);
      }
    }
  }

  lemma MarksAreAscii()
    ensures HEADER == Ascii("### STATE") && NEXT_HEADER == Ascii("\n#") && RULE == Ascii("\n---")
  {
  }

  /** `pattern` stands nowhere in `s` from `from` up to `to`. */
  ghost predicate Free(s: Text, pattern: Text, from: nat, to: nat) {
    forall j :: from <= j < to ==> !MatchAt(s, pattern, j)
  }

  /**
   The state runs from the first header to the first header line behind it, if there is no such line to the
   first rule behind it, and without either to the end of the text; whitespace at its ends is left out.
   */
  lemma StateReaches(text: Text) returns (start: nat, e: nat)
    requires Occurs(text, Ascii("### STATE"))
    ensures MatchAt(text, Ascii("### STATE"), start) && Free(text, Ascii("### STATE"), 0, start)
    ensures start + 9 <= e <= |text| && Free(text, Ascii("\n#"), start + 9, e)
    ensures || MatchAt(text, Ascii("\n#"), e)
            || (&& Free(text, Ascii("\n#"), start + 9, |text|) && Free(text, Ascii("\n---"), start + 9, e)
                && (MatchAt(text, Ascii("\n---"), e) || e == |text|))
    ensures ExtractState(text) == Some(Strip(text[start..e]))
  {
    MarksAreAscii();
    FindFindsOccurrence(text, HEADER);
    start := Find(text, HEADER, 0);
    e := BlockEnd(text, start);
  }

  /** In the text, a rule stands before the header line that ends the state block. */
  predicate RuleBeforeHeader(text: Text) {
    var start := Find(text, HEADER, 0);
    start <= |text|
    && var header, rule := Find(text, NEXT_HEADER, start + |HEADER|), Find(text, RULE, start + |HEADER|);
       header <= |text| && rule < header
  }

  lemma RuleNotAcrossHeader(text: Text, rule: nat, header: nat)
    requires MatchAt(text, RULE, rule) && MatchAt(text, NEXT_HEADER, header) && rule < header
    ensures rule + |RULE| <= header
  {
    assert text[header] == text[header..header + 2][0] == 0x0A;
    forall k | 0 <= k < 4 ensures text[rule + k] == RULE[k] {
      assert text[rule + k] == text[rule..rule + 4][k];
    }
  }

  /** Stripping keeps a rule: it ends in a byte that is no whitespace. */
  lemma StripKeepsRule(block: Text, j: nat)
    requires HEADER <= block && MatchAt(block, RULE, j)
    ensures MatchAt(Strip(block), RULE, j)
  {
    assert block[0] == HEADER[0];
    assert StripLeading(block) == block;
    assert block[j + 3] == block[j..j + 4][3] == 0x2D;
    StripStopsAt(block, j + 3);
    StripTrailingTrims(block);
    assert Strip(block)[j..j + 4] == block[j..j + 4];
  }

  lemma BlockHasRule(text: Text, start: nat, header: nat, rule: nat)
    requires MatchAt(text, HEADER, start) && MatchAt(text, RULE, rule)
    requires start + |HEADER| <= rule && rule + |RULE| <= header <= |text|
    ensures HEADER <= text[start..header] && MatchAt(text[start..header], RULE, rule - start)
  {
    SliceOfSlice(text, start, header, rule - start, 4);
    SliceOfSlice(text, start, header, 0, |HEADER|);
    assert text[start..header][0..0 + |HEADER|] == HEADER;
  }

  lemma RuleStaysInside(text: Text)
    requires RuleBeforeHeader(text)
    ensures Occurs(ExtractState(text).value, RULE)
  {
    var start := Find(text, HEADER, 0);
    var header, rule := Find(text, NEXT_HEADER, start + |HEADER|), Find(text, RULE, start + |HEADER|);
    RuleNotAcrossHeader(text, rule, header);
    BlockHasRule(text, start, header, rule);
    StripKeepsRule(text[start..header], rule - start);
  }

  lemma NoRuleInside(text: Text, j: nat)
    requires ExtractState(text).Some? && !RuleBeforeHeader(text)
    ensures !MatchAt(ExtractState(text).value, RULE, j)
  {
    var start := Find(text, HEADER, 0);
    assert MatchAt(text, HEADER, start);
    BlockIsHeaded(text, start);
    BehindHeader(ExtractState(text).value, RULE, j);
    MatchInPart(text, start, BlockEnd(text, start), ExtractState(text).value, RULE, j);
  }

  lemma SecondExtraction(b: Text)
    requires HEADER <= b && Trimmed(b) && !Occurs(b, NEXT_HEADER)
    ensures ExtractState(b) == Some(b) <==> !Occurs(b, RULE)
  {
    assert MatchAt(b, HEADER, 0);
    assert Find(b, HEADER, 0) == 0;
    var header, rule := Find(b, NEXT_HEADER, |HEADER|), Find(b, RULE, |HEADER|);
    assert header > |b|;
    StripTrims(b);
    if rule <= |b| {
      assert MatchAt(b, RULE, rule);
      var block := b[0..rule];
      StripShortens(block);
    } else {
      assert b[0..|b|] == b;
      forall j: nat ensures !MatchAt(b, RULE, j) {
        BehindHeader(b, RULE, j);
      }
    }
  }

  /** Extracting again changes nothing exactly when no rule stands before the header that ends the block. */
  lemma ExtractingTwice(text: Text)
    requires ExtractState(text).Some?
    ensures ExtractState(ExtractState(text).value) == ExtractState(text) <==> !RuleBeforeHeader(text)
  {
    StateMeaning(text);
    SecondExtraction(ExtractState(text).value);
    if RuleBeforeHeader(text) {
      RuleStaysInside(text);
    } else {
      forall j: nat ensures !MatchAt(ExtractState(text).value, RULE, j) {
        NoRuleInside(text, j);
      }
    }
  }

  lemma {:induction false} StripLeadingShortens(s: Text)
    ensures |StripLeading(s)| <= |s|
  {
    if s != [] {
      StripLeadingShortens(s[1..]);
    }
  }

  lemma StripShortens(s: Text)
    ensures |Strip(s)| <= |s|
  {
    StripLeadingShortens(s);
    StripTrailingTrims(StripLeading(s));
  }
}
