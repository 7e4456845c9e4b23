/** Splitting a text at its line ends. */
module SplitLines {
  import opened Utf8

  const NEWLINE: byte := 0x0A

  function FirstNewline(s: Text, i: nat): (k: nat)
    requires i <= |s|
    ensures i <= k <= |s|
    ensures k < |s| ==> s[k] == NEWLINE
    ensures forall j :: i <= j < k ==> s[j] != NEWLINE
    decreases |s| - i
  {
    if i == |s| || s[i] == NEWLINE then i else FirstNewline(s, i + 1)
  }

  /** The pieces between line ends; the last one is what follows the last line end. */
  function Lines(s: Text): (lines: seq<Text>)
    ensures |lines| >= 1
    decreases |s|
  {
    var k := FirstNewline(s, 0);
    if k == |s| then [s] else [s[..k]] + Lines(s[k + 1..])
  }

  lemma SplitAt<T>(s: seq<T>, k: nat)
    requires k < |s|
    ensures s == s[..k] + [s[k]] + s[k + 1..]
  {
  }

  lemma FirstLineOf(text: Text, k: nat)
    requires k == FirstNewline(text, 0) && k < |text|
    ensures text == text[..k] + [NEWLINE] + text[k + 1..]
    ensures Lines(text) == [text[..k]] + Lines(text[k + 1..])
  {
    SplitAt(text, k);
  }

  lemma LineInFront(line: Text, rest: Text)
    requires NEWLINE !in line
    ensures Lines(line + [NEWLINE] + rest) == [line] + Lines(rest)
  {
    var s := line + [NEWLINE] + rest;
    assert s[|line|] == NEWLINE && forall j :: 0 <= j < |line| ==> s[j] == line[j];
    assert FirstNewline(s, 0) == |line|;
    assert s[..|line|] == line && s[|line| + 1..] == rest;
  }

  lemma {:induction false} LinesHaveNoNewline(s: Text)
    ensures forall line :: line in Lines(s) ==> NEWLINE !in line
    decreases |s|
  {
    var k := FirstNewline(s, 0);
    if k < |s| {
      LinesHaveNoNewline(s[k + 1..]);
    }
  }
}
