/** Skills as editable Markdown: SkillToMarkdown and MarkdownToSkill of interface/command_handler.cpp. */
module SkillMarkdown {
  import opened Utf8
  import opened SplitLines
  import opened Stripping

  datatype Skill = Skill(id: int, name: Text, description: Text, patch: Text)

  const NAME: Text := Ascii("# Name:")
  const DESCRIPTION: Text := Ascii("# Description:")
  const PATCH: Text := Ascii("# System Prompt Patch")

  function SkillToMarkdown(s: Skill): Text {
    NAME + [SPACE] + s.name + [NEWLINE]
    + (DESCRIPTION + [SPACE] + s.description + [NEWLINE]
       + ([NEWLINE] + (PATCH + [NEWLINE] + s.patch)))
  }

  /** The parser's state: the skill so far and whether the patch has begun. */
  datatype Parsed = Parsed(skill: Skill, inPatch: bool)

  function ParseLine(p: Parsed, line: Text): Parsed {
    if p.inPatch then p.(skill := p.skill.(patch := p.skill.patch + line + [NEWLINE]))
    else if NAME <= line then p.(skill := p.skill.(name := Strip(line[|NAME|..])))
    else if DESCRIPTION <= line then p.(skill := p.skill.(description := Strip(line[|DESCRIPTION|..])))
    else if PATCH <= line then p.(inPatch := true)
    else p
  }

  function ParseLines(p: Parsed, lines: seq<Text>): Parsed
    decreases |lines|
  {
    if lines == [] then p else ParseLines(ParseLine(p, lines[0]), lines[1..])
  }

  function MarkdownToSkill(md: Text, id: int): Skill {
    var s := ParseLines(Parsed(Skill(id, [], [], []), false), Lines(md)).skill;
    s.(patch := Strip(s.patch))
  }

  /** The line loop of the code. */
  method ParseSkill(md: Text, id: int) returns (s: Skill)
    ensures s == MarkdownToSkill(md, id)
  {
    s := Skill(id, [], [], []);
    var inPatch := false;
    var lines := Lines(md);
    for i := 0 to |lines|
      invariant ParseLines(Parsed(s, inPatch), lines[i..]) == ParseLines(Parsed(Skill(id, [], [], []), false), lines)
    {
      var line := lines[i];
      ghost var rest := lines[i..];
      assert rest[0] == line && rest[1..] == lines[i + 1..];
      if !inPatch {
        if NAME <= line {
          s := s.(name := Strip(line[|NAME|..]));
        } else if DESCRIPTION <= line {
          s := s.(description := Strip(line[|DESCRIPTION|..]));
        } else if PATCH <= line {
          inPatch := true;
        }
      } else {
        s := s.(patch := s.patch + line + [NEWLINE]);
      }
    }
    assert lines[|lines|..] == [];
    s := s.(patch := Strip(s.patch));
  }

  // ----- Stripping -----

  lemma StripBlankPrefix(s: Text)
    ensures Strip([SPACE] + s) == Strip(s)
  {
    assert ([SPACE] + s)[1..] == s;
  }

  lemma StripNewlineSuffix(s: Text)
    requires Trimmed(s)
    ensures Strip(s + [NEWLINE]) == s
  {
    if s == [] {
      var t: Text := [NEWLINE];
      assert s + [NEWLINE] == t && t[1..] == [];
      assert StripLeading(t) == StripLeading([]) == [];
    } else {
      var t := s + [NEWLINE];
      assert t[0] == s[0] && t[..|t| - 1] == s;
      assert StripLeading(t) == t;
      assert StripTrailing(t) == StripTrailing(s);
    }
  }

  // ----- Round trips -----

  /** Name and description on one line each, everything trimmed. */
  ghost predicate Canonical(s: Skill) {
    && Trimmed(s.name) && NEWLINE !in s.name
    && Trimmed(s.description) && NEWLINE !in s.description
    && Trimmed(s.patch)
  }

  lemma {:induction false} ParseKeepsHeader(p: Parsed, lines: seq<Text>)
    requires forall line :: line in lines ==> NEWLINE !in line
    requires Trimmed(p.skill.name) && NEWLINE !in p.skill.name
    requires Trimmed(p.skill.description) && NEWLINE !in p.skill.description
    ensures var s := ParseLines(p, lines).skill;
            && Trimmed(s.name) && NEWLINE !in s.name
            && Trimmed(s.description) && NEWLINE !in s.description
    decreases |lines|
  {
    if lines != [] {
      var line := lines[0];
      assert NEWLINE !in line;
      if NAME <= line {
        StripTrims(line[|NAME|..]);
        assert NEWLINE !in line[|NAME|..];
      }
      if DESCRIPTION <= line {
        StripTrims(line[|DESCRIPTION|..]);
        assert NEWLINE !in line[|DESCRIPTION|..];
      }
      ParseKeepsHeader(ParseLine(p, line), lines[1..]);
    }
  }

  /** Whatever text is parsed, the skill is canonical. */
  lemma ParsedIsCanonical(md: Text, id: int)
    ensures Canonical(MarkdownToSkill(md, id))
  {
    LinesHaveNoNewline(md);
    ParseKeepsHeader(Parsed(Skill(id, [], [], []), false), Lines(md));
    StripTrims(ParseLines(Parsed(Skill(id, [], [], []), false), Lines(md)).skill.patch);
  }

  lemma PatchGrows(patch: Text, line: Text, rest: Text, text: Text)
    requires text == line + [NEWLINE] + rest
    ensures patch + line + [NEWLINE] + rest + [NEWLINE] == patch + text + [NEWLINE]
  {
  }

  /** The patch lines are collected as they stand, each with a line end. */
  lemma {:induction false} PatchIsCollected(s: Skill, text: Text)
    ensures ParseLines(Parsed(s, true), Lines(text)) == Parsed(s.(patch := s.patch + text + [NEWLINE]), true)
    decreases |text|
  {
    var k := FirstNewline(text, 0);
    if k == |text| {
      assert Lines(text)[1..] == [];
    } else {
      var line, rest := text[..k], text[k + 1..];
      FirstLineOf(text, k);
      ParseFirst(Parsed(s, true), line, Lines(rest));
      PatchIsCollected(s.(patch := s.patch + line + [NEWLINE]), rest);
      PatchGrows(s.patch, line, rest, text);
    }
  }

  /** The third byte tells the headers apart. */
  lemma HeadersDiffer()
    ensures |NAME| == 7 && NAME[2] == 0x4E
    ensures |DESCRIPTION| == 14 && DESCRIPTION[2] == 0x44
    ensures |PATCH| == 21 && PATCH[2] == 0x53
  {
  }

  lemma HeaderLines()
    ensures !(NAME <= []) && !(DESCRIPTION <= []) && !(PATCH <= [])
    ensures !(NAME <= PATCH) && !(DESCRIPTION <= PATCH)
    ensures forall t: Text :: !(NAME <= DESCRIPTION + t)
  {
    HeadersDiffer();
    forall t: Text ensures !(NAME <= DESCRIPTION + t) {
      assert (DESCRIPTION + t)[2] == DESCRIPTION[2];
    }
  }

  lemma PlainHasNoNewline(s: string)
    requires forall i :: 0 <= i < |s| ==> ' ' <= s[i] < 128 as char
    ensures NEWLINE !in Ascii(s)
  {
  }

  lemma HeadersHaveNoNewline()
    ensures NEWLINE !in NAME && NEWLINE !in DESCRIPTION && NEWLINE !in PATCH
  {
    PlainHasNoNewline("# Name:");
    PlainHasNoNewline("# Description:");
    PlainHasNoNewline("# System Prompt Patch");
  }

  /** The printed text has the four header lines and then the patch. */
  lemma PrintedLines(s: Skill)
    requires NEWLINE !in s.name && NEWLINE !in s.description
    ensures Lines(SkillToMarkdown(s))
         == [NAME + [SPACE] + s.name] + ([DESCRIPTION + [SPACE] + s.description] + ([[]] + ([PATCH] + Lines(s.patch))))
  {
    HeadersHaveNoNewline();
    var tail4 := PATCH + [NEWLINE] + s.patch;
    var tail3 := [NEWLINE] + tail4;
    var tail2 := DESCRIPTION + [SPACE] + s.description + [NEWLINE] + tail3;
    LineInFront(PATCH, s.patch);
    assert [] + [NEWLINE] + tail4 == tail3;
    LineInFront([], tail4);
    LineInFront(DESCRIPTION + [SPACE] + s.description, tail3);
    LineInFront(NAME + [SPACE] + s.name, tail2);
  }

  lemma NameLine(p: Parsed, name: Text)
    requires !p.inPatch && Trimmed(name)
    ensures ParseLine(p, NAME + [SPACE] + name) == p.(skill := p.skill.(name := name))
  {
    var line := NAME + [SPACE] + name;
    assert line[|NAME|..] == [SPACE] + name;
    StripBlankPrefix(name);
    StripTrims(name);
  }

  lemma DescriptionLine(p: Parsed, description: Text)
    requires !p.inPatch && Trimmed(description)
    ensures ParseLine(p, DESCRIPTION + [SPACE] + description) == p.(skill := p.skill.(description := description))
  {
    HeaderLines();
    var line := DESCRIPTION + [SPACE] + description;
    assert line == DESCRIPTION + ([SPACE] + description);
    assert line[|DESCRIPTION|..] == [SPACE] + description;
    StripBlankPrefix(description);
    StripTrims(description);
  }

  lemma {:induction false} ParseFirst(p: Parsed, line: Text, rest: seq<Text>)
    ensures ParseLines(p, [line] + rest) == ParseLines(ParseLine(p, line), rest)
  {
    assert ([line] + rest)[1..] == rest;
  }

  lemma CanonicalRoundTrips(s: Skill)
    requires Canonical(s)
    ensures MarkdownToSkill(SkillToMarkdown(s), s.id) == s
  {
    var p0 := Parsed(Skill(s.id, [], [], []), false);
    var p1 := p0.(skill := p0.skill.(name := s.name));
    var p2 := p1.(skill := p1.skill.(description := s.description));
    var patchLines := Lines(s.patch);
    var tail2: seq<Text> := [[]] + ([PATCH] + patchLines);
    PrintedLines(s);
    HeaderLines();
    NameLine(p0, s.name);
    ParseFirst(p0, NAME + [SPACE] + s.name, [DESCRIPTION + [SPACE] + s.description] + tail2);
    DescriptionLine(p1, s.description);
    ParseFirst(p1, DESCRIPTION + [SPACE] + s.description, tail2);
    ParseFirst(p2, [], [PATCH] + patchLines);
    ParseFirst(p2, PATCH, patchLines);
    PatchIsCollected(p2.skill, s.patch);
    assert [] + s.patch + [NEWLINE] == s.patch + [NEWLINE];
    StripNewlineSuffix(s.patch);
  }

  // ----- What is printed and what is read -----

  lemma MarksAreAscii()
    ensures NAME + [SPACE] == Ascii("# Name: ") && DESCRIPTION + [SPACE] == Ascii("# Description: ")
    ensures PATCH + [NEWLINE] == Ascii("# System Prompt Patch\n") && [NEWLINE] == Ascii("\n")
  {
  }

  /** The name's line, the description's line, an empty line, the patch's header line and the patch. */
  lemma PrintedText(s: Skill)
    ensures SkillToMarkdown(s)
         == Ascii("# Name: ") + s.name + Ascii("\n")
            + Ascii("# Description: ") + s.description + Ascii("\n")
            + Ascii("\n") + Ascii("# System Prompt Patch\n") + s.patch
  {
    MarksAreAscii();
  }

  /** The value behind the last of the lines that start with `mark`, without whitespace at its ends. */
  ghost predicate LastMarked(lines: seq<Text>, mark: Text, value: Text, start: Text) {
    || ((forall i :: 0 <= i < |lines| ==> !(mark <= lines[i])) && value == start)
    || exists i :: 0 <= i < |lines| && mark <= lines[i] && value == Strip(lines[i][|mark|..])
                   && forall j :: i < j < |lines| ==> !(mark <= lines[j])
  }

  function Rejoined(lines: seq<Text>): Text {
    if lines == [] then [] else lines[0] + [NEWLINE] + Rejoined(lines[1..])
  }

  lemma {:induction false} PatchIsRejoined(s: Skill, lines: seq<Text>)
    ensures ParseLines(Parsed(s, true), lines) == Parsed(s.(patch := s.patch + Rejoined(lines)), true)
    decreases |lines|
  {
    if lines == [] {
      assert s.patch + [] == s.patch;
    } else {
      PatchIsRejoined(s.(patch := s.patch + lines[0] + [NEWLINE]), lines[1..]);
      assert s.patch + lines[0] + [NEWLINE] + Rejoined(lines[1..]) == s.patch + (lines[0] + [NEWLINE] + Rejoined(lines[1..]));
    }
  }

  /** A line in front is the last marked one only if no line behind it is. */
  lemma OneMoreMarked(line: Text, rest: seq<Text>, mark: Text, value: Text, start: Text)
    requires LastMarked(rest, mark, value, if mark <= line then Strip(line[|mark|..]) else start)
    ensures LastMarked([line] + rest, mark, value, start)
  {
    var lines := [line] + rest;
    assert forall i :: 0 < i < |lines| ==> lines[i] == rest[i - 1];
    if exists i :: 0 <= i < |rest| && mark <= rest[i] && value == Strip(rest[i][|mark|..])
                   && forall j :: i < j < |rest| ==> !(mark <= rest[j]) {
      var i :| 0 <= i < |rest| && mark <= rest[i] && value == Strip(rest[i][|mark|..])
               && forall j :: i < j < |rest| ==> !(mark <= rest[j]);
      assert lines[i + 1] == rest[i];
    } else if mark <= line {
      assert lines[0] == line;
    }
  }

  lemma MarksExclude(line: Text)
    ensures NAME <= line ==> !(DESCRIPTION <= line) && !(PATCH <= line)
    ensures DESCRIPTION <= line ==> !(PATCH <= line)
  {
    HeadersDiffer();
  }

  /** `p` is the number of lines before the first patch header. */
  ghost predicate BeforePatch(lines: seq<Text>, p: nat) {
    p <= |lines| && (forall i :: 0 <= i < p ==> !(PATCH <= lines[i])) && (p < |lines| ==> PATCH <= lines[p])
  }

  lemma HeaderLineMeans(s: Skill, line: Text, rest: seq<Text>, name: Text, description: Text)
    requires !(PATCH <= line)
    requires var next := ParseLine(Parsed(s, false), line).skill;
             LastMarked(rest, NAME, name, next.name) && LastMarked(rest, DESCRIPTION, description, next.description)
    ensures LastMarked([line] + rest, NAME, name, s.name) && LastMarked([line] + rest, DESCRIPTION, description, s.description)
  {
    MarksExclude(line);
    OneMoreMarked(line, rest, NAME, name, s.name);
    OneMoreMarked(line, rest, DESCRIPTION, description, s.description);
  }

  lemma OneMoreLine(line: Text, rest: seq<Text>, p: nat)
    requires BeforePatch(rest, p) && !(PATCH <= line)
    ensures var lines := [line] + rest;
            && BeforePatch(lines, p + 1) && lines[..p + 1] == [line] + rest[..p]
            && (p < |rest| ==> lines[p + 2..] == rest[p + 1..])
  {
  }

  /** What the parsed skill is when the patch header is line `p`. */
  ghost predicate MeansFrom(s: Skill, lines: seq<Text>, p: nat, r: Skill) {
    && BeforePatch(lines, p) && r.id == s.id
    && LastMarked(lines[..p], NAME, r.name, s.name) && LastMarked(lines[..p], DESCRIPTION, r.description, s.description)
    && r.patch == if p < |lines| then Rejoined(lines[p + 1..]) else []
  }

  lemma PatchLineMeans(s: Skill, line: Text, rest: seq<Text>)
    requires s.patch == [] && PATCH <= line
    ensures MeansFrom(s, [line] + rest, 0, ParseLines(Parsed(s, false), [line] + rest).skill)
  {
    MarksExclude(line);
    PatchIsRejoined(s, rest);
    ParseFirst(Parsed(s, false), line, rest);
    assert ([line] + rest)[1..] == rest;
  }

  lemma HeaderLineComesFirst(s: Skill, line: Text, rest: seq<Text>, p: nat, r: Skill)
    requires !(PATCH <= line) && MeansFrom(ParseLine(Parsed(s, false), line).skill, rest, p, r)
    ensures MeansFrom(s, [line] + rest, p + 1, r)
  {
    OneMoreLine(line, rest, p);
    HeaderLineMeans(s, line, rest[..p], r.name, r.description);
  }

  lemma {:induction false} LinesMean(s: Skill, lines: seq<Text>) returns (p: nat)
    requires s.patch == []
    ensures MeansFrom(s, lines, p, ParseLines(Parsed(s, false), lines).skill)
    decreases |lines|
  {
    p := 0;
    if lines != [] {
      var line, rest := lines[0], lines[1..];
      assert lines == [line] + rest;
      if PATCH <= line {
        PatchLineMeans(s, line, rest);
      } else {
        var next := ParseLine(Parsed(s, false), line);
        assert next == Parsed(next.skill, false) && next.skill.patch == [];
        p := LinesMean(next.skill, rest);
        HeaderLineComesFirst(s, line, rest, p, ParseLines(next, rest).skill);
        p := p + 1;
      }
    }
  }

  /**
   The lines before the first patch header give name and description, the last of each kind; the lines behind
   it are the patch. All three are without whitespace at their ends, and empty when their lines are missing.
   */
  lemma ParsedSkillMeans(md: Text, id: int) returns (p: nat)
    ensures BeforePatch(Lines(md), p)
    ensures var lines, s := Lines(md), MarkdownToSkill(md, id);
            && s.id == id
            && LastMarked(lines[..p], Ascii("# Name:"), s.name, []) && LastMarked(lines[..p], Ascii("# Description:"), s.description, [])
            && s.patch == if p < |lines| then Strip(Rejoined(lines[p + 1..])) else []
  {
    p := LinesMean(Skill(id, [], [], []), Lines(md));
  }

  /** Printing and parsing is the identity exactly on the canonical skills. */
  lemma PrintThenParse(s: Skill)
    ensures MarkdownToSkill(SkillToMarkdown(s), s.id) == s <==> Canonical(s)
  {
    ParsedIsCanonical(SkillToMarkdown(s), s.id);
    if Canonical(s) {
      CanonicalRoundTrips(s);
    }
  }

  /** For every text, printing what was parsed and parsing again changes nothing. */
  lemma EditingIsStable(md: Text, id: int)
    ensures MarkdownToSkill(SkillToMarkdown(MarkdownToSkill(md, id)), id) == MarkdownToSkill(md, id)
  {
    ParsedIsCanonical(md, id);
    ParseKeepsId(Parsed(Skill(id, [], [], []), false), Lines(md));
    CanonicalRoundTrips(MarkdownToSkill(md, id));
  }

  lemma {:induction false} ParseKeepsId(p: Parsed, lines: seq<Text>)
    ensures ParseLines(p, lines).skill.id == p.skill.id
    decreases |lines|
  {
    if lines != [] {
      ParseKeepsId(ParseLine(p, lines[0]), lines[1..]);
    }
  }
}
