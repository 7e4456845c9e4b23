/** absl::StripAsciiWhitespace. */
module Stripping {
  import opened Utf8
  import opened VisibleText

  function StripLeading(s: Text): Text {
    if s != [] && IsSpace(s[0]) then StripLeading(s[1..]) else s
  }

  function StripTrailing(s: Text): Text {
    if s != [] && IsSpace(s[|s| - 1]) then StripTrailing(s[..|s| - 1]) else s
  }

  function Strip(s: Text): Text {
    StripTrailing(StripLeading(s))
  }

  predicate Trimmed(s: Text) {
    s == [] || (!IsSpace(s[0]) && !IsSpace(s[|s| - 1]))
  }

  lemma {:induction false} StripLeadingTrims(s: Text)
    ensures var r := StripLeading(s); (r == [] || !IsSpace(r[0])) && forall c :: c in r ==> c in s
  {
    if s != [] && IsSpace(s[0]) {
      StripLeadingTrims(s[1..]);
    }
  }

  lemma {:induction false} StripTrailingTrims(s: Text)
    ensures var r := StripTrailing(s); (r == [] || !IsSpace(r[|r| - 1])) && r <= s
  {
    if s != [] && IsSpace(s[|s| - 1]) {
      StripTrailingTrims(s[..|s| - 1]);
    }
  }

  lemma StripTrims(s: Text)
    ensures Trimmed(Strip(s))
    ensures forall c :: c in Strip(s) ==> c in s
    ensures Trimmed(s) ==> Strip(s) == s
  {
    StripLeadingTrims(s);
    StripTrailingTrims(StripLeading(s));
  }

  lemma {:induction false} LeadingIsSpace(s: Text) returns (a: Text)
    ensures s == a + StripLeading(s) && forall c :: c in a ==> IsSpace(c)
  {
    a := [];
    if s != [] && IsSpace(s[0]) {
      a := LeadingIsSpace(s[1..]);
      a := [s[0]] + a;
    }
  }

  lemma {:induction false} TrailingIsSpace(s: Text) returns (b: Text)
    ensures s == StripTrailing(s) + b && forall c :: c in b ==> IsSpace(c)
  {
    b := [];
    if s != [] && IsSpace(s[|s| - 1]) {
      b := TrailingIsSpace(s[..|s| - 1]);
      b := b + [s[|s| - 1]];
    }
  }

  /** Stripping takes whitespace off both ends, all of it and nothing else. */
  lemma StripTakesSpaceOff(s: Text) returns (a: Text, b: Text)
    ensures s == a + Strip(s) + b && Trimmed(Strip(s))
    ensures forall c :: c in a || c in b ==> IsSpace(c)
  {
    a := LeadingIsSpace(s);
    b := TrailingIsSpace(StripLeading(s));
    StripTrims(s);
  }
}
