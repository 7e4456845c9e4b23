/** std::string::find on bytes. */
module Search {
  import opened Utf8

  /** `pattern` stands at position `i` of `s`. */
  predicate MatchAt(s: Text, pattern: Text, i: nat) {
    i + |pattern| <= |s| && s[i..i + |pattern|] == pattern
  }

  /** std::string::find: the first match at or after `from`, or |s| + 1 when there is none. */
  function Find(s: Text, pattern: Text, from: nat): (i: nat)
    ensures i <= |s| ==> i >= from && MatchAt(s, pattern, i)
    ensures i > |s| ==> i == |s| + 1
    ensures forall j :: from <= j < i ==> !MatchAt(s, pattern, j)
    decreases |s| + 1 - from
  {
    if from > |s| then |s| + 1
    else if MatchAt(s, pattern, from) then from
    else Find(s, pattern, from + 1)
  }

  ghost predicate Occurs(s: Text, pattern: Text) {
    exists i: nat :: MatchAt(s, pattern, i)
  }

  lemma FindFindsOccurrence(s: Text, pattern: Text)
    ensures Find(s, pattern, 0) <= |s| <==> Occurs(s, pattern)
  {
    var i := Find(s, pattern, 0);
    if i <= |s| {
      assert MatchAt(s, pattern, i);
    }
  }
}
