/** The apply_patch tool: ToolExecutor::ApplyPatch of core/tool_executor.cpp. */
module ApplyPatch {
  import opened Utf8
  import opened Search

  datatype Patch = Patch(find: Text, replace: Text)

  datatype Error =
    | EmptyFind                  // InvalidArgument
    | NoMatch(find: Text)        // NotFound
    | Ambiguous(find: Text)      // FailedPrecondition
    | NoSuchFile
    | CannotWrite

  datatype Result<+T> = Ok(value: T) | Err(error: Error)

  function ReplaceAt(s: Text, i: nat, n: nat, replacement: Text): Text
    requires i + n <= |s|
  {
    s[..i] + replacement + s[i + n..]
  }

  function ApplyOne(content: Text, p: Patch): Result<Text> {
    if p.find == [] then Err(EmptyFind)
    else
      var i := Find(content, p.find, 0);
      if i > |content| then Err(NoMatch(p.find))
      else if Find(content, p.find, i + 1) <= |content| then Err(Ambiguous(p.find))
      else Ok(ReplaceAt(content, i, |p.find|, p.replace))
  }

  /** The patches in order, up to the first that fails. */
  function ApplyAll(content: Text, patches: seq<Patch>): Result<Text>
    decreases |patches|
  {
    if patches == [] then Ok(content)
    else
      match ApplyOne(content, patches[0])
      case Err(e) => Err(e)
      case Ok(next) => ApplyAll(next, patches[1..])
  }

  type Path = string

  /** The executor over a file system; `writable` says whether the open for writing succeeds. */
  class ToolExecutor {
    var files: map<Path, Text>

    constructor ()
      ensures files == map[]
    {
      files := map[];
    }

    /** All or nothing: the file is written once, with every patch applied, or left alone. */
    method ApplyPatch(path: Path, patches: seq<Patch>, writable: bool) returns (r: Result<nat>)
      modifies this
      ensures path !in old(files) ==> r == Err(NoSuchFile) && files == old(files)
      ensures path in old(files) ==>
                match ApplyAll(old(files)[path], patches)
                case Err(e) => r == Err(e) && files == old(files)
                case Ok(content) =>
                  if writable then r == Ok(|content|) && files == old(files)[path := content]
                  else r == Err(CannotWrite) && files == old(files)
    {
      if path !in files {
        return Err(NoSuchFile);
      }
      var content := files[path];
      for k := 0 to |patches|
        invariant files == old(files)
        invariant ApplyAll(content, patches[k..]) == ApplyAll(old(files)[path], patches)
      {
        ghost var rest := patches[k..];
        assert rest[0] == patches[k] && rest[1..] == patches[k + 1..];
        var patch := patches[k];
        if patch.find == [] {
          return Err(EmptyFind);
        }
        var pos := Find(content, patch.find, 0);
        if pos > |content| {
          return Err(NoMatch(patch.find));
        }
        if Find(content, patch.find, pos + 1) <= |content| {
          return Err(Ambiguous(patch.find));
        }
        content := ReplaceAt(content, pos, |patch.find|, patch.replace);
      }
      assert patches[|patches|..] == [];
      if !writable {
        return Err(CannotWrite);
      }
      files := files[path := content];
      r := Ok(|content|);
    }
  }

  // ----- What a patch means -----

  /** `pattern` stands at exactly one position, overlapping matches counted. */
  ghost predicate OccursOnce(s: Text, pattern: Text) {
    exists i: nat :: MatchAt(s, pattern, i) && forall j: nat :: MatchAt(s, pattern, j) ==> j == i
  }

  /** One match with none behind it, found from the next byte on, is the only one. */
  lemma SecondFindTellsUnique(s: Text, pattern: Text)
    requires Find(s, pattern, 0) <= |s|
    ensures Find(s, pattern, Find(s, pattern, 0) + 1) > |s| <==> OccursOnce(s, pattern)
  {
    var i := Find(s, pattern, 0);
    var k := Find(s, pattern, i + 1);
    assert MatchAt(s, pattern, i);
    if k <= |s| {
      assert MatchAt(s, pattern, k) && k != i;
    } else {
      forall j: nat | MatchAt(s, pattern, j) ensures j == i {
        assert j <= |s|;
      }
    }
  }

  /** How often a text holds a pattern, overlaps counted, as far as a patch can tell. */
  datatype Count = Never | Once | Several

  ghost function CountOf(s: Text, pattern: Text): Count {
    if !Occurs(s, pattern) then Never else if OccursOnce(s, pattern) then Once else Several
  }

  lemma FindsCount(s: Text, pattern: Text)
    ensures var i := Find(s, pattern, 0);
            CountOf(s, pattern) == if i > |s| then Never else if Find(s, pattern, i + 1) > |s| then Once else Several
  {
    FindFindsOccurrence(s, pattern);
    if Find(s, pattern, 0) <= |s| {
      SecondFindTellsUnique(s, pattern);
    }
  }

  /**
   A patch succeeds exactly when its non-empty `find` occurs once, overlaps counted; the two failures
   tell no occurrence from several.
   */
  lemma PatchMeaning(content: Text, p: Patch)
    ensures p.find == [] ==> ApplyOne(content, p) == Err(EmptyFind)
    ensures p.find != [] ==>
              match CountOf(content, p.find)
              case Never => ApplyOne(content, p) == Err(NoMatch(p.find))
              case Once => ApplyOne(content, p).Ok?
              case Several => ApplyOne(content, p) == Err(Ambiguous(p.find))
  {
    FindsCount(content, p.find);
  }

  /** A patch that succeeds replaces its one occurrence and nothing else. */
  lemma PatchEffect(content: Text, p: Patch, before: Text, after: Text)
    requires p.find != [] && CountOf(content, p.find) == Once && content == before + p.find + after
    ensures ApplyOne(content, p) == Ok(before + p.replace + after)
  {
    PatchMeaning(content, p);
    assert content[|before|..|before| + |p.find|] == p.find;
    OnlyMatchIsFound(content, p.find, |before|);
    assert content[..|before|] == before && content[|before| + |p.find|..] == after;
  }

  /** Each text is what its patch makes of the one before. */
  ghost predicate Chain(contents: seq<Text>, patches: seq<Patch>) {
    && 0 < |contents| <= |patches| + 1
    && forall k :: 0 <= k < |contents| - 1 ==> ApplyOne(contents[k], patches[k]) == Ok(contents[k + 1])
  }

  lemma ChainFromFront(content: Text, patches: seq<Patch>, rest: seq<Text>)
    requires patches != [] && Chain(rest, patches[1..]) && ApplyOne(content, patches[0]) == Ok(rest[0])
    ensures Chain([content] + rest, patches)
  {
    var contents := [content] + rest;
    forall k | 0 <= k < |contents| - 1 ensures ApplyOne(contents[k], patches[k]) == Ok(contents[k + 1]) {
      if k > 0 {
        assert ApplyOne(rest[k - 1], patches[1..][k - 1]) == Ok(rest[k]);
      }
    }
  }

  /** The patches apply in the list's order, each to what those before it left, and the first failure is the result. */
  lemma {:induction false} PatchesApplyInOrder(content: Text, patches: seq<Patch>) returns (contents: seq<Text>)
    ensures Chain(contents, patches) && contents[0] == content
    ensures var n := |contents| - 1;
            if n == |patches| then ApplyAll(content, patches) == Ok(contents[n])
            else ApplyOne(contents[n], patches[n]).Err? && ApplyAll(content, patches) == ApplyOne(contents[n], patches[n])
    decreases |patches|
  {
    contents := [content];
    if patches != [] && ApplyOne(content, patches[0]).Ok? {
      var rest := PatchesApplyInOrder(ApplyOne(content, patches[0]).value, patches[1..]);
      ChainFromFront(content, patches, rest);
      contents := [content] + rest;
    }
  }

  function Swapped(p: Patch): Patch {
    Patch(p.replace, p.find)
  }

  /** The inverse list: every patch swapped, in reverse order. */
  function Undo(patches: seq<Patch>): seq<Patch> {
    if patches == [] then [] else Undo(patches[1..]) + [Swapped(patches[0])]
  }

  /** When no second match is found, the first one found is the only one. */
  lemma OnlyMatchIsFound(s: Text, pattern: Text, i: nat)
    requires MatchAt(s, pattern, i) && Find(s, pattern, Find(s, pattern, 0) + 1) > |s|
    ensures Find(s, pattern, 0) == i
  {
  }

  lemma ReplaceBack(content: Text, i: nat, find: Text, replace: Text)
    requires MatchAt(content, find, i)
    ensures var patched := ReplaceAt(content, i, |find|, replace);
            MatchAt(patched, replace, i) && ReplaceAt(patched, i, |replace|, find) == content
  {
    var patched := ReplaceAt(content, i, |find|, replace);
    assert patched[i..i + |replace|] == replace;
    assert patched[..i] == content[..i] && patched[i + |replace|..] == content[i + |find|..];
    assert content == content[..i] + find + content[i + |find|..];
  }

  /** The swapped patch, when it succeeds on the result, restores the text. */
  lemma UndoOne(content: Text, p: Patch)
    requires ApplyOne(content, p).Ok? && ApplyOne(ApplyOne(content, p).value, Swapped(p)).Ok?
    ensures ApplyOne(ApplyOne(content, p).value, Swapped(p)) == Ok(content)
  {
    var i := Find(content, p.find, 0);
    var patched := ApplyOne(content, p).value;
    ReplaceBack(content, i, p.find, p.replace);
    OnlyMatchIsFound(patched, p.replace, i);
  }

  /** A list split in two applies as its halves one after the other. */
  lemma {:induction false} ApplyConcat(content: Text, a: seq<Patch>, b: seq<Patch>)
    ensures ApplyAll(content, a + b)
         == (match ApplyAll(content, a) case Err(e) => Err(e) case Ok(next) => ApplyAll(next, b))
    decreases |a|
  {
    if a == [] {
      assert a + b == b;
    } else {
      assert (a + b)[0] == a[0] && (a + b)[1..] == a[1..] + b;
      if ApplyOne(content, a[0]).Ok? {
        ApplyConcat(ApplyOne(content, a[0]).value, a[1..], b);
      }
    }
  }

  /**
   Patching is invertible: if the list takes c to d and the swapped list in reverse order succeeds
   on d, the result is c again, for lists of any length.
   */
  lemma {:induction false} UndoRestores(content: Text, patches: seq<Patch>)
    requires ApplyAll(content, patches).Ok?
    requires ApplyAll(ApplyAll(content, patches).value, Undo(patches)).Ok?
    ensures ApplyAll(ApplyAll(content, patches).value, Undo(patches)) == Ok(content)
    decreases |patches|
  {
    if patches != [] {
      var next := ApplyOne(content, patches[0]).value;
      var final := ApplyAll(content, patches).value;
      ApplyConcat(final, Undo(patches[1..]), [Swapped(patches[0])]);
      UndoRestores(next, patches[1..]);
      assert ApplyAll(next, [Swapped(patches[0])]).Ok?;
      assert [Swapped(patches[0])][1..] == [];
      UndoOne(content, patches[0]);
    }
  }

  /** The undo of an applied patch succeeds exactly when its replacement is non-empty and occurs once. */
  lemma UndoSucceedsWhen(content: Text, p: Patch)
    requires ApplyOne(content, p).Ok?
    ensures ApplyOne(ApplyOne(content, p).value, Swapped(p)) == Ok(content)
            <==> p.replace != [] && CountOf(ApplyOne(content, p).value, p.replace) == Once
  {
    PatchMeaning(ApplyOne(content, p).value, Swapped(p));
    if ApplyOne(ApplyOne(content, p).value, Swapped(p)).Ok? {
      UndoOne(content, p);
    }
  }
}
