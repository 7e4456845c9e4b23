/**
 The Gemini request body: GeminiOrchestrator::AssemblePayload of core/orchestrator_gemini.cpp.
 The JSON of stored calls is kept as the stored body; `prefix` is what is put before a text.
 */
module GeminiPayload {
  import opened Ledger
  import opened MessageParser
  import opened Utf8

  datatype Speaker = ByUser | ByModel | ByFunction

  datatype PayloadPart =
    | TextOf(prefix: Text, body: Body)
    | StoredCall(body: Body)
    | SuppressedCall(body: Body)
    | Response(name: string, body: Body)
    | SuppressedResponse

  datatype Entry = Entry(speaker: Speaker, part: PayloadPart)

  datatype Content = Content(speaker: Speaker, parts: seq<PayloadPart>)

  const BEGIN: Text := Ascii("## Begin Conversation History\n")
  const CURRENT: Text := Ascii("## End of History\n\n### CURRENT REQUEST\n")

  // ----- One message -----

  function Prefix(h: seq<Row>, i: nat): Text
    requires i < |h|
  {
    if i == 0 then BEGIN
    else if i == |h| - 1 && h[i].role == User then CURRENT
    else []
  }

  predicate IsEnabledAnswer(m: Row, enabled: set<string>) {
    DecodedName(m.callId) in enabled
  }

  function SpeakerOf(m: Row, enabled: set<string>): Speaker {
    match m.role
    case Assistant => ByModel
    case Tool => if m.status == ToolCall || IsEnabledAnswer(m, enabled) then ByFunction else ByUser
    case User => ByUser
    case System => ByUser
  }

  function PartOf(h: seq<Row>, i: nat, enabled: set<string>): PayloadPart
    requires i < |h|
  {
    var m := h[i];
    if m.status == ToolCall then
      match m.body
      case FunctionCall(name, _) => if name in enabled then StoredCall(m.body) else SuppressedCall(m.body)
      case ToolCalls(_) => StoredCall(m.body)
      case Plain(_) => TextOf(Prefix(h, i), m.body)
    else if m.role == Tool then
      if IsEnabledAnswer(m, enabled) then Response(DecodedName(m.callId), m.body) else SuppressedResponse
    else TextOf(Prefix(h, i), m.body)
  }

  /** The entries of the first `n` messages; system messages have none. */
  function Entries(h: seq<Row>, n: nat, enabled: set<string>): seq<Entry>
    requires n <= |h|
  {
    if n == 0 then []
    else if h[n - 1].role == System then Entries(h, n - 1, enabled)
    else Entries(h, n - 1, enabled) + [Entry(SpeakerOf(h[n - 1], enabled), PartOf(h, n - 1, enabled))]
  }

  /** A part that has the model call, or answers for, the tool `name`. */
  predicate Names(part: PayloadPart, name: string) {
    match part
    case StoredCall(body) => body.FunctionCall? && body.name == name
    case Response(answered, _) => answered == name
    case _ => false
  }

  lemma {:induction false} OnlyEnabledEntries(h: seq<Row>, n: nat, enabled: set<string>, name: string)
    requires n <= |h| && name !in enabled
    ensures forall k :: 0 <= k < |Entries(h, n, enabled)| ==> !Names(Entries(h, n, enabled)[k].part, name)
  {
    if n > 0 {
      OnlyEnabledEntries(h, n - 1, enabled, name);
    }
  }

  // ----- Merging -----

  /** A merged list: neighbours have different speakers and every content has parts. */
  predicate IsMerged(cs: seq<Content>) {
    && (forall i :: 0 <= i < |cs| ==> cs[i].parts != [])
    && (forall i :: 0 <= i < |cs| - 1 ==> cs[i].speaker != cs[i + 1].speaker)
  }

  function EntriesOf(c: Content): (es: seq<Entry>)
    ensures |es| == |c.parts|
  {
    seq(|c.parts|, i requires 0 <= i < |c.parts| => Entry(c.speaker, c.parts[i]))
  }

  /** The entries a list of contents is made of, in order. */
  function Flatten(cs: seq<Content>): seq<Entry> {
    if cs == [] then [] else Flatten(cs[..|cs| - 1]) + EntriesOf(cs[|cs| - 1])
  }

  function AddEntry(cs: seq<Content>, e: Entry): seq<Content> {
    var n := |cs|;
    if n > 0 && cs[n - 1].speaker == e.speaker then cs[n - 1 := Content(e.speaker, cs[n - 1].parts + [e.part])]
    else cs + [Content(e.speaker, [e.part])]
  }

  function Merge(es: seq<Entry>): seq<Content> {
    if es == [] then [] else AddEntry(Merge(es[..|es| - 1]), es[|es| - 1])
  }

  lemma FlattenAppend(cs: seq<Content>, c: Content)
    ensures Flatten(cs + [c]) == Flatten(cs) + EntriesOf(c)
  {
    assert (cs + [c])[..|cs|] == cs;
  }

  lemma AddEntryFlattens(cs: seq<Content>, e: Entry)
    requires IsMerged(cs)
    ensures IsMerged(AddEntry(cs, e)) && Flatten(AddEntry(cs, e)) == Flatten(cs) + [e]
  {
    var n := |cs|;
    if n > 0 && cs[n - 1].speaker == e.speaker {
      var front, last, more := cs[..n - 1], cs[n - 1], Content(e.speaker, cs[n - 1].parts + [e.part]);
      assert cs == front + [last] && AddEntry(cs, e) == front + [more];
      FlattenAppend(front, last);
      FlattenAppend(front, more);
      assert EntriesOf(more) == EntriesOf(last) + [e];
    } else {
      FlattenAppend(cs, Content(e.speaker, [e.part]));
      assert EntriesOf(Content(e.speaker, [e.part])) == [e];
    }
  }

  /** Merging loses nothing, keeps the order and leaves no equal neighbours. */
  lemma {:induction false} MergeFlattens(es: seq<Entry>)
    ensures IsMerged(Merge(es)) && Flatten(Merge(es)) == es
  {
    if es != [] {
      var front, last := es[..|es| - 1], es[|es| - 1];
      MergeFlattens(front);
      AddEntryFlattens(Merge(front), last);
      assert es == front + [last];
    }
  }

  lemma MergeNext(es: seq<Entry>, e: Entry)
    ensures Merge(es + [e]) == AddEntry(Merge(es), e)
  {
    assert (es + [e])[..|es|] == es;
  }

  lemma EntriesNext(es: seq<Entry>, speaker: Speaker, parts: seq<PayloadPart>, p: PayloadPart)
    ensures es + EntriesOf(Content(speaker, parts + [p])) == (es + EntriesOf(Content(speaker, parts))) + [Entry(speaker, p)]
  {
  }

  lemma {:induction false} MergeOfOneSpeaker(es: seq<Entry>, speaker: Speaker, parts: seq<PayloadPart>)
    requires parts != [] && (es != [] ==> es[|es| - 1].speaker != speaker)
    ensures Merge(es + EntriesOf(Content(speaker, parts))) == Merge(es) + [Content(speaker, parts)]
    decreases |parts|
  {
    var front, p := parts[..|parts| - 1], parts[|parts| - 1];
    assert parts == front + [p];
    EntriesNext(es, speaker, front, p);
    MergeNext(es + EntriesOf(Content(speaker, front)), Entry(speaker, p));
    if front == [] {
      assert es + EntriesOf(Content(speaker, front)) == es;
      LastSpeakerOfMerge(es);
    } else {
      MergeOfOneSpeaker(es, speaker, front);
    }
  }

  lemma LastSpeakerOfMerge(es: seq<Entry>)
    ensures Merge(es) == [] <==> es == []
    ensures es != [] ==> Merge(es)[|Merge(es)| - 1].speaker == es[|es| - 1].speaker
  {
  }

  /** There is only one merged list with the given entries. */
  lemma {:induction false} MergeIsUnique(cs: seq<Content>)
    requires IsMerged(cs)
    ensures Merge(Flatten(cs)) == cs
  {
    if cs != [] {
      var front, last := cs[..|cs| - 1], cs[|cs| - 1];
      assert cs == front + [last];
      MergeIsUnique(front);
      if front != [] {
        var c := front[|front| - 1];
        assert cs[|cs| - 2] == c;
        assert EntriesOf(c)[|c.parts| - 1].speaker == c.speaker;
        assert Flatten(front)[|Flatten(front)| - 1] == EntriesOf(c)[|c.parts| - 1];
      }
      MergeOfOneSpeaker(Flatten(front), last.speaker, last.parts);
    }
  }

  // ----- The orphan filter -----

  predicate IsOrphan(cs: seq<Content>, i: nat)
    requires i < |cs|
  {
    cs[i].speaker == ByFunction && (i == 0 || cs[i - 1].speaker != ByModel)
  }

  /** The first `n` contents without the function contents that do not follow a model content. */
  function WithoutOrphans(cs: seq<Content>, n: nat): seq<Content>
    requires n <= |cs|
  {
    if n == 0 then [] else WithoutOrphans(cs, n - 1) + if IsOrphan(cs, n - 1) then [] else [cs[n - 1]]
  }

  /** The request's contents. */
  function Contents(h: seq<Row>, enabled: set<string>): seq<Content> {
    var merged := Merge(Entries(h, |h|, enabled));
    WithoutOrphans(merged, |merged|)
  }

  ghost predicate NeverNamed(cs: seq<Content>, name: string) {
    forall i, k :: 0 <= i < |cs| && 0 <= k < |cs[i].parts| ==> !Names(cs[i].parts[k], name)
  }

  lemma {:induction false} MergeNamesNothingNew(es: seq<Entry>, name: string)
    requires forall k :: 0 <= k < |es| ==> !Names(es[k].part, name)
    ensures NeverNamed(Merge(es), name)
  {
    if es != [] {
      MergeNamesNothingNew(es[..|es| - 1], name);
    }
  }

  lemma {:induction false} FilterNamesNothingNew(cs: seq<Content>, n: nat, name: string)
    requires n <= |cs| && NeverNamed(cs, name)
    ensures NeverNamed(WithoutOrphans(cs, n), name)
  {
    if n > 0 {
      FilterNamesNothingNew(cs, n - 1, name);
    }
  }

  /** No disabled tool is called or answered for in a request. */
  lemma OnlyEnabledToolsAreNamed(h: seq<Row>, enabled: set<string>, name: string)
    requires name !in enabled
    ensures NeverNamed(Contents(h, enabled), name)
  {
    var es := Entries(h, |h|, enabled);
    OnlyEnabledEntries(h, |h|, enabled, name);
    MergeNamesNothingNew(es, name);
    FilterNamesNothingNew(Merge(es), |Merge(es)|, name);
  }

  lemma {:induction false} NothingDropped(cs: seq<Content>, n: nat)
    requires n <= |cs|
    ensures |WithoutOrphans(cs, n)| <= n
    ensures WithoutOrphans(cs, n) == cs[..n] <==> forall i :: 0 <= i < n ==> !IsOrphan(cs, i)
  {
    if n > 0 {
      NothingDropped(cs, n - 1);
      assert cs[..n] == cs[..n - 1] + [cs[n - 1]];
    }
  }

  /** After the filter, the last content kept is the last content, unless that is an orphan. */
  lemma LastKept(cs: seq<Content>, n: nat)
    requires IsMerged(cs) && n <= |cs|
    ensures n > 0 && cs[n - 1].speaker != ByFunction ==>
              WithoutOrphans(cs, n) != [] && WithoutOrphans(cs, n)[|WithoutOrphans(cs, n)| - 1] == cs[n - 1]
  {
  }

  /** The role and the part of message `i`, branch by branch. */
  method Render(h: seq<Row>, i: nat, enabled: set<string>) returns (role: Speaker, part: PayloadPart)
    requires i < |h|
    ensures role == SpeakerOf(h[i], enabled) && part == PartOf(h, i, enabled)
  {
    var m := h[i];
    var prefix := [];
    if i == 0 {
      prefix := BEGIN;
    }
    if i == |h| - 1 && m.role == User && i > 0 {
      prefix := CURRENT;
    }
    role := if m.role == Assistant then ByModel else if m.role == Tool then ByFunction else ByUser;
    part := TextOf(prefix, m.body);
    if m.status == ToolCall {
      if !m.body.Plain? {
        var valid := !(m.body.FunctionCall? && m.body.name !in enabled);
        part := if valid then StoredCall(m.body) else SuppressedCall(m.body);
      }
    } else if m.role == Tool {
      var name := DecodedName(m.callId);
      if name in enabled {
        part := Response(name, m.body);
      } else {
        role := ByUser;
        part := SuppressedResponse;
      }
    }
  }

  method MergeHistory(history: seq<Row>, enabled: set<string>) returns (contents: seq<Content>)
    ensures contents == Merge(Entries(history, |history|, enabled))
  {
    contents := [];
    for i := 0 to |history|
      invariant contents == Merge(Entries(history, i, enabled))
    {
      if history[i].role != System {
        var role, part := Render(history, i, enabled);
        MergeNext(Entries(history, i, enabled), Entry(role, part));
        var last := |contents| - 1;
        if last >= 0 && contents[last].speaker == role {
          contents := contents[last := Content(role, contents[last].parts + [part])];
        } else {
          contents := contents + [Content(role, [part])];
        }
      }
    }
  }

  method DropOrphans(contents: seq<Content>) returns (valid: seq<Content>)
    requires IsMerged(contents)
    ensures valid == WithoutOrphans(contents, |contents|)
  {
    valid := [];
    for i := 0 to |contents|
      invariant valid == WithoutOrphans(contents, i)
    {
      FilterLooksBack(contents, i);
      var c := contents[i];
      if !(c.speaker == ByFunction && (valid == [] || valid[|valid| - 1].speaker != ByModel)) {
        valid := valid + [c];
      }
    }
  }

  method AssemblePayload(history: seq<Row>, enabled: set<string>) returns (valid: seq<Content>)
    ensures valid == Contents(history, enabled)
  {
    var contents := MergeHistory(history, enabled);
    MergeFlattens(Entries(history, |history|, enabled));
    valid := DropOrphans(contents);
  }

  /** Looking at the last content kept is looking at the last content. */
  lemma FilterLooksBack(cs: seq<Content>, i: nat)
    requires IsMerged(cs) && i < |cs|
    ensures var kept := WithoutOrphans(cs, i);
            cs[i].speaker == ByFunction ==>
              (IsOrphan(cs, i) <==> kept == [] || kept[|kept| - 1].speaker != ByModel)
  {
    if i > 0 {
      LastKept(cs, i);
    }
  }
}
