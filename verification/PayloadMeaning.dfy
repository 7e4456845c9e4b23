/** What each part of a Gemini request is, said of the message it belongs to. */
module PayloadMeaning {
  import opened Ledger
  import opened MessageParser
  import opened Utf8
  import opened GeminiPayload
  import opened PromptAssembly
  import opened LedgerRuns
  import opened EndToEnd
  import ToolDispatcher

  /** What goes before the text of message `i`. */
  ghost predicate IsPrefix(p: Text, h: seq<Row>, i: nat)
    requires i < |h|
  {
    && (i == 0 ==> p == Ascii("## Begin Conversation History\n"))
    && (i > 0 && i == |h| - 1 && h[i].role == User ==> p == Ascii("## End of History\n\n### CURRENT REQUEST\n"))
    && (i > 0 && !(i == |h| - 1 && h[i].role == User) ==> p == [])
  }

  /**
   The entry belongs to message `i`. A stored call of an enabled tool goes as it is and one of a disabled tool
   is suppressed; an answer goes with its own content under the name in its id, or is suppressed as a user's
   text when that tool is disabled; anything else is a text with its own content.
   */
  ghost predicate Carries(e: Entry, h: seq<Row>, i: nat, enabled: set<string>)
    requires i < |h|
  {
    var m := h[i];
    && (m.role == Assistant ==> e.speaker == ByModel)
    && (m.role == User ==> e.speaker == ByUser)
    && (m.status == ToolCall && m.body.FunctionCall? && m.body.name in enabled ==> e.part == StoredCall(m.body))
    && (m.status == ToolCall && m.body.FunctionCall? && m.body.name !in enabled ==> e.part == SuppressedCall(m.body))
    && (m.status == ToolCall && m.body.ToolCalls? ==> e.part == StoredCall(m.body))
    && (m.status != ToolCall && m.role == Tool ==>
          if DecodedName(m.callId) in enabled then e == Entry(ByFunction, Response(DecodedName(m.callId), m.body))
          else e == Entry(ByUser, SuppressedResponse))
    && ((m.status == ToolCall && m.body.Plain?) || (m.status != ToolCall && m.role != Tool) ==>
          e.part.TextOf? && e.part.body == m.body && IsPrefix(e.part.prefix, h, i))
  }

  ghost predicate Increasing(idx: seq<nat>) {
    forall j, k :: 0 <= j < k < |idx| ==> idx[j] < idx[k]
  }

  // ----- Entries -----

  /** Entry k belongs to message idx[k], for the messages before `n` that are no system messages. */
  ghost predicate Belong(es: seq<Entry>, idx: seq<nat>, h: seq<Row>, n: nat, enabled: set<string>) {
    && |es| == |idx| && Increasing(idx) && n <= |h|
    && forall k :: 0 <= k < |idx| ==> idx[k] < n && h[idx[k]].role != System && Carries(es[k], h, idx[k], enabled)
  }

  lemma EntryCarries(h: seq<Row>, i: nat, enabled: set<string>)
    requires i < |h| && h[i].role != System
    ensures Carries(Entry(SpeakerOf(h[i], enabled), PartOf(h, i, enabled)), h, i, enabled)
  {
  }

  lemma BelongNext(es: seq<Entry>, idx: seq<nat>, h: seq<Row>, n: nat, enabled: set<string>, e: Entry)
    requires Belong(es, idx, h, n, enabled) && n < |h| && h[n].role != System && Carries(e, h, n, enabled)
    ensures Belong(es + [e], idx + [n], h, n + 1, enabled)
  {
  }

  lemma {:induction false} EntriesBelong(h: seq<Row>, n: nat, enabled: set<string>) returns (idx: seq<nat>)
    requires n <= |h|
    ensures Belong(Entries(h, n, enabled), idx, h, n, enabled)
    ensures forall i :: 0 <= i < n && h[i].role != System ==> i in idx
  {
    idx := [];
    if n > 0 {
      idx := EntriesBelong(h, n - 1, enabled);
      if h[n - 1].role != System {
        EntryCarries(h, n - 1, enabled);
        BelongNext(Entries(h, n - 1, enabled), idx, h, n - 1, enabled,
                   Entry(SpeakerOf(h[n - 1], enabled), PartOf(h, n - 1, enabled)));
        idx := idx + [n - 1];
      }
    }
  }

  // ----- What the filter leaves -----

  /** `kept` are the entries of `all` at the positions `at`; what is left out speaks for a function. */
  ghost predicate Selects(kept: seq<Entry>, all: seq<Entry>, at: seq<nat>) {
    && |kept| == |at| && Increasing(at)
    && (forall k :: 0 <= k < |at| ==> at[k] < |all| && kept[k] == all[at[k]])
    && (forall j :: 0 <= j < |all| && j !in at ==> all[j].speaker == ByFunction)
  }

  lemma SelectNone(kept: seq<Entry>, all: seq<Entry>, at: seq<nat>, more: seq<Entry>)
    requires Selects(kept, all, at) && forall k :: 0 <= k < |more| ==> more[k].speaker == ByFunction
    ensures Selects(kept, all + more, at)
  {
  }

  lemma SelectAll(kept: seq<Entry>, all: seq<Entry>, at: seq<nat>, more: seq<Entry>) returns (next: seq<nat>)
    requires Selects(kept, all, at)
    ensures Selects(kept + more, all + more, next)
  {
    var tail := seq(|more|, k requires 0 <= k < |more| => |all| + k);
    next := at + tail;
    forall j | |all| <= j < |all + more| ensures j in next {
      assert next[|at| + (j - |all|)] == j;
    }
    forall j | 0 <= j < |all| && j !in next ensures all[j].speaker == ByFunction {
      assert j in at ==> j in next;
    }
  }

  lemma {:induction false} FilterSelects(cs: seq<Content>, n: nat) returns (at: seq<nat>)
    requires n <= |cs|
    ensures Selects(Flatten(WithoutOrphans(cs, n)), Flatten(cs[..n]), at)
  {
    at := [];
    assert cs[..0] == [];
    if n > 0 {
      at := FilterSelects(cs, n - 1);
      assert cs[..n] == cs[..n - 1] + [cs[n - 1]];
      FlattenAppend(cs[..n - 1], cs[n - 1]);
      if IsOrphan(cs, n - 1) {
        assert WithoutOrphans(cs, n - 1) + [] == WithoutOrphans(cs, n - 1);
        SelectNone(Flatten(WithoutOrphans(cs, n - 1)), Flatten(cs[..n - 1]), at, EntriesOf(cs[n - 1]));
      } else {
        FlattenAppend(WithoutOrphans(cs, n - 1), cs[n - 1]);
        at := SelectAll(Flatten(WithoutOrphans(cs, n - 1)), Flatten(cs[..n - 1]), at, EntriesOf(cs[n - 1]));
      }
    }
  }

  lemma Compose(kept: seq<Entry>, all: seq<Entry>, at: seq<nat>, idx: seq<nat>, h: seq<Row>, enabled: set<string>)
    returns (of: seq<nat>)
    requires Selects(kept, all, at) && Belong(all, idx, h, |h|, enabled)
    ensures Belong(kept, of, h, |h|, enabled)
    ensures forall k :: 0 <= k < |idx| && idx[k] !in of ==> all[k].speaker == ByFunction
  {
    of := seq(|at|, k requires 0 <= k < |at| => idx[at[k]]);
    forall k | k in at ensures idx[k] in of {
      var j :| 0 <= j < |at| && at[j] == k;
      assert of[j] == idx[k];
    }
  }

  lemma LeftOutAreAnswers(es: seq<Entry>, idx: seq<nat>, h: seq<Row>, enabled: set<string>, of: seq<nat>)
    requires Belong(es, idx, h, |h|, enabled) && forall i :: 0 <= i < |h| && h[i].role != System ==> i in idx
    requires forall k :: 0 <= k < |idx| && idx[k] !in of ==> es[k].speaker == ByFunction
    ensures forall i :: 0 <= i < |h| && h[i].role != System && i !in of ==> h[i].role == Tool
  {
    forall i | 0 <= i < |h| && h[i].role != System && i !in of ensures h[i].role == Tool {
      var k :| 0 <= k < |idx| && idx[k] == i;
      assert es[k].speaker == ByFunction && Carries(es[k], h, idx[k], enabled);
    }
  }

  /**
   The parts of every request, in order: part k belongs to message of[k], and the messages come in their own
   order. Nothing but answers of enabled tools and system messages is left out.
   */
  lemma PartsBelongToMessages(h: seq<Row>, enabled: set<string>) returns (of: seq<nat>)
    ensures Belong(Flatten(Contents(h, enabled)), of, h, |h|, enabled)
    ensures forall i :: 0 <= i < |h| && h[i].role != System && i !in of ==> h[i].role == Tool
  {
    var es := Entries(h, |h|, enabled);
    var idx := EntriesBelong(h, |h|, enabled);
    var at := ContentsSelect(h, enabled, es);
    of := Compose(Flatten(Contents(h, enabled)), es, at, idx, h, enabled);
    LeftOutAreAnswers(es, idx, h, enabled, of);
  }

  lemma ContentsSelect(h: seq<Row>, enabled: set<string>, es: seq<Entry>) returns (at: seq<nat>)
    requires es == Entries(h, |h|, enabled)
    ensures Selects(Flatten(Contents(h, enabled)), es, at)
  {
    var merged := Merge(es);
    MergeFlattens(es);
    at := FilterSelects(merged, |merged|);
    assert merged[..|merged|] == merged;
  }

  /** A function content that does not stand right behind a model content. */
  predicate Stray(cs: seq<Content>, i: nat)
    requires i < |cs|
  {
    cs[i].speaker == ByFunction && !(i > 0 && cs[i - 1].speaker == ByModel)
  }

  /** `kept` are the contents of `all` at the positions `at`, those that are not stray. */
  ghost predicate WithoutStrays(kept: seq<Content>, all: seq<Content>, at: seq<nat>) {
    && |kept| == |at| && Increasing(at)
    && (forall k :: 0 <= k < |at| ==> at[k] < |all| && kept[k] == all[at[k]])
    && (forall i :: 0 <= i < |all| ==> (i in at <==> !Stray(all, i)))
  }

  lemma OneMoreContent(kept: seq<Content>, front: seq<Content>, at: seq<nat>, c: Content) returns (next: seq<nat>)
    requires WithoutStrays(kept, front, at)
    ensures WithoutStrays(if Stray(front + [c], |front|) then kept else kept + [c], front + [c], next)
  {
    var all := front + [c];
    next := if Stray(all, |front|) then at else at + [|front|];
    assert |front| !in at;
    forall i | 0 <= i < |all| ensures i in next <==> !Stray(all, i) {
      if i < |front| {
        assert Stray(all, i) == Stray(front, i);
        assert i in next <==> i in at;
      }
    }
  }

  lemma {:induction false} FilterDropsStrays(cs: seq<Content>, n: nat) returns (at: seq<nat>)
    requires n <= |cs|
    ensures WithoutStrays(WithoutOrphans(cs, n), cs[..n], at)
  {
    at := [];
    if n > 0 {
      at := FilterDropsStrays(cs, n - 1);
      at := OneMoreContent(WithoutOrphans(cs, n - 1), cs[..n - 1], at, cs[n - 1]);
      assert cs[..n] == cs[..n - 1] + [cs[n - 1]];
      assert Stray(cs[..n], n - 1) == IsOrphan(cs, n - 1);
      assert WithoutOrphans(cs, n - 1) + [] == WithoutOrphans(cs, n - 1);
    }
  }

  /**
   The whole request: the parts of all messages but system messages, one for each and in order, merged so that
   neighbours differ in speaker, without the function contents that do not stand behind a model content.
   */
  lemma RequestIsTheMergedMessages(h: seq<Row>, enabled: set<string>) returns (merged: seq<Content>, of: seq<nat>, at: seq<nat>)
    ensures Belong(Flatten(merged), of, h, |h|, enabled) && forall i :: 0 <= i < |h| && h[i].role != System ==> i in of
    ensures IsMerged(merged) && WithoutStrays(Contents(h, enabled), merged, at)
  {
    var es := Entries(h, |h|, enabled);
    merged := Merge(es);
    MergeFlattens(es);
    of := EntriesBelong(h, |h|, enabled);
    at := FilterDropsStrays(merged, |merged|);
    assert merged[..|merged|] == merged;
  }

  /** After every run, when all called tools are enabled: every message but system messages has its part. */
  lemma EveryRunSendsEveryMessage(cs: seq<Command>, session: SessionId, window: int, current: Strategy, enabled: set<string>)
    returns (of: seq<nat>)
    requires AllAllowed(EMPTY, cs)
    requires CallsEnabled(Relevant(Run(EMPTY, cs), session, window, current), enabled)
    ensures var h := Tiered(Relevant(Run(EMPTY, cs), session, window, current));
            && Belong(Flatten(Contents(h, enabled)), of, h, |h|, enabled)
            && forall i :: 0 <= i < |h| && h[i].role != System ==> i in of
  {
    var h := Tiered(Relevant(Run(EMPTY, cs), session, window, current));
    EveryRunGivesAWholeRequest(cs, session, window, current, enabled);
    of := EntriesBelong(h, |h|, enabled);
  }

  /** An answer under the combined id of a call without a bar goes under that call's name. */
  lemma AnswersGoUnderTheCallsName(m: Row, call: ToolDispatcher.Call)
    requires m.callId == CombinedId(call) && '|' !in call.id
    ensures DecodedName(m.callId) == call.name
  {
    CombinedIdDecodes(call);
  }
}
