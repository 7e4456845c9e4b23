/**
 From runs to requests: what every run keeps in the ledger makes the Gemini request well formed, so
 that its orphan filter has nothing to do unless a call of a disabled tool is in the way.
 */
module EndToEnd {
  import opened Basics
  import opened Ledger
  import opened Filtering
  import opened MessageParser
  import opened Brackets
  import opened LedgerRuns
  import opened GeminiPayload
  import opened PromptAssembly

  // ----- The orphan filter on entries -----

  /** No function entry comes first or right after a user entry. */
  predicate FunctionsFollow(es: seq<Entry>) {
    forall k :: 0 <= k < |es| && es[k].speaker == ByFunction ==> k > 0 && es[k - 1].speaker != ByUser
  }

  ghost predicate OrphanFree(cs: seq<Content>) {
    forall i :: 0 <= i < |cs| ==> !IsOrphan(cs, i)
  }

  lemma OrphanFreeNext(cs: seq<Content>, e: Entry)
    ensures OrphanFree(AddEntry(cs, e)) <==>
              && OrphanFree(cs)
              && (e.speaker == ByFunction ==> cs != [] && cs[|cs| - 1].speaker != ByUser)
  {
    var all := AddEntry(cs, e);
    assert forall i :: 0 <= i < |cs| ==> all[i].speaker == cs[i].speaker;
    assert forall i :: 0 <= i < |cs| ==> (IsOrphan(all, i) <==> IsOrphan(cs, i));
    if |all| > |cs| {
      assert IsOrphan(all, |cs|) <==> e.speaker == ByFunction && (cs == [] || cs[|cs| - 1].speaker != ByModel);
    } else {
      assert !IsOrphan(cs, |cs| - 1) || cs[|cs| - 1].speaker == ByFunction;
    }
  }

  lemma FunctionsFollowNext(es: seq<Entry>, e: Entry)
    ensures FunctionsFollow(es + [e]) <==>
              FunctionsFollow(es) && (e.speaker == ByFunction ==> es != [] && es[|es| - 1].speaker != ByUser)
  {
    var all := es + [e];
    assert all[|es|] == e;
    assert forall k :: 0 <= k < |es| ==> all[k] == es[k];
  }

  /** The merged list has no orphan exactly when every function entry follows a model or function entry. */
  lemma {:induction false} OrphansByEntry(es: seq<Entry>)
    ensures OrphanFree(Merge(es)) <==> FunctionsFollow(es)
  {
    if es != [] {
      var front, last := es[..|es| - 1], es[|es| - 1];
      assert es == front + [last];
      OrphansByEntry(front);
      LastSpeakerOfMerge(front);
      OrphanFreeNext(Merge(front), last);
      FunctionsFollowNext(front, last);
    }
  }

  // ----- The same on messages -----

  /** The speaker of the last of the first `n` messages that is not a system message. */
  function LastSpeaker(h: seq<Row>, n: nat, enabled: set<string>): Option<Speaker>
    requires n <= |h|
  {
    if n == 0 then None
    else if h[n - 1].role == System then LastSpeaker(h, n - 1, enabled)
    else Some(SpeakerOf(h[n - 1], enabled))
  }

  ghost predicate MessageFollows(h: seq<Row>, k: nat, enabled: set<string>)
    requires k < |h|
  {
    SpeakerOf(h[k], enabled) == ByFunction ==>
      LastSpeaker(h, k, enabled).Some? && LastSpeaker(h, k, enabled).value != ByUser
  }

  lemma {:induction false} LastEntrySpeaker(h: seq<Row>, n: nat, enabled: set<string>)
    requires n <= |h|
    ensures var es := Entries(h, n, enabled);
            LastSpeaker(h, n, enabled) == if es == [] then None else Some(es[|es| - 1].speaker)
  {
    if n > 0 {
      LastEntrySpeaker(h, n - 1, enabled);
    }
  }

  lemma {:induction false} EntriesFollow(h: seq<Row>, n: nat, enabled: set<string>)
    requires n <= |h|
    ensures FunctionsFollow(Entries(h, n, enabled)) <==> forall k :: 0 <= k < n ==> MessageFollows(h, k, enabled)
  {
    if n > 0 {
      EntriesFollow(h, n - 1, enabled);
      LastEntrySpeaker(h, n - 1, enabled);
      if h[n - 1].role != System {
        FunctionsFollowNext(Entries(h, n - 1, enabled), Entry(SpeakerOf(h[n - 1], enabled), PartOf(h, n - 1, enabled)));
      }
      assert MessageFollows(h, n - 1, enabled) || SpeakerOf(h[n - 1], enabled) == ByFunction;
    }
  }

  /** The filter drops nothing exactly when every function message follows a model or function message. */
  lemma FilterByMessage(h: seq<Row>, enabled: set<string>)
    ensures Contents(h, enabled) == Merge(Entries(h, |h|, enabled))
       <==> forall k :: 0 <= k < |h| ==> MessageFollows(h, k, enabled)
  {
    var es := Entries(h, |h|, enabled);
    var merged := Merge(es);
    assert merged[..|merged|] == merged;
    NothingDropped(merged, |merged|);
    OrphansByEntry(es);
    EntriesFollow(h, |h|, enabled);
  }

  // ----- Bracketed histories -----

  /** A live history of one session, oldest first, in which answers have their calls. */
  ghost predicate IsHistory(h: seq<Row>) {
    && Ascending(h) && Bracketed(h)
    && (forall r :: r in h ==> IsLive(r))
    && (forall q, r :: q in h && r in h ==> q.session == r.session)
  }

  /** Right before an answer there is an assistant message or another answer. */
  lemma BeforeAnAnswer(h: seq<Row>, k: nat)
    requires IsHistory(h) && k < |h| && h[k].role == Tool
    ensures k > 0 && (h[k - 1].role == Assistant || h[k - 1].role == Tool)
  {
    var t := h[k];
    assert t in h;
    var c :| c in h && AnswersCall(t, c) && CleanBetween(h, c, t);
    var j :| 0 <= j < |h| && h[j] == c;
    AscendingIndex(h, j, k);
    var m := h[k - 1];
    assert m in h;
    if j < k - 1 {
      AscendingIndex(h, j, k - 1);
      AscendingIndex(h, k - 1, k);
    }
  }

  ghost predicate NotAfterSuppressed(h: seq<Row>, k: nat, enabled: set<string>)
    requires k < |h|
  {
    SpeakerOf(h[k], enabled) == ByFunction && k > 0 && h[k - 1].role == Tool ==> SpeakerOf(h[k - 1], enabled) == ByFunction
  }

  /** No answer of an enabled tool stands right after a suppressed one. */
  ghost predicate NoAnswerAfterSuppressed(h: seq<Row>, enabled: set<string>) {
    forall k :: 0 <= k < |h| ==> NotAfterSuppressed(h, k, enabled)
  }

  /** Truncation changes contents only. */
  lemma TieredSpeakers(h: seq<Row>, enabled: set<string>)
    ensures forall k :: 0 <= k < |h| ==>
              Tiered(h)[k].role == h[k].role && SpeakerOf(Tiered(h)[k], enabled) == SpeakerOf(h[k], enabled)
  {
  }

  lemma FollowsInHistory(h: seq<Row>, k: nat, enabled: set<string>)
    requires IsHistory(h) && k < |h|
    ensures MessageFollows(h, k, enabled) <==> NotAfterSuppressed(h, k, enabled)
  {
    if SpeakerOf(h[k], enabled) == ByFunction {
      BeforeAnAnswer(h, k);
    }
  }

  lemma {:induction false} SameSpeakersSameFollowing(h: seq<Row>, c: seq<Row>, n: nat, enabled: set<string>)
    requires |c| == |h| && n <= |h|
    requires forall k :: 0 <= k < |h| ==> c[k].role == h[k].role && SpeakerOf(c[k], enabled) == SpeakerOf(h[k], enabled)
    ensures LastSpeaker(c, n, enabled) == LastSpeaker(h, n, enabled)
  {
    if n > 0 {
      SameSpeakersSameFollowing(h, c, n - 1, enabled);
    }
  }

  /** For a history of the ledger: the filter drops something only behind a suppressed answer. */
  lemma FilterOnHistory(h: seq<Row>, enabled: set<string>)
    requires IsHistory(h)
    ensures Contents(Tiered(h), enabled) == Merge(Entries(Tiered(h), |h|, enabled)) <==> NoAnswerAfterSuppressed(h, enabled)
  {
    var c := Tiered(h);
    FilterByMessage(c, enabled);
    TieredSpeakers(h, enabled);
    forall k | 0 <= k < |h| ensures MessageFollows(c, k, enabled) <==> NotAfterSuppressed(h, k, enabled) {
      SameSpeakersSameFollowing(h, c, k, enabled);
      FollowsInHistory(h, k, enabled);
    }
  }

  /** Every tool called in `h` is enabled, under a call id without a bar. */
  ghost predicate CallsEnabled(h: seq<Row>, enabled: set<string>) {
    forall c, call :: c in h && call in ExtractToolCalls(c) ==> call.name in enabled && '|' !in call.id
  }

  lemma EnabledCallsHaveEnabledAnswers(h: seq<Row>, enabled: set<string>)
    requires IsHistory(h) && CallsEnabled(h, enabled)
    ensures forall t :: t in h && t.role == Tool ==> IsEnabledAnswer(t, enabled)
    ensures NoAnswerAfterSuppressed(h, enabled)
  {
    forall t | t in h && t.role == Tool ensures IsEnabledAnswer(t, enabled) {
      var c :| c in h && AnswersCall(t, c) && CleanBetween(h, c, t);
      var call :| call in ExtractToolCalls(c) && CombinedId(call) == t.callId;
      CombinedIdDecodes(call);
    }
  }

  // ----- Main results -----

  /** What the program takes from a well-kept ledger is a bracketed history, whatever the window and provider. */
  lemma RelevantIsHistory(t: Tables, session: SessionId, window: int, current: Strategy)
    requires LedgerOk(t)
    ensures IsHistory(Relevant(t, session, window, current))
  {
    var all := SessionRows(t.rows, session, false);
    var h := History(t, session, false, window);
    SelectionKeepsBrackets(t.rows, OfSession(session, false));
    FilterAscends(t.rows, OfSession(session, false));
    if window > 0 {
      SelectionKeepsBrackets(all, InGroups(LastOf(GroupsOf(all), window)));
      FilterAscends(all, InGroups(LastOf(GroupsOf(all), window)));
    }
    SelectionKeepsBrackets(h, KeptFor(current));
    FilterAscends(h, KeptFor(current));
    FilterMembers(h, KeptFor(current));
    HistoryMembers(t, session, false, window);
  }

  /**
   After every run, for every session, window and provider: the filter keeps the whole request
   exactly when no answer of an enabled tool stands right after a suppressed one.
   */
  lemma EveryRunFilterIsExact(cs: seq<Command>, session: SessionId, window: int, current: Strategy, enabled: set<string>)
    requires AllAllowed(EMPTY, cs)
    ensures var h := Relevant(Run(EMPTY, cs), session, window, current);
            Contents(Tiered(h), enabled) == Merge(Entries(Tiered(h), |h|, enabled)) <==> NoAnswerAfterSuppressed(h, enabled)
  {
    EveryRunKeepsLedger(cs);
    RelevantIsHistory(Run(EMPTY, cs), session, window, current);
    FilterOnHistory(Relevant(Run(EMPTY, cs), session, window, current), enabled);
  }

  /**
   When every tool called in the history is enabled, the filter drops nothing: the request holds
   one part for each message, in order, and no two neighbouring contents have the same speaker.
   */
  lemma EveryRunGivesAWholeRequest(cs: seq<Command>, session: SessionId, window: int, current: Strategy, enabled: set<string>)
    requires AllAllowed(EMPTY, cs)
    requires CallsEnabled(Relevant(Run(EMPTY, cs), session, window, current), enabled)
    ensures var h := Relevant(Run(EMPTY, cs), session, window, current);
            var contents := Contents(Tiered(h), enabled);
            && Flatten(contents) == Entries(Tiered(h), |h|, enabled)
            && IsMerged(contents) && OrphanFree(contents)
  {
    var h := Relevant(Run(EMPTY, cs), session, window, current);
    EveryRunKeepsLedger(cs);
    RelevantIsHistory(Run(EMPTY, cs), session, window, current);
    EnabledCallsHaveEnabledAnswers(h, enabled);
    EveryRunFilterIsExact(cs, session, window, current, enabled);
    var es := Entries(Tiered(h), |h|, enabled);
    MergeFlattens(es);
    NothingDropped(Merge(es), |Merge(es)|);
    assert Merge(es)[..|Merge(es)|] == Merge(es);
  }

  /** The prompt of the session's own window, and the empty one when the window is -1. */
  lemma EveryRunGivesAWholePrompt(cs: seq<Command>, session: SessionId, current: Strategy, enabled: set<string>)
    requires AllAllowed(EMPTY, cs)
    requires CallsEnabled(Relevant(Run(EMPTY, cs), session, WindowOf(Run(EMPTY, cs), session), current), enabled)
    ensures var t := Run(EMPTY, cs);
            var h := if WindowOf(t, session) == -1 then [] else Relevant(t, session, WindowOf(t, session), current);
            var contents := Prompt(t, session, current, enabled);
            && Flatten(contents) == Entries(Tiered(h), |h|, enabled)
            && IsMerged(contents) && OrphanFree(contents)
  {
    EveryRunGivesAWholeRequest(cs, session, WindowOf(Run(EMPTY, cs), session), current, enabled);
  }
}
