/**
 What a tool round leaves in the ledger: the calls that were stored are the reply's, and each gets one
 answer, in order, with the outcome the worker pool reports.
 */
module ToolRounds {
  import opened Basics
  import opened Ledger
  import opened Filtering
  import opened MessageParser
  import opened ToolDispatcher
  import opened DispatcherSafety
  import opened Conversation
  import opened ConversationProofs

  function ExtractedCalls(ms: seq<Row>): seq<Call> {
    if ms == [] then []
    else
      ExtractedCalls(ms[..|ms| - 1])
      + if ms[|ms| - 1].role == Assistant then ExtractToolCalls(ms[|ms| - 1]) else []
  }

  /** The calls a reply makes; Gemini calls have no id of their own. */
  function PartCalls(parts: seq<Part>): seq<Call> {
    if parts == [] then [] else PartCalls(parts[..|parts| - 1]) + PartCall(parts[|parts| - 1])
  }

  function CallsOf(strategy: Strategy, reply: Reply): seq<Call> {
    if reply.GeminiReply? && IsGemini(strategy) then PartCalls(reply.parts)
    else if reply.OpenAiReply? && strategy == OpenAi then reply.calls
    else []
  }

  lemma ExtractedAppend(ms: seq<Row>, m: Row)
    ensures ExtractedCalls(ms + [m])
         == ExtractedCalls(ms) + if m.role == Assistant then ExtractToolCalls(m) else []
  {
    assert (ms + [m])[..|ms|] == ms;
  }

  lemma SuffixAppend<T>(s: seq<T>, n: nat, x: T)
    requires n <= |s|
    ensures (s + [x])[n..] == s[n..] + [x]
  {
  }

  function PartCall(part: Part): seq<Call> {
    if part.CallPart? then [Call(part.name, part.name, part.args)] else []
  }

  /** A stored part is one assistant row with the part's call, or no row. */
  lemma StoredPartCall(t: Tables, turn: Turn, part: Part, tokens: int) returns (m: Row)
    requires part.CallPart? ==> IsGemini(turn.strategy)
    ensures part.OtherPart? ==> WithPart(t, turn, part, tokens).rows == t.rows
    ensures !part.OtherPart? ==> WithPart(t, turn, part, tokens).rows == t.rows + [m]
    ensures m.role == Assistant && ExtractToolCalls(m) == PartCall(part)
  {
    match part
    case CallPart(name, args) =>
      m := AssistantRow(turn, FunctionCall(name, args), name, ToolCall, tokens).(id := t.nextId);
    case TextPart(text) =>
      m := AssistantRow(turn, Plain(text), "", Completed, tokens).(id := t.nextId);
    case OtherPart =>
      m := AssistantRow(turn, Plain([]), "", Completed, tokens);
  }

  lemma {:induction false} StoredPartCalls(t: Tables, turn: Turn, parts: seq<Part>, tokens: int)
    requires IsGemini(turn.strategy)
    ensures ExtractedCalls(WithParts(t, turn, parts, tokens).rows[|t.rows|..]) == PartCalls(parts)
  {
    if parts != [] {
      var front, last := parts[..|parts| - 1], parts[|parts| - 1];
      var u := WithParts(t, turn, front, tokens);
      StoredPartCalls(t, turn, front, tokens);
      var m := StoredPartCall(u, turn, last, tokens);
      if !last.OtherPart? {
        SuffixAppend(u.rows, |t.rows|, m);
        ExtractedAppend(u.rows[|t.rows|..], m);
      }
    }
  }

  /** Storing a reply and extracting the calls from the stored rows gives back the reply's calls, in order. */
  lemma StoredCallsAreTheReplys(t: Tables, turn: Turn, usage: Option<Tokens>, reply: Reply)
    ensures ExtractedCalls(Received(t, turn, usage, reply).rows[|t.rows|..]) == CallsOf(turn.strategy, reply)
  {
    var u, tokens := WithUsage(t, turn, usage), TotalTokens(usage);
    assert u.rows == t.rows;
    if reply.GeminiReply? && IsGemini(turn.strategy) {
      StoredPartCalls(u, turn, reply.parts, tokens);
    } else if reply.OpenAiReply? && turn.strategy == OpenAi {
      StoredOpenAiCalls(u, turn, reply, tokens);
    }
  }

  lemma StoredOpenAiCalls(u: Tables, turn: Turn, reply: Reply, tokens: int)
    requires reply.OpenAiReply? && turn.strategy == OpenAi
    ensures reply.calls != [] ==> ExtractedCalls(Append(u, CallsRow(turn, reply.calls, tokens)).rows[|u.rows|..]) == reply.calls
    ensures reply.calls == [] && reply.content.Some? && reply.content.value.TextPart? ==>
              ExtractedCalls(WithPart(u, turn, reply.content.value, tokens).rows[|u.rows|..]) == []
  {
    if reply.calls != [] {
      SuffixAppend(u.rows, |u.rows|, CallsRow(turn, reply.calls, tokens).(id := u.nextId));
      ExtractedAppend([], CallsRow(turn, reply.calls, tokens).(id := u.nextId));
    } else if reply.content.Some? && reply.content.value.TextPart? {
      var m := StoredPartCall(u, turn, reply.content.value, tokens);
      SuffixAppend(u.rows, |u.rows|, m);
      ExtractedAppend([], m);
    }
  }

  /** `r` is how the call's answer is stored. */
  ghost predicate StoresAnswer(turn: Turn, r: Row, c: Call) {
    && r.role == Tool && r.session == turn.session && r.group == turn.group
    && r.callId == CombinedId(c)
    && (r.status == Completed || r.status == Error)
  }

  ghost predicate StoreAnswers(turn: Turn, rs: seq<Row>, cs: seq<Call>) {
    |rs| == |cs| && forall k :: 0 <= k < |cs| ==> StoresAnswer(turn, rs[k], cs[k])
  }

  lemma MessageAnswered(turn: Turn, m: Row, outcomes: nat -> Outcome)
    requires m.role == Assistant
    ensures StoreAnswers(turn, Answers(turn, m, outcomes), ExtractToolCalls(m))
  {
  }

  lemma AnswersConcat(turn: Turn, rs: seq<Row>, cs: seq<Call>, ss: seq<Row>, ds: seq<Call>)
    requires StoreAnswers(turn, rs, cs) && StoreAnswers(turn, ss, ds)
    ensures StoreAnswers(turn, rs + ss, cs + ds)
  {
  }

  /** A round appends, in order, one tool row for each call extracted from the reply. */
  lemma {:induction false} OneToolRowPerCall(turn: Turn, ms: seq<Row>, outcomes: (nat, nat) -> Outcome)
    ensures StoreAnswers(turn, AllAnswers(turn, ms, outcomes), ExtractedCalls(ms))
  {
    if ms != [] {
      var j := |ms| - 1;
      OneToolRowPerCall(turn, ms[..j], outcomes);
      if ms[j].role == Assistant {
        MessageAnswered(turn, ms[j], OutcomesOf(outcomes, j));
        AnswersConcat(turn, AllAnswers(turn, ms[..j], outcomes), ExtractedCalls(ms[..j]),
                      Answers(turn, ms[j], OutcomesOf(outcomes, j)), ExtractToolCalls(ms[j]));
      }
    }
  }

  /**
   When the results come from the worker pool, under any interleaving, the rows are those of the
   round: row k holds the outcome that the pool reports for call k.
   */
  lemma RoundStoresWhatThePoolReturns(threads: nat, run: seq<Action>, b: nat, turn: Turn, m: Row)
    requires Feasible(Initial(threads), run) && m.role == Assistant
    requires var s := After(Initial(threads), run);
             b < |s.batches| && s.batches[b].returned.Some? && s.batches[b].calls == DispatcherCalls(m)
    ensures var rs := After(Initial(threads), run).batches[b].returned.value;
            && |rs| == |ExtractToolCalls(m)|
            && ToolRows(turn, m.strategy, rs)
            == Answers(turn, m, (k: nat) => if k < |rs| then rs[k].output else Cancelled)
            && forall k :: 0 <= k < |rs| ==>
                 var row := ToolRows(turn, m.strategy, rs)[k];
                 && StoresAnswer(turn, row, ExtractToolCalls(m)[k])
                 && (rs[k].output.Done? ==> row.status == Completed && row.body == Plain(rs[k].output.output))
                 && (!rs[k].output.Done? ==> row.status == Error)
  {
    ReturnedBatchIsRight(threads, run, b);
    var rs := After(Initial(threads), run).batches[b].returned.value;
    var outcomes := (k: nat) => if k < |rs| then rs[k].output else Cancelled;
    assert rs == Dispatched(DispatcherCalls(m), outcomes);
  }

  lemma {:induction false} PartsKeepUsage(t: Tables, turn: Turn, parts: seq<Part>, tokens: int)
    ensures WithParts(t, turn, parts, tokens).usage == t.usage
  {
    if parts != [] {
      PartsKeepUsage(t, turn, parts[..|parts| - 1], tokens);
    }
  }

  lemma ReceivedUsage(t: Tables, turn: Turn, used: Tokens, reply: Reply)
    ensures Received(t, turn, Some(used), reply).usage
         == t.usage + [Usage(turn.session, turn.model, used.prompt, used.completion)]
  {
    if reply.GeminiReply? {
      PartsKeepUsage(WithUsage(t, turn, Some(used)), turn, reply.parts, TotalTokens(Some(used)));
    }
  }

  lemma SumOfOneMore(us: seq<Usage>, u: Usage)
    ensures SumPrompt(us + [u]) == SumPrompt(us) + u.prompt
    ensures SumCompletion(us + [u]) == SumCompletion(us) + u.completion
  {
    assert (us + [u])[..|us|] == us;
  }

  lemma UsageOfSession(us: seq<Usage>, u: Usage, session: SessionId)
    ensures Filter(us + [u], UsageOf(session))
         == if session == u.session then Filter(us, UsageOf(session)) + [u] else Filter(us, UsageOf(session))
  {
    FilterAppend(us, u, UsageOf(session));
  }

  /** The tokens of a reply are charged to its session even when the reply is unusable. */
  lemma EveryReplyIsCharged(t: Tables, turn: Turn, used: Tokens, reply: Reply, session: SessionId)
    ensures var before, after := TotalUsage(t, session), TotalUsage(Received(t, turn, Some(used), reply), session);
            && after.0 == before.0 + (if session == turn.session then used.prompt else 0)
            && after.1 == before.1 + (if session == turn.session then used.completion else 0)
  {
    var u := Usage(turn.session, turn.model, used.prompt, used.completion);
    ReceivedUsage(t, turn, used, reply);
    UsageOfSession(t.usage, u, session);
    SumOfOneMore(Filter(t.usage, UsageOf(session)), u);
  }

  lemma NumberedStore(turn: Turn, rows: seq<Row>, cs: seq<Call>, first: nat)
    requires StoreAnswers(turn, rows, cs)
    ensures StoreAnswers(turn, Numbered(rows, first), cs)
  {
    forall k | 0 <= k < |cs| ensures StoresAnswer(turn, Numbered(rows, first)[k], cs[k]) {
      assert StoresAnswer(turn, rows[k], cs[k]);
    }
  }

  /** The whole round: after the reply's own rows come the answers, one for each call of the reply. */
  lemma RoundAnswersTheReply(t: Tables, turn: Turn, usage: Option<Tokens>, reply: Reply, outcomes: (nat, nat) -> Outcome)
    returns (answers: seq<Row>)
    ensures Round(t, turn, Replies(usage, reply, outcomes)).0.rows == Received(t, turn, usage, reply).rows + answers
    ensures StoreAnswers(turn, answers, CallsOf(turn.strategy, reply))
    ensures Round(t, turn, Replies(usage, reply, outcomes)).1 <==> CallsOf(turn.strategy, reply) != []
  {
    var u := Received(t, turn, usage, reply);
    var added := u.rows[|t.rows|..];
    var rows := AllAnswers(turn, added, outcomes);
    StoredCallsAreTheReplys(t, turn, usage, reply);
    OneToolRowPerCall(turn, added, outcomes);
    AppendAllRows(u, rows);
    answers := Numbered(rows, u.nextId);
    NumberedStore(turn, rows, CallsOf(turn.strategy, reply), u.nextId);
  }
}
