/** What a turn leaves in the ledger, said of the rows themselves. */
module TurnMeaning {
  import opened Basics
  import opened Ledger
  import opened Filtering
  import opened MessageParser
  import opened ToolDispatcher
  import opened Utf8
  import opened StateBlock
  import opened Conversation
  import opened ConversationProofs
  import opened ToolRounds
  import opened Brackets
  import opened TurnProofs
  import opened Unanswered

  // ----- What the user typed -----

  lemma RoundKeepsTables(t: Tables, turn: Turn, event: Event)
    requires TablesOk(t)
    ensures TablesOk(Round(t, turn, event).0)
  {
    if event.BadRequest? {
      if FixTargetOf(t, turn.session).Some? {
        AutoFixKeepsTables(t, turn.session, FixTargetOf(t, turn.session).value);
      }
    } else if event.Replies? {
      var block := ReplyAddsBlock(t, turn, event.usage, event.reply, event.outcomes);
    }
  }

  lemma FixKeepsRow(t: Tables, turn: Turn, p: nat)
    requires TablesOk(t) && p < |t.rows| && !ToolRelated(t.rows[p]) && FixTargetOf(t, turn.session).Some?
    ensures t.rows[p].id != FixTargetOf(t, turn.session).value
  {
    TargetIsLive(t, turn.session);
    if t.rows[p].id == TargetRow(t, turn.session).value.id {
      SameIdSameRow(t.rows, t.rows[p], TargetRow(t, turn.session).value);
      assert false;
    }
  }

  /** A row that is no call and no answer stays as it is, whatever a turn meets. */
  lemma RoundKeepsRow(t: Tables, turn: Turn, event: Event, p: nat)
    requires TablesOk(t) && p < |t.rows| && !ToolRelated(t.rows[p])
    ensures p < |Round(t, turn, event).0.rows| && Round(t, turn, event).0.rows[p] == t.rows[p]
  {
    if event.BadRequest? {
      if FixTargetOf(t, turn.session).Some? {
        FixKeepsRow(t, turn, p);
      }
    } else if event.Replies? {
      var block := ReplyAddsBlock(t, turn, event.usage, event.reply, event.outcomes);
    }
  }

  lemma {:induction false} RoundsKeepRow(t: Tables, turn: Turn, events: seq<Event>, p: nat)
    requires TablesOk(t) && p < |t.rows| && !ToolRelated(t.rows[p])
    ensures p < |Rounds(t, turn, events).rows| && Rounds(t, turn, events).rows[p] == t.rows[p]
    decreases |events|
  {
    if |events| > 0 {
      RoundKeepsRow(t, turn, events[0], p);
      RoundKeepsTables(t, turn, events[0]);
      RoundsKeepRow(Round(t, turn, events[0]).0, turn, events[1..], p);
    }
  }

  /** The first row that a turn adds is what the user typed, at whatever event the turn stands. */
  lemma TurnStoresTheInput(t: Tables, turn: Turn, input: Text, events: seq<Event>)
    requires TablesOk(t)
    ensures var u := TurnTaken(t, turn, input, events);
            && |t.rows| < |u.rows|
            && u.rows[|t.rows|] == Row(t.nextId, turn.session, User, Plain(input), "", Completed, turn.group, turn.strategy, 0)
  {
    var s := Append(t, UserRow(turn, input));
    AppendKeepsTables(t, UserRow(turn, input));
    assert s.rows[|t.rows|] == Row(t.nextId, turn.session, User, Plain(input), "", Completed, turn.group, turn.strategy, 0);
    RoundsKeepRow(s, turn, events, |t.rows|);
  }

  // ----- What a reply stores -----

  function KeptParts(parts: seq<Part>): seq<Part> {
    if parts == [] then []
    else KeptParts(parts[..|parts| - 1]) + if parts[|parts| - 1].OtherPart? then [] else [parts[|parts| - 1]]
  }

  /** The parts of the reply that the strategy stores, in order. */
  function StoredParts(strategy: Strategy, reply: Reply): seq<Part> {
    match reply
    case GeminiReply(parts) => if strategy in {Gemini, GeminiGca} then KeptParts(parts) else []
    case OpenAiReply(calls, content) =>
      if strategy == OpenAi && calls == [] && content.Some? && content.value.TextPart? then [content.value] else []
    case Unusable => []
  }

  /** The row of a text or of a Gemini call. */
  ghost predicate HoldsPart(r: Row, turn: Turn, part: Part, tokens: int) {
    && r.session == turn.session && r.role == Assistant && r.group == turn.group && r.strategy == turn.strategy && r.tokens == tokens
    && (part.TextPart? ==> r.body == Plain(part.text) && r.callId == "" && r.status == Completed)
    && (part.CallPart? ==> r.body == FunctionCall(part.name, part.args) && r.callId == part.name && r.status == ToolCall)
  }

  ghost predicate HoldParts(rs: seq<Row>, turn: Turn, parts: seq<Part>, tokens: int) {
    |rs| == |parts| && forall k :: 0 <= k < |parts| ==> HoldsPart(rs[k], turn, parts[k], tokens)
  }

  lemma OnePartStored(t: Tables, turn: Turn, part: Part, tokens: int) returns (rs: seq<Row>)
    ensures WithPart(t, turn, part, tokens).rows == t.rows + rs
    ensures HoldParts(rs, turn, if part.OtherPart? then [] else [part], tokens)
  {
    rs := WithPart(t, turn, part, tokens).rows[|t.rows|..];
  }

  lemma HoldMore(rs: seq<Row>, turn: Turn, parts: seq<Part>, tokens: int, more: seq<Row>, moreParts: seq<Part>)
    requires HoldParts(rs, turn, parts, tokens) && HoldParts(more, turn, moreParts, tokens)
    ensures HoldParts(rs + more, turn, parts + moreParts, tokens)
  {
    forall k | 0 <= k < |parts + moreParts| ensures HoldsPart((rs + more)[k], turn, (parts + moreParts)[k], tokens) {
      if k < |parts| {
        assert HoldsPart(rs[k], turn, parts[k], tokens);
      } else {
        assert HoldsPart(more[k - |parts|], turn, moreParts[k - |parts|], tokens);
      }
    }
  }

  lemma {:induction false} PartsStored(t: Tables, turn: Turn, parts: seq<Part>, tokens: int) returns (rs: seq<Row>)
    ensures WithParts(t, turn, parts, tokens).rows == t.rows + rs && HoldParts(rs, turn, KeptParts(parts), tokens)
  {
    if parts == [] {
      rs := [];
      assert t.rows + [] == t.rows;
    } else {
      var front, last := parts[..|parts| - 1], parts[|parts| - 1];
      var before := PartsStored(t, turn, front, tokens);
      var more := OnePartStored(WithParts(t, turn, front, tokens), turn, last, tokens);
      HoldMore(before, turn, KeptParts(front), tokens, more, if last.OtherPart? then [] else [last]);
      rs := before + more;
      Reassociate(t.rows, before, more);
    }
  }

  /**
   What a reply adds. OpenAI calls come together in one row, under the first call's id and name; otherwise the
   rows are the texts and calls of the reply, one for one and in order. Every row has the reply's tokens.
   */
  lemma ReplyStoresItsParts(t: Tables, turn: Turn, usage: Option<Tokens>, reply: Reply) returns (rs: seq<Row>)
    ensures Received(t, turn, usage, reply).rows == t.rows + rs
    ensures var tokens := if usage.Some? then usage.value.prompt + usage.value.completion else 0;
            if reply.OpenAiReply? && turn.strategy == OpenAi && reply.calls != [] then
              && |rs| == 1 && rs[0].body == ToolCalls(reply.calls) && rs[0].status == ToolCall && rs[0].role == Assistant
              && rs[0].callId == reply.calls[0].id + "|" + reply.calls[0].name && rs[0].tokens == tokens
              && rs[0].session == turn.session && rs[0].group == turn.group && rs[0].strategy == OpenAi
            else HoldParts(rs, turn, StoredParts(turn.strategy, reply), tokens)
  {
    var u, tokens := WithUsage(t, turn, usage), TotalTokens(usage);
    assert u.rows == t.rows;
    if reply.GeminiReply? && IsGemini(turn.strategy) {
      rs := PartsStored(u, turn, reply.parts, tokens);
    } else if reply.OpenAiReply? && turn.strategy == OpenAi && reply.calls != [] {
      rs := [CallsRow(turn, reply.calls, tokens).(id := u.nextId)];
    } else if reply.OpenAiReply? && turn.strategy == OpenAi && reply.content.Some? && reply.content.value.TextPart? {
      rs := OnePartStored(u, turn, reply.content.value, tokens);
    } else {
      rs := [];
      assert t.rows + [] == t.rows;
    }
  }

  // ----- The state that a reply leaves -----

  function PartState(part: Part): Option<Text> {
    if part.TextPart? then ExtractState(part.text) else None
  }

  ghost predicate NoStateFrom(parts: seq<Part>, from: nat) {
    forall j :: from <= j < |parts| ==> PartState(parts[j]) == None
  }

  function LastState(parts: seq<Part>): Option<Text> {
    if parts == [] then None
    else if PartState(parts[|parts| - 1]).Some? then PartState(parts[|parts| - 1])
    else LastState(parts[..|parts| - 1])
  }

  lemma NoStateNext(front: seq<Part>, part: Part, from: nat)
    requires NoStateFrom(front, from) && PartState(part) == None
    ensures NoStateFrom(front + [part], from)
  {
    forall j | from <= j < |front + [part]| ensures PartState((front + [part])[j]) == None {
      if j < |front| {
        assert PartState(front[j]) == None;
      }
    }
  }

  lemma {:induction false} LastStateAt(parts: seq<Part>) returns (i: nat)
    ensures LastState(parts) == None ==> NoStateFrom(parts, 0)
    ensures LastState(parts).Some? ==> i < |parts| && LastState(parts) == PartState(parts[i]) && NoStateFrom(parts, i + 1)
  {
    i := 0;
    if parts != [] {
      var front, last := parts[..|parts| - 1], parts[|parts| - 1];
      assert parts == front + [last];
      if PartState(last).Some? {
        i := |front|;
      } else {
        i := LastStateAt(front);
        NoStateNext(front, last, if LastState(front).Some? then i + 1 else 0);
      }
    }
  }

  function Written(state: map<SessionId, Text>, session: SessionId, block: Option<Text>): map<SessionId, Text> {
    if block.Some? then state[session := block.value] else state
  }

  lemma WrittenTwice(state: map<SessionId, Text>, session: SessionId, first: Option<Text>, block: Text)
    ensures Written(state, session, first)[session := block] == state[session := block]
  {
  }

  lemma PartLeavesState(t: Tables, turn: Turn, part: Part, tokens: int)
    ensures WithPart(t, turn, part, tokens).state == Written(t.state, turn.session, PartState(part))
  {
  }

  lemma {:induction false} PartsLeaveState(t: Tables, turn: Turn, parts: seq<Part>, tokens: int)
    ensures WithParts(t, turn, parts, tokens).state == Written(t.state, turn.session, LastState(parts))
  {
    if parts != [] {
      var front, last := parts[..|parts| - 1], parts[|parts| - 1];
      PartsLeaveState(t, turn, front, tokens);
      PartLeavesState(WithParts(t, turn, front, tokens), turn, last, tokens);
      if PartState(last).Some? {
        WrittenTwice(t.state, turn.session, LastState(front), PartState(last).value);
      }
    }
  }

  /** The parts that a reply's strategy reads, other parts included. */
  function ReadParts(strategy: Strategy, reply: Reply): seq<Part> {
    if reply.GeminiReply? && strategy in {Gemini, GeminiGca} then reply.parts else StoredParts(strategy, reply)
  }

  /** After a reply the state is the block of its last text that has one, or as before; no other session's changes. */
  lemma ReplyLeavesItsState(t: Tables, turn: Turn, usage: Option<Tokens>, reply: Reply) returns (found: bool, i: nat)
    ensures var parts, u := ReadParts(turn.strategy, reply), Received(t, turn, usage, reply);
            if found then
              && i < |parts| && PartState(parts[i]).Some? && NoStateFrom(parts, i + 1)
              && u.state == t.state[turn.session := PartState(parts[i]).value]
            else NoStateFrom(parts, 0) && u.state == t.state
  {
    var parts := ReadParts(turn.strategy, reply);
    ReplyState(t, turn, usage, reply);
    i := LastStateAt(parts);
    found := LastState(parts).Some?;
  }

  lemma ReplyState(t: Tables, turn: Turn, usage: Option<Tokens>, reply: Reply)
    ensures Received(t, turn, usage, reply).state == Written(t.state, turn.session, LastState(ReadParts(turn.strategy, reply)))
  {
    var u, tokens := WithUsage(t, turn, usage), TotalTokens(usage);
    assert u.state == t.state;
    if reply.GeminiReply? && IsGemini(turn.strategy) {
      PartsLeaveState(u, turn, reply.parts, tokens);
    } else if reply.OpenAiReply? && turn.strategy == OpenAi && reply.calls == [] && reply.content.Some? && reply.content.value.TextPart? {
      PartLeavesState(u, turn, reply.content.value, tokens);
      assert [reply.content.value][..0] == [];
    }
  }

  // ----- What a refused request does -----

  /** Failures end the turn and change nothing, and so does a refusal with nothing to drop. */
  lemma FailuresChangeNothing(t: Tables, turn: Turn)
    ensures Round(t, turn, PromptFails) == (t, false) && Round(t, turn, RequestFails) == (t, false)
    ensures (forall r :: r in History(t, turn.session, false, 10) ==> r.role != Tool && r.status != ToolCall) ==>
              Round(t, turn, BadRequest) == (t, false)
  {
    FixTargetExists(History(t, turn.session, false, FIX_WINDOW));
  }

  /**
   Otherwise a refusal drops the newest live call or answer of the last ten groups, and nothing else changes
   but for the notice at the end; the turn goes on.
   */
  lemma RefusalDropsTheNewest(t: Tables, turn: Turn) returns (p: nat)
    requires TablesOk(t)
    requires exists r :: r in History(t, turn.session, false, 10) && (r.role == Tool || r.status == ToolCall)
    ensures p < |t.rows| && t.rows[p] in History(t, turn.session, false, 10)
    ensures t.rows[p].role == Tool || t.rows[p].status == ToolCall
    ensures forall r :: r in History(t, turn.session, false, 10) && (r.role == Tool || r.status == ToolCall) ==> r.id <= t.rows[p].id
    ensures var (u, going) := Round(t, turn, BadRequest);
            && going && u.state == t.state && u.usage == t.usage
            && u.rows == t.rows[p := t.rows[p].(status := Dropped)]
                         + [Row(t.nextId, turn.session, User, Plain(Ascii("History auto-fixed by dropping problematic tool calls.")),
                                "", Completed, "", NoStrategy, 0)]
  {
    p := TargetAt(t, turn.session);
    OneStatusChanges(t.rows, p, Dropped);
  }

  lemma TargetAt(t: Tables, session: SessionId) returns (p: nat)
    requires TablesOk(t) && exists r :: r in History(t, session, false, FIX_WINDOW) && ToolRelated(r)
    ensures p < |t.rows| && t.rows[p] in History(t, session, false, FIX_WINDOW) && ToolRelated(t.rows[p])
    ensures FixTargetOf(t, session) == Some(t.rows[p].id)
    ensures forall r :: r in History(t, session, false, FIX_WINDOW) && ToolRelated(r) ==> r.id <= t.rows[p].id
  {
    var h := History(t, session, false, FIX_WINDOW);
    FixTargetExists(h);
    HistoryAscends(t, session, false, FIX_WINDOW);
    HistoryMembers(t, session, false, FIX_WINDOW);
    FixTargetIsNewest(h);
    var x :| x in h && x.id == FixTarget(h).value && ToolRelated(x);
    p :| 0 <= p < |t.rows| && t.rows[p] == x;
  }

  lemma OneStatusChanges(rows: seq<Row>, p: nat, status: Status)
    requires Ascending(rows) && p < |rows|
    ensures WithStatus(rows, rows[p].id, status) == rows[p := rows[p].(status := status)]
  {
    forall i | 0 <= i < |rows| ensures rows[i].id == rows[p].id <==> i == p {
      AscendingIndex(rows, i, p);
      AscendingIndex(rows, p, i);
    }
  }

  // ----- Tool rounds -----

  lemma {:induction false} AppendsKeepStateAndUsage(t: Tables, rs: seq<Row>)
    ensures AppendAll(t, rs).state == t.state && AppendAll(t, rs).usage == t.usage
    decreases |rs|
  {
    if rs != [] {
      AppendsKeepStateAndUsage(Append(t, rs[0]), rs[1..]);
    }
  }

  /** A reply with usage adds one usage row; any other adds none. */
  lemma ReplyAddsItsUsage(t: Tables, turn: Turn, usage: Option<Tokens>, reply: Reply)
    ensures usage.Some? ==> Received(t, turn, usage, reply).usage
                              == t.usage + [Usage(turn.session, turn.model, usage.value.prompt, usage.value.completion)]
    ensures usage == None ==> Received(t, turn, usage, reply).usage == t.usage
  {
    if usage.Some? {
      ReceivedUsage(t, turn, usage.value, reply);
    } else if reply.GeminiReply? {
      PartsKeepUsage(t, turn, reply.parts, 0);
    }
  }

  /** The answers of a round touch neither state nor usage. */
  lemma AnswersKeepStateAndUsage(t: Tables, turn: Turn, usage: Option<Tokens>, reply: Reply, outcomes: (nat, nat) -> Outcome)
    ensures var (r, u) := (Received(t, turn, usage, reply), Round(t, turn, Replies(usage, reply, outcomes)).0);
            u.state == r.state && u.usage == r.usage
  {
    var r := Received(t, turn, usage, reply);
    AppendsKeepStateAndUsage(r, AllAnswers(turn, r.rows[|t.rows|..], outcomes));
  }

  /** Entry k of the batch is the k-th stored call under its combined id, with the call's own name and arguments. */
  lemma BatchHoldsTheCalls(m: Row, k: nat)
    requires k < |ExtractToolCalls(m)|
    ensures |DispatcherCalls(m)| == |ExtractToolCalls(m)|
    ensures var call, queued := ExtractToolCalls(m)[k], DispatcherCalls(m)[k];
            queued.id == CombinedId(call) && queued.name == call.name && queued.args == call.args
  {
  }

  // ----- What is stored of a tool's result -----

  /** An output is stored as it is; a failure or a cancellation as an error with its message. */
  lemma ResultsAreStored(turn: Turn, strategy: Strategy, result: ToolResult)
    ensures var r := ToolRow(turn, strategy, result);
            && r.session == turn.session && r.role == Tool && r.group == turn.group && r.strategy == strategy
            && r.callId == result.id && r.tokens == 0
            && (result.output.Done? ==> r.status == Completed && r.body == Plain(result.output.output))
            && (result.output.Failed? ==> r.status == Error && r.body == Plain(Ascii("Error: ") + result.output.message))
            && (result.output.Cancelled? ==> r.status == Error && r.body == Plain(Ascii("Error: ") + Ascii("Cancelled")))
  {
  }
}
