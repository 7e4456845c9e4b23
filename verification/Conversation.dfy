/**
 What one user turn does to the ledger: InteractionEngine::Process of interface/interaction_engine.cpp
 with the providers' ProcessResponse. The model's replies, HTTP failures and tool outcomes are
 arbitrary; a turn is given the finite list of events it meets, and an exhausted list is a turn
 that is still going on.
 */
module Conversation {
  import opened Basics
  import opened Ledger
  import opened MessageParser
  import opened ToolDispatcher
  import opened Utf8
  import opened StateBlock

  /** The names a turn works under. */
  datatype Turn = Turn(session: SessionId, group: GroupId, strategy: Strategy, model: string)

  /** One part of a Gemini candidate. */
  datatype Part =
    | TextPart(text: Text)
    | CallPart(name: string, args: string)
    | OtherPart

  datatype Reply =
    | GeminiReply(parts: seq<Part>)
    | OpenAiReply(calls: seq<Call>, content: Option<Part>)
    | Unusable

  datatype Tokens = Tokens(prompt: int, completion: int)

  /** `outcomes(j, k)` is how call k of the j-th message of the reply ends. */
  datatype Event =
    | PromptFails
    | BadRequest
    | RequestFails
    | Replies(usage: Option<Tokens>, reply: Reply, outcomes: (nat, nat) -> Outcome)

  // ----- Rows -----

  function UserRow(turn: Turn, input: Text): Row {
    Row(0, turn.session, User, Plain(input), "", Completed, turn.group, turn.strategy, 0)
  }

  const FIXED: Text := Ascii("History auto-fixed by dropping problematic tool calls.")

  function FixedRow(session: SessionId): Row {
    Row(0, session, User, Plain(FIXED), "", Completed, "", NoStrategy, 0)
  }

  function AssistantRow(turn: Turn, body: Body, callId: string, status: Status, tokens: int): Row {
    Row(0, turn.session, Assistant, body, callId, status, turn.group, turn.strategy, tokens)
  }

  function ToolRow(turn: Turn, strategy: Strategy, result: ToolResult): Row {
    var row := Row(0, turn.session, Tool, Plain([]), result.id, Completed, turn.group, strategy, 0);
    match result.output
    case Done(output) => row.(body := Plain(output))
    case Cancelled => row.(body := Plain(Ascii("Error: ") + Ascii("Cancelled")), status := Error)
    case Failed(message) => row.(body := Plain(Ascii("Error: ") + message), status := Error)
  }

  // ----- ProcessResponse -----

  function WithPart(t: Tables, turn: Turn, part: Part, tokens: int): (v: Tables)
    ensures t.rows <= v.rows
  {
    match part
    case CallPart(name, args) => Append(t, AssistantRow(turn, FunctionCall(name, args), name, ToolCall, tokens))
    case TextPart(text) =>
      var u := Append(t, AssistantRow(turn, Plain(text), "", Completed, tokens));
      var state := ExtractState(text);
      if state.Some? then SetState(u, turn.session, state.value) else u
    case OtherPart => t
  }

  function WithParts(t: Tables, turn: Turn, parts: seq<Part>, tokens: int): (u: Tables)
    ensures t.rows <= u.rows
  {
    if parts == [] then t
    else WithPart(WithParts(t, turn, parts[..|parts| - 1], tokens), turn, parts[|parts| - 1], tokens)
  }

  function CallsRow(turn: Turn, calls: seq<Call>, tokens: int): Row
    requires calls != []
  {
    AssistantRow(turn, ToolCalls(calls), calls[0].id + "|" + calls[0].name, ToolCall, tokens)
  }

  function TotalTokens(usage: Option<Tokens>): int {
    if usage.Some? then usage.value.prompt + usage.value.completion else 0
  }

  function WithUsage(t: Tables, turn: Turn, usage: Option<Tokens>): Tables {
    if usage.Some? then RecordUsage(t, Usage(turn.session, turn.model, usage.value.prompt, usage.value.completion)) else t
  }

  predicate IsGemini(s: Strategy) {
    s == Gemini || s == GeminiGca
  }

  /** ProcessResponse of the strategy in force; a reply in another provider's shape has no candidates. */
  function Received(t: Tables, turn: Turn, usage: Option<Tokens>, reply: Reply): (v: Tables)
    ensures t.rows <= v.rows
  {
    var u := WithUsage(t, turn, usage);
    var tokens := TotalTokens(usage);
    if reply.GeminiReply? && IsGemini(turn.strategy) then WithParts(u, turn, reply.parts, tokens)
    else if reply.OpenAiReply? && turn.strategy == OpenAi then
      if reply.calls != [] then Append(u, CallsRow(turn, reply.calls, tokens))
      else if reply.content.Some? && reply.content.value.TextPart? then WithPart(u, turn, reply.content.value, tokens)
      else u
    else u
  }

  // ----- Tool answers -----

  function DispatcherCalls(m: Row): (calls: seq<Call>)
    ensures |calls| == |ExtractToolCalls(m)|
  {
    var cs := ExtractToolCalls(m);
    seq(|cs|, k requires 0 <= k < |cs| => Call(CombinedId(cs[k]), cs[k].name, cs[k].args))
  }

  /** What the dispatcher returns: one result per call, in order, under the call's id and name. */
  function Dispatched(calls: seq<Call>, outcomes: nat -> Outcome): (rs: seq<ToolResult>)
    ensures |rs| == |calls|
  {
    seq(|calls|, k requires 0 <= k < |calls| => ToolResult(calls[k].id, calls[k].name, outcomes(k)))
  }

  function ToolRows(turn: Turn, strategy: Strategy, results: seq<ToolResult>): (rows: seq<Row>)
    ensures |rows| == |results|
  {
    seq(|results|, k requires 0 <= k < |results| => ToolRow(turn, strategy, results[k]))
  }

  function Answers(turn: Turn, m: Row, outcomes: nat -> Outcome): seq<Row> {
    if m.role == Assistant then ToolRows(turn, m.strategy, Dispatched(DispatcherCalls(m), outcomes)) else []
  }

  function OutcomesOf(outcomes: (nat, nat) -> Outcome, j: nat): nat -> Outcome {
    (k: nat) => outcomes(j, k)
  }

  function AllAnswers(turn: Turn, ms: seq<Row>, outcomes: (nat, nat) -> Outcome): seq<Row> {
    if ms == [] then []
    else
      var j := |ms| - 1;
      AllAnswers(turn, ms[..j], outcomes) + Answers(turn, ms[j], OutcomesOf(outcomes, j))
  }

  // ----- The turn -----

  /** The newest tool call or tool answer. */
  function FixTarget(h: seq<Row>): Option<nat> {
    if h == [] then None
    else if ToolRelated(h[|h| - 1]) then Some(h[|h| - 1].id)
    else FixTarget(h[..|h| - 1])
  }

  const FIX_WINDOW := 10

  function FixTargetOf(t: Tables, session: SessionId): Option<nat> {
    FixTarget(History(t, session, false, FIX_WINDOW))
  }

  function AutoFixed(t: Tables, session: SessionId, target: nat): Tables {
    Append(UpdateStatus(t, target, Dropped), FixedRow(session))
  }

  /** What one event does, and whether the loop goes on. */
  function Round(t: Tables, turn: Turn, event: Event): (Tables, bool) {
    match event
    case PromptFails => (t, false)
    case RequestFails => (t, false)
    case BadRequest =>
      var target := FixTargetOf(t, turn.session);
      if target.Some? then (AutoFixed(t, turn.session, target.value), true) else (t, false)
    case Replies(usage, reply, outcomes) =>
      var u := Received(t, turn, usage, reply);
      var answers := AllAnswers(turn, u.rows[|t.rows|..], outcomes);
      (AppendAll(u, answers), answers != [])
  }

  function Rounds(t: Tables, turn: Turn, events: seq<Event>): Tables
    decreases |events|
  {
    if |events| == 0 then t
    else
      var (u, going) := Round(t, turn, events[0]);
      if going then Rounds(u, turn, events[1..]) else u
  }

  function TurnTaken(t: Tables, turn: Turn, input: Text, events: seq<Event>): Tables {
    Rounds(Append(t, UserRow(turn, input)), turn, events)
  }
}
