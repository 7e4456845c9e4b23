/**
 From the ledger to the messages of a request: the provider filter and the tiered truncation of
 tool answers (GetRelevantHistory and AssemblePrompt of core/orchestrator.cpp). The system
 instruction is not part of this model.
 */
module PromptAssembly {
  import opened Basics
  import opened Utf8
  import opened StateBlock
  import opened Ledger
  import opened Filtering
  import opened Truncation
  import opened Database
  import opened GeminiPayload

  // ----- The provider filter -----

  predicate StrategyMatches(current: Strategy, s: Strategy) {
    s == NoStrategy || s == current || (current == GeminiGca && s == Gemini) || (current == Gemini && s == GeminiGca)
  }

  function KeptFor(current: Strategy): Row -> bool {
    (m: Row) => !ToolRelated(m) || StrategyMatches(current, m.strategy)
  }

  function Relevant(t: Tables, session: SessionId, window: int, current: Strategy): seq<Row> {
    Filter(History(t, session, false, window), KeptFor(current))
  }

  // ----- Tiers -----

  const ACTIVE_FULL_LIMIT := 5000
  const ACTIVE_DEGRADED_LIMIT := 400
  const INACTIVE_LIMIT := 120
  const FULL_FIDELITY_COUNT := 5

  /** The group of the newest message. */
  function ActiveGroup(h: seq<Row>): GroupId {
    if h == [] then "" else h[|h| - 1].group
  }

  predicate IsActiveAnswer(m: Row, active: GroupId) {
    m.role == Tool && active != "" && m.group == active
  }

  function CountActive(h: seq<Row>, active: GroupId): (n: nat) {
    if h == [] then 0
    else CountActive(h[..|h| - 1], active) + if IsActiveAnswer(h[|h| - 1], active) then 1 else 0
  }

  /** An answer of the active group is shown in full when fewer than five more of them follow it. */
  function LimitAt(h: seq<Row>, i: nat): nat
    requires i < |h|
  {
    var active := ActiveGroup(h);
    if !IsActiveAnswer(h[i], active) then INACTIVE_LIMIT
    else if CountActive(h[i + 1..], active) < FULL_FIDELITY_COUNT then ACTIVE_FULL_LIMIT
    else ACTIVE_DEGRADED_LIMIT
  }

  function CutBody(b: Body, limit: nat, id: nat): Body {
    if b.Plain? then Plain(Truncated(b.text, limit, id)) else b
  }

  function CutAt(h: seq<Row>, i: nat): Row
    requires i < |h|
  {
    if h[i].role == Tool then h[i].(body := CutBody(h[i].body, LimitAt(h, i), h[i].id)) else h[i]
  }

  function Tiered(h: seq<Row>): (c: seq<Row>)
    ensures |c| == |h|
  {
    seq(|h|, i requires 0 <= i < |h| => CutAt(h, i))
  }

  lemma {:induction false} CountSplit(h: seq<Row>, i: nat, active: GroupId)
    requires i <= |h|
    ensures CountActive(h, active) == CountActive(h[..i], active) + CountActive(h[i..], active)
    decreases |h|
  {
    if i == |h| {
      assert h[..i] == h;
    } else {
      var front := h[..|h| - 1];
      CountSplit(front, i, active);
      assert front[..i] == h[..i] && front[i..] == h[i..][..|h| - i - 1];
    }
  }

  lemma CountNext(h: seq<Row>, i: nat, active: GroupId)
    requires i < |h|
    ensures CountActive(h[..i + 1], active) == CountActive(h[..i], active) + if IsActiveAnswer(h[i], active) then 1 else 0
  {
    assert h[..i + 1][..i] == h[..i];
  }

  method CountActiveAnswers(h: array<Row>, active: GroupId) returns (total: nat)
    ensures total == CountActive(h[..], active)
  {
    total := 0;
    for i := 0 to h.Length
      invariant total == CountActive(h[..i], active)
    {
      CountNext(h[..], i, active);
      assert h[..][..i] == h[..i] && h[..][..i + 1] == h[..i + 1];
      if h[i].role == Tool && active != "" && h[i].group == active {
        total := total + 1;
      }
    }
    assert h[..h.Length] == h[..];
  }

  /** One round of the loop: whether the answer at hand, number `seen`, is among the last ones. */
  lemma RecencyByIndex(h: seq<Row>, i: nat, seen: nat)
    requires i < |h| && IsActiveAnswer(h[i], ActiveGroup(h)) && seen == CountActive(h[..i], ActiveGroup(h))
    ensures var total := CountActive(h, ActiveGroup(h));
            CountActive(h[i + 1..], ActiveGroup(h)) < FULL_FIDELITY_COUNT
            <==> seen >= if total > FULL_FIDELITY_COUNT then total - FULL_FIDELITY_COUNT else 0
  {
    CountNext(h, i, ActiveGroup(h));
    CountSplit(h, i + 1, ActiveGroup(h));
  }

  method CutAnswer(m: Row, limit: nat) returns (c: Row)
    ensures c == m.(body := CutBody(m.body, limit, m.id))
  {
    c := m;
    if m.body.Plain? {
      var text := SmarterTruncate(m.body.text, limit, m.id);
      c := m.(body := Plain(text));
    }
  }

  /** The limit for the answer `m` at position `i` of `h`, and the number of active answers up to it. */
  method PickLimit(ghost h: seq<Row>, ghost i: nat, m: Row, active: GroupId, total: nat, seen: nat)
    returns (limit: nat, next: nat)
    requires i < |h| && m == h[i] && m.role == Tool && active == ActiveGroup(h)
    requires total == CountActive(h, active) && seen == CountActive(h[..i], active)
    ensures limit == LimitAt(h, i) && next == CountActive(h[..i + 1], active)
  {
    CountNext(h, i, active);
    if active == "" || m.group != active {
      return INACTIVE_LIMIT, seen;
    }
    RecencyByIndex(h, i, seen);
    var isRecent := seen >= if total > FULL_FIDELITY_COUNT then total - FULL_FIDELITY_COUNT else 0;
    return if isRecent then ACTIVE_FULL_LIMIT else ACTIVE_DEGRADED_LIMIT, seen + 1;
  }

  /** `h` with its first `n` messages cut. */
  ghost function TieredUpTo(h: seq<Row>, n: nat): (c: seq<Row>)
    requires n <= |h|
    ensures |c| == |h|
  {
    seq(|h|, i requires 0 <= i < |h| => if i < n then CutAt(h, i) else h[i])
  }

  lemma TieredNext(h: seq<Row>, n: nat)
    requires n < |h|
    ensures TieredUpTo(h, n)[n] == h[n]
    ensures TieredUpTo(h, n + 1) == TieredUpTo(h, n)[n := CutAt(h, n)]
  {
  }

  lemma TieredEnds(h: seq<Row>)
    ensures TieredUpTo(h, 0) == h && TieredUpTo(h, |h|) == Tiered(h)
  {
  }

  /** One round of the truncation loop. */
  method TruncateAt(h: array<Row>, i: nat, ghost before: seq<Row>, active: GroupId, total: nat, seen: nat) returns (next: nat)
    requires i < h.Length == |before| && h[..] == TieredUpTo(before, i)
    requires active == ActiveGroup(before)
    requires total == CountActive(before, active) && seen == CountActive(before[..i], active)
    modifies h
    ensures h[..] == TieredUpTo(before, i + 1) && next == CountActive(before[..i + 1], active)
  {
    TieredNext(before, i);
    var m := h[i];
    assert m == h[..][i] == before[i];
    if m.role == Tool {
      var limit;
      limit, next := PickLimit(before, i, m, active, total, seen);
      var c := CutAnswer(m, limit);
      h[i] := c;
      assert h[..] == TieredUpTo(before, i)[i := c];
    } else {
      CountNext(before, i, active);
      next := seen;
      assert h[..] == h[..][i := m];
    }
  }

  /** The truncation loop, on the messages in place. */
  method TruncateAnswers(h: array<Row>)
    modifies h
    ensures h[..] == Tiered(old(h[..]))
  {
    ghost var before := h[..];
    var active := if h.Length == 0 then "" else h[h.Length - 1].group;
    var total := CountActiveAnswers(h, active);
    var seen := 0;
    TieredEnds(before);
    for i := 0 to h.Length
      invariant seen == CountActive(before[..i], active) && h[..] == TieredUpTo(before, i)
    {
      seen := TruncateAt(h, i, before, active, total, seen);
    }
  }

  // ----- AssemblePrompt -----

  /** The contents of the request of a Gemini strategy; window -1 turns the history off. */
  function Prompt(t: Tables, session: SessionId, current: Strategy, enabled: set<string>): seq<Content> {
    if WindowOf(t, session) == -1 then []
    else Contents(Tiered(Relevant(t, session, WindowOf(t, session), current)), enabled)
  }

  method GetRelevantHistory(db: Connection, session: SessionId, window: int, current: Strategy) returns (history: seq<Row>)
    ensures history == Relevant(db.tables, session, window, current)
    ensures forall m :: m in history <==>
              && m in History(db.tables, session, false, window)
              && (m.role == Tool || m.status == ToolCall ==>
                    || m.strategy == NoStrategy || m.strategy == current
                    || (m.strategy in {Gemini, GeminiGca} && current in {Gemini, GeminiGca}))
  {
    FilterMembers(History(db.tables, session, false, window), KeptFor(current));
    var fetched := db.GetConversationHistory(session, false, window);
    history := [];
    for i := 0 to |fetched|
      invariant history == Filter(fetched[..i], KeptFor(current))
    {
      FilterNext(fetched, i, KeptFor(current));
      var isToolRelated := fetched[i].role == Tool || fetched[i].status == ToolCall;
      if !isToolRelated || StrategyMatches(current, fetched[i].strategy) {
        history := history + [fetched[i]];
      }
    }
    assert fetched[..|fetched|] == fetched;
  }

  method AssemblePrompt(db: Connection, session: SessionId, current: Strategy, enabled: set<string>) returns (contents: seq<Content>)
    ensures contents == Prompt(db.tables, session, current, enabled)
  {
    var size := WindowOf(db.tables, session);
    if size == -1 {
      return [];
    }
    var relevant := GetRelevantHistory(db, session, size, current);
    var history := new Row[|relevant|](i requires 0 <= i < |relevant| => relevant[i]);
    assert history[..] == relevant;
    TruncateAnswers(history);
    contents := AssemblePayload(history[..], enabled);
  }

  // ----- RebuildContext -----

  /** The text of the content column; `json` is how a stored call is written. */
  function ContentText(b: Body, json: Body -> Text): Text {
    if b.Plain? then b.text else json(b)
  }

  /** The newest state block in the assistant messages of `h`. */
  function NewestState(h: seq<Row>, json: Body -> Text): Option<Text> {
    if h == [] then None
    else
      var m := h[|h| - 1];
      if m.role == Assistant && ExtractState(ContentText(m.body, json)).Some? then ExtractState(ContentText(m.body, json))
      else NewestState(h[..|h| - 1], json)
  }

  function WithState(t: Tables, session: SessionId, state: Option<Text>): Tables {
    if state.Some? then SetState(t, session, state.value) else t
  }

  /** The session's state becomes the newest one in its window, if there is one. */
  function Rebuilt(t: Tables, session: SessionId, current: Strategy, json: Body -> Text): Tables {
    WithState(t, session, NewestState(Relevant(t, session, WindowOf(t, session), current), json))
  }

  lemma LastStateWins(t: Tables, session: SessionId, first: Option<Text>, second: Text)
    ensures SetState(WithState(t, session, first), session, second) == SetState(t, session, second)
  {
    if first.Some? {
      var e := EnsureSession(t, session);
      assert e.state[session := first.value][session := second] == e.state[session := second];
    }
  }

  method RebuildContext(db: Connection, session: SessionId, current: Strategy, json: Body -> Text)
    modifies db
    ensures db.tables == Rebuilt(old(db.tables), session, current, json)
  {
    var history := GetRelevantHistory(db, session, WindowOf(db.tables, session), current);
    for i := 0 to |history|
      invariant db.tables == WithState(old(db.tables), session, NewestState(history[..i], json))
    {
      assert history[..i + 1][..i] == history[..i];
      var m := history[i];
      if m.role == Assistant {
        var state := ExtractState(ContentText(m.body, json));
        if state.Some? {
          LastStateWins(old(db.tables), session, NewestState(history[..i], json), state.value);
          db.SetSessionState(session, state.value);
        }
      }
    }
    assert history[..|history|] == history;
  }
}
