/**
 What a request takes from the ledger, said of the messages themselves: which ones it takes, how far each
 answer is cut, and which state a rebuild finds.
 */
module PromptMeaning {
  import opened Basics
  import opened Utf8
  import opened StateBlock
  import opened Ledger
  import opened Filtering
  import opened MessageParser
  import opened Truncation
  import opened Brackets
  import opened TurnProofs
  import opened LedgerRuns
  import opened Pairing
  import opened Unanswered
  import opened PromptAssembly

  // ----- Which messages -----

  /**
   In the order of the windowed history: every message that is no call and no answer, and a call or an answer
   exactly when it has no strategy, that of the request, or both are of the Gemini family.
   */
  lemma RelevantMessages(t: Tables, session: SessionId, window: int, current: Strategy)
    requires Ascending(t.rows)
    ensures var h, all := Relevant(t, session, window, current), History(t, session, false, window);
            && Ascending(all) && Ascending(h)
            && (forall m :: m in h <==>
                  && m in all
                  && (m.role == Tool || m.status == ToolCall ==>
                        || m.strategy == NoStrategy || m.strategy == current
                        || (m.strategy in {Gemini, GeminiGca} && current in {Gemini, GeminiGca})))
  {
    var all := History(t, session, false, window);
    HistoryAscends(t, session, false, window);
    FilterAscends(all, KeptFor(current));
    FilterMembers(all, KeptFor(current));
  }

  lemma LiveToolRowsHaveAStrategy(t: Tables, m: Row)
    requires LedgerOk(t) && CallsStored(t.rows) && m in t.rows && IsLive(m) && ToolRelated(m)
    ensures m.strategy != NoStrategy
  {
    if m.status != ToolCall {
      assert HasCall(t.rows, m);
      var c :| c in t.rows && AnswersCall(m, c) && CleanBetween(t.rows, c, m);
      assert ExtractToolCalls(c) != [];
    }
  }

  /**
   After every run, for every window: a call or an answer in the windowed history goes into the request of a
   provider exactly when that provider's own strategies published it. So a Gemini request never holds an
   OpenAI row of a tool, and an OpenAI request never a Gemini one.
   */
  lemma EveryRunKeepsProvidersApart(cs: seq<Command>, session: SessionId, window: int, current: Strategy, m: Row)
    requires AllAllowed(EMPTY, cs) && current != NoStrategy
    requires m in History(Run(EMPTY, cs), session, false, window) && (m.role == Tool || m.status == ToolCall)
    ensures m in Relevant(Run(EMPTY, cs), session, window, current) <==> (m.strategy == OpenAi <==> current == OpenAi)
  {
    var t := Run(EMPTY, cs);
    EveryRunKeepsLedger(cs);
    EveryRunStoresCalls(cs);
    HistoryMembers(t, session, false, window);
    LiveToolRowsHaveAStrategy(t, m);
    RelevantMessages(t, session, window, current);
  }

  // ----- How far answers are cut -----

  /** The answers of group `g` behind position `i`. */
  function AnswersBehind(h: seq<Row>, i: nat, g: GroupId): set<nat> {
    set j: nat | i < j < |h| && h[j].role == Tool && h[j].group == g
  }

  lemma {:induction false} CountIsSet(h: seq<Row>, i: nat, g: GroupId)
    requires i < |h| && g != ""
    ensures CountActive(h[i + 1..], g) == |AnswersBehind(h, i, g)|
    decreases |h| - i
  {
    if i + 1 < |h| {
      CountIsSet(h, i + 1, g);
      CountSplit(h[i + 1..], 1, g);
      assert h[i + 1..][1..] == h[i + 2..] && h[i + 1..][..1] == [h[i + 1]];
      assert [h[i + 1]][..0] == [];
      assert CountActive([h[i + 1]], g) == if IsActiveAnswer(h[i + 1], g) then 1 else 0;
      var behind := AnswersBehind(h, i + 1, g);
      if IsActiveAnswer(h[i + 1], g) {
        assert AnswersBehind(h, i, g) == behind + {i + 1};
      } else {
        assert AnswersBehind(h, i, g) == behind;
      }
    } else {
      assert AnswersBehind(h, i, g) == {};
    }
  }

  /**
   The loop leaves everything but answers as it is. With g the group of the newest message, an answer of g is
   cut at 5000 bytes if fewer than five answers of g are behind it and at 400 if five or more are; any other
   answer is cut at 120.
   */
  lemma AnswersAreCut(h: seq<Row>, i: nat)
    requires i < |h|
    ensures var g := h[|h| - 1].group;
            var limit := if g == "" || h[i].group != g then 120 else if |AnswersBehind(h, i, g)| < 5 then 5000 else 400;
            && |Tiered(h)| == |h|
            && (h[i].role != Tool ==> Tiered(h)[i] == h[i])
            && (h[i].role == Tool && h[i].body.Plain? ==>
                  Tiered(h)[i] == h[i].(body := Plain(Truncated(h[i].body.text, limit, h[i].id))))
  {
    var g := h[|h| - 1].group;
    if g != "" {
      CountIsSet(h, i, g);
    }
    assert Tiered(h)[i] == CutAt(h, i);
  }

  // ----- The state that a rebuild finds -----

  /** The state block of an assistant message. */
  function BlockOf(m: Row, json: Body -> Text): Option<Text> {
    if m.role != Assistant then None
    else ExtractState(if m.body.Plain? then m.body.text else json(m.body))
  }

  ghost predicate NoBlockFrom(h: seq<Row>, from: nat, json: Body -> Text) {
    forall j :: from <= j < |h| ==> BlockOf(h[j], json) == None
  }

  lemma NewestStateNext(front: seq<Row>, m: Row, json: Body -> Text)
    ensures NewestState(front + [m], json) == if BlockOf(m, json).Some? then BlockOf(m, json) else NewestState(front, json)
  {
    assert (front + [m])[..|front|] == front;
  }

  lemma NoBlockNext(front: seq<Row>, m: Row, from: nat, json: Body -> Text)
    requires NoBlockFrom(front, from, json) && BlockOf(m, json) == None
    ensures NoBlockFrom(front + [m], from, json)
  {
    forall j | from <= j < |front + [m]| ensures BlockOf((front + [m])[j], json) == None {
      if j < |front| {
        assert BlockOf(front[j], json) == None;
      }
    }
  }

  lemma {:induction false} NewestStateAt(h: seq<Row>, json: Body -> Text) returns (i: nat)
    ensures NewestState(h, json) == None ==> NoBlockFrom(h, 0, json)
    ensures NewestState(h, json).Some? ==>
              i < |h| && NewestState(h, json) == BlockOf(h[i], json) && NoBlockFrom(h, i + 1, json)
  {
    i := 0;
    if h != [] {
      var front, last := h[..|h| - 1], h[|h| - 1];
      assert h == front + [last];
      NewestStateNext(front, last, json);
      if BlockOf(last, json).Some? {
        i := |front|;
      } else {
        i := NewestStateAt(front, json);
        NoBlockNext(front, last, if NewestState(front, json).Some? then i + 1 else 0, json);
      }
    }
  }

  /**
   A rebuild writes the block of the last assistant message in the session's window that has one, and only
   that; without such a message it changes nothing.
   */
  lemma RebuildTakesTheNewestBlock(t: Tables, session: SessionId, current: Strategy, json: Body -> Text)
    returns (found: bool, i: nat)
    ensures var h, u := Relevant(t, session, WindowOf(t, session), current), Rebuilt(t, session, current, json);
            if found then
              && i < |h| && BlockOf(h[i], json).Some? && NoBlockFrom(h, i + 1, json)
              && u.rows == t.rows && u.usage == t.usage && u.state == t.state[session := BlockOf(h[i], json).value]
            else u == t && NoBlockFrom(h, 0, json)
  {
    var h := Relevant(t, session, WindowOf(t, session), current);
    i := NewestStateAt(h, json);
    found := NewestState(h, json).Some?;
  }
}
