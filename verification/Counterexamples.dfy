/** Inputs that reach the failing side of each exact condition. */
module Counterexamples {
  import opened Basics
  import opened Ledger
  import opened Filtering
  import opened MessageParser
  import opened ToolDispatcher
  import opened Conversation
  import opened LedgerRuns
  import opened UndoProofs
  import opened Pairing
  import opened Unanswered
  import opened TurnProofs
  import opened WindowProofs
  import opened Database
  import Search
  import StateBlock
  import opened GeminiPayload
  import ToolRounds
  import opened PromptAssembly
  import opened EndToEnd
  import Truncation
  import Utf8

  const TURN := Turn("s", "g", Gemini, "m")

  // ----- A Gemini reply with calls -----

  function CallRow(name: string, id: nat): Row {
    AssistantRow(TURN, FunctionCall(name, ""), name, ToolCall, 0).(id := id)
  }

  function AnswerRow(name: string, id: nat): Row {
    ToolRow(TURN, Gemini, ToolResult(name, name, Done([]))).(id := id)
  }

  function FirstRow(): Row {
    UserRow(TURN, []).(id := 1)
  }

  const ASKED := Append(EMPTY, UserRow(TURN, []))

  function OneCall(name: string): Event {
    Replies(None, GeminiReply([CallPart(name, "")]), (j, k) => Done([]))
  }

  function TwoCalls(a: string, b: string): Event {
    Replies(None, GeminiReply([CallPart(a, ""), CallPart(b, "")]), (j, k) => Done([]))
  }

  lemma AnswerToCall(name: string, id: nat, outcomes: nat -> Outcome)
    requires outcomes(0) == Done([])
    ensures Answers(TURN, CallRow(name, id), outcomes) == [AnswerRow(name, 0)]
  {
    var m := CallRow(name, id);
    assert ExtractToolCalls(m) == [Call(name, name, "")];
  }

  lemma OneCallStored(name: string)
    ensures Received(ASKED, TURN, None, GeminiReply([CallPart(name, "")])).rows == [FirstRow(), CallRow(name, 2)]
    ensures Received(ASKED, TURN, None, GeminiReply([CallPart(name, "")])).nextId == 3
  {
    var parts := [CallPart(name, "")];
    assert parts[..0] == [];
    assert WithParts(ASKED, TURN, parts, 0) == WithPart(ASKED, TURN, parts[0], 0);
  }

  lemma TwoCallsStored(a: string, b: string)
    ensures var u := Received(ASKED, TURN, None, GeminiReply([CallPart(a, ""), CallPart(b, "")]));
            u.rows == [FirstRow(), CallRow(a, 2), CallRow(b, 3)] && u.nextId == 4
  {
    var parts := [CallPart(a, ""), CallPart(b, "")];
    assert parts[..1] == [CallPart(a, "")];
    OneCallStored(a);
    assert WithParts(ASKED, TURN, parts, 0) == WithPart(WithParts(ASKED, TURN, [CallPart(a, "")], 0), TURN, parts[1], 0);
  }

  lemma OneCallRound(name: string)
    ensures Round(ASKED, TURN, OneCall(name)).0.rows == [FirstRow(), CallRow(name, 2), AnswerRow(name, 3)]
    ensures Round(ASKED, TURN, OneCall(name)).1
  {
    var outcomes := OneCall(name).outcomes;
    var u := Received(ASKED, TURN, None, OneCall(name).reply);
    OneCallStored(name);
    var ms := [CallRow(name, 2)];
    assert u.rows[|ASKED.rows|..] == ms;
    AnswerToCall(name, 2, OutcomesOf(outcomes, 0));
    assert ms[..0] == [];
    assert AllAnswers(TURN, ms, outcomes) == [] + [AnswerRow(name, 0)];
    AppendOne(u, AnswerRow(name, 0));
  }

  lemma TwoAnswers(a: string, b: string, outcomes: (nat, nat) -> Outcome)
    requires outcomes(0, 0) == Done([]) && outcomes(1, 0) == Done([])
    ensures AllAnswers(TURN, [CallRow(a, 2), CallRow(b, 3)], outcomes) == [AnswerRow(a, 0)] + [AnswerRow(b, 0)]
  {
    var ms := [CallRow(a, 2), CallRow(b, 3)];
    AnswerToCall(a, 2, OutcomesOf(outcomes, 0));
    AnswerToCall(b, 3, OutcomesOf(outcomes, 1));
    assert ms[..1] == [CallRow(a, 2)] && ms[..1][..0] == [];
    assert AllAnswers(TURN, ms[..1], outcomes) == [] + [AnswerRow(a, 0)];
  }

  lemma TwoCallsRound(a: string, b: string)
    ensures Round(ASKED, TURN, TwoCalls(a, b)).0.rows
         == [FirstRow(), CallRow(a, 2), CallRow(b, 3), AnswerRow(a, 4), AnswerRow(b, 5)]
  {
    var outcomes := TwoCalls(a, b).outcomes;
    var u := Received(ASKED, TURN, None, TwoCalls(a, b).reply);
    TwoCallsStored(a, b);
    var ms := [CallRow(a, 2), CallRow(b, 3)];
    assert u.rows[|ASKED.rows|..] == ms;
    TwoAnswers(a, b, outcomes);
    AppendBoth(u, AnswerRow(a, 0), AnswerRow(b, 0));
  }

  lemma AppendOne(u: Tables, x: Row)
    ensures AppendAll(u, [] + [x]) == Append(u, x)
  {
    assert ([] + [x])[1..] == [];
    assert AppendAll(Append(u, x), []) == Append(u, x);
  }

  lemma AppendBoth(u: Tables, x: Row, y: Row)
    ensures AppendAll(u, [x] + [y]) == Append(Append(u, x), y)
  {
    assert ([x] + [y])[1..] == [y] && [y][1..] == [];
    assert AppendAll(Append(u, x), [y]) == AppendAll(Append(Append(u, x), y), []);
  }

  // ----- The orphan filter drops an answer -----

  lemma RunOfOneTurn(turn: Turn, input: Utf8.Text, events: seq<Event>)
    ensures Run(EMPTY, [Command.Take(turn, input, events)]) == TurnTaken(EMPTY, turn, input, events)
    ensures turn.group != "" ==> AllAllowed(EMPTY, [Command.Take(turn, input, events)])
  {
    var cs := [Command.Take(turn, input, events)];
    assert cs[..0] == [];
  }

  function BothAnswered(): seq<Row> {
    [FirstRow(), CallRow("off", 2), CallRow("on", 3), AnswerRow("off", 4), AnswerRow("on", 5)]
  }

  lemma AllRelevant(t: Tables)
    requires t.rows == BothAnswered()
    ensures Relevant(t, "s", 0, Gemini) == BothAnswered()
  {
    FilterAll(BothAnswered(), OfSession("s", false));
    FilterAll(BothAnswered(), KeptFor(Gemini));
  }

  lemma OnFollowsOff()
    ensures !NoAnswerAfterSuppressed(BothAnswered(), {"on"})
  {
    NameOfPlainId("off");
    NameOfPlainId("on");
    assert !NotAfterSuppressed(BothAnswered(), 4, {"on"});
  }

  /** A call of a disabled tool before one of an enabled tool: after this run the request loses an answer. */
  lemma FilterDropsAnAnswer() returns (cs: seq<Command>)
    ensures AllAllowed(EMPTY, cs)
    ensures var h := Relevant(Run(EMPTY, cs), "s", 0, Gemini);
            && !NoAnswerAfterSuppressed(h, {"on"})
            && Contents(Tiered(h), {"on"}) != Merge(Entries(Tiered(h), |h|, {"on"}))
  {
    cs := [Command.Take(TURN, [], [TwoCalls("off", "on")])];
    RunOfOneTurn(TURN, [], [TwoCalls("off", "on")]);
    OnlyRound(ASKED, TURN, TwoCalls("off", "on"));
    TwoCallsRound("off", "on");
    AllRelevant(Run(EMPTY, cs));
    OnFollowsOff();
    EveryRunFilterIsExact(cs, "s", 0, Gemini, {"on"});
  }

  lemma OnlyRound(t: Tables, turn: Turn, event: Event)
    ensures Rounds(t, turn, [event]) == Round(t, turn, event).0
  {
    assert [event][1..] == [];
  }

  lemma NameOfPlainId(name: string)
    ensures '|' !in name ==> DecodedName(name) == name
  {
    CombinedIdDecodes(Call(name, name, ""));
  }

  // ----- Undo does not take an auto-fix back -----

  lemma {:induction false} OneGroup(h: seq<Row>, g: GroupId)
    requires h != [] && g != "" && forall r :: r in h ==> r.group == g
    ensures GroupsOf(h) == [g]
  {
    var front := h[..|h| - 1];
    if front != [] {
      OneGroup(front, g);
    }
  }

  lemma FixIsFound(t: Tables, h: seq<Row>)
    requires t.rows == h && h == [FirstRow(), CallRow("on", 2), AnswerRow("on", 3)]
    ensures FixTargetOf(t, "s") == Some(3)
  {
    FilterAll(h, OfSession("s", false));
    OneGroup(h, "g");
    FilterAll(h, InGroups(["g"]));
  }

  lemma OneFix(t: Tables, turn: Turn)
    requires FixTargetOf(t, turn.session).Some?
    ensures FixCount(t, turn, [BadRequest]) == 1
  {
    assert [BadRequest][1..] == [];
  }

  /** A tool round and then a bad request: the auto-fix fires once and undo leaves rows behind. */
  lemma UndoLeavesTheFix() returns (events: seq<Event>)
    ensures FixCount(ASKED, TURN, events) == 1
    ensures Undone(TurnTaken(EMPTY, TURN, [], events), "s").rows != EMPTY.rows
  {
    events := [OneCall("on"), BadRequest];
    assert events[1..] == [BadRequest];
    OneCallRound("on");
    var u := Round(ASKED, TURN, OneCall("on")).0;
    FixIsFound(u, u.rows);
    OneFix(u, TURN);
    UndoTakesTurnBack(EMPTY, TURN, [], events);
  }

  // ----- The auto-fix leaves a call unanswered -----

  function AnswerLost(): seq<Row> {
    [FirstRow(), CallRow("on", 2), AnswerRow("on", 3).(status := Dropped)]
  }

  lemma LostMarks()
    ensures CallMarks(AnswerLost()) == [Mark("on", 1, true)] && AnswerMarks(AnswerLost()) == [Mark("on", 2, false)]
  {
    var a, b, c := AnswerLost()[0], AnswerLost()[1], AnswerLost()[2];
    assert [] + [a] == [a] && [a] + [b] == [a, b] && [a, b] + [c] == AnswerLost();
    assert StoredCalls(b) == [Call("on", "on", "")];
    assert MarksOf(a, 0) == [] && MarksOf(b, 1) == [Mark("on", 1, true)] && MarksOf(c, 2) == [];
    NextCalls([], a, 0, 0);
    NextCalls([a], b, 0, 1);
    NextCalls([a, b], c, 0, 2);
    NextAnswers([], a);
    NextAnswers([a], b);
    NextAnswers([a, b], c);
  }

  lemma FixedRows(u: Tables)
    requires u.rows == [FirstRow(), CallRow("on", 2), AnswerRow("on", 3)]
    ensures TurnRows(AutoFixed(u, "s", 3).rows, "s", "g") == AnswerLost()
  {
    assert WithStatus(u.rows, 3, Dropped) == AnswerLost();
    FilterAll(AnswerLost(), OfTurn("s", "g"));
    FilterAppend(AnswerLost(), FixedRow("s").(id := u.nextId), OfTurn("s", "g"));
    assert AnswerLost() + [] == AnswerLost();
  }

  /** A tool round and then a bad request: the call stays live, its answer is dropped. */
  lemma CallIsLeftUnanswered() returns (cs: seq<Command>)
    ensures AllAllowed(EMPTY, cs)
    ensures var h := TurnRows(Run(EMPTY, cs).rows, "s", "g");
            && LostAnswer(CallMarks(h), AnswerMarks(h)) && LiveIds(AnswerMarks(h)) != LiveIds(CallMarks(h))
  {
    var events := [OneCall("on"), BadRequest];
    assert events[1..] == [BadRequest];
    cs := [Command.Take(TURN, [], events)];
    RunOfOneTurn(TURN, [], events);
    OneCallRound("on");
    var u := Round(ASKED, TURN, OneCall("on")).0;
    FixIsFound(u, u.rows);
    OnlyRound(u, TURN, BadRequest);
    FixedRows(u);
    LostMarks();
    assert TurnRows(Run(EMPTY, cs).rows, "s", "g") == AnswerLost();
    LostAnswersShow(cs, "s", "g");
    assert CallMarks(AnswerLost())[0].live && !AnswerMarks(AnswerLost())[0].live;
  }

  lemma {:induction false} FewGroups(h: seq<Row>)
    ensures |GroupsOf(h)| <= |h|
  {
    if h != [] {
      FewGroups(h[..|h| - 1]);
    }
  }

  /** In a short ledger the window holds every live row of the session. */
  lemma ShortHistory(t: Tables, r: Row)
    requires |t.rows| <= FIX_WINDOW && r in t.rows && IsLive(r)
    ensures r in History(t, r.session, false, FIX_WINDOW)
  {
    var all := SessionRows(t.rows, r.session, false);
    FilterMembers(t.rows, OfSession(r.session, false));
    FilterSize(t.rows, OfSession(r.session, false));
    GroupsOfMembers(all);
    FewGroups(all);
    HistoryMembers(t, r.session, false, FIX_WINDOW);
  }

  lemma CallIsNewest(t: Tables, call: Row)
    requires |t.rows| <= FIX_WINDOW && call in t.rows && IsLive(call) && call.session == "s" && ToolRelated(call)
    requires forall r :: r in t.rows && IsLive(r) && ToolRelated(r) ==> r == call
    ensures TargetRow(t, "s") == Some(call)
  {
    ShortHistory(t, call);
    FixTargetExists(History(t, "s", false, FIX_WINDOW));
    TargetIsLive(t, "s");
  }

  lemma FirstEffect(u: Tables)
    requires u.rows == [FirstRow(), CallRow("on", 2), AnswerRow("on", 3)]
    ensures FixTargetOf(u, "s") == Some(3) && Effect(u, TURN, BadRequest) == 1
  {
    FixIsFound(u, u.rows);
    TargetIsLive(u, "s");
  }

  lemma SecondEffect(v: Tables, notice: Row)
    requires v.rows == AnswerLost() + [notice] && notice == FixedRow("s").(id := notice.id)
    ensures FixTargetOf(v, "s") == Some(2) && Effect(v, TURN, BadRequest) == -1
  {
    assert v.rows[1] == CallRow("on", 2);
    CallIsNewest(v, CallRow("on", 2));
    TargetIsLive(v, "s");
    assert StoredCalls(CallRow("on", 2)) == [Call("on", "on", "")];
  }

  lemma EffectsOfBoth(u: Tables, v: Tables)
    requires u.rows == [FirstRow(), CallRow("on", 2), AnswerRow("on", 3)] && v == AutoFixed(u, "s", 3)
    ensures FixTargetOf(u, "s") == Some(3) && Effect(u, TURN, BadRequest) == 1
    ensures FixTargetOf(v, "s") == Some(2) && Effect(v, TURN, BadRequest) == -1
  {
    FirstEffect(u);
    assert WithStatus(u.rows, 3, Dropped) == AnswerLost();
    SecondEffect(v, FixedRow("s").(id := u.nextId));
  }

  /** After a tool round two refusals: the first auto-fix drops the answer, the second its call, and nothing is left unanswered. */
  lemma SecondFixTakesTheCall() returns (t: Tables, events: seq<Event>)
    ensures t == Round(ASKED, TURN, OneCall("on")).0 && events == [BadRequest, BadRequest]
    ensures FixCount(t, TURN, events) == 2 && Balance(t, TURN, events) == 0
  {
    t, events := Round(ASKED, TURN, OneCall("on")).0, [BadRequest, BadRequest];
    var v := AutoFixed(t, "s", 3);
    assert events == [BadRequest] + [BadRequest] && [BadRequest] == [BadRequest] + [] && events[1..] == [BadRequest];
    OneCallRound("on");
    EffectsOfBoth(t, v);
    NextBadRequest(t, TURN, events);
    OneFix(v, TURN);
    BalanceOfFix(t, TURN, [BadRequest]);
    BalanceOfFix(v, TURN, []);
  }

  // ----- A COMMIT that fails -----

  /** After the failing COMMIT the copy can be read, the transaction is open, and the next clone fails. */
  method CommitLeavesTheCopy() returns (first: Report, second: Report, copied: bool, open: bool)
    ensures first == SqlError && copied && open && second == SqlError
  {
    var db := new Connection();
    db.SetSessionState("a", []);
    first := db.CloneSession("a", "b", Some(Commit));
    copied, open := "b" in db.tables.sessions && "b" in db.tables.state, db.saved.Some?;
    second := db.CloneSession("a", "c", None);
  }

  // ----- A rule before the next header -----

  /** A state block with a rule in it, cut at a later header: extracting again cuts at the rule. */
  lemma RuleIsCutLater() returns (text: Utf8.Text)
    ensures StateBlock.ExtractState(text).Some?
    ensures StateBlock.ExtractState(StateBlock.ExtractState(text).value) != StateBlock.ExtractState(text)
  {
    text := StateBlock.HEADER + StateBlock.RULE + StateBlock.NEXT_HEADER;
    RulePlaces(text);
    assert StateBlock.RuleBeforeHeader(text);
    StateBlock.ExtractingTwice(text);
  }

  lemma RulePlaces(text: Utf8.Text)
    requires text == StateBlock.HEADER + StateBlock.RULE + StateBlock.NEXT_HEADER
    ensures Search.Find(text, StateBlock.HEADER, 0) == 0
    ensures Search.Find(text, StateBlock.RULE, 9) == 9 && 9 < Search.Find(text, StateBlock.NEXT_HEADER, 9) <= |text|
  {
    assert text[0..9] == StateBlock.HEADER && text[9..13] == StateBlock.RULE && text[13..15] == StateBlock.NEXT_HEADER;
    assert Search.MatchAt(text, StateBlock.HEADER, 0) && Search.MatchAt(text, StateBlock.RULE, 9);
    assert Search.MatchAt(text, StateBlock.NEXT_HEADER, 13);
    assert text[9..11][1] == 0x2D && StateBlock.NEXT_HEADER[1] == 0x23;
    assert !Search.MatchAt(text, StateBlock.NEXT_HEADER, 9);
  }

  // ----- Ids and sizes -----

  /** After a reply whose call id has a bar, a stored answer has that very id, which is not decoded to the call's id and name. */
  lemma BarredIdIsLost() returns (cs: seq<Command>, call: Call, r: Row)
    ensures AllAllowed(EMPTY, cs) && r in Run(EMPTY, cs).rows && r.role == Tool
    ensures cs == [Command.Take(Turn("s", "g", OpenAi, "m"), [], [Replies(None, OpenAiReply([call], None), (j, k) => Done([]))])]
    ensures r.callId == call.id && !(DecodedId(r.callId) == call.id && DecodedName(r.callId) == call.name)
  {
    call := Call("a|b", "n", "");
    var turn, event := Turn("s", "g", OpenAi, "m"), Replies(None, OpenAiReply([call], None), (j, k) => Done([]));
    cs := [Command.Take(turn, [], [event])];
    RunOfOneTurn(turn, [], [event]);
    var t := Append(EMPTY, UserRow(turn, []));
    OnlyRound(t, turn, event);
    var answers := ToolRounds.RoundAnswersTheReply(t, turn, event.usage, event.reply, event.outcomes);
    r := answers[0];
    assert ToolRounds.StoresAnswer(turn, r, call);
    assert call.id[1] == '|';
    CombinedIdDecodes(call);
  }

  /** Four letters cut at 3 come out as three letters and three dots. */
  lemma TinyLimitIsPassed(messageId: int) returns (content: Utf8.Text)
    ensures Utf8.Valid(content) && |Truncation.Truncated(content, 3, messageId)| > 3
  {
    content := [0x61, 0x62, 0x63, 0x64];
    Utf8.AsciiIsValid(content);
    Truncation.SizeWithinLimit(content, 3, messageId);
  }
}
