/** The turn loop itself, writing to the database step by step (interface/interaction_engine.cpp). */
module InteractionEngine {
  import opened Basics
  import opened Ledger
  import opened MessageParser
  import opened ToolDispatcher
  import opened Utf8
  import opened StateBlock
  import opened Conversation
  import opened ConversationProofs
  import opened Database
  import opened Filtering
  import opened ToolRounds
  import opened Brackets
  import opened TurnMeaning

  ghost predicate GroupInSession(rows: seq<Row>, turn: Turn) {
    forall r :: r in rows && r.group == turn.group ==> r.session == turn.session
  }

  lemma OneSession(rows: seq<Row>, found: seq<Row>, turn: Turn)
    requires GroupInSession(rows, turn) && SameBySession(found, Filter(rows, OfGroup(turn.group)))
    ensures found == Filter(rows, OfGroup(turn.group))
  {
    FilterMembers(rows, OfGroup(turn.group));
    SameInOneSession(found, Filter(rows, OfGroup(turn.group)), turn.session);
  }

  lemma ReplyKeepsGroupInSession(t: Tables, turn: Turn, usage: Option<Tokens>, reply: Reply)
    requires GroupInSession(t.rows, turn)
    ensures GroupInSession(Received(t, turn, usage, reply).rows, turn)
  {
    ReplyRowsAreOfTheTurn(t, turn, usage, reply);
    var rows := Received(t, turn, usage, reply).rows;
    forall r | r in rows && r.group == turn.group ensures r.session == turn.session {
      var i :| 0 <= i < |rows| && rows[i] == r;
      if i < |t.rows| {
        assert t.rows[i] == r;
      }
    }
  }

  lemma RoundKeepsGroupInSession(t: Tables, turn: Turn, event: Event)
    requires turn.group != "" && GroupInSession(t.rows, turn)
    ensures GroupInSession(Round(t, turn, event).0.rows, turn)
  {
    if event.Replies? {
      ReplyKeepsGroupInSession(t, turn, event.usage, event.reply);
      var answers := RoundAnswersTheReply(t, turn, event.usage, event.reply, event.outcomes);
      forall r | r in answers ensures r.session == turn.session {
        var k :| 0 <= k < |answers| && answers[k] == r;
        assert StoresAnswer(turn, r, CallsOf(turn.strategy, event.reply)[k]);
      }
    } else if event.BadRequest? && FixTargetOf(t, turn.session).Some? {
      WithStatusMembers(t.rows, FixTargetOf(t, turn.session).value, Dropped);
    }
  }

  class Engine {
    const db: Connection

    constructor (db: Connection)
      ensures this.db == db
    {
      this.db := db;
    }

    /** Looks for a row to drop; true when the history changed and the request is worth repeating. */
    method AutoFix(session: SessionId) returns (dropped: bool)
      modifies db
      ensures dropped <==> FixTargetOf(old(db.tables), session).Some?
      ensures db.tables == if dropped then AutoFixed(old(db.tables), session, FixTargetOf(old(db.tables), session).value)
                           else old(db.tables)
    {
      var history := db.GetConversationHistory(session, false, FIX_WINDOW);
      var i := |history|;
      assert history[..i] == history;
      while i > 0
        invariant 0 <= i <= |history| && db.tables == old(db.tables)
        invariant FixTarget(history[..i]) == FixTarget(history)
      {
        i := i - 1;
        assert history[..i + 1][..i] == history[..i];
        if ToolRelated(history[i]) {
          db.UpdateMessageStatus(history[i].id, Dropped);
          db.AppendMessage(FixedRow(session));
          return true;
        }
      }
      dropped := false;
    }

    method Store(turn: Turn, part: Part, tokens: int)
      modifies db
      ensures db.tables == WithPart(old(db.tables), turn, part, tokens)
    {
      match part
      case CallPart(name, args) =>
        db.AppendMessage(AssistantRow(turn, FunctionCall(name, args), name, ToolCall, tokens));
      case TextPart(text) =>
        db.AppendMessage(AssistantRow(turn, Plain(text), "", Completed, tokens));
        var state := ExtractState(text);
        if state.Some? {
          db.SetSessionState(turn.session, state.value);
        }
      case OtherPart =>
    }

    method StoreParts(turn: Turn, parts: seq<Part>, tokens: int) returns (ok: bool)
      modifies db
      ensures db.tables == WithParts(old(db.tables), turn, parts, tokens)
      ensures ok <==> db.tables.rows != old(db.tables.rows)
    {
      ok := false;
      for i := 0 to |parts|
        invariant db.tables == WithParts(old(db.tables), turn, parts[..i], tokens)
        invariant ok <==> db.tables.rows != old(db.tables.rows)
      {
        assert parts[..i + 1][..i] == parts[..i];
        Store(turn, parts[i], tokens);
        ok := ok || !parts[i].OtherPart?;
      }
      assert parts[..|parts|] == parts;
    }

    /** ProcessResponse; false is the error of a reply without usable parts. */
    method ProcessResponse(turn: Turn, usage: Option<Tokens>, reply: Reply) returns (ok: bool)
      modifies db
      ensures db.tables == Received(old(db.tables), turn, usage, reply)
      ensures ok <==> db.tables.rows != old(db.tables.rows)
    {
      var tokens := TotalTokens(usage);
      if usage.Some? {
        db.RecordUsage(Usage(turn.session, turn.model, usage.value.prompt, usage.value.completion));
      }
      ok := false;
      if reply.GeminiReply? && IsGemini(turn.strategy) {
        ok := StoreParts(turn, reply.parts, tokens);
      } else if reply.OpenAiReply? && turn.strategy == OpenAi {
        if reply.calls != [] {
          db.AppendMessage(CallsRow(turn, reply.calls, tokens));
          ok := true;
        } else if reply.content.Some? && reply.content.value.TextPart? {
          Store(turn, reply.content.value, tokens);
          ok := true;
        }
      }
    }

    /** The calls to dispatch, under their combined ids. */
    method CollectCalls(m: Row) returns (batch: seq<Call>)
      ensures batch == DispatcherCalls(m) && |batch| == |ExtractToolCalls(m)|
      ensures forall k :: 0 <= k < |batch| ==>
                && batch[k].name == ExtractToolCalls(m)[k].name && batch[k].args == ExtractToolCalls(m)[k].args
                && batch[k].id == CombinedId(ExtractToolCalls(m)[k])
    {
      var calls := ExtractToolCalls(m);
      batch := [];
      for k := 0 to |calls|
        invariant batch == DispatcherCalls(m)[..k]
      {
        var combinedId := calls[k].id;
        if calls[k].id != calls[k].name && '|' !in calls[k].id {
          combinedId := calls[k].id + "|" + calls[k].name;
        }
        batch := batch + [Call(combinedId, calls[k].name, calls[k].args)];
      }
    }

    method AppendResult(turn: Turn, strategy: Strategy, result: ToolResult)
      modifies db
      ensures db.tables == Append(old(db.tables), ToolRow(turn, strategy, result))
      ensures var status := if result.output.Done? then Completed else Error;
              var text := match result.output
                          case Done(output) => output
                          case Cancelled => Ascii("Error: ") + Ascii("Cancelled")
                          case Failed(message) => Ascii("Error: ") + message;
              db.tables.rows == old(db.tables.rows) + [Row(old(db.tables.nextId), turn.session, Tool, Plain(text), result.id,
                                                           status, turn.group, strategy, 0)]
    {
      var ok := result.output.Done?;
      var content :=
        match result.output
        case Done(output) => output
        case Cancelled => Ascii("Error: ") + Ascii("Cancelled")
        case Failed(message) => Ascii("Error: ") + message;
      db.AppendMessage(Row(0, turn.session, Tool, Plain(content), result.id,
                           if ok then Completed else Error, turn.group, strategy, 0));
    }

    /** Runs one message's calls and appends one tool row for each result. */
    method RunCalls(turn: Turn, m: Row, outcomes: nat -> Outcome) returns (called: bool)
      modifies db
      ensures db.tables == AppendAll(old(db.tables), Answers(turn, m, outcomes))
      ensures called <==> Answers(turn, m, outcomes) != []
    {
      called := false;
      if m.role == Assistant {
        var batch := CollectCalls(m);
        if batch != [] {
          var results := Dispatched(batch, outcomes);
          ghost var rows := ToolRows(turn, m.strategy, results);
          for k := 0 to |results|
            invariant db.tables == AppendAll(old(db.tables), rows[..k])
          {
            AppendAllSnoc(old(db.tables), rows[..k], rows[k]);
            assert rows[..k + 1] == rows[..k] + [rows[k]];
            AppendResult(turn, m.strategy, results[k]);
          }
          assert rows[..|results|] == rows;
          called := true;
        }
      }
    }

    /** Runs the calls of every message, in order. */
    method RunAllCalls(turn: Turn, added: seq<Row>, outcomes: (nat, nat) -> Outcome) returns (called: bool)
      modifies db
      ensures db.tables == AppendAll(old(db.tables), AllAnswers(turn, added, outcomes))
      ensures called <==> AllAnswers(turn, added, outcomes) != []
    {
      called := false;
      for j := 0 to |added|
        invariant db.tables == AppendAll(old(db.tables), AllAnswers(turn, added[..j], outcomes))
        invariant called <==> AllAnswers(turn, added[..j], outcomes) != []
      {
        AnswersNext(old(db.tables), turn, added, j, outcomes);
        var one := RunCalls(turn, added[j], OutcomesOf(outcomes, j));
        called := called || one;
      }
      assert added[..|added|] == added;
    }

    /** The rows that the reply added are found by counting the group's rows before and after. */
    method AnswerReply(turn: Turn, usage: Option<Tokens>, reply: Reply, outcomes: (nat, nat) -> Outcome) returns (called: bool)
      requires GroupInSession(db.tables.rows, turn)
      modifies db
      ensures (db.tables, called) == Round(old(db.tables), turn, Replies(usage, reply, outcomes))
    {
      var before := db.GetMessagesByGroup(turn.group);
      called := false;
      var ok := ProcessResponse(turn, usage, reply);
      ghost var u := db.tables;
      ghost var added := u.rows[|old(db.tables.rows)|..];
      ReplyRowsAreOfTheTurn(old(db.tables), turn, usage, reply);
      ReplyKeepsGroupInSession(old(db.tables), turn, usage, reply);
      AddedToGroup(old(db.tables.rows), u.rows, turn.group);
      OneSession(old(db.tables.rows), before, turn);
      if ok {
        var after := db.GetMessagesByGroup(turn.group);
        OneSession(u.rows, after, turn);
        assert after[|before|..] == added;
        called := RunAllCalls(turn, after[|before|..], outcomes);
      } else {
        assert added == [];
      }
    }

    method OneRound(turn: Turn, event: Event) returns (going: bool)
      requires turn.group != "" && GroupInSession(db.tables.rows, turn)
      modifies db
      ensures GroupInSession(db.tables.rows, turn)
      ensures (db.tables, going) == Round(old(db.tables), turn, event)
    {
      RoundKeepsGroupInSession(db.tables, turn, event);
      match event
      case PromptFails =>
        going := false;
      case RequestFails =>
        going := false;
      case BadRequest =>
        going := AutoFix(turn.session);
      case Replies(usage, reply, outcomes) =>
        going := AnswerReply(turn, usage, reply, outcomes);
    }

    /** Process, for an input that is not a command; no other session has rows of the turn's group. */
    method Process(turn: Turn, input: Text, events: seq<Event>)
      requires turn.group != "" && GroupInSession(db.tables.rows, turn)
      modifies db
      ensures db.tables == TurnTaken(old(db.tables), turn, input, events)
      ensures TablesOk(old(db.tables)) ==>
                && |old(db.tables.rows)| < |db.tables.rows|
                && db.tables.rows[|old(db.tables.rows)|]
                == Row(old(db.tables.nextId), turn.session, User, Plain(input), "", Completed, turn.group, turn.strategy, 0)
    {
      if TablesOk(db.tables) {
        TurnStoresTheInput(db.tables, turn, input, events);
      }
      db.AppendMessage(UserRow(turn, input));
      var i := 0;
      var going := true;
      while going && i < |events|
        invariant 0 <= i <= |events| && GroupInSession(db.tables.rows, turn)
        invariant TurnTaken(old(db.tables), turn, input, events)
               == if going then Rounds(db.tables, turn, events[i..]) else db.tables
      {
        assert events[i..][1..] == events[i + 1..];
        going := OneRound(turn, events[i]);
        i := i + 1;
      }
    }
  }
}
