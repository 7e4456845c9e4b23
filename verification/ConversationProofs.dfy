/** Rows that a round appends, and the order of a round's writes. */
module ConversationProofs {
  import opened Basics
  import opened Ledger
  import opened Filtering
  import opened MessageParser
  import opened ToolDispatcher
  import opened Conversation
  import opened StateBlock

  lemma {:induction false} AppendAllConcat(t: Tables, a: seq<Row>, b: seq<Row>)
    ensures AppendAll(t, a + b) == AppendAll(AppendAll(t, a), b)
    decreases |a|
  {
    if a == [] {
      assert a + b == b;
    } else {
      assert (a + b)[1..] == a[1..] + b;
      AppendAllConcat(Append(t, a[0]), a[1..], b);
    }
  }

  lemma AppendAllSnoc(t: Tables, a: seq<Row>, r: Row)
    ensures AppendAll(t, a + [r]) == Append(AppendAll(t, a), r)
  {
    AppendAllConcat(t, a, [r]);
    assert AppendAll(AppendAll(t, a), [r]) == AppendAll(Append(AppendAll(t, a), r), [r][1..]);
  }

  function Numbered(rs: seq<Row>, first: nat): (ns: seq<Row>)
    ensures |ns| == |rs|
  {
    seq(|rs|, i requires 0 <= i < |rs| => rs[i].(id := first + i))
  }

  lemma {:induction false} AppendAllRows(t: Tables, rs: seq<Row>)
    ensures AppendAll(t, rs).rows == t.rows + Numbered(rs, t.nextId)
    decreases |rs|
  {
    if rs != [] {
      AppendAllRows(Append(t, rs[0]), rs[1..]);
      NumberedFirst(rs, t.nextId);
      Reassociate(t.rows, [rs[0].(id := t.nextId)], Numbered(rs[1..], t.nextId + 1));
    }
  }

  lemma {:induction false} AppendAllKeepsTables(t: Tables, rs: seq<Row>)
    requires TablesOk(t)
    ensures TablesOk(AppendAll(t, rs))
    decreases |rs|
  {
    if rs != [] {
      AppendKeepsTables(t, rs[0]);
      AppendAllKeepsTables(Append(t, rs[0]), rs[1..]);
    }
  }

  lemma NumberedFirst(rs: seq<Row>, first: nat)
    requires rs != []
    ensures Numbered(rs, first) == [rs[0].(id := first)] + Numbered(rs[1..], first + 1)
  {
  }

  /** Answering one more message. */
  lemma AnswersNext(t: Tables, turn: Turn, ms: seq<Row>, j: nat, outcomes: (nat, nat) -> Outcome)
    requires j < |ms|
    ensures var front, one := AllAnswers(turn, ms[..j], outcomes), Answers(turn, ms[j], OutcomesOf(outcomes, j));
            && AllAnswers(turn, ms[..j + 1], outcomes) == front + one
            && AppendAll(t, AllAnswers(turn, ms[..j + 1], outcomes)) == AppendAll(AppendAll(t, front), one)
  {
    assert ms[..j + 1][..j] == ms[..j];
    AppendAllConcat(t, AllAnswers(turn, ms[..j], outcomes), Answers(turn, ms[j], OutcomesOf(outcomes, j)));
  }

  predicate IsReplyRow(turn: Turn, r: Row) {
    r.session == turn.session && r.role == Assistant && r.group == turn.group && r.strategy == turn.strategy
    && ((r.status == ToolCall && ExtractToolCalls(r) != []) || (r.status == Completed && r.body.Plain?))
  }

  /** Every row that a reply appends is an assistant row of the turn. */
  lemma ReplyRowsAreOfTheTurn(t: Tables, turn: Turn, usage: Option<Tokens>, reply: Reply)
    ensures forall i :: |t.rows| <= i < |Received(t, turn, usage, reply).rows| ==>
              IsReplyRow(turn, Received(t, turn, usage, reply).rows[i])
  {
    if reply.GeminiReply? && IsGemini(turn.strategy) {
      PartRowsAreOfTheTurn(WithUsage(t, turn, usage), turn, reply.parts, TotalTokens(usage));
    }
  }

  lemma {:induction false} PartRowsAreOfTheTurn(t: Tables, turn: Turn, parts: seq<Part>, tokens: int)
    requires IsGemini(turn.strategy)
    ensures forall i :: |t.rows| <= i < |WithParts(t, turn, parts, tokens).rows| ==>
              IsReplyRow(turn, WithParts(t, turn, parts, tokens).rows[i])
  {
    if parts != [] {
      PartRowsAreOfTheTurn(t, turn, parts[..|parts| - 1], tokens);
    }
  }

  lemma ReceivedKeepsTables(t: Tables, turn: Turn, usage: Option<Tokens>, reply: Reply)
    requires TablesOk(t)
    ensures TablesOk(Received(t, turn, usage, reply))
  {
    var u, tokens := WithUsage(t, turn, usage), TotalTokens(usage);
    UsageKeepsTables(t, turn, usage);
    if reply.GeminiReply? {
      PartsKeepTables(u, turn, reply.parts, tokens);
    } else if reply.OpenAiReply? {
      if reply.calls != [] {
        AppendKeepsTables(u, CallsRow(turn, reply.calls, tokens));
      } else if reply.content.Some? {
        PartKeepsTables(u, turn, reply.content.value, tokens);
      }
    }
  }

  lemma UsageKeepsTables(t: Tables, turn: Turn, usage: Option<Tokens>)
    requires TablesOk(t)
    ensures TablesOk(WithUsage(t, turn, usage))
  {
    if usage.Some? {
      RecordUsageKeepsTables(t, Usage(turn.session, turn.model, usage.value.prompt, usage.value.completion));
    }
  }

  lemma PartKeepsTables(t: Tables, turn: Turn, part: Part, tokens: int)
    requires TablesOk(t)
    ensures TablesOk(WithPart(t, turn, part, tokens))
  {
    match part
    case CallPart(name, args) =>
      AppendKeepsTables(t, AssistantRow(turn, FunctionCall(name, args), name, ToolCall, tokens));
    case TextPart(text) =>
      var state := ExtractState(text);
      var r := AssistantRow(turn, Plain(text), "", Completed, tokens);
      AppendKeepsTables(t, r);
      if state.Some? {
        SetStateKeepsTables(Append(t, r), turn.session, state.value);
      }
    case OtherPart =>
  }

  lemma {:induction false} PartsKeepTables(t: Tables, turn: Turn, parts: seq<Part>, tokens: int)
    requires TablesOk(t)
    ensures TablesOk(WithParts(t, turn, parts, tokens))
  {
    if parts != [] {
      PartsKeepTables(t, turn, parts[..|parts| - 1], tokens);
      PartKeepsTables(WithParts(t, turn, parts[..|parts| - 1], tokens), turn, parts[|parts| - 1], tokens);
    }
  }

  lemma AddedToGroup(before: seq<Row>, after: seq<Row>, g: GroupId)
    requires before <= after && forall i :: |before| <= i < |after| ==> after[i].group == g
    ensures Filter(after, OfGroup(g)) == Filter(before, OfGroup(g)) + after[|before|..]
  {
    assert after == before + after[|before|..];
    FilterConcat(before, after[|before|..], OfGroup(g));
    FilterAll(after[|before|..], OfGroup(g));
  }
}
