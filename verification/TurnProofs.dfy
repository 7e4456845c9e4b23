/** Every step of a turn keeps the ledger's invariant. */
module TurnProofs {
  import opened Basics
  import opened Ledger
  import opened MessageParser
  import opened ToolDispatcher
  import opened Conversation
  import opened ConversationProofs
  import opened Brackets
  import Utf8

  /** What holds while a turn is going on: its group is the newest of its session. */
  ghost predicate TurnOk(t: Tables, turn: Turn) {
    LedgerOk(t) && Current(t.rows, turn.session, turn.group)
  }

  ghost predicate Fresh(rows: seq<Row>, g: GroupId) {
    g != "" && forall r :: r in rows ==> r.group != g
  }

  // ----- Single rows -----

  lemma AppendKeepsTurn(t: Tables, turn: Turn, r: Row)
    requires TurnOk(t, turn) && r.role != Tool
    requires r.session == turn.session && (r.group == turn.group || r.group == "")
    ensures TurnOk(Append(t, r), turn)
  {
    var n := r.(id := t.nextId);
    AppendKeepsTables(t, r);
    UserRowKeepsBrackets(t.rows, n);
    AddedKeepUnmixed(t.rows, [n], turn.session, turn.group);
  }

  // ----- Auto-fix -----

  lemma {:induction false} FixTargetIsNewest(h: seq<Row>)
    requires Ascending(h) && FixTarget(h).Some?
    ensures exists x :: x in h && x.id == FixTarget(h).value && ToolRelated(x)
    ensures forall y :: y in h && ToolRelated(y) ==> y.id <= FixTarget(h).value
  {
    var front, last := h[..|h| - 1], h[|h| - 1];
    assert last in h;
    if ToolRelated(last) {
      forall y | y in h ensures y.id <= last.id {
        var i :| 0 <= i < |h| && h[i] == y;
        AscendingIndex(h, |h| - 1, i);
      }
    } else {
      assert h == front + [last];
      FixTargetIsNewest(front);
      var x :| x in front && x.id == FixTarget(front).value && ToolRelated(x);
      assert x in h;
    }
  }

  lemma {:induction false} FixTargetExists(h: seq<Row>)
    ensures FixTarget(h).Some? <==> exists r :: r in h && ToolRelated(r)
  {
    if h != [] {
      var front, last := h[..|h| - 1], h[|h| - 1];
      assert h == front + [last];
      FixTargetExists(front);
      assert last in h;
    }
  }

  /** An answer is in every window that its call is in. */
  lemma AnswerIsWithItsCall(t: Tables, session: SessionId, n: int, a: Row, c: Row)
    requires a in t.rows && IsLive(a) && AnswersCall(a, c)
    requires c in History(t, session, false, n)
    ensures a in History(t, session, false, n)
  {
    HistoryMembers(t, session, false, n);
  }

  lemma HistoryAscends(t: Tables, session: SessionId, includeDropped: bool, n: int)
    requires Ascending(t.rows)
    ensures Ascending(History(t, session, includeDropped, n))
  {
    FilterAscends(t.rows, OfSession(session, includeDropped));
    var all := SessionRows(t.rows, session, includeDropped);
    if n > 0 {
      FilterAscends(all, InGroups(LastOf(GroupsOf(all), n)));
    }
  }

  /** In its session and group no live tool row is newer than the row that the auto-fix drops. */
  lemma FixTargetIsLast(t: Tables, session: SessionId, x: Row, r: Row)
    requires IdsOk(t) && FixTargetOf(t, session) == Some(x.id) && x in t.rows
    requires r in t.rows && IsLive(r) && r.role == Tool && r.session == x.session && r.group == x.group
    ensures r.id <= x.id
  {
    var h := History(t, session, false, FIX_WINDOW);
    HistoryAscends(t, session, false, FIX_WINDOW);
    HistoryMembers(t, session, false, FIX_WINDOW);
    FixTargetIsNewest(h);
    var y :| y in h && y.id == x.id && ToolRelated(y);
    SameIdSameRow(t.rows, x, y);
    assert r in h;
  }

  /** The row that the auto-fix drops has no live answer: an answer would be newer and dropped first. */
  lemma FixTargetIsUnanswered(t: Tables, session: SessionId)
    requires IdsOk(t) && FixTargetOf(t, session).Some?
    ensures Unanswered(t.rows, FixTargetOf(t, session).value)
  {
    var h := History(t, session, false, FIX_WINDOW);
    var id := FixTargetOf(t, session).value;
    HistoryAscends(t, session, false, FIX_WINDOW);
    HistoryMembers(t, session, false, FIX_WINDOW);
    FixTargetIsNewest(h);
    var x :| x in h && x.id == id && ToolRelated(x);
    forall a, c | a in t.rows && c in t.rows && IsLive(a) && a.role == Tool && AnswersCall(a, c) ensures c.id != id {
      if c.id == id {
        SameIdSameRow(t.rows, c, x);
        AnswerIsWithItsCall(t, session, FIX_WINDOW, a, c);
        assert false;
      }
    }
  }

  lemma StatusKeepsTables(t: Tables, id: nat, status: Status)
    requires TablesOk(t)
    ensures TablesOk(UpdateStatus(t, id, status))
  {
    var changed := WithStatus(t.rows, id, status);
    WithStatusMembers(t.rows, id, status);
    forall x | x in changed ensures x.id < t.nextId && x.session in t.sessions {
      var r :| r in t.rows && x == if r.id == id then r.(status := status) else r;
    }
  }

  lemma AutoFixKeepsTurn(t: Tables, turn: Turn)
    requires TurnOk(t, turn) && FixTargetOf(t, turn.session).Some?
    ensures TurnOk(AutoFixed(t, turn.session, FixTargetOf(t, turn.session).value), turn)
  {
    var id := FixTargetOf(t, turn.session).value;
    var u := UpdateStatus(t, id, Dropped);
    FixTargetIsUnanswered(t, turn.session);
    DropKeepsBrackets(t.rows, id);
    StatusKeepsPlaces(t.rows, id, Dropped);
    PlacesKeepUnmixed(t.rows, u.rows);
    PlacesKeepCurrent(t.rows, u.rows, turn.session, turn.group);
    StatusKeepsTables(t, id, Dropped);
    AppendKeepsTurn(u, turn, FixedRow(turn.session));
  }

  // ----- A reply and the answers to its calls -----

  /** `r` is a tool row of the turn that answers a call of one of `ms`. */
  ghost predicate AnswersOneOf(turn: Turn, ms: seq<Row>, r: Row) {
    && r.role == Tool && r.session == turn.session && r.group == turn.group
    && exists c :: c in ms && c.role == Assistant && c.strategy == r.strategy && IsCallOf(c, r.callId)
  }

  lemma AnswersOfOne(turn: Turn, m: Row, outcomes: nat -> Outcome, r: Row)
    requires r in Answers(turn, m, outcomes)
    ensures AnswersOneOf(turn, [m], r)
  {
    var calls := ExtractToolCalls(m);
    var rows := Answers(turn, m, outcomes);
    var k :| 0 <= k < |rows| && rows[k] == r;
    assert calls[k] in calls && CombinedId(calls[k]) == r.callId;
    assert m in [m] && IsCallOf(m, r.callId);
  }

  lemma {:induction false} AnswersOfAll(turn: Turn, ms: seq<Row>, outcomes: (nat, nat) -> Outcome, r: Row)
    requires r in AllAnswers(turn, ms, outcomes)
    ensures AnswersOneOf(turn, ms, r)
  {
    var j := |ms| - 1;
    assert ms == ms[..j] + [ms[j]];
    if r in AllAnswers(turn, ms[..j], outcomes) {
      AnswersOfAll(turn, ms[..j], outcomes, r);
    } else {
      AnswersOfOne(turn, ms[j], OutcomesOf(outcomes, j), r);
    }
  }

  lemma NumberedMember(rs: seq<Row>, first: nat, n: Row) returns (r: Row)
    requires n in Numbered(rs, first)
    ensures r in rs && n == r.(id := n.id) && n.id >= first
  {
    var i :| 0 <= i < |rs| && Numbered(rs, first)[i] == n;
    r := rs[i];
  }

  lemma RoundIsBlock(turn: Turn, added: seq<Row>, outcomes: (nat, nat) -> Outcome, first: nat)
    requires forall r :: r in added ==> IsReplyRow(turn, r) && r.id < first
    ensures IsBlock(added + Numbered(AllAnswers(turn, added, outcomes), first), turn.session, turn.group)
  {
    var answers := AllAnswers(turn, added, outcomes);
    var block := added + Numbered(answers, first);
    forall n | n in Numbered(answers, first)
      ensures n.session == turn.session && n.group == turn.group && n.role == Tool
      ensures exists c :: c in block && AnswersCall(n, c)
    {
      var r := NumberedMember(answers, first, n);
      AnswersOfAll(turn, added, outcomes, r);
      var c :| c in added && c.role == Assistant && c.strategy == r.strategy && IsCallOf(c, r.callId);
      assert c in block && AnswersCall(n, c);
    }
  }

  lemma RoundRows(t: Tables, turn: Turn, usage: Option<Tokens>, reply: Reply, outcomes: (nat, nat) -> Outcome, added: seq<Row>)
    requires Received(t, turn, usage, reply).rows == t.rows + added
    ensures Round(t, turn, Replies(usage, reply, outcomes)).0
         == AppendAll(Received(t, turn, usage, reply), AllAnswers(turn, added, outcomes))
  {
    assert Received(t, turn, usage, reply).rows[|t.rows|..] == added;
  }

  lemma ReplyAddsRows(u: Tables, base: seq<Row>, added: seq<Row>, answers: seq<Row>)
    requires TablesOk(u) && u.rows == base + added
    ensures TablesOk(AppendAll(u, answers))
    ensures AppendAll(u, answers).rows == base + (added + Numbered(answers, u.nextId))
  {
    AppendAllKeepsTables(u, answers);
    AppendAllRows(u, answers);
    Reassociate(base, added, Numbered(answers, u.nextId));
  }

  lemma ReplyAddsBlock(t: Tables, turn: Turn, usage: Option<Tokens>, reply: Reply, outcomes: (nat, nat) -> Outcome)
    returns (block: seq<Row>)
    requires TablesOk(t)
    ensures Round(t, turn, Replies(usage, reply, outcomes)).0.rows == t.rows + block
    ensures TablesOk(Round(t, turn, Replies(usage, reply, outcomes)).0)
    ensures IsBlock(block, turn.session, turn.group)
  {
    var u := Received(t, turn, usage, reply);
    var added := u.rows[|t.rows|..];
    assert u.rows == t.rows + added;
    RoundRows(t, turn, usage, reply, outcomes, added);
    AddedAreOfTheTurn(t, turn, usage, reply, added);
    block := AnswersAddBlock(u, t.rows, turn, added, outcomes);
  }

  lemma AnswersAddBlock(u: Tables, base: seq<Row>, turn: Turn, added: seq<Row>, outcomes: (nat, nat) -> Outcome)
    returns (block: seq<Row>)
    requires TablesOk(u) && u.rows == base + added
    requires forall r :: r in added ==> IsReplyRow(turn, r) && r.id < u.nextId
    ensures AppendAll(u, AllAnswers(turn, added, outcomes)).rows == base + block
    ensures TablesOk(AppendAll(u, AllAnswers(turn, added, outcomes)))
    ensures IsBlock(block, turn.session, turn.group)
  {
    var answers := AllAnswers(turn, added, outcomes);
    block := added + Numbered(answers, u.nextId);
    ReplyAddsRows(u, base, added, answers);
    RoundIsBlock(turn, added, outcomes, u.nextId);
  }

  lemma AddedAreOfTheTurn(t: Tables, turn: Turn, usage: Option<Tokens>, reply: Reply, added: seq<Row>)
    requires TablesOk(t) && Received(t, turn, usage, reply).rows == t.rows + added
    ensures TablesOk(Received(t, turn, usage, reply))
    ensures forall r :: r in added ==> IsReplyRow(turn, r) && r.id < Received(t, turn, usage, reply).nextId
  {
    var u := Received(t, turn, usage, reply);
    ReceivedKeepsTables(t, turn, usage, reply);
    ReplyRowsAreOfTheTurn(t, turn, usage, reply);
    forall r | r in added ensures IsReplyRow(turn, r) && r.id < u.nextId {
      var i :| 0 <= i < |added| && added[i] == r;
      assert u.rows[|t.rows| + i] == r && r in u.rows;
    }
  }

  lemma BlockKeepsTurn(t: Tables, turn: Turn, v: Tables, block: seq<Row>)
    requires TurnOk(t, turn) && TablesOk(v) && v.rows == t.rows + block && IsBlock(block, turn.session, turn.group)
    ensures TurnOk(v, turn)
  {
    BlockKeepsBrackets(t.rows, block, turn.session, turn.group);
    AddedKeepUnmixed(t.rows, block, turn.session, turn.group);
  }

  lemma ReplyKeepsTurn(t: Tables, turn: Turn, usage: Option<Tokens>, reply: Reply, outcomes: (nat, nat) -> Outcome)
    requires TurnOk(t, turn)
    ensures TurnOk(Round(t, turn, Replies(usage, reply, outcomes)).0, turn)
  {
    var block := ReplyAddsBlock(t, turn, usage, reply, outcomes);
    BlockKeepsTurn(t, turn, Round(t, turn, Replies(usage, reply, outcomes)).0, block);
  }

  // ----- The turn -----

  lemma RoundKeepsTurn(t: Tables, turn: Turn, event: Event)
    requires TurnOk(t, turn)
    ensures TurnOk(Round(t, turn, event).0, turn)
  {
    if event.BadRequest? {
      if FixTargetOf(t, turn.session).Some? {
        AutoFixKeepsTurn(t, turn);
      }
    } else if event.Replies? {
      ReplyKeepsTurn(t, turn, event.usage, event.reply, event.outcomes);
    }
  }

  lemma {:induction false} RoundsKeepTurn(t: Tables, turn: Turn, events: seq<Event>)
    requires TurnOk(t, turn)
    ensures TurnOk(Rounds(t, turn, events), turn)
    decreases |events|
  {
    if |events| > 0 {
      RoundKeepsTurn(t, turn, events[0]);
      RoundsKeepTurn(Round(t, turn, events[0]).0, turn, events[1..]);
    }
  }

  /** A turn under a fresh group keeps the ledger, wherever in it one looks. */
  lemma TurnKeepsLedger(t: Tables, turn: Turn, input: Utf8.Text, events: seq<Event>)
    requires LedgerOk(t) && Fresh(t.rows, turn.group)
    ensures TurnOk(TurnTaken(t, turn, input, events), turn)
  {
    AppendKeepsTurn(t, turn, UserRow(turn, input));
    RoundsKeepTurn(Append(t, UserRow(turn, input)), turn, events);
  }
}
