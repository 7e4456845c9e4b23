/**
 How many live calls of a session have no live answer, and which steps change that: an auto-fix that
 drops an answer adds one, an auto-fix that drops a call message takes its calls away, and nothing else
 in a turn counts.
 */
module Unanswered {
  import opened Basics
  import opened Ledger
  import opened Filtering
  import opened MessageParser
  import opened ToolDispatcher
  import opened CloneSession
  import opened Conversation
  import opened ConversationProofs
  import opened ToolRounds
  import opened Brackets
  import opened TurnProofs
  import opened LedgerRuns
  import opened Pairing
  import opened UndoProofs
  import Utf8

  // ----- Sums over rows -----

  function SumOf(rows: seq<Row>, w: Row -> nat): nat {
    if rows == [] then 0 else SumOf(rows[..|rows| - 1], w) + w(rows[|rows| - 1])
  }

  lemma {:induction false} SumConcat(a: seq<Row>, b: seq<Row>, w: Row -> nat)
    ensures SumOf(a + b, w) == SumOf(a, w) + SumOf(b, w)
    decreases |b|
  {
    if b == [] {
      assert a + b == a;
    } else {
      assert (a + b)[..|a + b| - 1] == a + b[..|b| - 1];
      SumConcat(a, b[..|b| - 1], w);
    }
  }

  lemma {:induction false} SumZero(rows: seq<Row>, w: Row -> nat)
    requires forall r :: r in rows ==> w(r) == 0
    ensures SumOf(rows, w) == 0
  {
    if rows != [] {
      SumZero(rows[..|rows| - 1], w);
    }
  }

  lemma LastIsIt(rows: seq<Row>, x: Row, status: Status)
    requires Ascending(rows) && x in rows && rows[|rows| - 1].id == x.id
    ensures rows[|rows| - 1] == x && WithStatus(rows[..|rows| - 1], x.id, status) == rows[..|rows| - 1]
  {
    SameIdSameRow(rows, rows[|rows| - 1], x);
  }

  lemma FrontHasIt(rows: seq<Row>, x: Row)
    requires Ascending(rows) && x in rows && rows[|rows| - 1].id != x.id
    ensures Ascending(rows[..|rows| - 1]) && x in rows[..|rows| - 1]
  {
    assert rows == rows[..|rows| - 1] + [rows[|rows| - 1]];
  }

  /** A status change moves the sum by the change of that one row's weight. */
  lemma {:induction false} SumChanged(rows: seq<Row>, x: Row, status: Status, w: Row -> nat)
    requires Ascending(rows) && x in rows
    ensures SumOf(WithStatus(rows, x.id, status), w) + w(x) == SumOf(rows, w) + w(x.(status := status))
  {
    var front := rows[..|rows| - 1];
    assert WithStatus(rows, x.id, status)[..|rows| - 1] == WithStatus(front, x.id, status);
    if rows[|rows| - 1].id == x.id {
      LastIsIt(rows, x, status);
    } else {
      FrontHasIt(rows, x);
      SumChanged(front, x, status, w);
    }
  }

  function OutsideGroup(g: GroupId): Row -> bool {
    (r: Row) => r.group != g
  }

  /** Within one session, the rows of one group and the rest. */
  lemma {:induction false} SumByTurn(rows: seq<Row>, session: SessionId, g: GroupId, w: Row -> nat)
    requires forall r :: r in rows && r.session != session ==> w(r) == 0
    ensures SumOf(rows, w) == SumOf(TurnRows(rows, session, g), w) + SumOf(Filter(rows, OutsideGroup(g)), w)
  {
    if rows != [] {
      var front, last := rows[..|rows| - 1], rows[|rows| - 1];
      assert last in rows;
      SumByTurn(front, session, g, w);
      SumConcat(TurnRows(front, session, g), [last], w);
      SumConcat(Filter(front, OutsideGroup(g)), [last], w);
      assert [last][..0] == [];
      assert TurnRows(front, session, g) + [] == TurnRows(front, session, g);
      assert Filter(front, OutsideGroup(g)) + [] == Filter(front, OutsideGroup(g));
    }
  }

  // ----- Live calls and live answers -----

  function CallWeight(session: SessionId): Row -> nat {
    (r: Row) => if r.session == session && IsLive(r) then |StoredCalls(r)| else 0
  }

  function AnswerWeight(session: SessionId): Row -> nat {
    (r: Row) => if r.session == session && IsLive(r) && r.role == Tool then 1 else 0
  }

  /** The live calls of a session less its live answers. */
  function CountUnanswered(rows: seq<Row>, session: SessionId): int {
    SumOf(rows, CallWeight(session)) - SumOf(rows, AnswerWeight(session))
  }

  lemma {:induction false} LiveIdsConcat(a: seq<Mark>, b: seq<Mark>)
    ensures LiveIds(a + b) == LiveIds(a) + LiveIds(b)
  {
    if a == [] {
      assert a + b == b;
    } else {
      assert (a + b)[1..] == a[1..] + b;
      LiveIdsConcat(a[1..], b);
    }
  }

  lemma {:induction false} LiveTogether(ms: seq<Mark>, live: bool)
    requires forall n :: 0 <= n < |ms| ==> ms[n].live == live
    ensures |LiveIds(ms)| == if live then |ms| else 0
  {
    if ms != [] {
      LiveTogether(ms[1..], live);
    }
  }

  lemma {:induction false} TurnCounts(h: seq<Row>, session: SessionId)
    requires forall r :: r in h ==> r.session == session
    ensures |LiveIds(CallMarks(h))| == SumOf(h, CallWeight(session))
    ensures |LiveIds(AnswerMarks(h))| == SumOf(h, AnswerWeight(session))
  {
    if h != [] {
      var front, last, at := h[..|h| - 1], h[|h| - 1], |h| - 1;
      assert last in h;
      TurnCounts(front, session);
      LiveIdsConcat(CallMarks(front), MarksOf(last, at));
      LiveIdsConcat(AnswerMarks(front), AnswerMark(last, at));
      LiveTogether(MarksOf(last, at), IsLive(last));
      LiveTogether(AnswerMark(last, at), IsLive(last));
    }
  }

  /** The live answers of the turn's rows are, in order, those of its live calls. */
  ghost predicate TurnAnswered(h: seq<Row>) {
    LiveIds(AnswerMarks(h)) == LiveIds(CallMarks(h))
  }

  ghost predicate AllAnswered(rows: seq<Row>, session: SessionId) {
    forall g :: TurnAnswered(TurnRows(rows, session, g))
  }

  lemma TurnByCount(rows: seq<Row>, session: SessionId, g: GroupId)
    requires Paired(rows)
    ensures var h := TurnRows(rows, session, g);
            && SumOf(h, AnswerWeight(session)) <= SumOf(h, CallWeight(session))
            && (TurnAnswered(h) <==> SumOf(h, AnswerWeight(session)) == SumOf(h, CallWeight(session)))
  {
    var h := TurnRows(rows, session, g);
    assert IsPaired(h);
    LiveIdsAgree(CallMarks(h), AnswerMarks(h));
    FilterMembers(rows, OfTurn(session, g));
    TurnCounts(h, session);
  }

  lemma {:induction false} FilterSize<T>(s: seq<T>, p: T -> bool)
    ensures |Filter(s, p)| <= |s|
  {
    if s != [] {
      FilterSize(s[..|s| - 1], p);
    }
  }

  lemma OtherTurns(rows: seq<Row>, g: GroupId, session: SessionId, k: GroupId)
    ensures TurnRows(Filter(rows, OutsideGroup(g)), session, k) == if k == g then [] else TurnRows(rows, session, k)
  {
    if k == g {
      FilterMembers(rows, OutsideGroup(g));
      FilterNone(Filter(rows, OutsideGroup(g)), OfTurn(session, k));
    } else {
      FilterTwice(rows, OutsideGroup(g), OfTurn(session, k), OfTurn(session, k));
    }
  }

  lemma RestIsPaired(rows: seq<Row>, g: GroupId)
    requires Paired(rows)
    ensures Paired(Filter(rows, OutsideGroup(g)))
  {
    forall s, k ensures IsPaired(TurnRows(Filter(rows, OutsideGroup(g)), s, k)) {
      assert IsPaired(TurnRows(rows, s, k));
      OtherTurns(rows, g, s, k);
    }
  }

  lemma RestIsAnswered(rows: seq<Row>, session: SessionId, g: GroupId)
    ensures AllAnswered(rows, session) <==>
              TurnAnswered(TurnRows(rows, session, g)) && AllAnswered(Filter(rows, OutsideGroup(g)), session)
  {
    var rest := Filter(rows, OutsideGroup(g));
    forall k ensures TurnAnswered(TurnRows(rest, session, k)) <==> k == g || TurnAnswered(TurnRows(rows, session, k)) {
      OtherTurns(rows, g, session, k);
    }
    if AllAnswered(rest, session) {
      forall k ensures k == g || TurnAnswered(TurnRows(rows, session, k)) {
        assert TurnAnswered(TurnRows(rest, session, k));
      }
    }
  }

  /** Every live call of a session is answered exactly when the count is 0, and it is never below. */
  lemma {:induction false} AnsweredByCount(rows: seq<Row>, session: SessionId)
    requires Paired(rows)
    ensures CountUnanswered(rows, session) >= 0
    ensures AllAnswered(rows, session) <==> CountUnanswered(rows, session) == 0
    decreases |rows|
  {
    if rows == [] {
      assert forall g :: TurnRows(rows, session, g) == [];
    } else {
      var g := rows[|rows| - 1].group;
      var rest := Filter(rows, OutsideGroup(g));
      FilterSize(rows[..|rows| - 1], OutsideGroup(g));
      RestIsPaired(rows, g);
      AnsweredByCount(rest, session);
      RestIsAnswered(rows, session, g);
      TurnByCount(rows, session, g);
      SumByTurn(rows, session, g, CallWeight(session));
      SumByTurn(rows, session, g, AnswerWeight(session));
    }
  }

  // ----- The auto-fix -----

  /** The row that the auto-fix drops. */
  function NewestRelated(h: seq<Row>): Option<Row> {
    if h == [] then None
    else if ToolRelated(h[|h| - 1]) then Some(h[|h| - 1])
    else NewestRelated(h[..|h| - 1])
  }

  lemma {:induction false} TargetIsNewest(h: seq<Row>)
    ensures FixTarget(h) == match NewestRelated(h) case Some(x) => Some(x.id) case None => None
    ensures NewestRelated(h).Some? ==> NewestRelated(h).value in h && ToolRelated(NewestRelated(h).value)
  {
    if h != [] {
      TargetIsNewest(h[..|h| - 1]);
      assert h == h[..|h| - 1] + [h[|h| - 1]];
    }
  }

  function TargetRow(t: Tables, session: SessionId): Option<Row> {
    NewestRelated(History(t, session, false, FIX_WINDOW))
  }

  lemma TargetIsLive(t: Tables, session: SessionId)
    ensures FixTargetOf(t, session) == match TargetRow(t, session) case Some(x) => Some(x.id) case None => None
    ensures TargetRow(t, session).Some? ==>
              var x := TargetRow(t, session).value;
              x in t.rows && x.session == session && IsLive(x) && ToolRelated(x)
  {
    TargetIsNewest(History(t, session, false, FIX_WINDOW));
    HistoryMembers(t, session, false, FIX_WINDOW);
  }

  /** What a weight that only live rows have loses with the dropped row. */
  lemma FixedSum(t: Tables, session: SessionId, w: Row -> nat)
    requires IdsOk(t) && TargetRow(t, session).Some?
    requires (forall r: Row :: r.status == Dropped ==> w(r) == 0) && (forall r: Row :: r.role == User && r.status == Completed ==> w(r) == 0)
    ensures var x := TargetRow(t, session).value;
            SumOf(AutoFixed(t, session, x.id).rows, w) + w(x) == SumOf(t.rows, w)
  {
    var x := TargetRow(t, session).value;
    var dropped := WithStatus(t.rows, x.id, Dropped);
    var notice := FixedRow(session).(id := t.nextId);
    TargetIsLive(t, session);
    SumChanged(t.rows, x, Dropped, w);
    SumConcat(dropped, [notice], w);
    SumZero([notice], w);
  }

  /** What an event does to the count of its session. */
  function Effect(t: Tables, turn: Turn, event: Event): int {
    if !event.BadRequest? then 0
    else
      match TargetRow(t, turn.session)
      case None => 0
      case Some(x) => if x.role == Tool then 1 else -|StoredCalls(x)|
  }

  lemma FixEffect(t: Tables, turn: Turn, session: SessionId)
    requires IdsOk(t) && TargetRow(t, turn.session).Some?
    ensures var x := TargetRow(t, turn.session).value;
            CountUnanswered(AutoFixed(t, turn.session, x.id).rows, session)
            == CountUnanswered(t.rows, session) + if session == turn.session then Effect(t, turn, BadRequest) else 0
  {
    TargetIsLive(t, turn.session);
    FixedSum(t, turn.session, CallWeight(session));
    FixedSum(t, turn.session, AnswerWeight(session));
  }

  // ----- Replies -----

  lemma {:induction false} AddedSums(turn: Turn, added: seq<Row>, session: SessionId)
    requires forall r :: r in added ==> IsReplyRow(turn, r)
    ensures SumOf(added, CallWeight(session)) == if session == turn.session then |ExtractedCalls(added)| else 0
    ensures SumOf(added, AnswerWeight(session)) == 0
  {
    if added != [] {
      var front, last := added[..|added| - 1], added[|added| - 1];
      assert last in added && IsReplyRow(turn, last);
      AddedSums(turn, front, session);
      assert last.status == ToolCall ==> last.(status := ToolCall) == last;
    }
  }

  lemma {:induction false} AnswerSums(turn: Turn, answers: seq<Row>, cs: seq<Call>, session: SessionId)
    requires StoreAnswers(turn, answers, cs)
    ensures SumOf(answers, CallWeight(session)) == 0
    ensures SumOf(answers, AnswerWeight(session)) == if session == turn.session then |cs| else 0
    decreases |answers|
  {
    if answers != [] {
      var k := |answers| - 1;
      FrontAnswers(turn, answers, cs, k);
      AnswerSums(turn, answers[..k], cs[..k], session);
    }
  }

  lemma ReplyEffect(t: Tables, turn: Turn, usage: Option<Tokens>, reply: Reply, outcomes: (nat, nat) -> Outcome, session: SessionId)
    requires TablesOk(t)
    ensures CountUnanswered(Round(t, turn, Replies(usage, reply, outcomes)).0.rows, session) == CountUnanswered(t.rows, session)
  {
    var u := Received(t, turn, usage, reply);
    var added := u.rows[|t.rows|..];
    assert u.rows == t.rows + added;
    AddedAreOfTheTurn(t, turn, usage, reply, added);
    StoredCallsAreTheReplys(t, turn, usage, reply);
    var answers := RoundAnswersTheReply(t, turn, usage, reply, outcomes);
    AddedSums(turn, added, session);
    AnswerSums(turn, answers, ExtractedCalls(added), session);
    BothSums(t.rows, added, answers, CallWeight(session));
    BothSums(t.rows, added, answers, AnswerWeight(session));
  }

  lemma BothSums(rows: seq<Row>, added: seq<Row>, answers: seq<Row>, w: Row -> nat)
    ensures SumOf(rows + added + answers, w) == SumOf(rows, w) + SumOf(added, w) + SumOf(answers, w)
  {
    SumConcat(rows + added, answers, w);
    SumConcat(rows, added, w);
  }

  lemma RoundEffect(t: Tables, turn: Turn, event: Event, session: SessionId)
    requires TablesOk(t)
    ensures CountUnanswered(Round(t, turn, event).0.rows, session)
         == CountUnanswered(t.rows, session) + if session == turn.session then Effect(t, turn, event) else 0
  {
    TargetIsLive(t, turn.session);
    if event.BadRequest? {
      if TargetRow(t, turn.session).Some? {
        FixEffect(t, turn, session);
      }
    } else if event.Replies? {
      ReplyEffect(t, turn, event.usage, event.reply, event.outcomes, session);
    }
  }

  // ----- Call messages -----

  /** A message with the call status is an assistant message with at least one call. */
  ghost predicate CallsStored(rows: seq<Row>) {
    forall r :: r in rows && r.status == ToolCall ==> r.role == Assistant && StoredCalls(r) != []
  }

  lemma FixKeepsCalls(t: Tables, session: SessionId, id: nat)
    requires CallsStored(t.rows)
    ensures CallsStored(AutoFixed(t, session, id).rows)
  {
    WithStatusMembers(t.rows, id, Dropped);
  }

  lemma RoundKeepsCalls(t: Tables, turn: Turn, event: Event)
    requires TablesOk(t) && CallsStored(t.rows)
    ensures CallsStored(Round(t, turn, event).0.rows)
  {
    if event.Replies? {
      ReplyKeepsCalls(t, turn, event.usage, event.reply, event.outcomes);
    } else if event.BadRequest? && FixTargetOf(t, turn.session).Some? {
      FixKeepsCalls(t, turn.session, FixTargetOf(t, turn.session).value);
    }
  }

  lemma ReplyKeepsCalls(t: Tables, turn: Turn, usage: Option<Tokens>, reply: Reply, outcomes: (nat, nat) -> Outcome)
    requires TablesOk(t) && CallsStored(t.rows)
    ensures CallsStored(Round(t, turn, Replies(usage, reply, outcomes)).0.rows)
  {
    var u := Received(t, turn, usage, reply);
    var added := u.rows[|t.rows|..];
    assert u.rows == t.rows + added;
    AddedAreOfTheTurn(t, turn, usage, reply, added);
    var answers := RoundAnswersTheReply(t, turn, usage, reply, outcomes);
    forall r | r in added && r.status == ToolCall ensures r.role == Assistant && StoredCalls(r) != [] {
      assert IsReplyRow(turn, r) && r.(status := ToolCall) == r;
    }
    forall r | r in answers ensures r.status != ToolCall {
      var k :| 0 <= k < |answers| && answers[k] == r;
      assert StoresAnswer(turn, r, CallsOf(turn.strategy, reply)[k]);
    }
  }

  lemma {:induction false} RoundsKeepCalls(t: Tables, turn: Turn, events: seq<Event>)
    requires TurnOk(t, turn) && CallsStored(t.rows)
    ensures CallsStored(Rounds(t, turn, events).rows)
    decreases |events|
  {
    if |events| > 0 {
      RoundKeepsCalls(t, turn, events[0]);
      RoundKeepsTurn(t, turn, events[0]);
      RoundsKeepCalls(Round(t, turn, events[0]).0, turn, events[1..]);
    }
  }

  lemma CopiesKeepStored(t: Tables, source: SessionId, target: SessionId)
    requires CallsStored(t.rows) && source in t.sessions
    ensures CallsStored(Copied(t, source, target).rows)
  {
    var h := SessionRows(t.rows, source, true);
    FilterMembers(t.rows, OfSession(source, true));
    forall x | x in RowCopies(h, target, t.nextId) && x.status == ToolCall ensures x.role == Assistant && StoredCalls(x) != [] {
      var i := CopyMember(h, target, t.nextId, x);
      assert h[i] in h;
      assert StoredCalls(x) == StoredCalls(h[i]);
    }
  }

  lemma StepKeepsCalls(t: Tables, c: Command)
    requires LedgerOk(t) && Allowed(t, c) && CallsStored(t.rows)
    ensures CallsStored(Step(t, c).rows)
  {
    match c
    case Take(turn, input, events) =>
      AppendKeepsTurn(t, turn, UserRow(turn, input));
      RoundsKeepCalls(Append(t, UserRow(turn, input)), turn, events);
    case Undo(session) =>
      if LastGroup(t.rows, session).Some? {
        FilterMembers(t.rows, NotInGroup(LastGroup(t.rows, session).value));
      }
    case RemoveGroup(g) => FilterMembers(t.rows, NotInGroup(g));
    case Clone(source, target) =>
      if source in t.sessions && target !in t.sessions {
        CopiesKeepStored(t, source, target);
      }
    case Delete(session) => FilterMembers(t.rows, NotInSession(session));
    case _ =>
  }

  lemma {:induction false} EveryRunStoresCalls(cs: seq<Command>)
    requires AllAllowed(EMPTY, cs)
    ensures CallsStored(Run(EMPTY, cs).rows)
  {
    if |cs| > 0 {
      var front := cs[..|cs| - 1];
      EveryRunStoresCalls(front);
      EveryRunKeepsLedger(front);
      StepKeepsCalls(Run(EMPTY, front), cs[|cs| - 1]);
    }
  }

  // ----- One event -----

  /** Where nothing is unanswered, the auto-fix drops an answer: a call message would leave the count below 0. */
  lemma FirstFixDropsAnAnswer(t: Tables, turn: Turn)
    requires TablesOk(t) && Paired(t.rows) && CallsStored(t.rows)
    requires CountUnanswered(t.rows, turn.session) == 0 && TargetRow(t, turn.session).Some?
    ensures TargetRow(t, turn.session).value.role == Tool && Effect(t, turn, BadRequest) == 1
  {
    var x := TargetRow(t, turn.session).value;
    TargetIsLive(t, turn.session);
    RoundEffect(t, turn, BadRequest, turn.session);
    RoundKeepsPaired(t, turn, BadRequest);
    AnsweredByCount(Round(t, turn, BadRequest).0.rows, turn.session);
    assert x.role != Tool ==> StoredCalls(x) != [];
  }

  /**
   After every run, in a session whose live calls are all answered: an event of a turn leaves them all
   answered if and only if it is not a bad request that finds a tool call or an answer among the live
   rows of the last ten groups. Other sessions keep theirs in any case.
   */
  lemma LiveCallsAreAnswered(cs: seq<Command>, turn: Turn, event: Event)
    requires AllAllowed(EMPTY, cs) && AllAnswered(Run(EMPTY, cs).rows, turn.session)
    ensures var t := Run(EMPTY, cs);
            AllAnswered(Round(t, turn, event).0.rows, turn.session)
            <==> !(event.BadRequest? && exists r :: r in History(t, turn.session, false, FIX_WINDOW) && ToolRelated(r))
    ensures forall s :: s != turn.session && AllAnswered(Run(EMPTY, cs).rows, s) ==>
              AllAnswered(Round(Run(EMPTY, cs), turn, event).0.rows, s)
  {
    var t := Run(EMPTY, cs);
    EveryRunKeepsLedger(cs);
    EveryRunPairsCalls(cs);
    EveryRunStoresCalls(cs);
    RoundKeepsPaired(t, turn, event);
    AnsweredByCount(t.rows, turn.session);
    AnsweredByCount(Round(t, turn, event).0.rows, turn.session);
    RoundEffect(t, turn, event, turn.session);
    TargetIsLive(t, turn.session);
    FixTargetExists(History(t, turn.session, false, FIX_WINDOW));
    if TargetRow(t, turn.session).Some? {
      FirstFixDropsAnAnswer(t, turn);
    }
    forall s | s != turn.session && AllAnswered(t.rows, s) ensures AllAnswered(Round(t, turn, event).0.rows, s) {
      AnsweredByCount(t.rows, s);
      RoundEffect(t, turn, event, s);
      AnsweredByCount(Round(t, turn, event).0.rows, s);
    }
  }

  // ----- Turns -----

  /** What the events of a turn do to the count together. */
  function Balance(t: Tables, turn: Turn, events: seq<Event>): int
    decreases |events|
  {
    if |events| == 0 then 0
    else
      var (u, going) := Round(t, turn, events[0]);
      Effect(t, turn, events[0]) + if going then Balance(u, turn, events[1..]) else 0
  }

  lemma BalanceOfFix(t: Tables, turn: Turn, rest: seq<Event>)
    requires FixTargetOf(t, turn.session).Some?
    ensures var u := AutoFixed(t, turn.session, FixTargetOf(t, turn.session).value);
            Balance(t, turn, [BadRequest] + rest) == Effect(t, turn, BadRequest) + Balance(u, turn, rest)
  {
    assert ([BadRequest] + rest)[1..] == rest;
  }

  lemma {:induction false} RoundsEffect(t: Tables, turn: Turn, events: seq<Event>, session: SessionId)
    requires TurnOk(t, turn)
    ensures CountUnanswered(Rounds(t, turn, events).rows, session)
         == CountUnanswered(t.rows, session) + if session == turn.session then Balance(t, turn, events) else 0
    decreases |events|
  {
    if |events| > 0 {
      RoundEffect(t, turn, events[0], session);
      RoundKeepsTurn(t, turn, events[0]);
      RoundsEffect(Round(t, turn, events[0]).0, turn, events[1..], session);
    }
  }

  lemma {:induction false} NoFixNoEffect(t: Tables, turn: Turn, events: seq<Event>)
    requires FixCount(t, turn, events) == 0
    ensures Balance(t, turn, events) == 0
    decreases |events|
  {
    if |events| > 0 {
      TargetIsLive(t, turn.session);
      if Round(t, turn, events[0]).1 {
        NoFixNoEffect(Round(t, turn, events[0]).0, turn, events[1..]);
      }
    }
  }

  lemma UserRowEffect(rows: seq<Row>, r: Row, session: SessionId)
    requires r.role == User && r.status == Completed
    ensures CountUnanswered(rows + [r], session) == CountUnanswered(rows, session)
  {
    SumConcat(rows, [r], CallWeight(session));
    SumConcat(rows, [r], AnswerWeight(session));
    SumZero([r], CallWeight(session));
    SumZero([r], AnswerWeight(session));
  }

  lemma TurnEffect(t: Tables, turn: Turn, input: Utf8.Text, events: seq<Event>, session: SessionId)
    requires LedgerOk(t) && Fresh(t.rows, turn.group)
    ensures CountUnanswered(TurnTaken(t, turn, input, events).rows, session)
         == CountUnanswered(t.rows, session)
            + if session == turn.session then Balance(Append(t, UserRow(turn, input)), turn, events) else 0
  {
    AppendKeepsTurn(t, turn, UserRow(turn, input));
    UserRowEffect(t.rows, UserRow(turn, input).(id := t.nextId), session);
    RoundsEffect(Append(t, UserRow(turn, input)), turn, events, session);
  }

  /**
   After every run, a turn leaves the live calls of its session all answered exactly when what was
   unanswered before and the balance of its auto-fixes, one for each dropped answer less the calls of
   each dropped call message, come to 0. A turn without an auto-fix has balance 0.
   */
  lemma TurnLeavesCallsAnswered(cs: seq<Command>, turn: Turn, input: Utf8.Text, events: seq<Event>)
    requires AllAllowed(EMPTY, cs) && Fresh(Run(EMPTY, cs).rows, turn.group)
    ensures var t := Run(EMPTY, cs); var s := Append(t, UserRow(turn, input));
            && (AllAnswered(TurnTaken(t, turn, input, events).rows, turn.session)
                <==> CountUnanswered(t.rows, turn.session) + Balance(s, turn, events) == 0)
            && (FixCount(s, turn, events) == 0 ==> Balance(s, turn, events) == 0)
  {
    var t := Run(EMPTY, cs);
    var s := Append(t, UserRow(turn, input));
    EveryRunKeepsLedger(cs);
    EveryRunPairsCalls(cs);
    TurnEffect(t, turn, input, events, turn.session);
    StepKeepsPairs(t, Command.Take(turn, input, events));
    AnsweredByCount(TurnTaken(t, turn, input, events).rows, turn.session);
    if FixCount(s, turn, events) == 0 {
      NoFixNoEffect(s, turn, events);
    }
  }

  // ----- Runs -----

  /** Every turn of the run goes without an auto-fix. */
  ghost predicate WithoutFix(t: Tables, cs: seq<Command>) {
    |cs| > 0 ==>
      var front, c := cs[..|cs| - 1], cs[|cs| - 1];
      && WithoutFix(t, front)
      && (c.Take? ==> FixCount(Append(Run(t, front), UserRow(c.turn, c.input)), c.turn, c.events) == 0)
  }

  lemma DeletedTurns(t: Tables, c: Command, session: SessionId, g: GroupId)
    requires c.RemoveGroup? || c.Delete?
    ensures TurnRows(Step(t, c).rows, session, g) == TurnRows(t.rows, session, g) || TurnRows(Step(t, c).rows, session, g) == []
  {
    if c.RemoveGroup? {
      FilterMembers(t.rows, NotInGroup(c.group));
      if c.group == "" || g != c.group {
        FilterTwice(t.rows, NotInGroup(c.group), OfTurn(session, g), OfTurn(session, g));
      } else {
        FilterNone(Step(t, c).rows, OfTurn(session, g));
      }
    } else {
      FilterMembers(t.rows, NotInSession(c.session));
      if session != c.session {
        FilterTwice(t.rows, NotInSession(c.session), OfTurn(session, g), OfTurn(session, g));
      } else {
        FilterNone(Step(t, c).rows, OfTurn(session, g));
      }
    }
  }

  lemma DeletionKeepsAnswers(t: Tables, c: Command, session: SessionId)
    requires AllAnswered(t.rows, session) && (c.RemoveGroup? || c.Delete?)
    ensures AllAnswered(Step(t, c).rows, session)
  {
    forall g ensures TurnAnswered(TurnRows(Step(t, c).rows, session, g)) {
      assert TurnAnswered(TurnRows(t.rows, session, g));
      DeletedTurns(t, c, session, g);
    }
  }

  lemma CloneKeepsAnswers(t: Tables, source: SessionId, target: SessionId, session: SessionId)
    requires NoOrphans(t) && source in t.sessions && target !in t.sessions
    requires AllAnswered(t.rows, if session == target then source else session)
    ensures AllAnswered(Copied(t, source, target).rows, session)
  {
    forall g ensures TurnAnswered(TurnRows(Copied(t, source, target).rows, session, g)) {
      assert TurnAnswered(TurnRows(t.rows, if session == target then source else session, g));
      ClonedTurn(t, source, target, session, g);
    }
  }

  /** No other command leaves a live call unanswered; a clone is as its source. */
  lemma CommandsKeepAnswers(t: Tables, c: Command, session: SessionId)
    requires NoOrphans(t) && !c.Take?
    requires AllAnswered(t.rows, session)
    requires c.Clone? && session == c.target ==> AllAnswered(t.rows, c.source)
    ensures AllAnswered(Step(t, c).rows, session)
  {
    match c
    case Undo(s) =>
      if LastGroup(t.rows, s).Some? {
        DeletionKeepsAnswers(t, RemoveGroup(LastGroup(t.rows, s).value), session);
      }
    case RemoveGroup(_) => DeletionKeepsAnswers(t, c, session);
    case Delete(_) => DeletionKeepsAnswers(t, c, session);
    case Clone(source, target) =>
      if source in t.sessions && target !in t.sessions {
        CloneKeepsAnswers(t, source, target, session);
      }
    case _ =>
  }

  lemma TurnWithoutFixKeepsAnswers(t: Tables, turn: Turn, input: Utf8.Text, events: seq<Event>, session: SessionId)
    requires LedgerOk(t) && Fresh(t.rows, turn.group) && Paired(t.rows) && AllAnswered(t.rows, session)
    requires FixCount(Append(t, UserRow(turn, input)), turn, events) == 0
    ensures AllAnswered(TurnTaken(t, turn, input, events).rows, session)
  {
    AnsweredByCount(t.rows, session);
    TurnEffect(t, turn, input, events, session);
    NoFixNoEffect(Append(t, UserRow(turn, input)), turn, events);
    StepKeepsPairs(t, Command.Take(turn, input, events));
    AnsweredByCount(TurnTaken(t, turn, input, events).rows, session);
  }

  /** Only the auto-fix leaves calls without answers: after every run without one, all live calls are answered. */
  lemma {:induction false} EveryRunWithoutFixAnswersAll(cs: seq<Command>, session: SessionId)
    requires AllAllowed(EMPTY, cs) && WithoutFix(EMPTY, cs)
    ensures AllAnswered(Run(EMPTY, cs).rows, session)
  {
    if |cs| > 0 {
      var front, c := cs[..|cs| - 1], cs[|cs| - 1];
      var t := Run(EMPTY, front);
      EveryRunWithoutFixAnswersAll(front, session);
      EveryRunKeepsLedger(front);
      EveryRunPairsCalls(front);
      if c.Take? {
        TurnWithoutFixKeepsAnswers(t, c.turn, c.input, c.events, session);
      } else {
        if c.Clone? {
          EveryRunWithoutFixAnswersAll(front, c.source);
        }
        CommandsKeepAnswers(t, c, session);
      }
    } else {
      assert forall g :: TurnRows([], session, g) == [];
    }
  }

  // ----- The retries end -----

  function RelatedWeight(session: SessionId): Row -> nat {
    (r: Row) => if r.session == session && IsLive(r) && ToolRelated(r) then 1 else 0
  }

  lemma AutoFixKeepsTables(t: Tables, session: SessionId, id: nat)
    requires TablesOk(t)
    ensures TablesOk(AutoFixed(t, session, id))
  {
    StatusKeepsTables(t, id, Dropped);
    AppendKeepsTables(UpdateStatus(t, id, Dropped), FixedRow(session));
  }

  lemma FixTakesOne(t: Tables, session: SessionId)
    requires TablesOk(t) && FixTargetOf(t, session).Some?
    ensures var u := AutoFixed(t, session, FixTargetOf(t, session).value);
            TablesOk(u) && SumOf(u.rows, RelatedWeight(session)) + 1 == SumOf(t.rows, RelatedWeight(session))
  {
    TargetIsLive(t, session);
    FixedSum(t, session, RelatedWeight(session));
    AutoFixKeepsTables(t, session, FixTargetOf(t, session).value);
  }

  lemma NextBadRequest(t: Tables, turn: Turn, events: seq<Event>)
    requires |events| > 0 && events[0].BadRequest?
    ensures FixTargetOf(t, turn.session) == None ==> FixCount(t, turn, events) == 0 && Rounds(t, turn, events) == t
    ensures FixTargetOf(t, turn.session).Some? ==>
              var u := AutoFixed(t, turn.session, FixTargetOf(t, turn.session).value);
              FixCount(t, turn, events) == 1 + FixCount(u, turn, events[1..]) && Rounds(t, turn, events) == Rounds(u, turn, events[1..])
  {
  }

  /** However often the request is refused, the auto-fix fires at most once for each live tool-related row of the session. */
  lemma {:induction false} FixesAreBounded(t: Tables, turn: Turn, events: seq<Event>)
    requires TablesOk(t) && forall e :: e in events ==> e.BadRequest?
    ensures FixCount(t, turn, events) + SumOf(Rounds(t, turn, events).rows, RelatedWeight(turn.session))
         == SumOf(t.rows, RelatedWeight(turn.session))
    decreases |events|
  {
    if |events| > 0 {
      NextBadRequest(t, turn, events);
      if FixTargetOf(t, turn.session).Some? {
        var u := AutoFixed(t, turn.session, FixTargetOf(t, turn.session).value);
        assert TablesOk(u) && SumOf(u.rows, RelatedWeight(turn.session)) + 1 == SumOf(t.rows, RelatedWeight(turn.session)) by {
          FixTakesOne(t, turn.session);
        }
        FixesAreBounded(u, turn, events[1..]);
      }
    }
  }
}
