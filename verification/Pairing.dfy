/**
 Calls and answers of a turn, paired by position. Each round stores its calls and then their answers
 in the same order, so in the rows of a turn the n-th call and the n-th answer belong together, whether
 or not either has been dropped since.
 */
module Pairing {
  import opened Basics
  import opened Ledger
  import opened Filtering
  import opened MessageParser
  import opened ToolDispatcher
  import opened CloneSession
  import opened Conversation
  import opened ConversationProofs
  import opened ToolRounds
  import opened Brackets
  import opened TurnProofs
  import opened LedgerRuns

  /** A call or an answer: its combined id, the position of its row in the turn, and whether the row is live. */
  datatype Mark = Mark(id: string, at: nat, live: bool)

  /** The calls in a message, dropped or not. */
  function StoredCalls(m: Row): seq<Call> {
    if m.role == Assistant then ExtractToolCalls(if m.body.Plain? then m else m.(status := ToolCall)) else []
  }

  function MarksOf(m: Row, at: nat): (ms: seq<Mark>)
    ensures |ms| == |StoredCalls(m)|
  {
    var cs := StoredCalls(m);
    seq(|cs|, k requires 0 <= k < |cs| => Mark(CombinedId(cs[k]), at, IsLive(m)))
  }

  /** The calls of the rows `h`, in order, when the first row has position `from`. */
  function CallMarksFrom(h: seq<Row>, from: nat): seq<Mark> {
    if h == [] then [] else CallMarksFrom(h[..|h| - 1], from) + MarksOf(h[|h| - 1], from + |h| - 1)
  }

  function AnswerMark(m: Row, at: nat): seq<Mark> {
    if m.role == Tool then [Mark(m.callId, at, IsLive(m))] else []
  }

  /** The tool rows of `h`, in order. */
  function AnswerMarksFrom(h: seq<Row>, from: nat): seq<Mark> {
    if h == [] then [] else AnswerMarksFrom(h[..|h| - 1], from) + AnswerMark(h[|h| - 1], from + |h| - 1)
  }

  function CallMarks(h: seq<Row>): seq<Mark> {
    CallMarksFrom(h, 0)
  }

  function AnswerMarks(h: seq<Row>): seq<Mark> {
    AnswerMarksFrom(h, 0)
  }

  /** One answer for each call, in order, under its id and behind it; a live answer has a live call. */
  ghost predicate Matched(calls: seq<Mark>, answers: seq<Mark>) {
    && |calls| == |answers|
    && forall n :: 0 <= n < |calls| ==> Pair(calls[n], answers[n])
  }

  predicate Pair(c: Mark, a: Mark) {
    c.id == a.id && c.at < a.at && (a.live ==> c.live)
  }

  function OfTurn(session: SessionId, g: GroupId): Row -> bool {
    (r: Row) => r.session == session && r.group == g
  }

  function TurnRows(rows: seq<Row>, session: SessionId, g: GroupId): seq<Row> {
    Filter(rows, OfTurn(session, g))
  }

  ghost predicate IsPaired(h: seq<Row>) {
    Matched(CallMarks(h), AnswerMarks(h))
  }

  ghost predicate Paired(rows: seq<Row>) {
    forall session, g :: IsPaired(TurnRows(rows, session, g))
  }

  // ----- Rows that are neither call nor answer -----

  lemma SilentRow(h: seq<Row>, r: Row)
    requires r.role == User
    ensures CallMarks(h + [r]) == CallMarks(h) && AnswerMarks(h + [r]) == AnswerMarks(h)
  {
    assert (h + [r])[..|h|] == h;
  }

  lemma UserRowKeepsPairs(rows: seq<Row>, r: Row)
    requires Paired(rows) && r.role == User
    ensures Paired(rows + [r])
  {
    forall session, g ensures IsPaired(TurnRows(rows + [r], session, g)) {
      assert IsPaired(TurnRows(rows, session, g));
      FilterAppend(rows, r, OfTurn(session, g));
      if OfTurn(session, g)(r) {
        SilentRow(TurnRows(rows, session, g), r);
      } else {
        assert TurnRows(rows, session, g) + [] == TurnRows(rows, session, g);
      }
    }
  }

  // ----- A round -----

  predicate IsMarkOf(m: Mark, c: Call, from: nat, to: nat) {
    m.id == CombinedId(c) && from <= m.at < to && m.live
  }

  /** Marks of rows added behind `from` rows: the calls `cs`, all live. */
  ghost predicate MarksCalls(ms: seq<Mark>, cs: seq<Call>, from: nat, to: nat) {
    |ms| == |cs| && forall n :: 0 <= n < |ms| ==> IsMarkOf(ms[n], cs[n], from, to)
  }

  lemma MarksConcat(a: seq<Mark>, b: seq<Mark>, cs: seq<Call>, ds: seq<Call>, from: nat, mid: nat, to: nat)
    requires MarksCalls(a, cs, from, mid) && MarksCalls(b, ds, mid, to) && from <= mid <= to
    ensures MarksCalls(a + b, cs + ds, from, to)
  {
    forall n | 0 <= n < |a + b| ensures IsMarkOf((a + b)[n], (cs + ds)[n], from, to) {
      if n < |a| {
        assert IsMarkOf(a[n], cs[n], from, mid);
      } else {
        assert IsMarkOf(b[n - |a|], ds[n - |a|], mid, to);
      }
    }
  }

  lemma ReplyRowMarks(turn: Turn, m: Row, at: nat)
    requires IsReplyRow(turn, m)
    ensures MarksCalls(MarksOf(m, at), ExtractToolCalls(m), at, at + 1) && AnswerMark(m, at) == []
  {
    assert m.status == ToolCall ==> m.(status := ToolCall) == m;
  }

  lemma {:induction false} AddedCallMarks(turn: Turn, added: seq<Row>, from: nat)
    requires forall r :: r in added ==> IsReplyRow(turn, r)
    ensures MarksCalls(CallMarksFrom(added, from), ExtractedCalls(added), from, from + |added|)
  {
    if added != [] {
      var front, last, at := added[..|added| - 1], added[|added| - 1], from + |added| - 1;
      assert last in added && IsReplyRow(turn, last);
      AddedCallMarks(turn, front, from);
      ReplyRowMarks(turn, last, at);
      MarksConcat(CallMarksFrom(front, from), MarksOf(last, at), ExtractedCalls(front), ExtractToolCalls(last), from, at, at + 1);
    }
  }

  lemma AnswerRowMarks(turn: Turn, m: Row, c: Call, at: nat)
    requires StoresAnswer(turn, m, c)
    ensures MarksCalls(AnswerMark(m, at), [c], at, at + 1) && MarksOf(m, at) == []
  {
    assert IsMarkOf(Mark(m.callId, at, true), c, at, at + 1);
  }

  lemma FrontAnswers(turn: Turn, answers: seq<Row>, cs: seq<Call>, k: nat)
    requires StoreAnswers(turn, answers, cs) && k < |answers|
    ensures StoreAnswers(turn, answers[..k], cs[..k]) && StoresAnswer(turn, answers[k], cs[k])
    ensures cs[..k] + [cs[k]] == cs[..k + 1]
  {
  }

  lemma {:induction false} AddedAnswerMarks(turn: Turn, answers: seq<Row>, cs: seq<Call>, from: nat)
    requires StoreAnswers(turn, answers, cs)
    ensures MarksCalls(AnswerMarksFrom(answers, from), cs, from, from + |answers|)
    decreases |answers|
  {
    if answers != [] {
      var k := |answers| - 1;
      FrontAnswers(turn, answers, cs, k);
      AddedAnswerMarks(turn, answers[..k], cs[..k], from);
      AnswerRowMarks(turn, answers[k], cs[k], from + k);
      MarksConcat(AnswerMarksFrom(answers[..k], from), AnswerMark(answers[k], from + k), cs[..k], [cs[k]],
                  from, from + k, from + k + 1);
      assert cs[..k + 1] == cs;
    }
  }

  lemma MatchedConcat(calls: seq<Mark>, answers: seq<Mark>, moreCalls: seq<Mark>, moreAnswers: seq<Mark>)
    requires Matched(calls, answers) && Matched(moreCalls, moreAnswers)
    ensures Matched(calls + moreCalls, answers + moreAnswers)
  {
    forall n | 0 <= n < |calls + moreCalls| ensures Pair((calls + moreCalls)[n], (answers + moreAnswers)[n]) {
      if n < |calls| {
        assert Pair(calls[n], answers[n]);
      } else {
        assert Pair(moreCalls[n - |calls|], moreAnswers[n - |calls|]);
      }
    }
  }

  lemma SameCallsMatch(calls: seq<Mark>, answers: seq<Mark>, cs: seq<Call>, from: nat, mid: nat, to: nat)
    requires MarksCalls(calls, cs, from, mid) && MarksCalls(answers, cs, mid, to)
    ensures Matched(calls, answers)
  {
    forall n | 0 <= n < |calls| ensures Pair(calls[n], answers[n]) {
      assert IsMarkOf(calls[n], cs[n], from, mid) && IsMarkOf(answers[n], cs[n], mid, to);
    }
  }

  lemma NextCalls(h: seq<Row>, r: Row, from: nat, at: nat)
    requires at == from + |h|
    ensures CallMarksFrom(h + [r], from) == CallMarksFrom(h, from) + MarksOf(r, at)
  {
    assert (h + [r])[..|h|] == h;
  }

  lemma NextAnswers(h: seq<Row>, r: Row)
    ensures AnswerMarks(h + [r]) == AnswerMarks(h) + AnswerMark(r, |h|)
  {
    assert (h + [r])[..|h|] == h;
  }

  lemma SplitLast<T>(h: seq<T>, added: seq<T>)
    requires added != []
    ensures h + added == (h + added[..|added| - 1]) + [added[|added| - 1]]
  {
  }

  lemma {:induction false} CallsSplit(h: seq<Row>, added: seq<Row>)
    ensures CallMarks(h + added) == CallMarks(h) + CallMarksFrom(added, |h|)
    decreases |added|
  {
    if added == [] {
      assert h + added == h;
    } else {
      CallsSplit(h, added[..|added| - 1]);
      CallsSplitNext(h, added[..|added| - 1], added[|added| - 1], added);
    }
  }

  lemma CallsSplitNext(h: seq<Row>, front: seq<Row>, last: Row, added: seq<Row>)
    requires added == front + [last] && CallMarks(h + front) == CallMarks(h) + CallMarksFrom(front, |h|)
    ensures CallMarks(h + added) == CallMarks(h) + CallMarksFrom(added, |h|)
  {
    var at := |h| + |front|;
    Reassociate(h, front, [last]);
    NextCalls(h + front, last, 0, at);
    NextCalls(front, last, |h|, at);
    Reassociate(CallMarks(h), CallMarksFrom(front, |h|), MarksOf(last, at));
  }

  lemma {:induction false} AnswersSplit(h: seq<Row>, answers: seq<Row>)
    ensures AnswerMarks(h + answers) == AnswerMarks(h) + AnswerMarksFrom(answers, |h|)
    decreases |answers|
  {
    if answers == [] {
      assert h + answers == h;
    } else {
      var front, last, at := answers[..|answers| - 1], answers[|answers| - 1], |h| + |answers| - 1;
      SplitLast(h, answers);
      AnswersSplit(h, front);
      NextAnswers(h + front, last);
      Reassociate(AnswerMarks(h), AnswerMarksFrom(front, |h|), AnswerMark(last, at));
    }
  }

  lemma {:induction false} NoMoreAnswers(h: seq<Row>, added: seq<Row>)
    requires forall r :: r in added ==> r.role != Tool
    ensures AnswerMarks(h + added) == AnswerMarks(h)
    decreases |added|
  {
    if added == [] {
      assert h + added == h;
    } else {
      var front, last := added[..|added| - 1], added[|added| - 1];
      assert last in added;
      SplitLast(h, added);
      NoMoreAnswers(h, front);
      NextAnswers(h + front, last);
    }
  }

  lemma {:induction false} NoMoreCalls(h: seq<Row>, answers: seq<Row>)
    requires forall r :: r in answers ==> r.role == Tool
    ensures CallMarks(h + answers) == CallMarks(h)
    decreases |answers|
  {
    if answers == [] {
      assert h + answers == h;
    } else {
      var front, last := answers[..|answers| - 1], answers[|answers| - 1];
      assert last in answers;
      SplitLast(h, answers);
      NoMoreCalls(h, front);
      NextCalls(h + front, last, 0, |h + front|);
    }
  }

  lemma RoundMatches(turn: Turn, h: seq<Row>, added: seq<Row>, answers: seq<Row>, block: seq<Row>, all: seq<Row>)
    requires IsPaired(h) && (forall r :: r in added ==> IsReplyRow(turn, r))
    requires StoreAnswers(turn, answers, ExtractedCalls(added)) && (forall r :: r in answers ==> r.role == Tool)
    requires block == h + added && all == block + answers
    ensures IsPaired(all)
  {
    var calls, replies := CallMarksFrom(added, |h|), AnswerMarksFrom(answers, |block|);
    AddedCallMarks(turn, added, |h|);
    AddedAnswerMarks(turn, answers, ExtractedCalls(added), |block|);
    CallsSplit(h, added);
    NoMoreAnswers(h, added);
    AnswersSplit(block, answers);
    NoMoreCalls(block, answers);
    AddedMatch(calls, replies, ExtractedCalls(added), |h|, |block|, |block| + |answers|, h);
  }

  lemma AddedMatch(calls: seq<Mark>, replies: seq<Mark>, cs: seq<Call>, from: nat, mid: nat, to: nat, h: seq<Row>)
    requires MarksCalls(calls, cs, from, mid) && MarksCalls(replies, cs, mid, to) && IsPaired(h)
    ensures Matched(CallMarks(h) + calls, AnswerMarks(h) + replies)
  {
    SameCallsMatch(calls, replies, cs, from, mid, to);
    MatchedConcat(CallMarks(h), AnswerMarks(h), calls, replies);
  }

  lemma AddedInTurn(rows: seq<Row>, added: seq<Row>, session: SessionId, g: GroupId)
    requires forall r :: r in added ==> r.session == session && r.group == g
    ensures TurnRows(rows + added, session, g) == TurnRows(rows, session, g) + added
    ensures forall s, k :: s != session || k != g ==> TurnRows(rows + added, s, k) == TurnRows(rows, s, k)
  {
    FilterConcat(rows, added, OfTurn(session, g));
    FilterAll(added, OfTurn(session, g));
    forall s, k | s != session || k != g ensures TurnRows(rows + added, s, k) == TurnRows(rows, s, k) {
      FilterConcat(rows, added, OfTurn(s, k));
      FilterNone(added, OfTurn(s, k));
      assert TurnRows(rows, s, k) + [] == TurnRows(rows, s, k);
    }
  }

  lemma RoundKeepsPairs(turn: Turn, rows: seq<Row>, added: seq<Row>, answers: seq<Row>)
    requires Paired(rows) && (forall r :: r in added ==> IsReplyRow(turn, r))
    requires StoreAnswers(turn, answers, ExtractedCalls(added))
    ensures Paired(rows + added + answers)
  {
    forall r | r in answers ensures r.session == turn.session && r.group == turn.group && r.role == Tool {
      var k :| 0 <= k < |answers| && answers[k] == r;
      assert StoresAnswer(turn, r, ExtractedCalls(added)[k]);
    }
    AddedInTurn(rows, added, turn.session, turn.group);
    AddedInTurn(rows + added, answers, turn.session, turn.group);
    forall session, g ensures IsPaired(TurnRows(rows + added + answers, session, g)) {
      assert IsPaired(TurnRows(rows, session, g));
      if session == turn.session && g == turn.group {
        RoundMatches(turn, TurnRows(rows, session, g), added, answers, TurnRows(rows + added, session, g),
                     TurnRows(rows + added + answers, session, g));
      }
    }
  }

  lemma ReplyKeepsPairs(t: Tables, turn: Turn, usage: Option<Tokens>, reply: Reply, outcomes: (nat, nat) -> Outcome)
    requires TablesOk(t) && Paired(t.rows)
    ensures Paired(Round(t, turn, Replies(usage, reply, outcomes)).0.rows)
  {
    var u := Received(t, turn, usage, reply);
    var added := u.rows[|t.rows|..];
    assert u.rows == t.rows + added;
    AddedAreOfTheTurn(t, turn, usage, reply, added);
    StoredCallsAreTheReplys(t, turn, usage, reply);
    var answers := RoundAnswersTheReply(t, turn, usage, reply, outcomes);
    RoundKeepsPairs(turn, t.rows, added, answers);
  }

  // ----- A drop -----

  lemma {:induction false} DropInTurn(rows: seq<Row>, id: nat, session: SessionId, g: GroupId)
    ensures TurnRows(WithStatus(rows, id, Dropped), session, g) == WithStatus(TurnRows(rows, session, g), id, Dropped)
  {
    if rows != [] {
      var front, last := rows[..|rows| - 1], rows[|rows| - 1];
      DropInTurn(front, id, session, g);
      assert WithStatus(rows, id, Dropped)[..|rows| - 1] == WithStatus(front, id, Dropped);
      if OfTurn(session, g)(last) {
        assert WithStatus(TurnRows(front, session, g) + [last], id, Dropped)
            == WithStatus(TurnRows(front, session, g), id, Dropped) + WithStatus([last], id, Dropped);
      }
    }
  }

  /** A mark of `h` after the drop of the row `id`. */
  function After(h: seq<Row>, id: nat, m: Mark): Mark {
    if m.at < |h| && h[m.at].id == id then m.(live := false) else m
  }

  lemma DroppedRowMarks(m: Row, at: nat)
    ensures var before, after := MarksOf(m, at), MarksOf(m.(status := Dropped), at);
            |after| == |before| && forall k :: 0 <= k < |before| ==> after[k] == before[k].(live := false)
  {
    assert StoredCalls(m.(status := Dropped)) == StoredCalls(m);
  }

  ghost predicate DroppedMarks(h: seq<Row>, id: nat, before: seq<Mark>, after: seq<Mark>) {
    |after| == |before| && forall n :: 0 <= n < |before| ==> before[n].at < |h| && after[n] == After(h, id, before[n])
  }

  lemma {:induction false} DroppedCallMarks(h: seq<Row>, id: nat)
    ensures DroppedMarks(h, id, CallMarks(h), CallMarks(WithStatus(h, id, Dropped)))
  {
    if h != [] {
      var front, last := h[..|h| - 1], h[|h| - 1];
      DroppedCallMarks(front, id);
      assert WithStatus(h, id, Dropped)[..|h| - 1] == WithStatus(front, id, Dropped);
      DroppedRowMarks(last, |h| - 1);
    }
  }

  lemma {:induction false} DroppedAnswerMarks(h: seq<Row>, id: nat)
    ensures var before := AnswerMarks(h);
            && DroppedMarks(h, id, before, AnswerMarks(WithStatus(h, id, Dropped)))
            && forall n :: 0 <= n < |before| ==> h[before[n].at].role == Tool && before[n].live == IsLive(h[before[n].at])
  {
    if h != [] {
      DroppedAnswerMarks(h[..|h| - 1], id);
      assert WithStatus(h, id, Dropped)[..|h| - 1] == WithStatus(h[..|h| - 1], id, Dropped);
    }
  }

  /** No live answer comes behind the row. */
  ghost predicate LastAnswer(h: seq<Row>, id: nat) {
    forall i, j :: 0 <= i < j < |h| && h[i].id == id ==> h[j].role != Tool || !IsLive(h[j])
  }

  lemma DropMatches(h: seq<Row>, id: nat)
    requires IsPaired(h) && LastAnswer(h, id)
    ensures IsPaired(WithStatus(h, id, Dropped))
  {
    DroppedCallMarks(h, id);
    DroppedAnswerMarks(h, id);
    var cs, answers := CallMarks(h), AnswerMarks(h);
    forall n | 0 <= n < |cs| ensures Pair(After(h, id, cs[n]), After(h, id, answers[n])) {
      assert Pair(cs[n], answers[n]);
    }
  }

  lemma AutoFixKeepsPairs(t: Tables, session: SessionId)
    requires IdsOk(t) && Paired(t.rows) && FixTargetOf(t, session).Some?
    ensures Paired(AutoFixed(t, session, FixTargetOf(t, session).value).rows)
  {
    var id := FixTargetOf(t, session).value;
    var rows := WithStatus(t.rows, id, Dropped);
    forall s, g ensures IsPaired(TurnRows(rows, s, g)) {
      var h := TurnRows(t.rows, s, g);
      assert IsPaired(h);
      DropInTurn(t.rows, id, s, g);
      FixTargetIsLastInTurn(t, session, s, g);
      DropMatches(h, id);
    }
    UserRowKeepsPairs(rows, FixedRow(session).(id := t.nextId));
  }

  lemma FixTargetIsLastInTurn(t: Tables, session: SessionId, s: SessionId, g: GroupId)
    requires IdsOk(t) && FixTargetOf(t, session).Some?
    ensures LastAnswer(TurnRows(t.rows, s, g), FixTargetOf(t, session).value)
  {
    var h := TurnRows(t.rows, s, g);
    FilterAscends(t.rows, OfTurn(s, g));
    FilterMembers(t.rows, OfTurn(s, g));
    forall i, j | 0 <= i < j < |h| && h[i].id == FixTargetOf(t, session).value ensures h[j].role != Tool || !IsLive(h[j]) {
      assert h[i] in h && h[j] in h && h[i].id < h[j].id;
      if h[j].role == Tool && IsLive(h[j]) {
        FixTargetIsLast(t, session, h[i], h[j]);
        assert false;
      }
    }
  }

  // ----- Turns -----

  lemma RoundKeepsPaired(t: Tables, turn: Turn, event: Event)
    requires TablesOk(t) && Paired(t.rows)
    ensures Paired(Round(t, turn, event).0.rows)
  {
    if event.BadRequest? {
      if FixTargetOf(t, turn.session).Some? {
        AutoFixKeepsPairs(t, turn.session);
      }
    } else if event.Replies? {
      ReplyKeepsPairs(t, turn, event.usage, event.reply, event.outcomes);
    }
  }

  lemma {:induction false} RoundsKeepPaired(t: Tables, turn: Turn, events: seq<Event>)
    requires TurnOk(t, turn) && Paired(t.rows)
    ensures Paired(Rounds(t, turn, events).rows)
    decreases |events|
  {
    if |events| > 0 {
      RoundKeepsPaired(t, turn, events[0]);
      RoundKeepsTurn(t, turn, events[0]);
      RoundsKeepPaired(Round(t, turn, events[0]).0, turn, events[1..]);
    }
  }

  // ----- Removal and cloning -----

  lemma DeleteGroupKeepsPairs(t: Tables, g: GroupId)
    requires Paired(t.rows)
    ensures Paired(DeleteGroup(t, g).rows)
  {
    forall s, k ensures IsPaired(TurnRows(DeleteGroup(t, g).rows, s, k)) {
      assert IsPaired(TurnRows(t.rows, s, k));
      if g == "" || k != g {
        FilterTwice(t.rows, NotInGroup(g), OfTurn(s, k), OfTurn(s, k));
      } else {
        FilterMembers(t.rows, NotInGroup(g));
        FilterNone(DeleteGroup(t, g).rows, OfTurn(s, k));
      }
    }
  }

  lemma DeleteSessionKeepsPairs(t: Tables, session: SessionId)
    requires Paired(t.rows)
    ensures Paired(DeleteSession(t, session).rows)
  {
    forall s, k ensures IsPaired(TurnRows(DeleteSession(t, session).rows, s, k)) {
      assert IsPaired(TurnRows(t.rows, s, k));
      if s != session {
        FilterTwice(t.rows, NotInSession(session), OfTurn(s, k), OfTurn(s, k));
      } else {
        FilterMembers(t.rows, NotInSession(session));
        FilterNone(DeleteSession(t, session).rows, OfTurn(s, k));
      }
    }
  }

  lemma SameRowMarks(r: Row, id: nat, target: SessionId, at: nat)
    ensures MarksOf(r.(id := id, session := target), at) == MarksOf(r, at)
  {
    var c := r.(id := id, session := target);
    assert StoredCalls(c) == StoredCalls(r);
  }

  lemma {:induction false} SameMarks(a: seq<Row>, b: seq<Row>, target: SessionId)
    requires SameUpToId(a, b, target)
    ensures CallMarks(a) == CallMarks(b) && AnswerMarks(a) == AnswerMarks(b)
  {
    if a != [] {
      var k := |a| - 1;
      SameMarks(a[..k], b[..k], target);
      assert b[k] == a[k].(id := b[k].id, session := target);
      SameRowMarks(a[k], b[k].id, target, k);
    }
  }

  lemma CopiedTurn(rows: seq<Row>, source: SessionId, target: SessionId, first: nat, g: GroupId)
    ensures SameUpToId(TurnRows(rows, source, g),
                       TurnRows(RowCopies(SessionRows(rows, source, true), target, first), target, g), target)
  {
    var h := SessionRows(rows, source, true);
    FilterMembers(rows, OfSession(source, true));
    forall i | 0 <= i < |h| ensures h[i].session == source {
      assert h[i] in h;
    }
    FilterSame(h, RowCopies(h, target, first), target, OfTurn(source, g), OfTurn(target, g));
    FilterTwice(rows, OfSession(source, true), OfTurn(source, g), OfTurn(source, g));
  }

  /** A turn of the clone reads like the source's, any other turn like before. */
  lemma ClonedTurn(t: Tables, source: SessionId, target: SessionId, s: SessionId, g: GroupId)
    requires NoOrphans(t) && source in t.sessions && target !in t.sessions
    ensures var now, before := TurnRows(Copied(t, source, target).rows, s, g), TurnRows(t.rows, if s == target then source else s, g);
            CallMarks(now) == CallMarks(before) && AnswerMarks(now) == AnswerMarks(before)
  {
    var copies := RowCopies(SessionRows(t.rows, source, true), target, t.nextId);
    FilterConcat(t.rows, copies, OfTurn(s, g));
    if s == target {
      FilterNone(t.rows, OfTurn(s, g));
      CopiedTurn(t.rows, source, target, t.nextId, g);
      SameMarks(TurnRows(t.rows, source, g), TurnRows(copies, target, g), target);
      assert [] + TurnRows(copies, s, g) == TurnRows(copies, s, g);
    } else {
      FilterNone(copies, OfTurn(s, g));
      assert TurnRows(t.rows, s, g) + [] == TurnRows(t.rows, s, g);
    }
  }

  lemma CloneKeepsPairs(t: Tables, source: SessionId, target: SessionId)
    requires NoOrphans(t) && Paired(t.rows) && source in t.sessions && target !in t.sessions
    ensures Paired(Copied(t, source, target).rows)
  {
    forall s, g ensures IsPaired(TurnRows(Copied(t, source, target).rows, s, g)) {
      assert IsPaired(TurnRows(t.rows, if s == target then source else s, g));
      ClonedTurn(t, source, target, s, g);
    }
  }

  // ----- Runs -----

  lemma StepKeepsPairs(t: Tables, c: Command)
    requires LedgerOk(t) && Allowed(t, c) && Paired(t.rows)
    ensures Paired(Step(t, c).rows)
  {
    match c
    case Take(turn, input, events) =>
      UserRowKeepsPairs(t.rows, UserRow(turn, input).(id := t.nextId));
      AppendKeepsTurn(t, turn, UserRow(turn, input));
      RoundsKeepPaired(Append(t, UserRow(turn, input)), turn, events);
    case Undo(session) =>
      if LastGroup(t.rows, session).Some? {
        DeleteGroupKeepsPairs(t, LastGroup(t.rows, session).value);
      }
    case RemoveGroup(g) => DeleteGroupKeepsPairs(t, g);
    case Clone(source, target) =>
      if source in t.sessions && target !in t.sessions {
        CloneKeepsPairs(t, source, target);
      }
    case Delete(session) => DeleteSessionKeepsPairs(t, session);
    case _ =>
  }

  /** After every run, in every session and turn: the n-th call and the n-th answer belong together. */
  lemma {:induction false} EveryRunPairsCalls(cs: seq<Command>)
    requires AllAllowed(EMPTY, cs)
    ensures Paired(Run(EMPTY, cs).rows)
  {
    if |cs| > 0 {
      var front := cs[..|cs| - 1];
      EveryRunPairsCalls(front);
      EveryRunKeepsLedger(front);
      StepKeepsPairs(Run(EMPTY, front), cs[|cs| - 1]);
    }
  }

  // ----- Live calls and live answers -----

  function LiveIds(ms: seq<Mark>): seq<string> {
    if ms == [] then [] else (if ms[0].live then [ms[0].id] else []) + LiveIds(ms[1..])
  }

  /** Some call is live and its own answer is dropped. */
  ghost predicate LostAnswer(calls: seq<Mark>, answers: seq<Mark>) {
    exists n :: 0 <= n < |calls| && n < |answers| && calls[n].live && !answers[n].live
  }

  lemma {:induction false} LiveIdsAgree(calls: seq<Mark>, answers: seq<Mark>)
    requires Matched(calls, answers)
    ensures |LiveIds(answers)| <= |LiveIds(calls)|
    ensures LostAnswer(calls, answers) ==> |LiveIds(answers)| < |LiveIds(calls)|
    ensures !LostAnswer(calls, answers) ==> LiveIds(answers) == LiveIds(calls)
  {
    if calls != [] {
      var c, a := calls[1..], answers[1..];
      assert Pair(calls[0], answers[0]);
      assert forall n :: 0 <= n < |c| ==> c[n] == calls[n + 1] && a[n] == answers[n + 1];
      LiveIdsAgree(c, a);
      if n :| 0 <= n < |calls| && calls[n].live && !answers[n].live {
        if n > 0 {
          assert c[n - 1].live && !a[n - 1].live;
        }
      } else {
        assert !LostAnswer(c, a);
      }
    }
  }

  /** What a lost answer means after a run: the live answers of the turn are no longer those of its live calls. */
  lemma LostAnswersShow(cs: seq<Command>, session: SessionId, g: GroupId)
    requires AllAllowed(EMPTY, cs)
    ensures var h := TurnRows(Run(EMPTY, cs).rows, session, g);
            LiveIds(AnswerMarks(h)) == LiveIds(CallMarks(h)) <==> !LostAnswer(CallMarks(h), AnswerMarks(h))
  {
    EveryRunPairsCalls(cs);
    var h := TurnRows(Run(EMPTY, cs).rows, session, g);
    assert IsPaired(h);
    LiveIdsAgree(CallMarks(h), AnswerMarks(h));
  }
}
