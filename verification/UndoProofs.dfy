/** When undo takes a turn back. */
module UndoProofs {
  import opened Basics
  import opened Ledger
  import opened Filtering
  import opened Conversation
  import opened Brackets
  import opened TurnProofs
  import opened LedgerRuns
  import Utf8

  predicate Fixes(t: Tables, turn: Turn, event: Event) {
    event.BadRequest? && FixTargetOf(t, turn.session).Some?
  }

  /** How many of the events are bad requests that find a row to drop. */
  function FixCount(t: Tables, turn: Turn, events: seq<Event>): nat
    decreases |events|
  {
    if |events| == 0 then 0
    else
      var (u, going) := Round(t, turn, events[0]);
      (if Fixes(t, turn, events[0]) then 1 else 0) + if going then FixCount(u, turn, events[1..]) else 0
  }

  function Ungrouped(rows: seq<Row>): seq<Row> {
    Filter(rows, OfGroup(""))
  }

  ghost predicate AllOf(rows: seq<Row>, session: SessionId, g: GroupId) {
    forall r :: r in rows ==> r.session == session && r.group == g
  }

  lemma AddedUngrouped(rows: seq<Row>, added: seq<Row>)
    ensures |Ungrouped(rows + added)| == |Ungrouped(rows)| + |Ungrouped(added)|
  {
    FilterConcat(rows, added, OfGroup(""));
  }

  lemma {:induction false} StatusKeepsUngrouped(rows: seq<Row>, id: nat, status: Status)
    ensures |Ungrouped(WithStatus(rows, id, status))| == |Ungrouped(rows)|
  {
    if rows != [] {
      var front := rows[..|rows| - 1];
      StatusKeepsUngrouped(front, id, status);
      assert WithStatus(rows, id, status)[..|rows| - 1] == WithStatus(front, id, status);
    }
  }

  lemma RoundUngrouped(t: Tables, turn: Turn, event: Event)
    requires TurnOk(t, turn) && turn.group != ""
    ensures |Ungrouped(Round(t, turn, event).0.rows)|
         == |Ungrouped(t.rows)| + if Fixes(t, turn, event) then 1 else 0
  {
    if Fixes(t, turn, event) {
      var id := FixTargetOf(t, turn.session).value;
      var u := UpdateStatus(t, id, Dropped);
      StatusKeepsUngrouped(t.rows, id, Dropped);
      FilterAppend(u.rows, FixedRow(turn.session).(id := u.nextId), OfGroup(""));
    } else if event.Replies? {
      var block := ReplyAddsBlock(t, turn, event.usage, event.reply, event.outcomes);
      AddedUngrouped(t.rows, block);
      FilterNone(block, OfGroup(""));
    }
  }

  /** Every auto-fix leaves one more ungrouped row behind. */
  lemma {:induction false} RoundsUngrouped(t: Tables, turn: Turn, events: seq<Event>)
    requires TurnOk(t, turn) && turn.group != ""
    ensures |Ungrouped(Rounds(t, turn, events).rows)| == |Ungrouped(t.rows)| + FixCount(t, turn, events)
    decreases |events|
  {
    if |events| > 0 {
      RoundUngrouped(t, turn, events[0]);
      RoundKeepsTurn(t, turn, events[0]);
      RoundsUngrouped(Round(t, turn, events[0]).0, turn, events[1..]);
    }
  }

  lemma RoundWithoutFix(t: Tables, turn: Turn, event: Event) returns (added: seq<Row>)
    requires TurnOk(t, turn) && !Fixes(t, turn, event)
    ensures Round(t, turn, event).0.rows == t.rows + added && AllOf(added, turn.session, turn.group)
  {
    if event.Replies? {
      added := ReplyAddsBlock(t, turn, event.usage, event.reply, event.outcomes);
    } else {
      added := [];
    }
  }

  lemma {:induction false} RoundsWithoutFix(t: Tables, turn: Turn, events: seq<Event>) returns (added: seq<Row>)
    requires TurnOk(t, turn) && FixCount(t, turn, events) == 0
    ensures Rounds(t, turn, events).rows == t.rows + added && AllOf(added, turn.session, turn.group)
    decreases |events|
  {
    added := [];
    if |events| > 0 {
      var first := RoundWithoutFix(t, turn, events[0]);
      added := first;
      RoundKeepsTurn(t, turn, events[0]);
      var (u, going) := Round(t, turn, events[0]);
      if going {
        var rest := RoundsWithoutFix(u, turn, events[1..]);
        added := first + rest;
        Reassociate(t.rows, first, rest);
      }
    }
  }

  lemma DeleteKeepsUngrouped(t: Tables, g: GroupId)
    ensures Ungrouped(DeleteGroup(t, g).rows) == Ungrouped(t.rows)
  {
    FilterTwice(t.rows, NotInGroup(g), OfGroup(""), OfGroup(""));
  }

  lemma DeleteAdded(rows: seq<Row>, added: seq<Row>, session: SessionId, g: GroupId)
    requires Fresh(rows, g) && AllOf(added, session, g)
    ensures Filter(rows + added, NotInGroup(g)) == rows
  {
    FilterConcat(rows, added, NotInGroup(g));
    FilterAll(rows, NotInGroup(g));
    FilterNone(added, NotInGroup(g));
    assert rows + [] == rows;
  }

  lemma TurnWithoutFixIsUndone(t: Tables, turn: Turn, input: Utf8.Text, events: seq<Event>)
    requires LedgerOk(t) && Fresh(t.rows, turn.group)
    requires FixCount(Append(t, UserRow(turn, input)), turn, events) == 0
    ensures Undone(TurnTaken(t, turn, input, events), turn.session).rows == t.rows
  {
    var row := UserRow(turn, input).(id := t.nextId);
    var u := TurnTaken(t, turn, input, events);
    AppendKeepsTurn(t, turn, UserRow(turn, input));
    var rest := RoundsWithoutFix(Append(t, UserRow(turn, input)), turn, events);
    var added := [row] + rest;
    Reassociate(t.rows, [row], rest);
    DeleteAdded(t.rows, added, turn.session, turn.group);
    assert u.rows == t.rows + added;
    assert u.rows[|u.rows| - 1] == added[|added| - 1] && added[|added| - 1] in added;
    assert LastGroup(u.rows, turn.session) == Some(turn.group);
  }

  lemma UndoKeepsUngrouped(t: Tables, session: SessionId)
    ensures Ungrouped(Undone(t, session).rows) == Ungrouped(t.rows)
  {
    if LastGroup(t.rows, session).Some? {
      DeleteKeepsUngrouped(t, LastGroup(t.rows, session).value);
    }
  }

  lemma UserRowIsGrouped(t: Tables, turn: Turn, input: Utf8.Text)
    requires turn.group != ""
    ensures Ungrouped(Append(t, UserRow(turn, input)).rows) == Ungrouped(t.rows)
  {
    FilterAppend(t.rows, UserRow(turn, input).(id := t.nextId), OfGroup(""));
  }

  lemma TurnWithFixLeavesRows(t: Tables, turn: Turn, input: Utf8.Text, events: seq<Event>)
    requires LedgerOk(t) && Fresh(t.rows, turn.group)
    ensures |Ungrouped(Undone(TurnTaken(t, turn, input, events), turn.session).rows)|
         == |Ungrouped(t.rows)| + FixCount(Append(t, UserRow(turn, input)), turn, events)
  {
    AppendKeepsTurn(t, turn, UserRow(turn, input));
    UserRowIsGrouped(t, turn, input);
    RoundsUngrouped(Append(t, UserRow(turn, input)), turn, events);
    UndoKeepsUngrouped(TurnTaken(t, turn, input, events), turn.session);
  }

  /**
   Undo right after a turn puts every session's rows back exactly when the turn went without an
   auto-fix: the drop and its notice belong to no group, so undo cannot reach them.
   */
  lemma UndoTakesTurnBack(t: Tables, turn: Turn, input: Utf8.Text, events: seq<Event>)
    requires LedgerOk(t) && Fresh(t.rows, turn.group)
    ensures Undone(TurnTaken(t, turn, input, events), turn.session).rows == t.rows
       <==> FixCount(Append(t, UserRow(turn, input)), turn, events) == 0
  {
    if FixCount(Append(t, UserRow(turn, input)), turn, events) == 0 {
      TurnWithoutFixIsUndone(t, turn, input, events);
    } else {
      TurnWithFixLeavesRows(t, turn, input, events);
    }
  }
}
