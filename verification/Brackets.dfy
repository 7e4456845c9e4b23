/**
 The invariant of the ledger: every live tool row follows, within its turn, a live call that it
 answers, and groups do not mix. Here: what it says, and which changes of the rows keep it.
 */
module Brackets {
  import opened Ledger
  import opened Filtering
  import opened MessageParser

  ghost predicate IsCallOf(c: Row, callId: string) {
    exists call :: call in ExtractToolCalls(c) && CombinedId(call) == callId
  }

  /** `c` is an earlier live call message of the same turn, and the tool row `t` carries the id of one of its calls. */
  ghost predicate AnswersCall(t: Row, c: Row) {
    && t.role == Tool && c.role == Assistant && IsLive(c) && IsCallOf(c, t.callId)
    && c.session == t.session && c.group == t.group && c.strategy == t.strategy && c.id < t.id
  }

  /** Between the two, the session has only live assistant and tool rows of their group. */
  ghost predicate CleanBetween(rows: seq<Row>, c: Row, t: Row) {
    forall m :: m in rows && IsLive(m) && m.session == t.session && c.id < m.id < t.id ==>
      (m.role == Assistant || m.role == Tool) && m.group == t.group
  }

  ghost predicate HasCall(rows: seq<Row>, t: Row) {
    exists c :: c in rows && AnswersCall(t, c) && CleanBetween(rows, c, t)
  }

  ghost predicate Bracketed(rows: seq<Row>) {
    forall t :: t in rows && IsLive(t) && t.role == Tool ==> HasCall(rows, t)
  }

  /** No row of another group stands between `a` and `c`. */
  ghost predicate NothingForeign(rows: seq<Row>, a: Row, c: Row) {
    forall b :: b in rows && b.session == a.session && a.id < b.id < c.id ==> b.group == "" || b.group == a.group
  }

  /** The rows of a group in a session stand together, apart from ungrouped rows. */
  ghost predicate Unmixed(rows: seq<Row>) {
    forall a, c {:trigger NothingForeign(rows, a, c)} ::
      a in rows && c in rows && a.session == c.session && a.group == c.group != "" ==> NothingForeign(rows, a, c)
  }

  /** The group is the session's newest. */
  ghost predicate Current(rows: seq<Row>, session: SessionId, g: GroupId) {
    forall a, b :: a in rows && b in rows && a.session == session && b.session == session && a.group == g && a.id < b.id ==>
      b.group == "" || b.group == g
  }

  ghost predicate LedgerOk(t: Tables) {
    TablesOk(t) && Bracketed(t.rows) && Unmixed(t.rows)
  }

  // ----- Removing rows -----

  /** The selection keeps the call of every answer it keeps. */
  ghost predicate KeepsCalls(p: Row -> bool) {
    forall t, c :: AnswersCall(t, c) && p(t) ==> p(c)
  }

  lemma SelectionKeepsBrackets(rows: seq<Row>, p: Row -> bool)
    requires Bracketed(rows) && KeepsCalls(p)
    ensures Bracketed(Filter(rows, p))
  {
    var kept := Filter(rows, p);
    FilterMembers(rows, p);
    forall t | t in kept && IsLive(t) && t.role == Tool ensures HasCall(kept, t) {
      var c :| c in rows && AnswersCall(t, c) && CleanBetween(rows, c, t);
      assert c in kept && CleanBetween(kept, c, t);
    }
  }

  lemma SelectionKeepsUnmixed(rows: seq<Row>, p: Row -> bool)
    requires Unmixed(rows)
    ensures Unmixed(Filter(rows, p))
  {
    FilterMembers(rows, p);
    forall a, c | a in Filter(rows, p) && c in Filter(rows, p) && a.session == c.session && a.group == c.group != ""
      ensures NothingForeign(Filter(rows, p), a, c)
    {
      assert NothingForeign(rows, a, c);
    }
  }

  lemma SelectionKeepsIds(t: Tables, p: Row -> bool)
    requires IdsOk(t)
    ensures IdsOk(t.(rows := Filter(t.rows, p)))
  {
    FilterAscends(t.rows, p);
    FilterMembers(t.rows, p);
  }

  lemma DeleteGroupKeepsLedger(t: Tables, g: GroupId)
    requires LedgerOk(t)
    ensures LedgerOk(DeleteGroup(t, g))
  {
    SelectionKeepsBrackets(t.rows, NotInGroup(g));
    SelectionKeepsUnmixed(t.rows, NotInGroup(g));
    SelectionKeepsIds(t, NotInGroup(g));
    FilterMembers(t.rows, NotInGroup(g));
  }

  lemma DeleteSessionKeepsLedger(t: Tables, session: SessionId)
    requires LedgerOk(t)
    ensures LedgerOk(DeleteSession(t, session))
  {
    SelectionKeepsBrackets(t.rows, NotInSession(session));
    SelectionKeepsUnmixed(t.rows, NotInSession(session));
    SelectionKeepsIds(t, NotInSession(session));
    FilterMembers(t.rows, NotInSession(session));
    FilterMembers(t.usage, UsageNotOf(session));
  }

  // ----- Adding rows at the end -----

  ghost predicate SameTurn(rows: seq<Row>, session: SessionId, g: GroupId) {
    forall r :: r in rows ==> r.session == session && (r.group == g || r.group == "")
  }

  lemma OldRowsAreOlder(rows: seq<Row>, added: seq<Row>)
    requires Ascending(rows + added)
    ensures Ascending(rows) && forall r, x :: r in rows && x in added ==> r.id < x.id
  {
    forall i, j | 0 <= i < j < |rows| ensures rows[i].id < rows[j].id {
      assert (rows + added)[i].id < (rows + added)[j].id;
    }
    forall r, x | r in rows && x in added ensures r.id < x.id {
      var i :| 0 <= i < |rows| && rows[i] == r;
      var j :| 0 <= j < |added| && added[j] == x;
      assert (rows + added)[i].id < (rows + added)[|rows| + j].id;
    }
  }

  lemma AddedKeepUnmixed(rows: seq<Row>, added: seq<Row>, session: SessionId, g: GroupId)
    requires Ascending(rows + added) && Unmixed(rows) && Current(rows, session, g) && SameTurn(added, session, g)
    ensures Unmixed(rows + added) && Current(rows + added, session, g)
  {
    var all := rows + added;
    OldRowsAreOlder(rows, added);
    forall a, c | a in all && c in all && a.session == c.session && a.group == c.group != ""
      ensures NothingForeign(all, a, c)
    {
      if a in rows && c in rows {
        assert NothingForeign(rows, a, c);
      }
    }
  }

  /** An old answer still has its call: whatever was added comes later. */
  lemma AddedLeaveOldAnswers(rows: seq<Row>, added: seq<Row>, t: Row)
    requires Ascending(rows + added) && Bracketed(rows) && t in rows && IsLive(t) && t.role == Tool
    ensures HasCall(rows + added, t)
  {
    OldRowsAreOlder(rows, added);
    var c :| c in rows && AnswersCall(t, c) && CleanBetween(rows, c, t);
    assert c in rows + added && CleanBetween(rows + added, c, t);
  }

  /** A block of assistant and tool rows of one turn that holds the call of each of its answers. */
  ghost predicate IsBlock(added: seq<Row>, session: SessionId, g: GroupId) {
    && (forall r :: r in added ==> r.session == session && r.group == g && (r.role == Assistant || r.role == Tool))
    && (forall t :: t in added && t.role == Tool ==> exists c :: c in added && AnswersCall(t, c))
  }

  lemma BlockKeepsBrackets(rows: seq<Row>, added: seq<Row>, session: SessionId, g: GroupId)
    requires Ascending(rows + added) && Bracketed(rows) && IsBlock(added, session, g)
    ensures Bracketed(rows + added)
  {
    var all := rows + added;
    OldRowsAreOlder(rows, added);
    forall t | t in all && IsLive(t) && t.role == Tool ensures HasCall(all, t) {
      if t in rows {
        AddedLeaveOldAnswers(rows, added, t);
      } else {
        var c :| c in added && AnswersCall(t, c);
        assert c in all && CleanBetween(all, c, t);
      }
    }
  }

  lemma UserRowKeepsBrackets(rows: seq<Row>, r: Row)
    requires Ascending(rows + [r]) && Bracketed(rows) && r.role != Tool
    ensures Bracketed(rows + [r])
  {
    forall t | t in rows + [r] && IsLive(t) && t.role == Tool ensures HasCall(rows + [r], t) {
      AddedLeaveOldAnswers(rows, [r], t);
    }
  }

  // ----- Dropping the fix target -----

  lemma WithStatusMembers(rows: seq<Row>, id: nat, status: Status)
    ensures var changed := WithStatus(rows, id, status);
            && (forall r :: r in rows ==> (if r.id == id then r.(status := status) else r) in changed)
            && (forall x :: x in changed ==> exists r :: r in rows && x == if r.id == id then r.(status := status) else r)
  {
    var changed := WithStatus(rows, id, status);
    forall r | r in rows ensures (if r.id == id then r.(status := status) else r) in changed {
      var i :| 0 <= i < |rows| && rows[i] == r;
      assert changed[i] in changed;
    }
    forall x | x in changed ensures exists r :: r in rows && x == if r.id == id then r.(status := status) else r {
      var i :| 0 <= i < |changed| && changed[i] == x;
      assert rows[i] in rows;
    }
  }

  lemma LiveAfterDrop(rows: seq<Row>, id: nat)
    ensures forall x :: IsLive(x) ==> (x in WithStatus(rows, id, Dropped) <==> x in rows && x.id != id)
  {
    WithStatusMembers(rows, id, Dropped);
  }

  ghost predicate Unanswered(rows: seq<Row>, id: nat) {
    forall t, c :: t in rows && c in rows && IsLive(t) && t.role == Tool && AnswersCall(t, c) ==> c.id != id
  }

  /** Dropping a row that no live tool row answers. */
  lemma DropKeepsBrackets(rows: seq<Row>, id: nat)
    requires Bracketed(rows) && Unanswered(rows, id)
    ensures Bracketed(WithStatus(rows, id, Dropped))
  {
    var changed := WithStatus(rows, id, Dropped);
    LiveAfterDrop(rows, id);
    forall t | t in changed && IsLive(t) && t.role == Tool ensures HasCall(changed, t) {
      var c :| c in rows && AnswersCall(t, c) && CleanBetween(rows, c, t);
      assert c in changed && CleanBetween(changed, c, t);
    }
  }

  ghost predicate Placed(rows: seq<Row>, x: Row) {
    exists r :: r in rows && r.id == x.id && r.session == x.session && r.group == x.group
  }

  /** Rows in the same places stay unmixed, whatever else about them changes. */
  lemma PlacesKeepUnmixed(rows: seq<Row>, changed: seq<Row>)
    requires Unmixed(rows) && forall x :: x in changed ==> Placed(rows, x)
    ensures Unmixed(changed)
  {
    forall a, c | a in changed && c in changed && a.session == c.session && a.group == c.group != ""
      ensures NothingForeign(changed, a, c)
    {
      var a0 :| a0 in rows && a0.id == a.id && a0.session == a.session && a0.group == a.group;
      var c0 :| c0 in rows && c0.id == c.id && c0.session == c.session && c0.group == c.group;
      assert NothingForeign(rows, a0, c0);
      forall b | b in changed && b.session == a.session && a.id < b.id < c.id ensures b.group == "" || b.group == a.group {
        assert Placed(rows, b);
      }
    }
  }

  lemma PlacesKeepCurrent(rows: seq<Row>, changed: seq<Row>, session: SessionId, g: GroupId)
    requires Current(rows, session, g) && forall x :: x in changed ==> Placed(rows, x)
    ensures Current(changed, session, g)
  {
    forall a, b | a in changed && b in changed && a.session == session && b.session == session && a.group == g && a.id < b.id
      ensures b.group == "" || b.group == g
    {
      assert Placed(rows, a) && Placed(rows, b);
    }
  }

  lemma StatusKeepsPlaces(rows: seq<Row>, id: nat, status: Status)
    ensures forall x :: x in WithStatus(rows, id, status) ==> Placed(rows, x)
  {
    WithStatusMembers(rows, id, status);
  }
}
