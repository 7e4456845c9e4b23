/**
 Runs of the program as the ledger sees them: turns, undo, group removal, cloning, deletion and
 settings, over any number of sessions and with any provider from turn to turn.
 */
module LedgerRuns {
  import opened Basics
  import opened Ledger
  import opened Filtering
  import opened MessageParser
  import opened CloneSession
  import opened Conversation
  import opened Brackets
  import opened TurnProofs
  import opened WindowProofs
  import Utf8

  datatype Command =
    | Take(turn: Turn, input: Utf8.Text, events: seq<Event>)
    | Undo(session: SessionId)
    | RemoveGroup(group: GroupId)
    | Clone(source: SessionId, target: SessionId)
    | Delete(session: SessionId)
    | SetWindowSize(session: SessionId, window: int)
    | SaveScratchpad(session: SessionId, scratchpad: Utf8.Text)
    | SaveSkills(session: SessionId, skills: seq<string>)
    | SaveState(session: SessionId, blob: Utf8.Text)

  function Undone(t: Tables, session: SessionId): Tables {
    match LastGroup(t.rows, session)
    case Some(g) => DeleteGroup(t, g)
    case None => t
  }

  /** A clone that is refused changes nothing. */
  function Cloned(t: Tables, source: SessionId, target: SessionId): Tables {
    if source in t.sessions && target !in t.sessions then Copied(t, source, target) else t
  }

  function Step(t: Tables, c: Command): Tables {
    match c
    case Take(turn, input, events) => TurnTaken(t, turn, input, events)
    case Undo(session) => Undone(t, session)
    case RemoveGroup(g) => DeleteGroup(t, g)
    case Clone(source, target) => Cloned(t, source, target)
    case Delete(session) => DeleteSession(t, session)
    case SetWindowSize(session, n) => SetWindow(t, session, n)
    case SaveScratchpad(session, scratchpad) => SetScratchpad(t, session, scratchpad)
    case SaveSkills(session, skills) => SetSkills(t, session, skills)
    case SaveState(session, blob) => SetState(t, session, blob)
  }

  function Run(t: Tables, cs: seq<Command>): Tables {
    if |cs| == 0 then t else Step(Run(t, cs[..|cs| - 1]), cs[|cs| - 1])
  }

  /** A turn's group is the time in nanoseconds, so no row has it yet. */
  ghost predicate Allowed(t: Tables, c: Command) {
    c.Take? ==> Fresh(t.rows, c.turn.group)
  }

  ghost predicate AllAllowed(t: Tables, cs: seq<Command>) {
    |cs| > 0 ==> AllAllowed(t, cs[..|cs| - 1]) && Allowed(Run(t, cs[..|cs| - 1]), cs[|cs| - 1])
  }

  // ----- Cloning keeps the ledger -----

  lemma CopyMember(h: seq<Row>, target: SessionId, first: nat, x: Row) returns (i: nat)
    requires x in RowCopies(h, target, first)
    ensures i < |h| && x == RowCopies(h, target, first)[i]
  {
    i :| 0 <= i < |h| && RowCopies(h, target, first)[i] == x;
  }

  lemma CopiesKeepCalls(rows: seq<Row>, h: seq<Row>, source: SessionId, target: SessionId, first: nat, i: nat)
    requires Ascending(h) && Bracketed(rows) && i < |h| && IsLive(h[i]) && h[i].role == Tool
    requires forall r :: r in h <==> r in rows && r.session == source
    ensures HasCall(RowCopies(h, target, first), RowCopies(h, target, first)[i])
  {
    var copies := RowCopies(h, target, first);
    var t := h[i];
    assert t in h;
    var c :| c in rows && AnswersCall(t, c) && CleanBetween(rows, c, t);
    var j :| 0 <= j < |h| && h[j] == c;
    AscendingIndex(h, j, i);
    assert ExtractToolCalls(copies[j]) == ExtractToolCalls(c);
    assert AnswersCall(copies[i], copies[j]);
    forall m | m in copies && IsLive(m) && copies[j].id < m.id < copies[i].id
      ensures (m.role == Assistant || m.role == Tool) && m.group == t.group
    {
      var k := CopyMember(h, target, first, m);
      AscendingIndex(h, j, k);
      AscendingIndex(h, k, i);
      assert h[k] in h;
    }
    assert copies[j] in copies && CleanBetween(copies, copies[j], copies[i]);
  }

  /** Rows of different sessions do not disturb each other's brackets. */
  lemma SessionsAreIndependent(rows: seq<Row>, added: seq<Row>, target: SessionId)
    requires Bracketed(rows) && Bracketed(added)
    requires (forall r :: r in rows ==> r.session != target) && (forall r :: r in added ==> r.session == target)
    ensures Bracketed(rows + added)
  {
    var all := rows + added;
    forall t | t in all && IsLive(t) && t.role == Tool ensures HasCall(all, t) {
      if t in rows {
        var c :| c in rows && AnswersCall(t, c) && CleanBetween(rows, c, t);
        assert c in all && CleanBetween(all, c, t);
      } else {
        var c :| c in added && AnswersCall(t, c) && CleanBetween(added, c, t);
        assert c in all && CleanBetween(all, c, t);
      }
    }
  }

  lemma SessionsDoNotMix(rows: seq<Row>, added: seq<Row>, target: SessionId)
    requires Unmixed(rows) && Unmixed(added)
    requires (forall r :: r in rows ==> r.session != target) && (forall r :: r in added ==> r.session == target)
    ensures Unmixed(rows + added)
  {
    var all := rows + added;
    forall a, c | a in all && c in all && a.session == c.session && a.group == c.group != ""
      ensures NothingForeign(all, a, c)
    {
      if a in rows {
        assert NothingForeign(rows, a, c);
      } else {
        assert NothingForeign(added, a, c);
      }
    }
  }

  lemma CopiesAreUnmixed(rows: seq<Row>, h: seq<Row>, target: SessionId, first: nat)
    requires Ascending(h) && Unmixed(rows) && forall i, j :: 0 <= i < |h| && 0 <= j < |h| ==> h[i].session == h[j].session
    requires forall r :: r in h ==> r in rows
    ensures Unmixed(RowCopies(h, target, first))
  {
    var copies := RowCopies(h, target, first);
    forall a, c | a in copies && c in copies && a.session == c.session && a.group == c.group != ""
      ensures NothingForeign(copies, a, c)
    {
      var i := CopyMember(h, target, first, a);
      var k := CopyMember(h, target, first, c);
      assert h[i] in h && h[k] in h && NothingForeign(rows, h[i], h[k]);
      forall b | b in copies && a.id < b.id < c.id ensures b.group == "" || b.group == a.group {
        var j := CopyMember(h, target, first, b);
        AscendingIndex(h, i, j);
        AscendingIndex(h, j, k);
        assert h[j] in h;
      }
    }
  }

  lemma CloneKeepsLedger(t: Tables, source: SessionId, target: SessionId)
    requires LedgerOk(t) && source in t.sessions && target !in t.sessions
    ensures LedgerOk(Copied(t, source, target))
  {
    var h := SessionRows(t.rows, source, true);
    var copies := RowCopies(h, target, t.nextId);
    FilterAscends(t.rows, OfSession(source, true));
    FilterMembers(t.rows, OfSession(source, true));
    CloneKeepsTables(t, source, target);
    forall x | x in copies && IsLive(x) && x.role == Tool ensures HasCall(copies, x) {
      var i := CopyMember(h, target, t.nextId, x);
      CopiesKeepCalls(t.rows, h, source, target, t.nextId, i);
    }
    forall i | 0 <= i < |h| ensures h[i].session == source {
      assert h[i] in h;
    }
    CopiesAreUnmixed(t.rows, h, target, t.nextId);
    SessionsAreIndependent(t.rows, copies, target);
    SessionsDoNotMix(t.rows, copies, target);
  }

  // ----- Runs -----

  lemma SettingsKeepTables(t: Tables, session: SessionId)
    requires TablesOk(t)
    ensures forall n :: TablesOk(SetWindow(t, session, n))
    ensures forall text :: TablesOk(SetScratchpad(t, session, text))
    ensures forall skills :: TablesOk(SetSkills(t, session, skills))
    ensures forall blob :: TablesOk(SetState(t, session, blob))
  {
    EnsureSessionKeepsTables(t, session);
  }

  lemma StepKeepsLedger(t: Tables, c: Command)
    requires LedgerOk(t) && Allowed(t, c)
    ensures LedgerOk(Step(t, c))
  {
    match c
    case Take(turn, input, events) => TurnKeepsLedger(t, turn, input, events);
    case Undo(session) =>
      if LastGroup(t.rows, session).Some? {
        DeleteGroupKeepsLedger(t, LastGroup(t.rows, session).value);
      }
    case RemoveGroup(g) => DeleteGroupKeepsLedger(t, g);
    case Clone(source, target) =>
      if source in t.sessions && target !in t.sessions {
        CloneKeepsLedger(t, source, target);
      }
    case Delete(session) => DeleteSessionKeepsLedger(t, session);
    case SetWindowSize(session, _) => SettingsKeepTables(t, session);
    case SaveScratchpad(session, _) => SettingsKeepTables(t, session);
    case SaveSkills(session, _) => SettingsKeepTables(t, session);
    case SaveState(session, _) => SettingsKeepTables(t, session);
  }

  /** Every run from the empty database ends in a well-bracketed, unmixed ledger without orphans. */
  lemma {:induction false} EveryRunKeepsLedger(cs: seq<Command>)
    requires AllAllowed(EMPTY, cs)
    ensures LedgerOk(Run(EMPTY, cs))
  {
    if |cs| > 0 {
      EveryRunKeepsLedger(cs[..|cs| - 1]);
      StepKeepsLedger(Run(EMPTY, cs[..|cs| - 1]), cs[|cs| - 1]);
    }
  }

  /** So the window query selects the same rows whichever row it ranks a group by. */
  lemma EveryRunIsContiguous(cs: seq<Command>, session: SessionId, includeDropped: bool)
    requires AllAllowed(EMPTY, cs)
    ensures Contiguous(SessionRows(Run(EMPTY, cs).rows, session, includeDropped))
  {
    EveryRunKeepsLedger(cs);
    var rows := Run(EMPTY, cs).rows;
    var h := SessionRows(rows, session, includeDropped);
    FilterAscends(rows, OfSession(session, includeDropped));
    FilterMembers(rows, OfSession(session, includeDropped));
    forall i, j, k | 0 <= i < j < k < |h| && h[i].group == h[k].group && h[i].group != ""
      ensures h[j].group == "" || h[j].group == h[i].group
    {
      assert h[i] in h && h[j] in h && h[k] in h;
      assert NothingForeign(rows, h[i], h[k]);
    }
  }

  function InSelected(gs: set<GroupId>): Row -> bool {
    (r: Row) => r.group == "" || r.group in gs
  }

  /** The window, as the query selects it by ranking each group by any one of its rows. */
  lemma EveryRunWindowIsTheQuerys(cs: seq<Command>, session: SessionId, includeDropped: bool, n: nat, rep: map<GroupId, nat>)
    requires AllAllowed(EMPTY, cs) && n > 0
    requires Represents(rep, SessionRows(Run(EMPTY, cs).rows, session, includeDropped))
    ensures History(Run(EMPTY, cs), session, includeDropped, n)
         == Filter(SessionRows(Run(EMPTY, cs).rows, session, includeDropped), InSelected(Selected(rep, n)))
  {
    var h := SessionRows(Run(EMPTY, cs).rows, session, includeDropped);
    EveryRunIsContiguous(cs, session, includeDropped);
    RankingRowDoesNotMatter(h, rep, n);
    FilterAgrees(h, InGroups(LastOf(GroupsOf(h), n)), InSelected(Selected(rep, n)));
  }
}
