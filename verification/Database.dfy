/**
 The database object of core/database.cpp: its tables, and the tables a ROLLBACK would restore while
 a transaction is open. The statements of CloneSession may fail; every other one is taken to succeed.
 */
module Database {
  import opened Basics
  import opened Ledger
  import opened Filtering
  import opened CloneSession
  import opened Utf8

  datatype CloneStep = CheckSource | CheckTarget | Begin | CopySession | CopyMessages | CopyUsage | CopyState | Commit

  datatype Report = Ok | NotFound | AlreadyExists | SqlError

  lemma EveryStepTried(fault: Option<CloneStep>)
    ensures fault == None || fault in [Some(CheckSource), Some(CheckTarget), Some(Begin), Some(CopySession),
                                          Some(CopyMessages), Some(CopyUsage), Some(CopyState), Some(Commit)]
  {
    if fault.Some? {
      var step := fault.value;
      assert step.CheckSource? || step.CheckTarget? || step.Begin? || step.CopySession?
             || step.CopyMessages? || step.CopyUsage? || step.CopyState? || step.Commit?;
    }
  }

  /** The same rows, and within each session in the same order. */
  ghost predicate SameBySession(a: seq<Row>, b: seq<Row>) {
    forall s: SessionId :: SessionRows(a, s, true) == SessionRows(b, s, true)
  }

  lemma SameInOneSession(a: seq<Row>, b: seq<Row>, session: SessionId)
    requires SameBySession(a, b) && forall r :: r in b ==> r.session == session
    ensures a == b
  {
    forall r | r in a ensures r.session == session {
      FilterMembers(a, OfSession(r.session, true));
      FilterMembers(b, OfSession(r.session, true));
      assert r in SessionRows(a, r.session, true);
    }
    FilterAll(a, OfSession(session, true));
    FilterAll(b, OfSession(session, true));
    assert SessionRows(a, session, true) == SessionRows(b, session, true);
  }

  class Connection {
    var tables: Tables
    var saved: Option<Tables>  // what ROLLBACK restores, while a transaction is open

    constructor ()
      ensures tables == EMPTY && saved == None
    {
      tables, saved := EMPTY, None;
    }

    method Rollback()
      modifies this
      ensures tables == (if old(saved).Some? then old(saved).value else old(tables)) && saved == None
    {
      if saved.Some? {
        tables := saved.value;
      }
      saved := None;
    }

    /**
     A clone succeeds, reports why it cannot, or fails and leaves the tables alone; only a failing
     COMMIT is different: it leaves the copies in place inside a transaction that stays open, and
     every later clone then fails at BEGIN.
     */
    method CloneSession(source: SessionId, target: SessionId, fault: Option<CloneStep>) returns (report: Report)
      modifies this
      ensures report == NotFound <==> old(source !in tables.sessions) && fault != Some(CheckSource)
      ensures report == AlreadyExists <==>
                && old(source in tables.sessions && target in tables.sessions)
                && fault != Some(CheckSource) && fault != Some(CheckTarget)
      ensures report == Ok <==>
                && old(source in tables.sessions && target !in tables.sessions && saved == None)
                && old(!StateConflict(tables, source, target)) && fault == None
      ensures report == Ok ==> tables == Copied(old(tables), source, target) && saved == None
      ensures report != Ok ==>
                (tables != old(tables) <==>
                 && old(source in tables.sessions && target !in tables.sessions && saved == None)
                 && old(!StateConflict(tables, source, target)) && fault == Some(Commit))
      ensures report != Ok && tables != old(tables) ==>
                tables == Copied(old(tables), source, target) && saved == Some(old(tables))
      ensures report != Ok && tables == old(tables) ==> saved == old(saved)
    {
      if fault == Some(CheckSource) {
        return SqlError;
      }
      if source !in tables.sessions {
        return NotFound;
      }
      if fault == Some(CheckTarget) {
        return SqlError;
      }
      if target in tables.sessions {
        return AlreadyExists;
      }
      if fault == Some(Begin) || saved.Some? {
        return SqlError;
      }
      saved := Some(tables);
      if fault == Some(CopySession) {
        Rollback();
        return SqlError;
      }
      tables := InsertSession(tables, source, target);
      if fault == Some(CopyMessages) {
        Rollback();
        return SqlError;
      }
      tables := InsertMessages(tables, source, target);
      if fault == Some(CopyUsage) {
        Rollback();
        return SqlError;
      }
      tables := InsertUsage(tables, source, target);
      if fault == Some(CopyState) || StateConflict(tables, source, target) {
        Rollback();
        return SqlError;
      }
      tables := InsertState(tables, source, target);
      assert target in tables.sessions;
      if fault == Some(Commit) {
        return SqlError;
      }
      EveryStepTried(fault);
      saved := None;
      report := Ok;
    }

    method AppendMessage(r: Row)
      modifies this
      ensures tables == Append(old(tables), r) && saved == old(saved)
    {
      tables := EnsureSession(tables, r.session);
      tables := tables.(rows := tables.rows + [r.(id := tables.nextId)], nextId := tables.nextId + 1);
    }

    method UpdateMessageStatus(id: nat, status: Status)
      modifies this
      ensures tables == UpdateStatus(old(tables), id, status) && saved == old(saved)
    {
      tables := tables.(rows := WithStatus(tables.rows, id, status));
    }

    method RecordUsage(u: Usage)
      modifies this
      ensures tables == Ledger.RecordUsage(old(tables), u) && saved == old(saved)
    {
      tables := EnsureSession(tables, u.session);
      tables := tables.(usage := tables.usage + [u]);
    }

    method SetSessionState(session: SessionId, blob: Text)
      modifies this
      ensures tables == SetState(old(tables), session, blob) && saved == old(saved)
    {
      tables := EnsureSession(tables, session);
      tables := tables.(state := tables.state[session := blob]);
    }

    /**
     The rows of a group, in every session, dropped or not. The query sorts by creation time, which a
     clone copies, so only the order within each session is promised.
     */
    method GetMessagesByGroup(g: GroupId) returns (messages: seq<Row>)
      ensures SameBySession(messages, Filter(tables.rows, OfGroup(g)))
    {
      messages := [];
      for i := 0 to |tables.rows|
        invariant messages == Filter(tables.rows[..i], OfGroup(g))
      {
        FilterNext(tables.rows, i, OfGroup(g));
        if tables.rows[i].group == g {
          messages := messages + [tables.rows[i]];
        }
      }
      assert tables.rows[..|tables.rows|] == tables.rows;
    }

    /** The rows of a session, newest last, and their groups in order of first rows. */
    method SelectRows(session: SessionId, includeDropped: bool) returns (all: seq<Row>, groups: seq<GroupId>)
      ensures all == SessionRows(tables.rows, session, includeDropped) && groups == GroupsOf(all)
    {
      var mine := OfSession(session, includeDropped);
      all, groups := [], [];
      for i := 0 to |tables.rows|
        invariant all == Filter(tables.rows[..i], mine) && groups == GroupsOf(all)
      {
        var m := tables.rows[i];
        FilterNext(tables.rows, i, mine);
        if mine(m) {
          GroupsOfAppend(all, m);
          all := all + [m];
          if m.group != "" && m.group !in groups {
            groups := groups + [m.group];
          }
        }
      }
      assert tables.rows[..|tables.rows|] == tables.rows;
    }

    method GetConversationHistory(session: SessionId, includeDropped: bool, window: int) returns (history: seq<Row>)
      ensures history == History(tables, session, includeDropped, window)
    {
      var all, groups := SelectRows(session, includeDropped);
      if window <= 0 {
        return all;
      }
      var selected := InGroups(LastOf(groups, window));
      history := [];
      for i := 0 to |all|
        invariant history == Filter(all[..i], selected)
      {
        FilterNext(all, i, selected);
        if selected(all[i]) {
          history := history + [all[i]];
        }
      }
      assert all[..|all|] == all;
    }

    /** The newest grouped row decides, dropped or not. */
    method GetLastGroupId(session: SessionId) returns (g: Option<GroupId>)
      ensures g == LastGroup(tables.rows, session)
    {
      var i := |tables.rows|;
      assert tables.rows[..i] == tables.rows;
      while i > 0
        invariant 0 <= i <= |tables.rows|
        invariant LastGroup(tables.rows[..i], session) == LastGroup(tables.rows, session)
      {
        i := i - 1;
        assert tables.rows[..i + 1][..i] == tables.rows[..i];
        if tables.rows[i].session == session && tables.rows[i].group != "" {
          return Some(tables.rows[i].group);
        }
      }
      g := None;
    }

    method RemoveGroup(g: GroupId)
      modifies this
      ensures tables == DeleteGroup(old(tables), g) && saved == old(saved)
    {
      tables := tables.(rows := Filter(tables.rows, NotInGroup(g)));
    }

    method DropSession(session: SessionId)
      modifies this
      ensures tables == DeleteSession(old(tables), session) && saved == old(saved)
    {
      tables := tables.(rows := Filter(tables.rows, NotInSession(session)));
      tables := tables.(usage := Filter(tables.usage, UsageNotOf(session)));
      tables := tables.(sessions := tables.sessions - {session});
      tables := tables.(state := tables.state - {session});
    }
  }
}
