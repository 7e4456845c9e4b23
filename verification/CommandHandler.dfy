/** The commands that change the ledger (interface/command_handler.cpp), on the database object. */
module CommandHandler {
  import opened Basics
  import opened Ledger
  import opened Database
  import opened LedgerRuns
  import opened PromptAssembly
  import opened Brackets
  import opened Utf8

  class Handler {
    const db: Connection
    const orchestrator: Option<Strategy>  // none in a handler without a model
    const json: Body -> Text              // how stored calls are written
    var session: SessionId

    constructor (db: Connection, orchestrator: Option<Strategy>, json: Body -> Text, session: SessionId)
      ensures this.db == db && this.orchestrator == orchestrator && this.json == json && this.session == session
    {
      this.db, this.orchestrator, this.json, this.session := db, orchestrator, json, session;
    }

    /** What follows a change of the current session's history. */
    function AfterRebuild(t: Tables, current: SessionId): Tables {
      if orchestrator.Some? then Rebuilt(t, current, orchestrator.value, json) else t
    }

    /** /undo: removes the newest group, wherever its rows are, and rebuilds the session's state. */
    method HandleUndo() returns (undone: bool)
      modifies db
      ensures db.tables == if undone then AfterRebuild(Step(old(db.tables), Undo(session)), session) else old(db.tables)
      ensures undone <==> exists r :: r in old(db.tables.rows) && r.session == session && r.group != ""
    {
      LastGroupExists(db.tables.rows, session);
      var g := db.GetLastGroupId(session);
      undone := g.Some?;
      if undone {
        db.RemoveGroup(g.value);
        if orchestrator.Some? {
          RebuildContext(db, session, orchestrator.value, json);
        }
      }
    }

    /** /message remove: an empty argument matches no row. */
    method HandleMessageRemove(group: GroupId)
      modifies db
      ensures db.tables == Step(old(db.tables), RemoveGroup(group))
    {
      db.RemoveGroup(group);
    }

    /** /session remove: the current session falls back to the default one when it is the one removed. */
    method HandleSessionRemove(other: SessionId)
      modifies db, this
      ensures db.tables == Step(old(db.tables), Delete(other))
      ensures session == if old(session) == other then "default_session" else old(session)
    {
      db.DropSession(other);
      if session == other {
        session := "default_session";
      }
    }

    /** /session clone: the clone, when it was made, becomes the current session. */
    method HandleSessionClone(target: SessionId, fault: Option<CloneStep>) returns (switched: bool)
      requires NoOrphans(db.tables)
      modifies db, this
      ensures var free := old(session in db.tables.sessions && target !in db.tables.sessions && db.saved == None) && target != "";
              && (switched <==> free && fault == None)
              && db.tables == if free && (fault == None || fault == Some(Commit)) then
                                var u := Step(old(db.tables), Clone(old(session), target));
                                if switched then AfterRebuild(u, target) else u
                              else old(db.tables)
      ensures session == if switched then target else old(session)
    {
      if target == "" {
        return false;
      }
      assert target in db.tables.state ==> target in db.tables.sessions;
      var report := db.CloneSession(session, target, fault);
      switched := report == Ok;
      if switched {
        session := target;
        if orchestrator.Some? {
          RebuildContext(db, target, orchestrator.value, json);
        }
      }
    }
  }

  /** A rebuild is a state write or nothing, so it is a step of a run and keeps the ledger. */
  lemma RebuildIsAStateWrite(t: Tables, session: SessionId, current: Strategy, json: Body -> Text)
    ensures Rebuilt(t, session, current, json) == t
            || exists blob :: Rebuilt(t, session, current, json) == Step(t, SaveState(session, blob))
    ensures LedgerOk(t) ==> LedgerOk(Rebuilt(t, session, current, json))
  {
    var state := NewestState(Relevant(t, session, WindowOf(t, session), current), json);
    if state.Some? {
      assert Rebuilt(t, session, current, json) == Step(t, SaveState(session, state.value));
      if LedgerOk(t) {
        SetStateKeepsTables(t, session, state.value);
      }
    }
  }

  lemma {:induction false} LastGroupExists(rows: seq<Row>, session: SessionId)
    ensures LastGroup(rows, session).Some? <==> exists r :: r in rows && r.session == session && r.group != ""
  {
    if rows != [] {
      var front, last := rows[..|rows| - 1], rows[|rows| - 1];
      assert rows == front + [last];
      LastGroupExists(front, session);
      assert last in rows;
    }
  }
}
