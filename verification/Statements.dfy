/** What the writing statements leave behind, and what the newest group is, said of the tables themselves. */
module Statements {
  import opened Basics
  import opened Utf8
  import opened Ledger

  /** The session's own settings, or those of a new session. */
  function Settings(t: Tables, session: SessionId): Session {
    if session in t.sessions then t.sessions[session] else Session(5, [], [])
  }

  /** An appended row is last under the next id; its session exists from then on with the settings it had or the defaults. */
  lemma AppendedRow(t: Tables, r: Row)
    ensures Append(t, r) == Tables(t.rows + [r.(id := t.nextId)], t.nextId + 1,
                                   t.sessions[r.session := Settings(t, r.session)], t.usage, t.state)
  {
  }

  /** Each setting is stored alone: the other settings and every other session stay. */
  lemma SettingsAreStored(t: Tables, session: SessionId, n: int, scratchpad: Text, skills: seq<string>)
    ensures SetWindow(t, session, n) == t.(sessions := t.sessions[session := Settings(t, session).(window := n)])
    ensures SetScratchpad(t, session, scratchpad)
         == t.(sessions := t.sessions[session := Settings(t, session).(scratchpad := scratchpad)])
    ensures SetSkills(t, session, skills) == t.(sessions := t.sessions[session := Settings(t, session).(skills := skills)])
    ensures WindowOf(SetWindow(t, session, n), session) == n
    ensures forall other :: other != session ==> WindowOf(SetWindow(t, session, n), other) == WindowOf(t, other)
    ensures session !in t.sessions ==> WindowOf(t, session) == 5
  {
    var e := EnsureSession(t, session);
    assert e.sessions[session := Settings(t, session).(window := n)] == t.sessions[session := Settings(t, session).(window := n)];
    assert e.sessions[session := Settings(t, session).(scratchpad := scratchpad)]
        == t.sessions[session := Settings(t, session).(scratchpad := scratchpad)];
    assert e.sessions[session := Settings(t, session).(skills := skills)]
        == t.sessions[session := Settings(t, session).(skills := skills)];
  }

  ghost predicate NoGroupFrom(rows: seq<Row>, from: nat, session: SessionId) {
    forall j :: from <= j < |rows| && rows[j].session == session ==> rows[j].group == ""
  }

  /** The group of the session's newest grouped row, dropped or not. */
  lemma {:induction false} LastGroupIsNewest(rows: seq<Row>, session: SessionId) returns (i: nat)
    ensures LastGroup(rows, session) == None ==> NoGroupFrom(rows, 0, session)
    ensures LastGroup(rows, session).Some? ==>
              && i < |rows| && rows[i].session == session && rows[i].group != ""
              && LastGroup(rows, session).value == rows[i].group && NoGroupFrom(rows, i + 1, session)
  {
    i := 0;
    if rows != [] {
      var front, last := rows[..|rows| - 1], rows[|rows| - 1];
      if last.session == session && last.group != "" {
        i := |front|;
      } else {
        i := LastGroupIsNewest(front, session);
        assert forall j :: 0 <= j < |front| ==> rows[j] == front[j];
      }
    }
  }
}
