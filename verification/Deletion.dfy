/** What the reads of core/database.cpp give after its deletions and state writes. */
module Deletion {
  import opened Ledger
  import opened Filtering
  import opened Utf8

  /** Nothing of a deleted session can be read any more. */
  lemma DeletedSessionIsGone(t: Tables, session: SessionId, includeDropped: bool, n: int)
    ensures var u := DeleteSession(t, session);
            && History(u, session, includeDropped, n) == []
            && TotalUsage(u, session) == (0, 0)
            && session !in u.sessions && session !in u.state
            && WindowOf(u, session) == NEW_SESSION.window
  {
    var u := DeleteSession(t, session);
    FilterMembers(t.rows, NotInSession(session));
    FilterNone(u.rows, OfSession(session, includeDropped));
    FilterMembers(t.usage, UsageNotOf(session));
    FilterNone(u.usage, UsageOf(session));
    if n > 0 {
      FilterNone([], InGroups(LastOf(GroupsOf([]), n)));
    }
  }

  /** Every other session reads as before. */
  lemma DeletionLeavesOthersAlone(t: Tables, session: SessionId, other: SessionId, includeDropped: bool, n: int)
    requires other != session
    ensures var u := DeleteSession(t, session);
            && History(u, other, includeDropped, n) == History(t, other, includeDropped, n)
            && TotalUsage(u, other) == TotalUsage(t, other)
            && (other in u.sessions <==> other in t.sessions)
            && (other in t.sessions ==> u.sessions[other] == t.sessions[other])
            && (other in u.state <==> other in t.state)
            && (other in t.state ==> u.state[other] == t.state[other])
  {
    FilterTwice(t.rows, NotInSession(session), OfSession(other, includeDropped), OfSession(other, includeDropped));
    FilterTwice(t.usage, UsageNotOf(session), UsageOf(other), UsageOf(other));
  }

  /** In every session the history is the one before without exactly the rows of a non-empty group. */
  lemma RemovedGroupIsGone(t: Tables, g: GroupId, session: SessionId, includeDropped: bool)
    ensures var before, after := History(t, session, includeDropped, 0), History(DeleteGroup(t, g), session, includeDropped, 0);
            && after == Filter(before, NotInGroup(g))
            && (forall r :: r in after <==> r in before && (g == "" || r.group != g))
            && (g == "" ==> after == before)
  {
    var before := SessionRows(t.rows, session, includeDropped);
    FiltersCommute(t.rows, NotInGroup(g), OfSession(session, includeDropped));
    FilterMembers(before, NotInGroup(g));
    if g == "" {
      FilterAll(before, NotInGroup(g));
    }
  }

  lemma FiltersCommute<T>(s: seq<T>, p: T -> bool, q: T -> bool)
    ensures Filter(Filter(s, p), q) == Filter(Filter(s, q), p)
  {
    var both := (x: T) => p(x) && q(x);
    FilterTwice(s, p, q, both);
    FilterTwice(s, q, p, both);
  }

  /** A group leaves every window: what is left of the groups keeps its order. */
  lemma {:induction false} RemovedGroupLeavesGroups(h: seq<Row>, g: GroupId)
    requires g != ""
    ensures GroupsOf(Filter(h, NotInGroup(g))) == Filter(GroupsOf(h), NotGroup(g))
    decreases |h|
  {
    if h != [] {
      var front, last := h[..|h| - 1], h[|h| - 1];
      RemovedGroupLeavesGroups(front, g);
      FilterMembers(GroupsOf(front), NotGroup(g));
      if last.group != "" && last.group !in GroupsOf(front) {
        FilterAppend(GroupsOf(front), last.group, NotGroup(g));
      }
      if NotInGroup(g)(last) {
        GroupsOfAppend(Filter(front, NotInGroup(g)), last);
      } else {
        assert Filter(front, NotInGroup(g)) + [] == Filter(front, NotInGroup(g));
      }
    }
  }

  function NotGroup(g: GroupId): GroupId -> bool {
    (x: GroupId) => x != g
  }

  /** A state write is what the next read gives, and touches nothing else. */
  lemma StateIsReplaced(t: Tables, session: SessionId, blob: Text, other: SessionId, includeDropped: bool, n: int)
    ensures var u := SetState(t, session, blob);
            && session in u.state && u.state[session] == blob && session in u.sessions
            && (session !in t.sessions ==> u.sessions[session] == NEW_SESSION)
            && (other != session ==> (other in u.state <==> other in t.state))
            && (other != session && other in t.state ==> u.state[other] == t.state[other])
            && (other in t.sessions ==> other in u.sessions && u.sessions[other] == t.sessions[other])
            && (other != session ==> (other in u.sessions <==> other in t.sessions))
            && History(u, other, includeDropped, n) == History(t, other, includeDropped, n)
            && TotalUsage(u, other) == TotalUsage(t, other)
  {
  }
}
