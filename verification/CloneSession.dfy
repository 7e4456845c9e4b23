/** The four INSERT ... SELECT statements of Database::CloneSession (core/database.cpp) and what the clone reads like. */
module CloneSession {
  import opened Ledger
  import opened Filtering
  import Utf8

  // ----- The four statements -----

  function InsertSession(t: Tables, source: SessionId, target: SessionId): Tables
    requires source in t.sessions
  {
    t.(sessions := t.sessions[target := t.sessions[source]])
  }

  function RowCopies(h: seq<Row>, target: SessionId, first: nat): (c: seq<Row>)
    ensures |c| == |h|
  {
    seq(|h|, i requires 0 <= i < |h| => h[i].(id := first + i, session := target))
  }

  function InsertMessages(t: Tables, source: SessionId, target: SessionId): Tables {
    var h := SessionRows(t.rows, source, true);
    t.(rows := t.rows + RowCopies(h, target, t.nextId), nextId := t.nextId + |h|)
  }

  function UsageCopies(us: seq<Usage>, target: SessionId): seq<Usage> {
    seq(|us|, i requires 0 <= i < |us| => us[i].(session := target))
  }

  function InsertUsage(t: Tables, source: SessionId, target: SessionId): Tables {
    t.(usage := t.usage + UsageCopies(Filter(t.usage, UsageOf(source)), target))
  }

  /** The state table has the session as its key. */
  predicate StateConflict(t: Tables, source: SessionId, target: SessionId) {
    source in t.state && target in t.state
  }

  function InsertState(t: Tables, source: SessionId, target: SessionId): Tables {
    if source in t.state then t.(state := t.state[target := t.state[source]]) else t
  }

  function Copied(t: Tables, source: SessionId, target: SessionId): Tables
    requires source in t.sessions
  {
    InsertState(InsertUsage(InsertMessages(InsertSession(t, source, target), source, target), source, target), source, target)
  }

  // ----- What the clone reads like -----

  /** `b` is `a` row by row, but for ids and the session. */
  ghost predicate SameUpToId(a: seq<Row>, b: seq<Row>, target: SessionId) {
    |a| == |b| && forall i :: 0 <= i < |a| ==> b[i] == a[i].(id := b[i].id, session := target)
  }

  lemma {:induction false} FilterSame(a: seq<Row>, b: seq<Row>, target: SessionId, p: Row -> bool, q: Row -> bool)
    requires SameUpToId(a, b, target)
    requires forall i :: 0 <= i < |a| ==> p(a[i]) == q(b[i])
    ensures SameUpToId(Filter(a, p), Filter(b, q), target)
  {
    if a != [] {
      FilterSame(a[..|a| - 1], b[..|b| - 1], target, p, q);
    }
  }

  lemma {:induction false} GroupsOfSame(a: seq<Row>, b: seq<Row>, target: SessionId)
    requires SameUpToId(a, b, target)
    ensures GroupsOf(a) == GroupsOf(b)
  {
    if a != [] {
      GroupsOfSame(a[..|a| - 1], b[..|b| - 1], target);
    }
  }

  lemma CopiesReadLikeTheSource(rows: seq<Row>, source: SessionId, target: SessionId, first: nat, includeDropped: bool)
    ensures SameUpToId(SessionRows(rows, source, includeDropped),
                       SessionRows(RowCopies(SessionRows(rows, source, true), target, first), target, includeDropped), target)
  {
    var h := SessionRows(rows, source, true);
    var p := OfSession(source, includeDropped);
    FilterMembers(rows, OfSession(source, true));
    forall i | 0 <= i < |h| ensures h[i].session == source {
      assert h[i] in h;
    }
    FilterSame(h, RowCopies(h, target, first), target, p, OfSession(target, includeDropped));
    FilterTwice(rows, OfSession(source, true), p, p);
  }

  lemma OnlyTheAdded(rows: seq<Row>, added: seq<Row>, target: SessionId, includeDropped: bool)
    requires forall r :: r in rows ==> r.session != target
    ensures SessionRows(rows + added, target, includeDropped) == SessionRows(added, target, includeDropped)
  {
    FilterConcat(rows, added, OfSession(target, includeDropped));
    FilterNone(rows, OfSession(target, includeDropped));
  }

  lemma ClonedSessionRows(t: Tables, source: SessionId, target: SessionId, includeDropped: bool)
    requires NoOrphans(t) && source in t.sessions && target !in t.sessions
    ensures SameUpToId(SessionRows(t.rows, source, includeDropped),
                       SessionRows(Copied(t, source, target).rows, target, includeDropped), target)
  {
    CopiesReadLikeTheSource(t.rows, source, target, t.nextId, includeDropped);
    OnlyTheAdded(t.rows, RowCopies(SessionRows(t.rows, source, true), target, t.nextId), target, includeDropped);
  }

  /** For every window size and dropped flag the clone's history is the source's. */
  lemma CloneReadsTheSameHistory(t: Tables, source: SessionId, target: SessionId, includeDropped: bool, n: int)
    requires NoOrphans(t) && source in t.sessions && target !in t.sessions
    ensures SameUpToId(History(t, source, includeDropped, n),
                       History(Copied(t, source, target), target, includeDropped, n), target)
  {
    ClonedSessionRows(t, source, target, includeDropped);
    var a := SessionRows(t.rows, source, includeDropped);
    var b := SessionRows(Copied(t, source, target).rows, target, includeDropped);
    GroupsOfSame(a, b, target);
    if n > 0 {
      var p := InGroups(LastOf(GroupsOf(a), n));
      FilterSame(a, b, target, p, p);
    }
  }

  lemma {:induction false} SumOfCopies(us: seq<Usage>, target: SessionId)
    ensures SumPrompt(UsageCopies(us, target)) == SumPrompt(us)
    ensures SumCompletion(UsageCopies(us, target)) == SumCompletion(us)
  {
    if us != [] {
      var front := us[..|us| - 1];
      SumOfCopies(front, target);
      assert UsageCopies(us, target)[..|us| - 1] == UsageCopies(front, target);
    }
  }

  lemma CloneReadsTheSameUsage(t: Tables, source: SessionId, target: SessionId)
    requires NoOrphans(t) && source in t.sessions && target !in t.sessions
    ensures TotalUsage(Copied(t, source, target), target) == TotalUsage(t, source)
    ensures Filter(Copied(t, source, target).usage, UsageOf(target))
         == UsageCopies(Filter(t.usage, UsageOf(source)), target)
  {
    var mine := Filter(t.usage, UsageOf(source));
    var copies := UsageCopies(mine, target);
    FilterConcat(t.usage, copies, UsageOf(target));
    FilterNone(t.usage, UsageOf(target));
    FilterAll(copies, UsageOf(target));
    assert [] + copies == copies;
    SumOfCopies(mine, target);
  }

  /** Settings and state; a source without saved state gives a clone without. */
  lemma CloneReadsTheSameSettings(t: Tables, source: SessionId, target: SessionId)
    requires NoOrphans(t) && source in t.sessions && target !in t.sessions
    ensures var u := Copied(t, source, target);
            && !StateConflict(t, source, target)
            && target in u.sessions && u.sessions[target] == t.sessions[source]
            && WindowOf(u, target) == WindowOf(t, source)
            && (target in u.state <==> source in t.state)
            && (source in t.state ==> u.state[target] == t.state[source])
  {
    assert target !in t.state;
  }

  /** Every other session reads as before. */
  lemma CloneLeavesOthersAlone(t: Tables, source: SessionId, target: SessionId, other: SessionId, includeDropped: bool, n: int)
    requires source in t.sessions && other != target
    ensures var u := Copied(t, source, target);
            && History(u, other, includeDropped, n) == History(t, other, includeDropped, n)
            && TotalUsage(u, other) == TotalUsage(t, other)
            && (other in u.sessions <==> other in t.sessions)
            && (other in t.sessions ==> u.sessions[other] == t.sessions[other])
            && (other in u.state <==> other in t.state)
            && (other in t.state ==> u.state[other] == t.state[other])
  {
    var rows := RowCopies(SessionRows(t.rows, source, true), target, t.nextId);
    FilterConcat(t.rows, rows, OfSession(other, includeDropped));
    FilterNone(rows, OfSession(other, includeDropped));
    var usage := UsageCopies(Filter(t.usage, UsageOf(source)), target);
    FilterConcat(t.usage, usage, UsageOf(other));
    FilterNone(usage, UsageOf(other));
    Unextended(SessionRows(t.rows, other, includeDropped));
    Unextended(Filter(t.usage, UsageOf(other)));
  }

  lemma Unextended<T>(s: seq<T>)
    ensures s + [] == s
  {
  }

  /** A clone keeps ids ascending and leaves no orphans. */
  lemma CloneKeepsTables(t: Tables, source: SessionId, target: SessionId)
    requires IdsOk(t) && NoOrphans(t) && source in t.sessions
    ensures IdsOk(Copied(t, source, target)) && NoOrphans(Copied(t, source, target))
  {
  }

  /**
   The invariant is needed: where a state row outlived its session, the clone of a session with
   state is refused although both checks pass.
   */
  lemma OrphanedStateBlocksClone(blob: Utf8.Text) returns (t: Tables)
    ensures "a" in t.sessions && "b" !in t.sessions && StateConflict(t, "a", "b") && !NoOrphans(t)
  {
    t := SetState(EMPTY, "a", blob);
    t := t.(state := t.state["b" := blob]);
    assert "b" in t.state && "b" !in t.sessions;
  }
}
