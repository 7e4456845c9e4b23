/** The rolling window of GetConversationHistory keeps whole groups, the latest ones, in order. */
module WindowProofs {
  import opened Ledger
  import opened Filtering

  predicate Distinct<T(==)>(s: seq<T>) {
    forall i, j :: 0 <= i < j < |s| ==> s[i] != s[j]
  }

  /** The group list has each group that occurs, once. */
  lemma {:induction false} GroupsOfMembers(h: seq<Row>)
    ensures Distinct(GroupsOf(h))
    ensures forall g :: g in GroupsOf(h) <==> g != "" && exists r :: r in h && r.group == g
  {
    if h != [] {
      var front, last := h[..|h| - 1], h[|h| - 1];
      GroupsOfMembers(front);
      assert h == front + [last];
      assert last in h;
    }
  }

  lemma LastOfMembers<T>(s: seq<T>, n: nat)
    ensures |LastOf(s, n)| == if n < |s| then n else |s|
    ensures forall x :: x in LastOf(s, n) ==> x in s
    ensures LastOf(s, n + 1) == if n < |s| then [s[|s| - n - 1]] + LastOf(s, n) else LastOf(s, n)
  {
  }

  lemma DistinctIndex<T>(s: seq<T>, i: nat, j: nat)
    requires Distinct(s) && i < |s| && j < |s|
    ensures s[i] == s[j] <==> i == j
  {
    if i < j {
    } else if j < i {
      assert s[j] != s[i];
    }
  }

  /** The last `n` elements are those at the last `n` positions. */
  lemma LastOfIndex<T>(s: seq<T>, n: nat, i: nat)
    requires Distinct(s) && i < |s|
    ensures s[i] in LastOf(s, n) <==> i >= |s| - n
  {
    if n < |s| {
      if i >= |s| - n {
        assert LastOf(s, n)[i - (|s| - n)] == s[i];
      }
      if s[i] in LastOf(s, n) {
        var j :| 0 <= j < n && LastOf(s, n)[j] == s[i];
        DistinctIndex(s, |s| - n + j, i);
      }
    }
  }

  /**
   For N > 0 the history holds, in chronological order, every ungrouped row and every row of exactly
   min(N, groups) groups, those whose first rows are the latest.
   */
  lemma WindowHoldsWholeGroups(t: Tables, session: SessionId, includeDropped: bool, n: nat)
    requires n > 0 && Ascending(t.rows)
    ensures var all := SessionRows(t.rows, session, includeDropped);
            var kept := LastOf(GroupsOf(all), n);
            var h := History(t, session, includeDropped, n);
            && Ascending(h)
            && Distinct(kept) && |kept| == (if n < |GroupsOf(all)| then n else |GroupsOf(all)|)
            && (forall r :: r in h <==> r in all && (r.group == "" || r.group in kept))
            && (forall r :: r in all <==> r in t.rows && r.session == session && (includeDropped || r.status != Dropped))
            && (forall i :: 0 <= i < |GroupsOf(all)| ==> (GroupsOf(all)[i] in kept <==> i >= |GroupsOf(all)| - n))
  {
    var all := SessionRows(t.rows, session, includeDropped);
    var gs := GroupsOf(all);
    var kept := LastOf(gs, n);
    FilterAscends(t.rows, OfSession(session, includeDropped));
    FilterMembers(t.rows, OfSession(session, includeDropped));
    FilterAscends(all, InGroups(kept));
    FilterMembers(all, InGroups(kept));
    GroupsOfMembers(all);
    forall i | 0 <= i < |gs| ensures gs[i] in kept <==> i >= |gs| - n
    {
      LastOfIndex(gs, n, i);
    }
  }

  /** For N <= 0 it holds all rows of the session. */
  lemma NoWindowHoldsAll(t: Tables, session: SessionId, includeDropped: bool, n: int)
    requires n <= 0 && Ascending(t.rows)
    ensures var h := History(t, session, includeDropped, n);
            Ascending(h) && forall r :: r in h <==> r in t.rows && r.session == session && (includeDropped || r.status != Dropped)
  {
    FilterAscends(t.rows, OfSession(session, includeDropped));
    FilterMembers(t.rows, OfSession(session, includeDropped));
  }

  /** One more in the window adds all rows of one group that comes before the others, or nothing. */
  lemma WindowGrowsByOneGroup(h: seq<Row>, n: nat) returns (added: GroupId)
    requires n > 0
    ensures n >= |GroupsOf(h)| ==> Windowed(h, n) == h && Windowed(h, n + 1) == h
    ensures n < |GroupsOf(h)| ==>
              && added == GroupsOf(h)[|GroupsOf(h)| - n - 1]
              && Filter(Windowed(h, n + 1), NotInGroup(added)) == Windowed(h, n)
              && (forall r :: r in Windowed(h, n) ==> r.group != added)
              && (forall r :: r in h && r.group == added ==> r in Windowed(h, n + 1))
  {
    var gs := GroupsOf(h);
    GroupsOfMembers(h);
    LastOfMembers(gs, n);
    LastOfMembers(gs, n + 1);
    added := "";
    if n >= |gs| {
      FilterAll(h, InGroups(LastOf(gs, n)));
      FilterAll(h, InGroups(LastOf(gs, n + 1)));
    } else {
      added := gs[|gs| - n - 1];
      assert added in gs;
      LastOfIndex(gs, n, |gs| - n - 1);
      FilterMembers(h, InGroups(LastOf(gs, n)));
      FilterMembers(h, InGroups(LastOf(gs, n + 1)));
      FilterTwice(h, InGroups(LastOf(gs, n + 1)), NotInGroup(added), InGroups(LastOf(gs, n)));
    }
  }

  // ----- The query's own ranking -----

  /** Rows of a group stand together, apart from ungrouped rows in between. */
  ghost predicate Contiguous(h: seq<Row>) {
    forall i, j, k :: 0 <= i < j < k < |h| && h[i].group == h[k].group && h[i].group != "" ==>
      h[j].group == "" || h[j].group == h[i].group
  }

  /** A choice of one row, by position, for every group. */
  ghost predicate Represents(rep: map<GroupId, nat>, h: seq<Row>) {
    && (forall g :: g in rep <==> g in GroupsOf(h))
    && (forall g :: g in rep ==> rep[g] < |h| && h[rep[g]].group == g)
  }

  ghost function Later(rep: map<GroupId, nat>, g: GroupId): set<GroupId>
    requires g in rep
  {
    set k | k in rep && rep[k] > rep[g]
  }

  /** SELECT DISTINCT group_id ... ORDER BY created_at DESC, id DESC LIMIT n, each group ranked by its chosen row. */
  ghost function Selected(rep: map<GroupId, nat>, n: nat): set<GroupId> {
    set g | g in rep && |Later(rep, g)| < n
  }

  /** Before any row of a group there is a row of each group listed earlier. */
  lemma {:induction false} EarlierGroupStartsEarlier(h: seq<Row>, i: nat, j: nat, k: nat)
    requires i < j < |GroupsOf(h)| && k < |h| && h[k].group == GroupsOf(h)[j]
    ensures exists a: nat :: a < k && h[a].group == GroupsOf(h)[i]
  {
    var front, last := h[..|h| - 1], h[|h| - 1];
    var gs := GroupsOf(h);
    GroupsOfMembers(h);
    GroupsOfMembers(front);
    if k < |h| - 1 {
      assert front[k] == h[k] && h[k] in front;
      assert gs[j] in GroupsOf(front);
      EarlierGroupStartsEarlier(front, i, j, k);
      var a: nat :| a < k && front[a].group == GroupsOf(front)[i];
      assert h[a].group == gs[i];
    } else {
      assert gs[i] in GroupsOf(front);
      var r :| r in front && r.group == gs[i];
      var a :| 0 <= a < |front| && front[a] == r;
      assert h[a].group == gs[i];
    }
  }

  lemma RanksFollowOrder(h: seq<Row>, rep: map<GroupId, nat>, i: nat, j: nat)
    requires Contiguous(h) && Represents(rep, h) && i < j < |GroupsOf(h)|
    ensures GroupsOf(h)[i] in rep && GroupsOf(h)[j] in rep
    ensures rep[GroupsOf(h)[i]] < rep[GroupsOf(h)[j]]
  {
    var gi, gj := GroupsOf(h)[i], GroupsOf(h)[j];
    NamesAreGroups(h, i);
    NamesAreGroups(h, j);
    DifferentNames(h, i, j);
    var p, q := rep[gi], rep[gj];
    EarlierGroupStartsEarlier(h, i, j, q);
    var a: nat :| a < q && h[a].group == gi;
    NotAround(h, a, q, p);
  }

  lemma NamesAreGroups(h: seq<Row>, i: nat)
    requires i < |GroupsOf(h)|
    ensures GroupsOf(h)[i] in GroupsOf(h) && GroupsOf(h)[i] != ""
  {
    GroupsOfMembers(h);
    assert GroupsOf(h)[i] in GroupsOf(h);
  }

  lemma DifferentNames(h: seq<Row>, i: nat, j: nat)
    requires i < j < |GroupsOf(h)|
    ensures GroupsOf(h)[i] != GroupsOf(h)[j]
  {
    GroupsOfMembers(h);
  }

  lemma NotAround(h: seq<Row>, a: nat, q: nat, p: nat)
    requires Contiguous(h) && a < q < |h| && p < |h|
    requires h[a].group == h[p].group != "" && h[q].group != "" && h[q].group != h[a].group
    ensures p < q
  {
    assert h[a].group == h[p].group && h[q].group != h[a].group;
  }

  lemma {:induction false} DistinctCardinality<T>(s: seq<T>)
    requires Distinct(s)
    ensures |set x | x in s| == |s|
  {
    if s != [] {
      var front, last := s[..|s| - 1], s[|s| - 1];
      DistinctCardinality(front);
      assert (set x | x in s) == (set x | x in front) + {last};
    }
  }

  lemma LaterByIndex(h: seq<Row>, rep: map<GroupId, nat>, i: nat, j: nat)
    requires Contiguous(h) && Represents(rep, h) && i < |GroupsOf(h)| && j < |GroupsOf(h)|
    ensures GroupsOf(h)[i] in rep
    ensures GroupsOf(h)[j] in Later(rep, GroupsOf(h)[i]) <==> j > i
  {
    NamesAreGroups(h, i);
    if i < j {
      RanksFollowOrder(h, rep, i, j);
    } else if j < i {
      RanksFollowOrder(h, rep, j, i);
    }
  }

  lemma LaterIsSuffix(h: seq<Row>, rep: map<GroupId, nat>, i: nat)
    requires Contiguous(h) && Represents(rep, h) && i < |GroupsOf(h)|
    ensures GroupsOf(h)[i] in rep && |Later(rep, GroupsOf(h)[i])| == |GroupsOf(h)| - i - 1
  {
    var gs := GroupsOf(h);
    var n := |gs| - i - 1;
    NamesAreGroups(h, i);
    var later := Later(rep, gs[i]);
    GroupsOfMembers(h);
    forall k ensures k in later <==> k in LastOf(gs, n) {
      if k in gs {
        var j :| 0 <= j < |gs| && gs[j] == k;
        LaterByIndex(h, rep, i, j);
        LastOfIndex(gs, n, j);
      }
    }
    assert later == set k | k in LastOf(gs, n);
    DistinctCardinality(LastOf(gs, n));
  }

  /**
   On a ledger with contiguous groups the query selects the last N groups whichever row it ranks a
   group by: its first, its last or any other.
   */
  lemma RankingRowDoesNotMatter(h: seq<Row>, rep: map<GroupId, nat>, n: nat)
    requires Contiguous(h) && Represents(rep, h)
    ensures Selected(rep, n) == set g | g in LastOf(GroupsOf(h), n)
  {
    var gs := GroupsOf(h);
    GroupsOfMembers(h);
    forall g ensures g in Selected(rep, n) <==> g in LastOf(gs, n) {
      if g in gs {
        var i :| 0 <= i < |gs| && gs[i] == g;
        LaterIsSuffix(h, rep, i);
        LastOfIndex(gs, n, i);
      }
    }
  }
}
