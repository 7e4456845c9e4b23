/**
 The message ledger of core/database.cpp: its tables as values, the statements that write them, and
 the queries that read them. Rows are kept in ascending id order, which within a session is also
 their order of creation. As in the code, an empty group or strategy stands for SQL's NULL.
 */
module Ledger {
  import opened Basics
  import opened Utf8
  import opened ToolDispatcher
  import opened Filtering

  datatype Role = System | User | Assistant | Tool

  datatype Status = Completed | ToolCall | Error | Dropped

  /** The orchestrator strategy that published a row. */
  datatype Strategy = NoStrategy | OpenAi | Gemini | GeminiGca

  type GroupId = string
  type SessionId = string

  /** The content column: text, or the JSON of a model's tool calls in one provider's shape. */
  datatype Body =
    | Plain(text: Text)
    | FunctionCall(name: string, args: string)
    | ToolCalls(calls: seq<Call>)

  datatype Row = Row(
    id: nat,
    session: SessionId,
    role: Role,
    body: Body,
    callId: string,
    status: Status,
    group: GroupId,
    strategy: Strategy,
    tokens: int)

  datatype Session = Session(window: int, scratchpad: Text, skills: seq<string>)

  const NEW_SESSION := Session(5, [], [])

  datatype Usage = Usage(session: SessionId, model: string, prompt: int, completion: int)

  datatype Tables = Tables(
    rows: seq<Row>,
    nextId: nat,
    sessions: map<SessionId, Session>,
    usage: seq<Usage>,
    state: map<SessionId, Text>)

  const EMPTY := Tables([], 1, map[], [], map[])

  predicate IsLive(r: Row) {
    r.status != Dropped
  }

  predicate ToolRelated(r: Row) {
    r.role == Tool || r.status == ToolCall
  }

  // ----- Writes -----

  /** INSERT OR IGNORE INTO sessions. */
  function EnsureSession(t: Tables, session: SessionId): Tables {
    if session in t.sessions then t else t.(sessions := t.sessions[session := NEW_SESSION])
  }

  /** AppendMessage; the id of `r` is replaced by the next one. */
  function Append(t: Tables, r: Row): Tables {
    var u := EnsureSession(t, r.session);
    u.(rows := u.rows + [r.(id := u.nextId)], nextId := u.nextId + 1)
  }

  function AppendAll(t: Tables, rs: seq<Row>): Tables
    decreases |rs|
  {
    if rs == [] then t else AppendAll(Append(t, rs[0]), rs[1..])
  }

  function WithStatus(rows: seq<Row>, id: nat, status: Status): (r: seq<Row>)
    ensures |r| == |rows|
    ensures forall i :: 0 <= i < |rows| ==> r[i] == if rows[i].id == id then rows[i].(status := status) else rows[i]
  {
    seq(|rows|, i requires 0 <= i < |rows| => if rows[i].id == id then rows[i].(status := status) else rows[i])
  }

  function UpdateStatus(t: Tables, id: nat, status: Status): Tables {
    t.(rows := WithStatus(t.rows, id, status))
  }

  /** `group_id = ?` is never true of a NULL group. */
  function NotInGroup(g: GroupId): Row -> bool {
    (r: Row) => r.group == "" || r.group != g
  }

  /** DELETE FROM messages WHERE group_id = ?, in every session. */
  function DeleteGroup(t: Tables, g: GroupId): Tables {
    t.(rows := Filter(t.rows, NotInGroup(g)))
  }

  /** `group_id IN (g)`. */
  function OfGroup(g: GroupId): Row -> bool {
    (r: Row) => r.group == g
  }

  function NotInSession(session: SessionId): Row -> bool {
    (r: Row) => r.session != session
  }

  function UsageNotOf(session: SessionId): Usage -> bool {
    (u: Usage) => u.session != session
  }

  function DeleteSession(t: Tables, session: SessionId): Tables {
    t.(rows := Filter(t.rows, NotInSession(session)),
       usage := Filter(t.usage, UsageNotOf(session)),
       sessions := t.sessions - {session},
       state := t.state - {session})
  }

  function RecordUsage(t: Tables, u: Usage): Tables {
    var e := EnsureSession(t, u.session);
    e.(usage := e.usage + [u])
  }

  function SetState(t: Tables, session: SessionId, blob: Text): Tables {
    var e := EnsureSession(t, session);
    e.(state := e.state[session := blob])
  }

  /** The settings writers create the session row first when it is missing. */
  function SetWindow(t: Tables, session: SessionId, n: int): Tables {
    var e := EnsureSession(t, session);
    e.(sessions := e.sessions[session := e.sessions[session].(window := n)])
  }

  function SetScratchpad(t: Tables, session: SessionId, scratchpad: Text): Tables {
    var e := EnsureSession(t, session);
    e.(sessions := e.sessions[session := e.sessions[session].(scratchpad := scratchpad)])
  }

  function SetSkills(t: Tables, session: SessionId, skills: seq<string>): Tables {
    var e := EnsureSession(t, session);
    e.(sessions := e.sessions[session := e.sessions[session].(skills := skills)])
  }

  // ----- Reads -----

  function OfSession(session: SessionId, includeDropped: bool): Row -> bool {
    (r: Row) => r.session == session && (includeDropped || IsLive(r))
  }

  function SessionRows(rows: seq<Row>, session: SessionId, includeDropped: bool): seq<Row> {
    Filter(rows, OfSession(session, includeDropped))
  }

  /** The distinct groups of `h` in order of their first rows. */
  function GroupsOf(h: seq<Row>): seq<GroupId> {
    if h == [] then []
    else
      var gs := GroupsOf(h[..|h| - 1]);
      var g := h[|h| - 1].group;
      if g == "" || g in gs then gs else gs + [g]
  }

  lemma GroupsOfAppend(h: seq<Row>, r: Row)
    ensures GroupsOf(h + [r]) == if r.group == "" || r.group in GroupsOf(h) then GroupsOf(h) else GroupsOf(h) + [r.group]
  {
    assert (h + [r])[..|h|] == h;
  }

  /** The last `n` elements, or all of them. */
  function LastOf<T>(s: seq<T>, n: nat): seq<T> {
    if n >= |s| then s else s[|s| - n..]
  }

  function InGroups(gs: seq<GroupId>): Row -> bool {
    (r: Row) => r.group == "" || r.group in gs
  }

  /** The rolling window: with n > 0, ungrouped rows and the rows of the last n groups. */
  function Windowed(h: seq<Row>, n: int): seq<Row> {
    if n > 0 then Filter(h, InGroups(LastOf(GroupsOf(h), n))) else h
  }

  /** GetConversationHistory. */
  function History(t: Tables, session: SessionId, includeDropped: bool, n: int): seq<Row> {
    Windowed(SessionRows(t.rows, session, includeDropped), n)
  }

  /** GetLastGroupId: the group of the newest grouped row, dropped or not. */
  function LastGroup(rows: seq<Row>, session: SessionId): Option<GroupId> {
    if rows == [] then None
    else
      var r := rows[|rows| - 1];
      if r.session == session && r.group != "" then Some(r.group) else LastGroup(rows[..|rows| - 1], session)
  }

  function WindowOf(t: Tables, session: SessionId): int {
    if session in t.sessions then t.sessions[session].window else NEW_SESSION.window
  }

  function UsageOf(session: SessionId): Usage -> bool {
    (u: Usage) => u.session == session
  }

  function SumPrompt(us: seq<Usage>): int {
    if us == [] then 0 else SumPrompt(us[..|us| - 1]) + us[|us| - 1].prompt
  }

  function SumCompletion(us: seq<Usage>): int {
    if us == [] then 0 else SumCompletion(us[..|us| - 1]) + us[|us| - 1].completion
  }

  /** GetTotalUsage of one session: prompt and completion tokens. */
  function TotalUsage(t: Tables, session: SessionId): (int, int) {
    var mine := Filter(t.usage, UsageOf(session));
    (SumPrompt(mine), SumCompletion(mine))
  }

  // ----- Order -----

  /** Ids ascend and the next id is above them all. */
  ghost predicate Ascending(rows: seq<Row>) {
    forall i, j :: 0 <= i < j < |rows| ==> rows[i].id < rows[j].id
  }

  ghost predicate IdsOk(t: Tables) {
    Ascending(t.rows) && forall r :: r in t.rows ==> r.id < t.nextId
  }

  /** No row belongs to a session without a sessions row. */
  ghost predicate NoOrphans(t: Tables) {
    && (forall r :: r in t.rows ==> r.session in t.sessions)
    && (forall u :: u in t.usage ==> u.session in t.sessions)
    && (forall s :: s in t.state ==> s in t.sessions)
  }

  lemma {:induction false} FilterAscends(rows: seq<Row>, p: Row -> bool)
    requires Ascending(rows)
    ensures Ascending(Filter(rows, p))
  {
    if rows != [] {
      var front, last := rows[..|rows| - 1], rows[|rows| - 1];
      FilterAscends(front, p);
      FilterMembers(front, p);
      forall r | r in Filter(front, p) ensures r.id < last.id {
        var i :| 0 <= i < |front| && front[i] == r;
      }
    }
  }

  lemma AscendingIndex(rows: seq<Row>, i: nat, j: nat)
    requires Ascending(rows) && i < |rows| && j < |rows|
    ensures rows[i].id < rows[j].id <==> i < j
  {
    if i < j {
    } else if j < i {
      assert rows[j].id < rows[i].id;
    }
  }

  lemma SameIdSameRow(rows: seq<Row>, a: Row, b: Row)
    requires Ascending(rows) && a in rows && b in rows && a.id == b.id
    ensures a == b
  {
    var i :| 0 <= i < |rows| && rows[i] == a;
    var j :| 0 <= j < |rows| && rows[j] == b;
    AscendingIndex(rows, i, j);
    AscendingIndex(rows, j, i);
  }

  /** What every write keeps. */
  ghost predicate TablesOk(t: Tables) {
    IdsOk(t) && NoOrphans(t)
  }

  lemma EnsureSessionKeepsTables(t: Tables, session: SessionId)
    requires TablesOk(t)
    ensures TablesOk(EnsureSession(t, session)) && session in EnsureSession(t, session).sessions
  {
  }

  lemma AppendKeepsTables(t: Tables, r: Row)
    requires TablesOk(t)
    ensures TablesOk(Append(t, r))
  {
    EnsureSessionKeepsTables(t, r.session);
  }

  lemma RecordUsageKeepsTables(t: Tables, u: Usage)
    requires TablesOk(t)
    ensures TablesOk(RecordUsage(t, u))
  {
    EnsureSessionKeepsTables(t, u.session);
  }

  lemma SetStateKeepsTables(t: Tables, session: SessionId, blob: Text)
    requires TablesOk(t)
    ensures TablesOk(SetState(t, session, blob))
  {
    EnsureSessionKeepsTables(t, session);
  }

  lemma {:induction false} HistoryMembers(t: Tables, session: SessionId, includeDropped: bool, n: int)
    ensures var all := SessionRows(t.rows, session, includeDropped);
            forall r :: r in History(t, session, includeDropped, n) <==>
              && r in t.rows && r.session == session && (includeDropped || IsLive(r))
              && (n > 0 ==> r.group == "" || r.group in LastOf(GroupsOf(all), n))
  {
    FilterMembers(t.rows, OfSession(session, includeDropped));
    var all := SessionRows(t.rows, session, includeDropped);
    if n > 0 {
      FilterMembers(all, InGroups(LastOf(GroupsOf(all), n)));
    }
  }
}
