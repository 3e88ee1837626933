/** The meetings tRPC router: the caller's meetings with their agent (`getMany`) and one
    meeting by id (`getOne`), both scoped to the signed-in owner. */
module MeetingsRouter {
  import opened Common
  import opened Domain

  datatype ErrorCode = Unauthorized | NotFound

  /** A thrown `TRPCError`. */
  datatype TrpcError = TrpcError(code: ErrorCode, message: string)

  /** The `{ id, name }` of the joined agent row. */
  datatype AgentRef = AgentRef(id: string, name: string)

  /** `{ ...row.meeting, agent: row.agent }`; the agent is null when the join found nothing. */
  datatype MeetingRow = MeetingRow(meeting: Meeting, agent: Option<AgentRef>)

  function RefOf(a: Agent): AgentRef {
    AgentRef(a.id, a.name)
  }

  /** `ctx.auth?.user?.id` is present and truthy. */
  predicate SignedIn(user: Option<string>) {
    user.Some? && user.value != ""
  }

  /** `where meetings.userId = $uid`. */
  function OwnedBy(uid: string): Meeting -> bool {
    (m: Meeting) => m.userId == uid
  }

  /** `leftJoin(agents, eq(meetings.agentId, agents.id))` for one meeting: one row per
      matching agent, or a single row with a null agent when none matches. */
  function JoinAgent(m: Meeting, agents: seq<Agent>): (r: seq<MeetingRow>)
    ensures |r| >= 1
    ensures forall i :: 0 <= i < |r| ==> r[i].meeting == m
    ensures (forall j :: 0 <= j < |agents| ==> agents[j].id != m.agentId) <==> r == [MeetingRow(m, None)]
    ensures forall i :: 0 <= i < |r| && r[i].agent.Some? ==>
              exists j :: 0 <= j < |agents| && agents[j].id == m.agentId && RefOf(agents[j]) == r[i].agent.value
  {
    var matches := Filter(agents, AgentWith(m.agentId));
    if |matches| == 0 then
      assert forall j :: 0 <= j < |agents| ==> agents[j] !in matches;
      [MeetingRow(m, None)]
    else
      var r := seq(|matches|, i requires 0 <= i < |matches| => MeetingRow(m, Some(RefOf(matches[i]))));
      assert r[0].agent.Some?;
      assert forall i :: 0 <= i < |r| ==> r[i].agent.value == RefOf(matches[i]) && matches[i] in agents &&
                                          matches[i].id == m.agentId;
      r
  }

  /** The joined rows of the meetings owned by `uid`, in table order. */
  function OwnedRows(meetings: seq<Meeting>, agents: seq<Agent>, uid: string): (r: seq<MeetingRow>)
    ensures forall i :: 0 <= i < |r| ==> r[i].meeting in meetings && r[i].meeting.userId == uid
    decreases |meetings|
  {
    if |meetings| == 0 then []
    else
      var rest := OwnedRows(meetings[1..], agents, uid);
      if meetings[0].userId == uid then JoinAgent(meetings[0], agents) + rest else rest
  }

  /** `getMany`: UNAUTHORIZED without a signed-in user, otherwise the caller's rows. Every
      returned meeting belongs to the caller (tenant isolation). */
  function GetMany(user: Option<string>, db: Db): (r: Result<seq<MeetingRow>, TrpcError>)
    ensures r.Err? <==> !SignedIn(user)
    ensures r.Err? ==> r.error == TrpcError(Unauthorized, "User not logged in")
    ensures r.Ok? ==> forall i :: 0 <= i < |r.value| ==>
              r.value[i].meeting in db.meetings && r.value[i].meeting.userId == user.value
  {
    if !SignedIn(user) then Err(TrpcError(Unauthorized, "User not logged in"))
    else Ok(OwnedRows(db.meetings, db.agents, user.value))
  }

  /** `agents.id` is the primary key. */
  predicate UniqueAgentIds(agents: seq<Agent>) {
    forall i, j :: 0 <= i < j < |agents| ==> agents[i].id != agents[j].id
  }

  /** The reference result when agent ids are unique: one row per owned meeting, in order,
      carrying the one agent with its `agentId` or null. */
  function ExpectedRow(m: Meeting, agents: seq<Agent>): MeetingRow {
    match FindFirst(agents, AgentWith(m.agentId))
    case None => MeetingRow(m, None)
    case Some(a) => MeetingRow(m, Some(RefOf(a)))
  }

  lemma JoinAgentUnique(m: Meeting, agents: seq<Agent>)
    requires UniqueAgentIds(agents)
    ensures JoinAgent(m, agents) == [ExpectedRow(m, agents)]
  {
    var matches := Filter(agents, AgentWith(m.agentId));
    FilterNoDuplicateIds(agents, m.agentId);
    if |matches| > 0 {
      var f := FindFirst(agents, AgentWith(m.agentId));
      var k :| 0 <= k < |agents| && agents[k] == f.value && agents[k].id == m.agentId;
      forall i | 0 <= i < |matches| ensures matches[i] == agents[k] {
        var j :| 0 <= j < |agents| && agents[j] == matches[i];
        assert j == k;
      }
    }
  }

  /** With unique ids at most one agent survives a filter on the id. */
  lemma {:induction false} FilterNoDuplicateIds(agents: seq<Agent>, id: string)
    requires UniqueAgentIds(agents)
    ensures |Filter(agents, AgentWith(id))| <= 1
    decreases |agents|
  {
    if |agents| > 0 {
      FilterNoDuplicateIds(agents[1..], id);
      if agents[0].id == id {
        assert forall j :: 0 <= j < |agents[1..]| ==> !AgentWith(id)(agents[1..][j]);
        FilterNone(agents[1..], AgentWith(id));
      }
    }
  }

  lemma {:induction false} FilterNone<T>(s: seq<T>, p: T -> bool)
    requires forall i :: 0 <= i < |s| ==> !p(s[i])
    ensures Filter(s, p) == []
    decreases |s|
  {
    if |s| > 0 {
      FilterNone(s[1..], p);
    }
  }

  /** With unique agent ids, `getMany` is exactly the caller's meetings in table order, each
      with its agent's `{id, name}` or null: the left join neither drops nor duplicates. */
  lemma {:induction false} GetManyIsOwnedMeetings(meetings: seq<Meeting>, agents: seq<Agent>, uid: string)
    requires UniqueAgentIds(agents)
    ensures var owned := Filter(meetings, OwnedBy(uid));
      var rows := OwnedRows(meetings, agents, uid);
      |rows| == |owned| && forall i :: 0 <= i < |owned| ==> rows[i] == ExpectedRow(owned[i], agents)
    decreases |meetings|
  {
    if |meetings| > 0 {
      GetManyIsOwnedMeetings(meetings[1..], agents, uid);
      if meetings[0].userId == uid {
        JoinAgentUnique(meetings[0], agents);
      }
    }
  }

  /** `getOne`: the first meeting whose id and owner both match the caller, else NOT_FOUND. */
  function GetOne(uid: string, id: string, db: Db): (r: Result<Meeting, TrpcError>)
    ensures r.Ok? ==> r.value in db.meetings && r.value.id == id && r.value.userId == uid
    ensures r.Err? <==> forall i :: 0 <= i < |db.meetings| ==>
              !(db.meetings[i].id == id && db.meetings[i].userId == uid)
    ensures r.Err? ==> r.error == TrpcError(NotFound, "Meeting not found")
  {
    match FindFirst(db.meetings, (m: Meeting) => m.id == id && m.userId == uid)
    case None => Err(TrpcError(NotFound, "Meeting not found"))
    case Some(m) => Ok(m)
  }

  /** A meeting of another owner is NOT_FOUND even with the right id. */
  lemma OtherOwnerNotFound(uid: string, id: string, db: Db)
    requires forall i :: 0 <= i < |db.meetings| && db.meetings[i].id == id ==> db.meetings[i].userId != uid
    ensures GetOne(uid, id, db) == Err(TrpcError(NotFound, "Meeting not found"))
  {
  }

  lemma {:induction false} OwnedRowsCover(meetings: seq<Meeting>, agents: seq<Agent>, uid: string, k: int)
    requires 0 <= k < |meetings| && meetings[k].userId == uid
    ensures exists i :: 0 <= i < |OwnedRows(meetings, agents, uid)| &&
                        OwnedRows(meetings, agents, uid)[i].meeting == meetings[k]
    decreases |meetings|
  {
    var rows := OwnedRows(meetings, agents, uid);
    var rest := OwnedRows(meetings[1..], agents, uid);
    if k == 0 {
      var j := JoinAgent(meetings[0], agents);
      assert rows == j + rest;
      assert rows[0] == j[0];
    } else {
      OwnedRowsCover(meetings[1..], agents, uid, k - 1);
      var i :| 0 <= i < |rest| && rest[i].meeting == meetings[1..][k - 1];
      if meetings[0].userId == uid {
        var j := JoinAgent(meetings[0], agents);
        assert rows == j + rest;
        assert rows[|j| + i] == rest[i];
      } else {
        assert rows == rest;
      }
    }
  }

  /** What `getOne` finds for a signed-in caller is among the rows `getMany` lists for them. */
  lemma GetOneListed(uid: string, id: string, db: Db)
    requires uid != "" && GetOne(uid, id, db).Ok?
    ensures exists i :: 0 <= i < |GetMany(Some(uid), db).value| &&
                        GetMany(Some(uid), db).value[i].meeting == GetOne(uid, id, db).value
  {
    var m := GetOne(uid, id, db).value;
    var k :| 0 <= k < |db.meetings| && db.meetings[k] == m;
    OwnedRowsCover(db.meetings, db.agents, uid, k);
    assert GetMany(Some(uid), db).value == OwnedRows(db.meetings, db.agents, uid);
  }
}
