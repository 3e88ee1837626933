/** The persisted records of the application: meetings, agents and the lifecycle status of
    a meeting, plus the two tables that hold them. */
module Domain {
  import opened Common

  /** `meetings.status`: the lifecycle state of a meeting. */
  datatype Status = Upcoming | Active | Processing | Completed | Cancelled

  /** The literal stored in the database and shown by the client for each status. */
  function StatusName(s: Status): string {
    match s
    case Upcoming => "upcoming"
    case Active => "active"
    case Processing => "processing"
    case Completed => "completed"
    case Cancelled => "cancelled"
  }

  /** Reads a status literal; any other string is not a status. */
  function ParseStatus(t: string): (r: Option<Status>)
    ensures r.Some? ==> StatusName(r.value) == t
    ensures r.None? ==> forall s: Status :: StatusName(s) != t
  {
    if t == "upcoming" then Some(Upcoming)
    else if t == "active" then Some(Active)
    else if t == "processing" then Some(Processing)
    else if t == "completed" then Some(Completed)
    else if t == "cancelled" then Some(Cancelled)
    else None
  }

  /** Every status literal is read back as the status it names. */
  lemma ParseStatusName(s: Status)
    ensures ParseStatus(StatusName(s)) == Some(s)
  {
  }

  /** A row of the `meetings` table. Times are milliseconds since the epoch. */
  datatype Meeting = Meeting(
    id: string,
    name: string,
    agentId: string,
    userId: string,
    status: Status,
    startedAt: Option<int>,
    endedAt: Option<int>,
    transcriptUrl: Option<string>,
    recordingUrl: Option<string>,
    summary: Option<string>,
    createdAt: int,
    updatedAt: int)

  /** A row of the `agents` table. */
  datatype Agent = Agent(
    id: string,
    name: string,
    instructions: string,
    userId: string,
    createdAt: int,
    updatedAt: int)

  /** `where agents.id = $id`. */
  function AgentWith(id: string): Agent -> bool {
    (a: Agent) => a.id == id
  }

  /** The two tables, each in the order the database returns its rows. */
  datatype Db = Db(meetings: seq<Meeting>, agents: seq<Agent>)
}
