/** A meeting as the browser holds it after `meetings.getMany` crossed the wire, and the
    agent labels the meeting views derive from it. */
module MeetingView {
  import opened Common
  import opened Domain
  import opened MeetingsRouter

  /** The keys the views read. Any of them may be missing on an object the views are
      handed (`None`); `status` is whatever string arrived, so that the views' fallbacks for
      unknown statuses can be stated. `agentName` is read by several views but never sent
      by the router. */
  datatype ClientMeeting = ClientMeeting(
    id: Option<string>,
    name: Option<string>,
    agentId: Option<string>,
    agent: Option<AgentRef>,
    agentName: Option<string>,
    status: string,
    summary: Option<string>,
    transcriptUrl: Option<string>,
    recordingUrl: Option<string>,
    startedAt: Option<int>,
    endedAt: Option<int>,
    updatedAt: Option<int>)

  /** A string key is truthy: present and not empty. */
  predicate Truthy(a: Option<string>) {
    a.Some? && a.value != ""
  }

  /** `a || b` on a string key. */
  function OrElse(a: Option<string>, b: string): (r: string)
    ensures Truthy(a) ==> r == a.value
    ensures !Truthy(a) ==> r == b
  {
    if Truthy(a) then a.value else b
  }

  /** A row of `meetings.getMany` as the client receives it. */
  function FromRow(row: MeetingRow): (r: ClientMeeting)
    ensures r.id == Some(row.meeting.id) && r.agent == row.agent && r.agentName.None?
    ensures ParseStatus(r.status) == Some(row.meeting.status)
  {
    ParseStatusName(row.meeting.status);
    var m := row.meeting;
    ClientMeeting(Some(m.id), Some(m.name), Some(m.agentId), row.agent, None,
                  StatusName(m.status), m.summary, m.transcriptUrl, m.recordingUrl,
                  m.startedAt, m.endedAt, Some(m.updatedAt))
  }

  /** `meeting?.agent?.name`. */
  function JoinedName(m: ClientMeeting): Option<string> {
    if m.agent.Some? then Some(m.agent.value.name) else None
  }

  /** The agent label of a table row: `agent.name || agentName || "Unknown"`. */
  function TableAgentName(m: ClientMeeting): (r: string)
    ensures r != ""
    ensures Truthy(JoinedName(m)) ==> r == m.agent.value.name
    ensures !Truthy(JoinedName(m)) ==> r == OrElse(m.agentName, "Unknown")
  {
    OrElse(JoinedName(m), OrElse(m.agentName, "Unknown"))
  }

  /** The agent label of a card: `agent.name || "Unknown"`. */
  function CardAgentName(m: ClientMeeting): (r: string)
    ensures r != ""
    ensures r != "Unknown" ==> Truthy(JoinedName(m)) && r == m.agent.value.name
  {
    OrElse(JoinedName(m), "Unknown")
  }

  /** The agent label of the drawer: `agent.name || agentName || agentId || "Unknown"`. */
  function DrawerAgentName(m: ClientMeeting): (r: string)
    ensures r != ""
    ensures Truthy(JoinedName(m)) ==> r == m.agent.value.name
    ensures !Truthy(JoinedName(m)) && !Truthy(m.agentName) ==> r == OrElse(m.agentId, "Unknown")
  {
    OrElse(JoinedName(m), OrElse(m.agentName, OrElse(m.agentId, "Unknown")))
  }

  /** The agent name the search matches against: `agent.name || agentName || ""`. */
  function SearchAgentName(m: ClientMeeting): (r: string)
    ensures r == "" <==> !Truthy(JoinedName(m)) && !Truthy(m.agentName)
  {
    OrElse(JoinedName(m), OrElse(m.agentName, ""))
  }

  /** On the rows the router sends, the table and the card show the same agent label: the
      joined agent's name, or "Unknown" when the join found none (or its name is empty);
      the drawer falls back to the meeting's agent id instead. */
  lemma AgentLabelsOnRows(row: MeetingRow)
    ensures var m := FromRow(row);
      && TableAgentName(m) == CardAgentName(m)
      && (row.agent.Some? && row.agent.value.name != "" ==>
            TableAgentName(m) == DrawerAgentName(m) == SearchAgentName(m) == row.agent.value.name)
      && (row.agent.None? ==>
            && TableAgentName(m) == "Unknown"
            && SearchAgentName(m) == ""
            && DrawerAgentName(m) == (if row.meeting.agentId != "" then row.meeting.agentId else "Unknown"))
  {
  }
}
