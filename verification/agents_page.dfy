/** The agents page and the agent card: how the agent dialog's payload becomes a call of
    the agents router. */
module AgentsPage {
  import opened Common
  import opened Text
  import opened Domain
  import opened AgentsRouter
  import opened Dialogs
  import opened Search

  /** The page's `handleSave`: it creates an agent from the name and instructions and drops
      everything else. */
  function HandleSave(p: AgentPayload): (r: AgentInput)
    ensures r.name == p.name && r.instructions == p.instructions && r.userId.None?
  {
    AgentInput(p.name, p.instructions, None)
  }

  /** The page's dialog is opened without initial data, so it only ever creates: a saved
      form becomes a stored agent with the trimmed name and instructions, owned by the
      signed-in user and found under its new id. */
  lemma NewAgentIsStored(f: AgentForm, uid: string, newId: string, now: int, db: Db)
    requires AgentCanSave(f)
    requires forall i :: 0 <= i < |db.agents| ==> db.agents[i].id != newId
    ensures var s := AgentDialogSave(None, Dialog(true, f), false);
      && s.sent.Some? && s.sent.value.id.None?
      && var (row, db') := Create(HandleSave(s.sent.value), uid, newId, now, db);
         && row == Agent(newId, Trim(f.name), Trim(f.instructions), uid, now, now)
         && AgentsRouter.GetOne(newId, db') == Some(row)
  {
    var s := AgentDialogSave(None, Dialog(true, f), false);
    CreateThenGetOne(HandleSave(s.sent.value), uid, newId, now, db, newId);
  }

  /** Saving a new agent and pressing Ctrl/Cmd+S before the create settles creates it
      twice: two stored rows with the same name, instructions and owner under two ids. */
  lemma KeySaveCreatesTwice(f: AgentForm, uid: string, id1: string, id2: string, now: int, db: Db)
    requires AgentCanSave(f) && id1 != id2
    ensures var first := AgentDialogSave(None, Dialog(true, f), false).sent;
      var second := AgentKeySave(None, Dialog(true, f.(saving := true)), false, false).sent;
      && first.Some? && second == first
      && var (row1, db1) := Create(HandleSave(first.value), uid, id1, now, db);
         var (row2, db2) := Create(HandleSave(second.value), uid, id2, now, db1);
         && db2.agents == db.agents + [row1, row2]
         && row1.name == row2.name == Trim(f.name)
         && row1.instructions == row2.instructions == Trim(f.instructions)
         && row1.userId == row2.userId == uid && row1.id != row2.id
  {
    KeySaveWhileAwaiting(None, Dialog(true, f), false);
    var first := AgentDialogSave(None, Dialog(true, f), false).sent;
    var (row1, db1) := Create(HandleSave(first.value), uid, id1, now, db);
    var (row2, db2) := Create(HandleSave(first.value), uid, id2, now, db1);
    assert db.agents + [row1] + [row2] == db.agents + [row1, row2];
  }

  /** What the page lists, and whether it adds the "No agents found" line. */
  datatype Listing = Listing(cards: seq<Agent>, noneFound: bool)

  function AgentsListing(agents: seq<Agent>, query: string): (r: Listing)
    ensures r.cards == FilterAgents(agents, query)
    ensures r.noneFound <==> |r.cards| == 0
    ensures Trim(query) == "" ==> (r.noneFound <==> |agents| == 0)
  {
    var filtered := FilterAgents(agents, query);
    Listing(filtered, |filtered| == 0)
  }

  /** The mutations the agent card calls. The update's id is the payload's, which the
      dialog leaves out for an agent with an empty id. */
  datatype AgentMutation =
    | UpdateAgent(id: Option<string>, name: string, instructions: string)
    | DeleteAgent(agentId: string)

  /** The card's `handleUpdate`. */
  function CardHandleUpdate(p: AgentPayload): (r: AgentMutation)
    ensures r.UpdateAgent? && r.id == p.id && r.name == p.name && r.instructions == p.instructions
  {
    UpdateAgent(p.id, p.name, p.instructions)
  }

  /** The card's `handleDelete`: the delete of the card's agent, only once confirmed. */
  function CardHandleDelete(a: Agent, confirmed: bool): (r: Option<AgentMutation>)
    ensures r.Some? <==> confirmed
    ensures r.Some? ==> r.value == DeleteAgent(a.id)
  {
    if confirmed then Some(DeleteAgent(a.id)) else None
  }

  /** Editing from a card updates the card's own agent with the trimmed texts of the form. */
  lemma CardEditUpdatesItsAgent(a: Agent, f: AgentForm, throws: bool)
    requires a.id != ""
    requires AgentCanSave(f)
    ensures var s := AgentDialogSave(Some(DataOf(a)), Dialog(true, f), throws);
      && s.sent.Some?
      && CardHandleUpdate(s.sent.value) == UpdateAgent(Some(a.id), Trim(f.name), Trim(f.instructions))
  {
  }
}
