/** The create/edit dialogs of agents and meetings, and the agent picker inside the meeting
    dialog. A dialog is its open flag and its form; saving hands a payload to the parent's
    `onSave`, whose success or failure is a parameter. */
module Dialogs {
  import opened Common
  import opened Text
  import opened Domain
  import opened MeetingsRouter
  import opened MeetingView

  datatype Dialog<F> = Dialog(open: bool, form: F)

  /** What one press of Save did: the payload handed to `onSave`, if any, and the dialog
      afterwards. */
  datatype Saved<P, F> = Saved(sent: Option<P>, after: Dialog<F>)

  // ---------------------------------------------------------------- agent dialog

  /** The `initialData` the agent dialog may be given; every key may be missing. */
  datatype AgentData = AgentData(id: Option<string>, name: Option<string>, instructions: Option<string>)

  datatype AgentForm = AgentForm(name: string, instructions: string, saving: bool)

  /** What the agent dialog hands to `onSave`: the id only when editing. */
  datatype AgentPayload = AgentPayload(id: Option<string>, name: string, instructions: string)

  /** The agent dialog edits when its initial data carries a non-empty id. */
  predicate AgentIsEdit(init: Option<AgentData>) {
    init.Some? && Truthy(init.value.id)
  }

  /** The agent the card passes as initial data of its edit dialog. */
  function DataOf(a: Agent): (d: AgentData)
    ensures d.id == Some(a.id) && d.name == Some(a.name) && d.instructions == Some(a.instructions)
  {
    AgentData(Some(a.id), Some(a.name), Some(a.instructions))
  }

  /** Opening the dialog copies the initial name and instructions into the form, or empty
      strings for the missing ones; the saving flag is left alone. */
  function AgentPrefill(init: Option<AgentData>, f: AgentForm): (r: AgentForm)
    ensures r.saving == f.saving
    ensures init.Some? && init.value.name.Some? ==> r.name == init.value.name.value
    ensures init.None? || init.value.name.None? ==> r.name == ""
    ensures init.Some? && init.value.instructions.Some? ==> r.instructions == init.value.instructions.value
    ensures init.None? || init.value.instructions.None? ==> r.instructions == ""
  {
    if init.None? then f.(name := "", instructions := "")
    else f.(name := init.value.name.GetOr(""), instructions := init.value.instructions.GetOr(""))
  }

  /** Save is enabled for a name of at least two and instructions of at least four
      non-blank-edged characters, while no save is in flight. */
  predicate AgentCanSave(f: AgentForm) {
    |Trim(f.name)| > 1 && |Trim(f.instructions)| > 3 && !f.saving
  }

  /** Save needs a name of at least two and instructions of at least four characters, and
      on texts without blank edges those lengths are all it needs besides no save in flight. */
  lemma AgentCanSaveBounds(f: AgentForm)
    ensures AgentCanSave(f) ==> |f.name| > 1 && |f.instructions| > 3 && !f.saving
    ensures Trimmed(f.name) && Trimmed(f.instructions) ==>
      (AgentCanSave(f) <==> |f.name| > 1 && |f.instructions| > 3 && !f.saving)
  {
    if Trimmed(f.name) && Trimmed(f.instructions) {
      TrimOfTrimmed(f.name);
      TrimOfTrimmed(f.instructions);
    }
  }

  /** Which dialogs edit: the card's dialog for an agent with a non-empty id, never the
      page's "New" dialog. */
  lemma AgentEditMode(a: Agent)
    ensures !AgentIsEdit(None)
    ensures AgentIsEdit(Some(DataOf(a))) <==> a.id != ""
    ensures !AgentIsEdit(Some(AgentData(None, Some(a.name), Some(a.instructions))))
  {
  }

  /** The form a successful save leaves behind. */
  const EmptyAgentForm := AgentForm("", "", false)

  /** `handleSave` of the agent dialog: nothing when Save is disabled; otherwise the
      trimmed payload, with the initial id exactly when editing. On success the dialog
      closes and its form is cleared; when `onSave` throws the dialog stays as it was. */
  function AgentDialogSave(init: Option<AgentData>, d: Dialog<AgentForm>, onSaveThrows: bool): (r: Saved<AgentPayload, AgentForm>)
    ensures r.sent.Some? <==> AgentCanSave(d.form)
    ensures r.sent.None? ==> r.after == d
    ensures r.sent.Some? ==>
      && r.sent.value.name == Trim(d.form.name) && |r.sent.value.name| > 1
      && r.sent.value.instructions == Trim(d.form.instructions) && |r.sent.value.instructions| > 3
      && (r.sent.value.id.Some? <==> AgentIsEdit(init))
      && (AgentIsEdit(init) ==> r.sent.value.id == init.value.id)
    ensures r.sent.Some? && !onSaveThrows ==> r.after == Dialog(false, EmptyAgentForm)
    ensures r.sent.Some? && onSaveThrows ==> r.after == d
  {
    if !AgentCanSave(d.form) then Saved(None, d)
    else
      var id := if AgentIsEdit(init) then init.value.id else None;
      var payload := AgentPayload(id, Trim(d.form.name), Trim(d.form.instructions));
      if onSaveThrows then Saved(Some(payload), d.(form := d.form.(saving := false)))
      else Saved(Some(payload), Dialog(false, EmptyAgentForm))
  }

  /** Opening the edit dialog of an agent whose name and instructions are already trimmed
      and long enough, and saving without typing, sends back exactly that agent. */
  lemma EditUnchangedResendsAgent(a: Agent, f: AgentForm, throws: bool)
    requires a.id != "" && !f.saving
    requires Trimmed(a.name) && |a.name| > 1 && Trimmed(a.instructions) && |a.instructions| > 3
    ensures var d := Dialog(true, AgentPrefill(Some(DataOf(a)), f));
      AgentDialogSave(Some(DataOf(a)), d, throws).sent == Some(AgentPayload(Some(a.id), a.name, a.instructions))
  {
    TrimOfTrimmed(a.name);
    TrimOfTrimmed(a.instructions);
  }

  /** After a successful save, pressing Save again sends nothing. */
  lemma SavedFormCannotResend(init: Option<AgentData>, d: Dialog<AgentForm>, throws: bool)
    ensures var r := AgentDialogSave(init, d, false);
      r.sent.Some? ==> AgentDialogSave(init, r.after, throws).sent.None?
  {
  }

  /** Ctrl/Cmd+S. The keydown listener is registered again only when `open`, `name` or
      `instructions` change, so the `handleSave` it calls tests the saving flag of the
      render that registered it, `listenerSaving`, and not the current one. What it sends
      and what it leaves behind are those of a press of Save on the form with that flag. */
  function AgentKeySave(init: Option<AgentData>, d: Dialog<AgentForm>, listenerSaving: bool, onSaveThrows: bool): (r: Saved<AgentPayload, AgentForm>)
    ensures r.sent.Some? <==> |Trim(d.form.name)| > 1 && |Trim(d.form.instructions)| > 3 && !listenerSaving
    ensures r.sent.None? ==> r.after == d
    ensures r.sent.Some? ==> r.sent == AgentDialogSave(init, d.(form := d.form.(saving := false)), onSaveThrows).sent
    ensures r.sent.Some? && !onSaveThrows ==> r.after == Dialog(false, EmptyAgentForm)
    ensures r.sent.Some? && onSaveThrows ==> r.after == d.(form := d.form.(saving := false))
    ensures listenerSaving == d.form.saving ==> r == AgentDialogSave(init, d, onSaveThrows)
  {
    var stale := AgentDialogSave(init, d.(form := d.form.(saving := listenerSaving)), onSaveThrows);
    if stale.sent.None? then Saved(None, d) else stale
  }

  /** Pressing Save and then Ctrl/Cmd+S before `onSave` settles sends the payload a second
      time: by then the button is disabled, but the listener registered before the press
      still sees no save in flight. */
  lemma KeySaveWhileAwaiting(init: Option<AgentData>, d: Dialog<AgentForm>, throws: bool)
    requires AgentCanSave(d.form)
    ensures var awaiting := d.(form := d.form.(saving := true));
      && AgentDialogSave(init, awaiting, throws).sent.None?
      && AgentKeySave(init, awaiting, false, throws).sent.Some?
      && AgentKeySave(init, awaiting, false, throws).sent == AgentDialogSave(init, d, throws).sent
  {
  }

  // ---------------------------------------------------------------- meeting dialog

  datatype MeetingForm = MeetingForm(name: string, agentId: Option<string>, saving: bool)

  /** What the meeting dialog hands to `onSave`: the meeting's `id` key as it is (missing
      for a new meeting), the trimmed name and the picked agent. */
  datatype MeetingPayload = MeetingPayload(id: Option<string>, name: string, agentId: Option<string>)

  predicate MeetingIsEdit(m: Option<ClientMeeting>) {
    m.Some? && Truthy(m.value.id)
  }

  /** The agent preselected in the picker: the joined agent's id, else the meeting's
      `agentId`, else the first agent offered, else none. Only missing keys fall through;
      an empty id is kept. */
  function InitialAgent(m: Option<ClientMeeting>, agents: seq<Agent>): (r: Option<string>)
    ensures r.None? <==> (m.None? || (m.value.agent.None? && m.value.agentId.None?)) && |agents| == 0
    ensures m.Some? && m.value.agent.Some? ==> r == Some(m.value.agent.value.id)
    ensures r.Some? && (m.None? || m.value.agent.None?) ==>
      (m.Some? && r == m.value.agentId) || (|agents| > 0 && r == Some(agents[0].id))
  {
    if m.Some? && m.value.agent.Some? then Some(m.value.agent.value.id)
    else if m.Some? && m.value.agentId.Some? then m.value.agentId
    else if |agents| > 0 then Some(agents[0].id)
    else None
  }

  /** Opening the meeting dialog copies the meeting's name (or "") and the preselected
      agent into the form. */
  function MeetingPrefill(m: Option<ClientMeeting>, agents: seq<Agent>, f: MeetingForm): (r: MeetingForm)
    ensures r.saving == f.saving && r.agentId == InitialAgent(m, agents)
    ensures m.Some? && m.value.name.Some? ==> r.name == m.value.name.value
    ensures m.None? || m.value.name.None? ==> r.name == ""
  {
    f.(name := if m.Some? then m.value.name.GetOr("") else "", agentId := InitialAgent(m, agents))
  }

  predicate MeetingCanSave(f: MeetingForm) {
    |Trim(f.name)| > 0 && !f.saving
  }

  /** Save is enabled exactly when the name has a non-blank character and no save is in
      flight. */
  lemma MeetingCanSaveIffNonBlank(f: MeetingForm)
    ensures MeetingCanSave(f) <==> !f.saving && exists k :: 0 <= k < |f.name| && !IsSpace(f.name[k])
  {
  }

  /** The meeting dialog edits exactly a meeting whose `id` key holds a non-empty string. */
  lemma MeetingEditMode(m: ClientMeeting)
    ensures !MeetingIsEdit(None)
    ensures MeetingIsEdit(Some(m)) <==> m.id.Some? && m.id.value != ""
    ensures MeetingIsEdit(Some(m.(id := None))) == false
  {
  }

  /** `handleSave` of the meeting dialog: nothing when Save is disabled; otherwise the
      payload with the meeting's own id key. On success the dialog closes but, unlike the
      agent dialog, keeps its form; when `onSave` throws it stays as it was. */
  function MeetingDialogSave(m: Option<ClientMeeting>, d: Dialog<MeetingForm>, onSaveThrows: bool): (r: Saved<MeetingPayload, MeetingForm>)
    ensures r.sent.Some? <==> MeetingCanSave(d.form)
    ensures r.sent.None? ==> r.after == d
    ensures r.sent.Some? ==>
      && r.sent.value.name == Trim(d.form.name) && r.sent.value.name != ""
      && r.sent.value.agentId == d.form.agentId
      && (Truthy(r.sent.value.id) <==> MeetingIsEdit(m))
      && (m.Some? ==> r.sent.value.id == m.value.id)
    ensures r.sent.Some? && !onSaveThrows ==> r.after == Dialog(false, d.form)
    ensures r.sent.Some? && onSaveThrows ==> r.after == d
  {
    if !MeetingCanSave(d.form) then Saved(None, d)
    else
      var payload := MeetingPayload(if m.Some? then m.value.id else None, Trim(d.form.name), d.form.agentId);
      var settled := d.form.(saving := false);
      if onSaveThrows then Saved(Some(payload), d.(form := settled))
      else Saved(Some(payload), Dialog(false, settled))
  }

  /** Editing a meeting as `meetings.getMany` lists it preselects the meeting's own agent,
      whatever agents the picker offers: the joined agent, when there is one, has the
      meeting's `agentId`. */
  lemma EditingJoinedRowKeepsAgent(m: Meeting, agents: seq<Agent>, offered: seq<Agent>, i: int)
    requires 0 <= i < |JoinAgent(m, agents)|
    ensures InitialAgent(Some(FromRow(JoinAgent(m, agents)[i])), offered) == Some(m.agentId)
  {
    var row := JoinAgent(m, agents)[i];
    if row.agent.Some? {
      var j :| 0 <= j < |agents| && agents[j].id == m.agentId && RefOf(agents[j]) == row.agent.value;
    }
  }

  // ---------------------------------------------------------------- agent picker

  /** The agent shown as selected: the first agent with the picked id. */
  function SelectedAgent(agents: seq<Agent>, value: Option<string>): (r: Option<Agent>)
    ensures value.None? ==> r.None?
    ensures r.Some? ==> r.value in agents && Some(r.value.id) == value
    ensures value.Some? && (exists k :: 0 <= k < |agents| && agents[k].id == value.value) ==> r.Some?
  {
    if value.None? then None else FindFirst(agents, AgentWith(value.value))
  }

  /** The string the underlying select receives for a picked id: `value ?? ""`. */
  function SelectValue(value: Option<string>): string {
    value.GetOr("")
  }

  /** A choice from the select, where the empty string means no agent. */
  function SelectChange(v: string): (r: Option<string>)
    ensures SelectValue(r) == v
    ensures r.None? <==> v == ""
  {
    if v == "" then None else Some(v)
  }

  /** The picker's value and its change handler are inverse to each other on every id but
      the empty one. */
  lemma SelectRoundTrip(value: Option<string>)
    requires value != Some("")
    ensures SelectChange(SelectValue(value)) == value
  {
  }

  /** With unique agent ids, picking an agent shows exactly that agent as selected. */
  lemma PickAgentSelectsIt(agents: seq<Agent>, k: int)
    requires UniqueAgentIds(agents)
    requires 0 <= k < |agents| && agents[k].id != ""
    ensures SelectedAgent(agents, SelectChange(agents[k].id)) == Some(agents[k])
  {
    var r := SelectedAgent(agents, SelectChange(agents[k].id));
    var i :| 0 <= i < |agents| && agents[i] == r.value && AgentWith(agents[k].id)(agents[i]);
    assert agents[i].id == agents[k].id;
  }
}
