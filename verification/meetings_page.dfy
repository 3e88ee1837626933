/** The meetings page: its persisted view mode, the page-level state behind the dialog and
    the drawer, the save and delete handlers, and what the page body shows. */
module MeetingsPage {
  import opened Common
  import opened Text
  import opened MeetingView
  import opened Search
  import opened Pagination
  import opened Tables
  import opened Dialogs
  import opened StatusView

  // ---------------------------------------------------------------- view mode

  datatype ViewMode = CardView | TableView

  /** The strings the mode is stored under. */
  function ModeName(m: ViewMode): (r: string)
    ensures r == "card" || r == "table"
  {
    match m
    case CardView => "card"
    case TableView => "table"
  }

  /** Reading the stored mode: the table view only for the exact string "table"; anything
      else, a missing entry, or storage that throws gives the card view. */
  function DecodeViewMode(stored: Option<string>, storageThrows: bool): (r: ViewMode)
    ensures r == TableView <==> !storageThrows && stored == Some(ModeName(TableView))
  {
    if storageThrows then CardView
    else if stored == Some(ModeName(TableView)) then TableView
    else CardView
  }

  /** What the page writes back after every change of mode reads back as that mode. */
  lemma ViewModeRoundTrip(m: ViewMode)
    ensures DecodeViewMode(Some(ModeName(m)), false) == m
  {
  }

  // ---------------------------------------------------------------- page state

  datatype PageState = PageState(
    dialogOpen: bool,
    editing: Option<ClientMeeting>,
    drawerOpen: bool,
    viewing: Option<ClientMeeting>)

  const InitialState := PageState(false, None, false, None)

  /** "New": the dialog opens with no meeting. */
  function OpenNew(st: PageState): (r: PageState)
    ensures r.dialogOpen && r.editing.None? && !MeetingIsEdit(r.editing)
    ensures r.drawerOpen == st.drawerOpen && r.viewing == st.viewing
  {
    st.(dialogOpen := true, editing := None)
  }

  /** "Edit": the dialog opens on the meeting and the drawer closes. */
  function OpenEdit(st: PageState, m: ClientMeeting): (r: PageState)
    ensures r.dialogOpen && r.editing == Some(m) && !r.drawerOpen
    ensures r.viewing == st.viewing
  {
    st.(dialogOpen := true, editing := Some(m), drawerOpen := false)
  }

  /** "View": the drawer opens on the meeting. */
  function HandleView(st: PageState, m: ClientMeeting): (r: PageState)
    ensures r.drawerOpen && r.viewing == Some(m)
    ensures r.dialogOpen == st.dialogOpen && r.editing == st.editing
  {
    st.(drawerOpen := true, viewing := Some(m))
  }

  /** The mutations the page calls. */
  datatype Mutation =
    | CreateMeeting(payload: MeetingPayload)
    | UpdateMeeting(payload: MeetingPayload)
    | DeleteMeeting(id: string)

  /** One handler run: the mutation it called, the state afterwards, and whether the
      handler's promise rejected. */
  datatype Outcome = Outcome(call: Option<Mutation>, state: PageState, threw: bool)

  /** `handleSave`: an update for a payload with a non-empty id, a create otherwise; the
      dialog closes only once the mutation succeeded, and a failed mutation leaves the
      state alone and rejects, so the dialog sees its `onSave` throw. */
  function HandleSave(st: PageState, payload: MeetingPayload, succeeds: bool): (r: Outcome)
    ensures r.call.Some?
    ensures r.call.value.UpdateMeeting? <==> Truthy(payload.id)
    ensures r.call.value.CreateMeeting? <==> !Truthy(payload.id)
    ensures !r.call.value.DeleteMeeting? && r.call.value.payload == payload
    ensures r.threw <==> !succeeds
    ensures succeeds ==> r.state == st.(dialogOpen := false, editing := None)
    ensures !succeeds ==> r.state == st
  {
    var call := if Truthy(payload.id) then UpdateMeeting(payload) else CreateMeeting(payload);
    if succeeds then Outcome(Some(call), st.(dialogOpen := false, editing := None), false)
    else Outcome(Some(call), st, true)
  }

  /** The drawer shows the meeting with this id. */
  predicate Viewing(st: PageState, id: string) {
    st.viewing.Some? && st.viewing.value.id == Some(id)
  }

  /** `handleDelete`: nothing unless the user confirms; then the delete mutation, and once
      it succeeded the drawer closes if it was showing the deleted meeting. */
  function HandleDelete(st: PageState, id: string, confirmed: bool, succeeds: bool): (r: Outcome)
    ensures !confirmed ==> r == Outcome(None, st, false)
    ensures confirmed ==> r.call == Some(DeleteMeeting(id)) && (r.threw <==> !succeeds)
    ensures confirmed && succeeds ==> !Viewing(r.state, id)
    ensures !(confirmed && succeeds && Viewing(st, id)) ==> r.state == st
    ensures r.state.dialogOpen == st.dialogOpen && r.state.editing == st.editing
  {
    if !confirmed then Outcome(None, st, false)
    else if !succeeds then Outcome(Some(DeleteMeeting(id)), st, true)
    else if Viewing(st, id) then Outcome(Some(DeleteMeeting(id)), st.(drawerOpen := false, viewing := None), false)
    else Outcome(Some(DeleteMeeting(id)), st, false)
  }

  /** Saving the dialog opened by "Edit" on a meeting with an id updates that meeting; saving
      the dialog opened by "New" creates one. The page closes the dialog exactly when the
      dialog itself closes. */
  lemma SaveRoutesByDialog(st: PageState, m: Option<ClientMeeting>, f: MeetingForm, succeeds: bool)
    requires m.None? || Truthy(m.value.id)
    requires MeetingCanSave(f)
    ensures var st1 := if m.Some? then OpenEdit(st, m.value) else OpenNew(st);
      var s := MeetingDialogSave(st1.editing, Dialog(true, f), !succeeds);
      var o := HandleSave(st1, s.sent.value, succeeds);
      && (m.Some? ==> o.call == Some(UpdateMeeting(s.sent.value)) && s.sent.value.id == m.value.id)
      && (m.None? ==> o.call == Some(CreateMeeting(s.sent.value)))
      && (o.state.dialogOpen <==> s.after.open)
  {
  }

  // ---------------------------------------------------------------- page body

  datatype Content =
    | NoMeetings
    | Cards(cards: seq<ClientMeeting>)
    | Table(body: Body<ClientMeeting>)

  /** The page body: the empty state when the search leaves no meeting; otherwise one card
      per matching meeting, or the table of the matching meetings. */
  function PageContent(mode: ViewMode, meetings: seq<ClientMeeting>, query: string, pager: Pager): (r: Content)
    requires pager.rows > 0
    ensures r.NoMeetings? <==> |FilterMeetings(meetings, query)| == 0
    ensures r.Cards? <==> mode == CardView && |FilterMeetings(meetings, query)| > 0
    ensures r.Cards? ==> r.cards == FilterMeetings(meetings, query)
    ensures r.Table? ==> r.body == MeetingTableBody(FilterMeetings(meetings, query), pager)
  {
    var filtered := FilterMeetings(meetings, query);
    if |filtered| == 0 then NoMeetings
    else if mode == CardView then Cards(filtered)
    else Table(MeetingTableBody(filtered, pager))
  }

  /** The page never hands the table an empty list, so the table's own empty state and its
      "No meetings found." row never show; and a blank query lists every meeting. */
  lemma TableNeverShowsItsEmptyState(meetings: seq<ClientMeeting>, query: string, pager: Pager)
    requires pager.rows > 0
    ensures var r := PageContent(TableView, meetings, query, pager);
      && (r.Table? ==> r.body.Rows? && !r.body.placeholder && |r.body.rows| > 0)
      && (Trim(query) == "" && |meetings| > 0 ==> r == Table(MeetingTableBody(meetings, pager)))
  {
  }

  // ---------------------------------------------------------------- drawer links

  /** The drawer's transcript download as the page wires it: the page passes a handler that
      does nothing, and the drawer defers to any handler it is given. */
  function DrawerDownloadAsWritten(m: ClientMeeting, fetchSucceeds: bool): (r: Click)
    ensures r == Delegated
  {
    StateDrawerDownload(true, m, fetchSucceeds)
  }

  /** The same for the drawer's recording button. */
  function DrawerRecordingAsWritten(m: ClientMeeting): (r: Click)
    ensures r == Delegated
  {
    StateDrawerRecording(true, m)
  }

  /** As wired, a meeting with both links gets neither: the buttons reach the page's empty
      handlers, which open nothing, save nothing and report nothing. */
  lemma DrawerLinksIgnored(m: ClientMeeting, fetchSucceeds: bool)
    requires Truthy(m.transcriptUrl) && Truthy(m.recordingUrl)
    ensures DrawerDownloadAsWritten(m, fetchSucceeds) == Delegated
    ensures DrawerRecordingAsWritten(m) == Delegated
    ensures StateDrawerDownload(false, m, fetchSucceeds) != Delegated
    ensures StateDrawerRecording(false, m) != Delegated
  {
  }

  /** The transcript download the drawer implements itself, reached when the page passes no
      handler: a meeting with a transcript link always gets the transcript, saved or opened. */
  function DrawerDownload(m: ClientMeeting, fetchSucceeds: bool): (r: Click)
    ensures Truthy(m.transcriptUrl) ==> r == SaveFile(TranscriptFileName(m), m.transcriptUrl.value) || r == OpenTab(m.transcriptUrl.value)
    ensures !Truthy(m.transcriptUrl) ==> r == ErrorToast(NoTranscript)
  {
    StateDrawerDownload(false, m, fetchSucceeds)
  }

  /** The recording button the drawer implements itself. */
  function DrawerRecording(m: ClientMeeting): (r: Click)
    ensures Truthy(m.recordingUrl) ==> r == OpenTab(m.recordingUrl.value)
    ensures !Truthy(m.recordingUrl) ==> r == ErrorToast(NoRecording)
  {
    StateDrawerRecording(false, m)
  }

  /** Without the empty handlers, the drawer's transcript button and its transcript link
      reach the same file, and the recording button opens the recording. */
  lemma DrawerLinksReachFiles(m: ClientMeeting, fetchSucceeds: bool)
    ensures !fetchSucceeds ==> DrawerDownload(m, fetchSucceeds) == OpenTranscript(m)
    ensures DrawerRecording(m) == OpenRecording(m)
  {
  }
}
