/** The webhook endpoint of the call platform (`POST /api/webhook`): a request is
    authenticated, decoded, dispatched on its event type, and applied to the meetings
    table as a guarded state machine, while calls to the call platform and the realtime
    AI engine are recorded as an ordered trace of effects. */
module Webhook {
  import opened Common
  import opened Text
  import opened Domain

  /** `event.call`, reduced to the part the handler reads: `call.custom?.meetingId`. */
  datatype CallInfo = CallInfo(meetingId: Option<string>)

  /** The decoded JSON body. The event kinds the handler recognises carry the fields it
      reads; `None` stands for a field that is absent from the payload. */
  datatype Event =
    | SessionStarted(call: Option<CallInfo>)
    | ParticipantLeft(callCid: Option<string>)
    | SessionEnded(call: Option<CallInfo>)
    | TranscriptionReady(callCid: Option<string>, transcriptUrl: Option<string>)
    | RecordingReady(callCid: Option<string>, recordingUrl: Option<string>)
    | OtherEvent(eventType: string)
    /** The body is the JSON literal `null`, on which reading `.type` throws. */
    | NullPayload

  /** The `x-signature` and `x-api-key` request headers. */
  datatype Headers = Headers(signature: Option<string>, apiKey: Option<string>)

  datatype Request = Request(headers: Headers, body: string)

  /** The code the handler cannot see: the platform SDK's signature check over the raw
      body, `JSON.parse`, and whether the awaited platform calls resolve or reject. */
  datatype Env = Env(
    verify: (string, string) -> bool,
    parse: string -> Option<Event>,
    connectSucceeds: bool,
    endCallSucceeds: bool)

  /** Calls made to the call platform and to the realtime AI session, in order. */
  datatype Effect =
    | ConnectAi(callType: string, callId: string, agentUserId: string, model: string)
    | UpdateInstructions(instructions: string)
    | UpdateVoice(voice: string)
    | EndCall(callType: string, callId: string)

  /** The HTTP status, the JSON `message`, the tables after the request, and the effects. */
  datatype Response = Response(code: nat, message: string, db: Db, effects: seq<Effect>)

  const CallType := "default"
  const RealtimeModel := "gpt-4o-realtime-preview"
  const Voice := "alloy"

  const MsgUnauthorized := "Unauthorized"
  const MsgInvalidPayload := "Invalid payload"
  const MsgNoMeetingId := "Meeting ID not found in call metadata"
  const MsgNotStartable := "Meeting not found or already completed/cancelled"
  const MsgAgentNotFound := "Agent not found"
  const MsgMeetingNotFound := "Meeting not found"
  const MsgReceived := "Event received"
  /** An exception escaping the handler becomes Next.js's generic error response. */
  const MsgInternal := "Internal Server Error"

  /** No table changed and nothing was called. */
  predicate NoOp(r: Response, db: Db) {
    r.db == db && r.effects == []
  }

  function Reject(code: nat, message: string, db: Db): (r: Response)
    ensures NoOp(r, db) && r.code == code
  {
    Response(code, message, db, [])
  }

  /** `call.session_started` is accepted only for a meeting whose status is none of
      completed, active, cancelled and processing. */
  predicate Startable(s: Status) {
    s != Completed && s != Active && s != Cancelled && s != Processing
  }

  /** The `where` clause of the start guard: the row has the id and a startable status. */
  function StartableWith(id: string): Meeting -> bool {
    (m: Meeting) => m.id == id && Startable(m.status)
  }

  /** The `where id = $id` clause of the artifact updates. */
  function RowWith(id: Option<string>): Meeting -> bool {
    (m: Meeting) => IdMatches(m, id)
  }

  /** `update meetings set status = 'active', startedAt = now where id = $id`. */
  function MarkActive(rows: seq<Meeting>, id: string, now: int): (r: seq<Meeting>)
    ensures |r| == |rows|
    ensures forall i :: 0 <= i < |rows| ==>
      r[i] == if rows[i].id == id then rows[i].(status := Active, startedAt := Some(now)) else rows[i]
  {
    seq(|rows|, i requires 0 <= i < |rows| =>
      if rows[i].id == id then rows[i].(status := Active, startedAt := Some(now)) else rows[i])
  }

  /** `update meetings set status = 'processing', endedAt = now
       where id = $id and status = 'active'`. */
  function MarkProcessing(rows: seq<Meeting>, id: string, now: int): (r: seq<Meeting>)
    ensures |r| == |rows|
    ensures forall i :: 0 <= i < |rows| ==>
      r[i] == if rows[i].id == id && rows[i].status == Active
              then rows[i].(status := Processing, endedAt := Some(now)) else rows[i]
  {
    seq(|rows|, i requires 0 <= i < |rows| =>
      if rows[i].id == id && rows[i].status == Active
      then rows[i].(status := Processing, endedAt := Some(now)) else rows[i])
  }

  /** A row matches `where id = $id`; an `undefined` id matches no row. */
  predicate IdMatches(m: Meeting, id: Option<string>) {
    id == Some(m.id)
  }

  /** `update meetings set transcriptUrl = $url where id = $id`. */
  function SetTranscript(rows: seq<Meeting>, id: Option<string>, url: string): (r: seq<Meeting>)
    ensures |r| == |rows|
    ensures forall i :: 0 <= i < |rows| ==>
      r[i] == if IdMatches(rows[i], id) then rows[i].(transcriptUrl := Some(url)) else rows[i]
  {
    seq(|rows|, i requires 0 <= i < |rows| =>
      if IdMatches(rows[i], id) then rows[i].(transcriptUrl := Some(url)) else rows[i])
  }

  /** `update meetings set recordingUrl = $url where id = $id`. */
  function SetRecording(rows: seq<Meeting>, id: Option<string>, url: string): (r: seq<Meeting>)
    ensures |r| == |rows|
    ensures forall i :: 0 <= i < |rows| ==>
      r[i] == if IdMatches(rows[i], id) then rows[i].(recordingUrl := Some(url)) else rows[i]
  {
    seq(|rows|, i requires 0 <= i < |rows| =>
      if IdMatches(rows[i], id) then rows[i].(recordingUrl := Some(url)) else rows[i])
  }

  /** `call.session_started`: guard, commit `active`, look up the agent, connect the AI. */
  function OnSessionStarted(env: Env, call: Option<CallInfo>, db: Db, now: int): (r: Response)
    ensures r.code == 200 || r.code == 400 || r.code == 404 || r.code == 500
    ensures r.code == 400 <==> call.Some? && call.value.meetingId.GetOr("") == ""
    ensures r.db.agents == db.agents && |r.db.meetings| == |db.meetings|
    ensures |r.effects| <= 3 && (r.effects != [] ==> r.effects[0].ConnectAi? && (r.code == 200 || r.code == 500))
    ensures r.code == 200 ==> |r.effects| == 3
  {
    match call
    case None => Reject(500, MsgInternal, db)
    case Some(c) =>
      var id := c.meetingId.GetOr("");
      if id == "" then Reject(400, MsgNoMeetingId, db)
      else
        match FindFirst(db.meetings, StartableWith(id))
        case None => Reject(404, MsgNotStartable, db)
        case Some(meeting) =>
          var committed := db.(meetings := MarkActive(db.meetings, meeting.id, now));
          match FindFirst(committed.agents, AgentWith(meeting.agentId))
          case None => Response(404, MsgAgentNotFound, committed, [])
          case Some(agent) =>
            var connect := ConnectAi(CallType, id, meeting.agentId, RealtimeModel);
            if !env.connectSucceeds then Response(500, MsgInternal, committed, [connect])
            else Response(200, MsgReceived, committed,
                          [connect, UpdateInstructions(agent.instructions), UpdateVoice(Voice)])
  }

  /** `call.session_participant_left`: end the call named by the second field of `call_cid`. */
  function OnParticipantLeft(env: Env, callCid: Option<string>, db: Db): (r: Response)
    ensures r.code == 200 || r.code == 400 || r.code == 500
    ensures r.db == db && |r.effects| <= 1
    ensures r.effects != [] ==> r.effects[0].EndCall? && r.effects[0].callType == CallType && r.effects[0].callId != ""
    ensures r.code == 200 ==> r.effects != []
    ensures r.code == 400 <==> callCid.Some? && SecondField(callCid.value, ':').GetOr("") == ""
  {
    match callCid
    case None => Reject(500, MsgInternal, db)
    case Some(cid) =>
      var id := SecondField(cid, ':').GetOr("");
      if id == "" then Reject(400, MsgNoMeetingId, db)
      else if !env.endCallSucceeds then Response(500, MsgInternal, db, [EndCall(CallType, id)])
      else Response(200, MsgReceived, db, [EndCall(CallType, id)])
  }

  /** `call.session_ended`: move an `active` meeting to `processing`. */
  function OnSessionEnded(call: Option<CallInfo>, db: Db, now: int): (r: Response)
    ensures r.code == 200 || r.code == 400 || r.code == 500
    ensures r.code == 200 <==> call.Some? && call.value.meetingId.GetOr("") != ""
    ensures r.effects == [] && r.db.agents == db.agents && |r.db.meetings| == |db.meetings|
    ensures forall i :: 0 <= i < |db.meetings| ==>
      r.db.meetings[i] == db.meetings[i] ||
      (db.meetings[i].status == Active &&
       r.db.meetings[i] == db.meetings[i].(status := Processing, endedAt := Some(now)))
  {
    match call
    case None => Reject(500, MsgInternal, db)
    case Some(c) =>
      var id := c.meetingId.GetOr("");
      if id == "" then Reject(400, MsgNoMeetingId, db)
      else Response(200, MsgReceived, db.(meetings := MarkProcessing(db.meetings, id, now)), [])
  }

  /** `call.transcription_ready`: attach the transcript; 404 when no row was updated. */
  function OnTranscriptionReady(callCid: Option<string>, url: Option<string>, db: Db): (r: Response)
    ensures r.code == 200 || r.code == 404 || r.code == 500
    ensures r.code == 500 <==> callCid.None? || url.None?
    ensures r.code == 404 <==> (callCid.Some? && url.Some? &&
      forall i :: 0 <= i < |db.meetings| ==> !IdMatches(db.meetings[i], SecondField(callCid.value, ':')))
    ensures r.effects == [] && r.db.agents == db.agents && |r.db.meetings| == |db.meetings|
    ensures forall i :: 0 <= i < |db.meetings| ==>
      r.db.meetings[i] == db.meetings[i] || r.db.meetings[i] == db.meetings[i].(transcriptUrl := url)
  {
    if callCid.None? || url.None? then Reject(500, MsgInternal, db)
    else
      var id := SecondField(callCid.value, ':');
      var rows := SetTranscript(db.meetings, id, url.value);
      if FindFirst(db.meetings, RowWith(id)).None?
      then Response(404, MsgMeetingNotFound, db.(meetings := rows), [])
      else Response(200, MsgReceived, db.(meetings := rows), [])
  }

  /** `call.recording_ready`: attach the recording; accepted whether or not a row matched. */
  function OnRecordingReady(callCid: Option<string>, url: Option<string>, db: Db): (r: Response)
    ensures r.code == 200 || r.code == 500
    ensures r.code == 500 <==> callCid.None? || url.None?
    ensures r.effects == [] && r.db.agents == db.agents && |r.db.meetings| == |db.meetings|
    ensures forall i :: 0 <= i < |db.meetings| ==>
      r.db.meetings[i] == db.meetings[i] || r.db.meetings[i] == db.meetings[i].(recordingUrl := url)
  {
    if callCid.None? || url.None? then Reject(500, MsgInternal, db)
    else
      var id := SecondField(callCid.value, ':');
      Response(200, MsgReceived, db.(meetings := SetRecording(db.meetings, id, url.value)), [])
  }

  /** Dispatch on the event type of an authenticated, well-formed body. */
  function Dispatch(env: Env, ev: Event, db: Db, now: int): (r: Response)
    ensures r.code == 200 || r.code == 400 || r.code == 404 || r.code == 500
    ensures r.db.agents == db.agents && |r.db.meetings| == |db.meetings|
    ensures r.effects != [] ==> r.code == 200 || r.code == 500
  {
    match ev
    case SessionStarted(call) => OnSessionStarted(env, call, db, now)
    case ParticipantLeft(cid) => OnParticipantLeft(env, cid, db)
    case SessionEnded(call) => OnSessionEnded(call, db, now)
    case TranscriptionReady(cid, url) => OnTranscriptionReady(cid, url, db)
    case RecordingReady(cid, url) => OnRecordingReady(cid, url, db)
    case OtherEvent(_) => Response(200, MsgReceived, db, [])
    case NullPayload => Reject(500, MsgInternal, db)
  }

  /** Both headers are present and non-empty, and the signature verifies over the raw body. */
  predicate Authenticated(env: Env, req: Request) {
    var signature := req.headers.signature.GetOr("");
    var apiKey := req.headers.apiKey.GetOr("");
    signature != "" && apiKey != "" && env.verify(req.body, signature)
  }

  /** The whole `POST` handler. */
  function Handle(env: Env, req: Request, db: Db, now: int): (r: Response)
    ensures r.code == 200 || r.code == 400 || r.code == 401 || r.code == 404 || r.code == 500
    ensures r.code == 401 <==> !Authenticated(env, req)
    ensures r.db.agents == db.agents && |r.db.meetings| == |db.meetings|
    ensures r.effects != [] ==> r.code == 200 || r.code == 500
  {
    var signature := req.headers.signature.GetOr("");
    var apiKey := req.headers.apiKey.GetOr("");
    if signature == "" || apiKey == "" then Reject(401, MsgUnauthorized, db)
    else if !env.verify(req.body, signature) then Reject(401, MsgUnauthorized, db)
    else
      match env.parse(req.body)
      case None => Reject(400, MsgInvalidPayload, db)
      case Some(ev) => Dispatch(env, ev, db, now)
  }
}
