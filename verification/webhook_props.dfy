/** Properties of the webhook handler: the authentication gate, the error paths that leave
    everything untouched, the exact effect of each event on the meetings table and on the
    effect trace, the lifecycle invariant, and idempotence under redelivery. */
module WebhookProperties {
  import opened Common
  import opened Text
  import opened Domain
  import opened Webhook

  /** The request is authenticated and its body decodes to `ev`. */
  predicate Delivers(env: Env, req: Request, ev: Event) {
    Authenticated(env, req) && env.parse(req.body) == Some(ev)
  }

  /** The meeting id `call.custom?.meetingId` as the handler tests it (`""` when absent). */
  function CustomId(c: CallInfo): string {
    c.meetingId.GetOr("")
  }

  // ---------------------------------------------------------------------------------------
  // Authentication and decoding

  /** 401 is returned exactly when a header is missing or empty or the signature does not
      verify; a rejected request changes nothing and calls nothing. */
  lemma AuthGate(env: Env, req: Request, db: Db, now: int)
    ensures Handle(env, req, db, now).code == 401 <==> !Authenticated(env, req)
    ensures !Authenticated(env, req) ==> NoOp(Handle(env, req, db, now), db)
  {
  }

  /** Verification happens before the body is parsed: an unauthenticated request gets the
      same response whatever the parser would make of its body. */
  lemma VerifyBeforeParse(env: Env, parse: string -> Option<Event>, req: Request, db: Db, now: int)
    requires !Authenticated(env, req)
    ensures Handle(env.(parse := parse), req, db, now) == Handle(env, req, db, now)
  {
  }

  /** An authenticated body that is not JSON gets 400 and changes nothing. */
  lemma MalformedBodyRejected(env: Env, req: Request, db: Db, now: int)
    requires Authenticated(env, req) && env.parse(req.body).None?
    ensures Handle(env, req, db, now).code == 400
    ensures NoOp(Handle(env, req, db, now), db)
  {
  }

  // ---------------------------------------------------------------------------------------
  // call.session_started

  /** The start guard: without a meeting id the answer is 400; when no row with that id has
      a status outside completed/active/cancelled/processing the answer is 404; both leave
      the tables untouched and call nothing. */
  lemma StartedGuard(env: Env, req: Request, c: CallInfo, db: Db, now: int)
    requires Delivers(env, req, SessionStarted(Some(c)))
    ensures CustomId(c) == "" ==> Handle(env, req, db, now) == Reject(400, MsgNoMeetingId, db)
    ensures CustomId(c) != "" &&
            (forall i :: 0 <= i < |db.meetings| ==>
               !(db.meetings[i].id == CustomId(c) && db.meetings[i].status == Upcoming))
            ==> Handle(env, req, db, now) == Reject(404, MsgNotStartable, db)
  {
    if CustomId(c) != "" {
      var p := StartableWith(CustomId(c));
      assert forall i :: 0 <= i < |db.meetings| ==> (p(db.meetings[i]) <==>
        db.meetings[i].id == CustomId(c) && db.meetings[i].status == Upcoming);
    }
  }

  /** `k` is the first row that `call.session_started` for `id` may start. */
  predicate FirstStartable(rows: seq<Meeting>, id: string, k: int) {
    && 0 <= k < |rows|
    && rows[k].id == id && rows[k].status == Upcoming
    && forall j :: 0 <= j < k ==> !(rows[j].id == id && rows[j].status == Upcoming)
  }

  /** `a` is the first agent with the given id. */
  predicate FirstAgent(agents: seq<Agent>, id: string, a: int) {
    && 0 <= a < |agents|
    && agents[a].id == id
    && forall j :: 0 <= j < a ==> agents[j].id != id
  }

  lemma FindStartable(rows: seq<Meeting>, id: string, k: int)
    requires FirstStartable(rows, id, k)
    ensures FindFirst(rows, StartableWith(id)) == Some(rows[k])
  {
  }

  lemma FindAgent(agents: seq<Agent>, id: string, a: int)
    requires FirstAgent(agents, id, a)
    ensures FindFirst(agents, AgentWith(id)) == Some(agents[a])
  {
  }

  /** A start that passes the guard commits before anything else: every row with the meeting
      id becomes `active` with `startedAt = now`, every other row and the agents table stay
      as they were. This holds whatever happens afterwards (missing agent, failed connect). */
  lemma StartedCommitsActive(env: Env, req: Request, c: CallInfo, db: Db, now: int, k: int)
    requires Delivers(env, req, SessionStarted(Some(c)))
    requires CustomId(c) != "" && FirstStartable(db.meetings, CustomId(c), k)
    ensures var r := Handle(env, req, db, now);
      && r.db.agents == db.agents
      && |r.db.meetings| == |db.meetings|
      && forall i :: 0 <= i < |db.meetings| ==>
           r.db.meetings[i] == if db.meetings[i].id == CustomId(c)
                               then db.meetings[i].(status := Active, startedAt := Some(now))
                               else db.meetings[i]
  {
    FindStartable(db.meetings, CustomId(c), k);
  }

  /** A missing agent answers 404 after the `active` commit, with no effects. */
  lemma StartedAgentMissing(env: Env, req: Request, c: CallInfo, db: Db, now: int, k: int)
    requires Delivers(env, req, SessionStarted(Some(c)))
    requires CustomId(c) != "" && FirstStartable(db.meetings, CustomId(c), k)
    requires forall j :: 0 <= j < |db.agents| ==> db.agents[j].id != db.meetings[k].agentId
    ensures Handle(env, req, db, now) ==
            Response(404, MsgAgentNotFound,
                     db.(meetings := MarkActive(db.meetings, CustomId(c), now)), [])
  {
    FindStartable(db.meetings, CustomId(c), k);
  }

  /** With the agent found, the AI joins call ("default", id) as the meeting's agent with the
      realtime model; if that resolves, the session gets the agent's instructions and then
      the voice, and the answer is 200. If it rejects, the answer is 500 after the commit. */
  lemma StartedConnects(env: Env, req: Request, c: CallInfo, db: Db, now: int, k: int, a: int)
    requires Delivers(env, req, SessionStarted(Some(c)))
    requires CustomId(c) != "" && FirstStartable(db.meetings, CustomId(c), k)
    requires FirstAgent(db.agents, db.meetings[k].agentId, a)
    ensures var r := Handle(env, req, db, now);
      var connect := ConnectAi("default", CustomId(c), db.meetings[k].agentId, "gpt-4o-realtime-preview");
      && r.db == db.(meetings := MarkActive(db.meetings, CustomId(c), now))
      && (env.connectSucceeds ==>
            r.code == 200 &&
            r.effects == [connect, UpdateInstructions(db.agents[a].instructions), UpdateVoice("alloy")])
      && (!env.connectSucceeds ==> r.code == 500 && r.effects == [connect])
  {
    FindStartable(db.meetings, CustomId(c), k);
    FindAgent(db.agents, db.meetings[k].agentId, a);
  }

  // ---------------------------------------------------------------------------------------
  // call.session_participant_left

  /** Leaving never touches the tables; the meeting id is the second `:`-separated field of
      `call_cid`; when it is absent or empty the answer is 400 with no effect, otherwise the
      only effect is ending call ("default", id). */
  lemma ParticipantLeftEndsCall(env: Env, req: Request, cid: string, db: Db, now: int)
    requires Delivers(env, req, ParticipantLeft(Some(cid)))
    ensures var r := Handle(env, req, db, now);
      && r.db == db
      && (SecondField(cid, ':').GetOr("") == "" <==> r.code == 400)
      && (r.code == 400 ==> r.effects == [])
      && (r.code != 400 ==> r.effects == [EndCall("default", SecondField(cid, ':').value)])
      && (r.code != 400 ==> (r.code == 200 <==> env.endCallSucceeds))
  {
  }

  // ---------------------------------------------------------------------------------------
  // call.session_ended

  /** Ending moves exactly the `active` rows with the meeting id to `processing` with
      `endedAt = now`; every other row is untouched; the answer is 200 whether or not a row
      moved. Without a meeting id the answer is 400 and nothing changes. */
  lemma SessionEndedTransition(env: Env, req: Request, c: CallInfo, db: Db, now: int)
    requires Delivers(env, req, SessionEnded(Some(c)))
    ensures var r := Handle(env, req, db, now);
      && (CustomId(c) == "" ==> r == Reject(400, MsgNoMeetingId, db))
      && (CustomId(c) != "" ==>
            && r.code == 200 && r.effects == [] && r.db.agents == db.agents
            && |r.db.meetings| == |db.meetings|
            && forall i :: 0 <= i < |db.meetings| ==>
                 r.db.meetings[i] == if db.meetings[i].id == CustomId(c) && db.meetings[i].status == Active
                                     then db.meetings[i].(status := Processing, endedAt := Some(now))
                                     else db.meetings[i])
  {
  }

  // ---------------------------------------------------------------------------------------
  // call.transcription_ready / call.recording_ready / other events

  /** The transcript event sets only `transcriptUrl` of the rows with the id and answers 404
      exactly when no row has that id (the tables are then unchanged). */
  lemma TranscriptionAttaches(env: Env, req: Request, cid: string, url: string, db: Db, now: int)
    requires Delivers(env, req, TranscriptionReady(Some(cid), Some(url)))
    ensures var r := Handle(env, req, db, now);
      var id := SecondField(cid, ':');
      && r.effects == [] && r.db.agents == db.agents
      && |r.db.meetings| == |db.meetings|
      && (forall i :: 0 <= i < |db.meetings| ==>
            r.db.meetings[i] == if IdMatches(db.meetings[i], id)
                                then db.meetings[i].(transcriptUrl := Some(url))
                                else db.meetings[i])
      && (r.code == 404 <==> forall i :: 0 <= i < |db.meetings| ==> !IdMatches(db.meetings[i], id))
      && (r.code == 404 ==> r.db == db)
      && (r.code != 404 ==> r.code == 200)
  {
    var id := SecondField(cid, ':');
    var r := Handle(env, req, db, now);
    if r.code == 404 {
      assert r.db.meetings == db.meetings;
    }
  }

  /** The recording event sets only `recordingUrl` of the rows with the id and always
      answers 200, even when no row matched. */
  lemma RecordingAttaches(env: Env, req: Request, cid: string, url: string, db: Db, now: int)
    requires Delivers(env, req, RecordingReady(Some(cid), Some(url)))
    ensures var r := Handle(env, req, db, now);
      var id := SecondField(cid, ':');
      && r.code == 200 && r.effects == [] && r.db.agents == db.agents
      && |r.db.meetings| == |db.meetings|
      && forall i :: 0 <= i < |db.meetings| ==>
           r.db.meetings[i] == if IdMatches(db.meetings[i], id)
                               then db.meetings[i].(recordingUrl := Some(url))
                               else db.meetings[i]
  {
  }

  /** An event type the handler does not recognise is acknowledged and ignored. */
  lemma UnknownEventIgnored(env: Env, req: Request, t: string, db: Db, now: int)
    requires Delivers(env, req, OtherEvent(t))
    ensures Handle(env, req, db, now) == Response(200, MsgReceived, db, [])
  {
  }

  // ---------------------------------------------------------------------------------------
  // The lifecycle invariant

  /** The lifecycle as a state machine, independent of the handler: a start moves `upcoming`
      to `active`, an end moves `active` to `processing`; nothing else changes a status. */
  datatype Trigger = StartTrigger | EndTrigger | NoTrigger

  function LifecycleNext(s: Status, t: Trigger): Status {
    match t
    case StartTrigger => if s == Upcoming then Active else s
    case EndTrigger => if s == Active then Processing else s
    case NoTrigger => s
  }

  /** The only status changes a request can cause. */
  predicate Advances(before: Status, after: Status) {
    before == after || (before == Upcoming && after == Active) || (before == Active && after == Processing)
  }

  /** The columns no webhook ever writes. */
  predicate SameIdentity(a: Meeting, b: Meeting) {
    a.id == b.id && a.name == b.name && a.agentId == b.agentId && a.userId == b.userId &&
    a.summary == b.summary && a.createdAt == b.createdAt && a.updatedAt == b.updatedAt
  }

  /** What a single request may do to the tables: the agents table and the number of
      meetings are unchanged, no identity column changes, a status only moves
      upcoming->active or active->processing, `startedAt` changes only with the first move
      and `endedAt` only with the second. */
  predicate OnlyAdvances(before: Db, after: Db) {
    && after.agents == before.agents
    && |after.meetings| == |before.meetings|
    && forall i :: 0 <= i < |before.meetings| ==>
         var (b, a) := (before.meetings[i], after.meetings[i]);
         && SameIdentity(b, a)
         && Advances(b.status, a.status)
         && (a.startedAt != b.startedAt ==> b.status == Upcoming && a.status == Active)
         && (a.endedAt != b.endedAt ==> b.status == Active && a.status == Processing)
  }

  /** `meetings.id` is the primary key. */
  predicate UniqueIds(rows: seq<Meeting>) {
    forall i, j :: 0 <= i < j < |rows| ==> rows[i].id != rows[j].id
  }

  /** The row a start delivery commits `active` for: the first startable row with the
      meeting id, once the id is present. */
  function StartTarget(call: Option<CallInfo>, db: Db): (r: Option<Meeting>)
    ensures r.Some? ==> call.Some? && call.value.meetingId.GetOr("") != ""
    ensures r.Some? ==> exists j :: 0 <= j < |db.meetings| && db.meetings[j] == r.value &&
                                    db.meetings[j].id == call.value.meetingId.GetOr("") &&
                                    Startable(db.meetings[j].status)
  {
    if call.Some? && call.value.meetingId.GetOr("") != ""
    then FindFirst(db.meetings, StartableWith(call.value.meetingId.GetOr("")))
    else None
  }

  /** The tables after a start: the commit for the target row's id, whatever follows it. */
  lemma StartedTables(env: Env, call: Option<CallInfo>, db: Db, now: int)
    ensures OnSessionStarted(env, call, db, now).db ==
      if StartTarget(call, db).Some?
      then db.(meetings := MarkActive(db.meetings, StartTarget(call, db).value.id, now))
      else db
  {
  }

  lemma StartedOnlyAdvances(env: Env, call: Option<CallInfo>, db: Db, now: int)
    requires UniqueIds(db.meetings)
    ensures OnlyAdvances(db, OnSessionStarted(env, call, db, now).db)
  {
    StartedTables(env, call, db, now);
    var t := StartTarget(call, db);
    if t.Some? {
      var j :| 0 <= j < |db.meetings| && db.meetings[j] == t.value && Startable(db.meetings[j].status);
      MarkActiveOnlyAdvances(db, j, now);
    }
  }

  /** Committing `active` for the id of a startable row touches that row alone, because the
      id is the primary key. */
  lemma MarkActiveOnlyAdvances(db: Db, j: int, now: int)
    requires UniqueIds(db.meetings)
    requires 0 <= j < |db.meetings| && Startable(db.meetings[j].status)
    ensures OnlyAdvances(db, db.(meetings := MarkActive(db.meetings, db.meetings[j].id, now)))
  {
    assert forall i :: 0 <= i < |db.meetings| && db.meetings[i].id == db.meetings[j].id ==> i == j;
  }

  lemma EndedOnlyAdvances(call: Option<CallInfo>, db: Db, now: int)
    ensures OnlyAdvances(db, OnSessionEnded(call, db, now).db)
  {
  }

  lemma TranscriptOnlyAdvances(cid: Option<string>, url: Option<string>, db: Db)
    ensures OnlyAdvances(db, OnTranscriptionReady(cid, url, db).db)
  {
  }

  lemma RecordingOnlyAdvances(cid: Option<string>, url: Option<string>, db: Db)
    ensures OnlyAdvances(db, OnRecordingReady(cid, url, db).db)
  {
  }

  /** Every request, whatever its headers, body and outcome, only advances the lifecycle:
      completed and cancelled are terminal, nothing regresses, and no identity column or
      agent row is ever written. The ids stay unique because no id is written. */
  lemma StatusOnlyAdvances(env: Env, req: Request, db: Db, now: int)
    requires UniqueIds(db.meetings)
    ensures OnlyAdvances(db, Handle(env, req, db, now).db)
  {
    if Authenticated(env, req) && env.parse(req.body).Some? {
      match env.parse(req.body).value
      case SessionStarted(call) => StartedOnlyAdvances(env, call, db, now);
      case SessionEnded(call) => EndedOnlyAdvances(call, db, now);
      case TranscriptionReady(cid, url) => TranscriptOnlyAdvances(cid, url, db);
      case RecordingReady(cid, url) => RecordingOnlyAdvances(cid, url, db);
      case _ =>
    }
  }

  /** The row-level effect of a delivery agrees with the reference state machine: the row(s)
      named by an end event, and under a primary key the row named by a start event, get
      `LifecycleNext` of their old status, and every other status is unchanged. Without a
      primary key a start still activates every row with the id once the first startable
      one passed the guard. */
  lemma HandlerFollowsLifecycle(env: Env, req: Request, c: CallInfo, db: Db, now: int, i: int)
    requires 0 <= i < |db.meetings|
    requires CustomId(c) != ""
    ensures Delivers(env, req, SessionEnded(Some(c))) ==>
      Handle(env, req, db, now).db.meetings[i].status ==
        LifecycleNext(db.meetings[i].status, if db.meetings[i].id == CustomId(c) then EndTrigger else NoTrigger)
    ensures UniqueIds(db.meetings) && Delivers(env, req, SessionStarted(Some(c))) ==>
      Handle(env, req, db, now).db.meetings[i].status ==
        LifecycleNext(db.meetings[i].status, if db.meetings[i].id == CustomId(c) then StartTrigger else NoTrigger)
    ensures forall k :: Delivers(env, req, SessionStarted(Some(c))) && FirstStartable(db.meetings, CustomId(c), k) ==>
      Handle(env, req, db, now).db.meetings[i].status ==
        (if db.meetings[i].id == CustomId(c) then Active else db.meetings[i].status)
  {
    forall k | Delivers(env, req, SessionStarted(Some(c))) && FirstStartable(db.meetings, CustomId(c), k)
      ensures Handle(env, req, db, now).db.meetings[i].status ==
        (if db.meetings[i].id == CustomId(c) then Active else db.meetings[i].status)
    {
      StartedCommitsActive(env, req, c, db, now, k);
    }
    if UniqueIds(db.meetings) && Delivers(env, req, SessionStarted(Some(c))) {
      StartFollowsLifecycle(env, req, c, db, now, i);
    }
  }

  /** The start clause of `HandlerFollowsLifecycle`: with unique ids only the row with the
      id can move, and it moves exactly when it is `upcoming`. */
  lemma StartFollowsLifecycle(env: Env, req: Request, c: CallInfo, db: Db, now: int, i: int)
    requires 0 <= i < |db.meetings| && CustomId(c) != ""
    requires UniqueIds(db.meetings) && Delivers(env, req, SessionStarted(Some(c)))
    ensures Handle(env, req, db, now).db.meetings[i].status ==
      LifecycleNext(db.meetings[i].status, if db.meetings[i].id == CustomId(c) then StartTrigger else NoTrigger)
  {
    assert Handle(env, req, db, now) == OnSessionStarted(env, Some(c), db, now);
    StartedRowFollowsLifecycle(env, c, db, now, i);
  }

  /** The same at the level of the event handler. */
  lemma StartedRowFollowsLifecycle(env: Env, c: CallInfo, db: Db, now: int, i: int)
    requires 0 <= i < |db.meetings| && CustomId(c) != "" && UniqueIds(db.meetings)
    ensures OnSessionStarted(env, Some(c), db, now).db.meetings[i].status ==
      LifecycleNext(db.meetings[i].status, if db.meetings[i].id == CustomId(c) then StartTrigger else NoTrigger)
  {
    StartedTables(env, Some(c), db, now);
    var t := StartTarget(Some(c), db);
    if t.Some? {
      var j :| 0 <= j < |db.meetings| && db.meetings[j] == t.value &&
               db.meetings[j].id == CustomId(c) && Startable(db.meetings[j].status);
      assert db.meetings[i].id == CustomId(c) ==> i == j;
    } else {
      assert !StartableWith(CustomId(c))(db.meetings[i]);
    }
  }

  // ---------------------------------------------------------------------------------------
  // Redelivery

  predicate NoUpcoming(rows: seq<Meeting>, id: string) {
    forall i :: 0 <= i < |rows| && rows[i].id == id ==> rows[i].status != Upcoming
  }

  predicate NoActive(rows: seq<Meeting>, id: string) {
    forall i :: 0 <= i < |rows| && rows[i].id == id ==> rows[i].status != Active
  }

  /** After any delivery of a start request, no row it names can be started again. */
  lemma AfterStartNoUpcoming(env: Env, req: Request, c: CallInfo, db: Db, now: int)
    requires Delivers(env, req, SessionStarted(Some(c)))
    requires CustomId(c) != ""
    ensures NoUpcoming(Handle(env, req, db, now).db.meetings, CustomId(c))
  {
    var p := StartableWith(CustomId(c));
    var f := FindFirst(db.meetings, p);
    if f.None? {
      assert forall i :: 0 <= i < |db.meetings| ==> !p(db.meetings[i]);
    }
  }

  /** A redelivered start is rejected and changes nothing; in particular `startedAt` keeps
      the time of the first delivery. */
  lemma StartedReplayRejected(env: Env, req: Request, c: CallInfo, db: Db, t1: int, t2: int)
    requires Delivers(env, req, SessionStarted(Some(c)))
    ensures var db1 := Handle(env, req, db, t1).db;
      var r := Handle(env, req, db1, t2);
      && NoOp(r, db1)
      && (r.code == 404 || r.code == 400)
  {
    var db1 := Handle(env, req, db, t1).db;
    if CustomId(c) != "" {
      AfterStartNoUpcoming(env, req, c, db, t1);
      var p := StartableWith(CustomId(c));
      assert forall i :: 0 <= i < |db1.meetings| ==> !p(db1.meetings[i]);
    }
  }

  /** A redelivered end changes nothing and gets the same answer. */
  lemma EndedReplayNoOp(env: Env, req: Request, c: CallInfo, db: Db, t1: int, t2: int)
    requires Delivers(env, req, SessionEnded(Some(c)))
    ensures var r1 := Handle(env, req, db, t1);
      var r2 := Handle(env, req, r1.db, t2);
      && NoOp(r2, r1.db)
      && r2.code == r1.code
  {
    var r1 := Handle(env, req, db, t1);
    var r2 := Handle(env, req, r1.db, t2);
    if CustomId(c) != "" {
      assert r2.db.meetings == r1.db.meetings;
    }
  }

  /** An end delivery never creates an `upcoming` row. */
  lemma EndKeepsNoUpcoming(env: Env, req: Request, c: CallInfo, db: Db, now: int, id: string)
    requires Delivers(env, req, SessionEnded(Some(c)))
    requires NoUpcoming(db.meetings, id)
    ensures NoUpcoming(Handle(env, req, db, now).db.meetings, id)
  {
  }

  /** Replaying the ordered pair [session_started, session_ended] a second time leaves the
      tables exactly as the first pass left them, whatever the delivery times. */
  lemma ReplayStartEndIdempotent(env: Env, start: Request, end: Request, cs: CallInfo, ce: CallInfo,
                                 db: Db, t1: int, t2: int, t3: int, t4: int)
    requires Delivers(env, start, SessionStarted(Some(cs)))
    requires Delivers(env, end, SessionEnded(Some(ce)))
    ensures var db2 := Handle(env, end, Handle(env, start, db, t1).db, t2).db;
      Handle(env, end, Handle(env, start, db2, t3).db, t4).db == db2
  {
    var db1 := Handle(env, start, db, t1).db;
    var db2 := Handle(env, end, db1, t2).db;
    if CustomId(cs) != "" {
      AfterStartNoUpcoming(env, start, cs, db, t1);
      EndKeepsNoUpcoming(env, end, ce, db1, t2, CustomId(cs));
      var p := (m: Meeting) => m.id == CustomId(cs) && Startable(m.status);
      assert forall i :: 0 <= i < |db2.meetings| ==> !p(db2.meetings[i]);
    }
    var db3 := Handle(env, start, db2, t3).db;
    assert db3 == db2;
    EndedReplayNoOp(env, end, ce, db1, t2, t4);
  }
}
