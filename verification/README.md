# Nexa-Ai meetings core in Dafny

Nexa-Ai is a web application for AI-attended video meetings. A user creates agents (a name
plus instructions for a realtime AI voice) and meetings that use one of those agents. The
call platform drives each meeting through its lifecycle by posting webhooks to the server:
`upcoming → active → processing`, with `completed` and `cancelled` as further statuses.

This project models:

- the webhook endpoint, as a pure function from a request and the tables to a response, the
  new tables and an ordered trace of calls to the call platform and the AI session;
- the meeting validation schema;
- the owner-scoped meetings queries and the agents queries and create of the tRPC routers;
- the client call session (`lobby → call → ended`) with its join and completed-meeting gates;
- the logic of the meetings and agents pages and their components:
  - search filters;
  - table pagination;
  - keyboard navigation of the "more" menu;
  - id, text, time and duration formatting;
  - summary highlights;
  - status badges, banners and drawer actions;
  - the create/edit dialogs and the agent picker;
  - the page handlers that turn dialog payloads into router calls.

The tables are sequences of rows in storage order, not maps from id to row. That keeps the
database's own semantics exact:

- an `update … where id = $id` writes every row with that id;
- a `const [row] = select …` takes the first matching row;
- a join yields one row per matching agent.

Where a property needs the primary key, it says so with `UniqueIds` (meetings) or
`UniqueAgentIds` (agents) in its precondition.

The code the handlers cannot see becomes a parameter:

- the platform's signature check;
- `JSON.parse`;
- whether an awaited platform call or mutation resolves or rejects;
- the clock;
- the locale-formatted date strings;
- the user's answer to a confirmation.

Modules, in dependency order:

- `Common`: `Option`, `Result`, `Filter`, `FindFirst`, subsequences.
- `Text`: ASCII case mapping, trimming, substring search, split/join, decimal numerals.
- `Domain`: statuses, meetings, agents.
- `Webhook`: the endpoint.
- `WebhookProperties`: its properties.
- `MeetingSchema`: the validation schema.
- `MeetingsRouter` and `AgentsRouter`: the tRPC routers.
- `CallSession`: the client call session, both with each click settling before the next and with clicks made while an SDK call is awaited.
- `Pagination` and `Tables`: table paging and table bodies.
- `MoreMenu`: the "more" menu.
- `Format`: ids, truncation, relative times, durations, initials.
- `MeetingView`: a meeting as the client holds it.
- `Search`: the search filters.
- `Highlights`: summary bullets.
- `StatusView`: status badges, banners, drawer actions and link guards.
- `Dialogs`: the create/edit dialogs and the agent picker.
- `MeetingsPage` and `AgentsPage`: the pages and the agent card.

## Model

| member | source | states |
|---|---|---|
| Webhook.Handle | src/app/api/webhook/route.ts:20-153 | The answer is 200, 400, 401, 404 or 500, and 401 exactly when a header is missing or empty or the signature fails. No request writes the agents table or adds or removes a meeting, and only 200 or 500 answers come with platform calls. |
| Webhook.Dispatch | src/app/api/webhook/route.ts:42-153 | Every recognised or unrecognised event answers 200, 400, 404 or 500, never touches agents or the number of meetings, and calls the platform only on 200 or 500. |
| Webhook.OnSessionStarted | src/app/api/webhook/route.ts:44-106 | 400 exactly when the meeting id is missing or empty. Agents and the number of rows stay. At most three calls are made, the connect first, and only with 200 or 500; a 200 makes all three. |
| Webhook.OnParticipantLeft | src/app/api/webhook/route.ts:108-120 | No table changes. At most one call is made, an end of a `default` call with a non-empty id, and a 200 always makes it. 400 exactly when `call_cid` has no non-empty second field. |
| Webhook.OnSessionEnded | src/app/api/webhook/route.ts:121-132 | 200 exactly when the meeting id is present and non-empty. No calls and no agent writes. Each row is unchanged or was active and becomes processing with `endedAt` = now. |
| Webhook.OnTranscriptionReady | src/app/api/webhook/route.ts:134-142 | 500 exactly when the cid or the link is missing, 404 exactly when no row has the cid's id. Each row is unchanged or gets the link, and nothing is called. |
| Webhook.OnRecordingReady | src/app/api/webhook/route.ts:145-149 | Never 404: 500 exactly when the cid or the link is missing, 200 otherwise. Each row is unchanged or gets the link, and nothing is called. |
| Webhook.MarkActive | src/app/api/webhook/route.ts:75-78 | `update … set status = 'active', startedAt = now where id = $id`: every row with the id, and no other, becomes active with that start time. |
| Webhook.MarkProcessing | src/app/api/webhook/route.ts:132 | The end update writes exactly the active rows with the id, to processing with `endedAt` = now. |
| Webhook.SetTranscript | src/app/api/webhook/route.ts:138 | The transcript update writes the link into exactly the rows with the id, and into none for an absent id. |
| Webhook.SetRecording | src/app/api/webhook/route.ts:149 | The recording update writes the link into exactly the rows with the id, and into none for an absent id. |
| Text.SecondField | src/app/api/webhook/route.ts:136 | `s.split(sep)[1]` exists iff the separator occurs in the string. |
| Text.SecondFieldOfJoin | src/app/api/webhook/route.ts:110 | For fields free of the separator, the second field of their join is the second field given, and there is none with a single field. |
| Text.ParseIntToString | src/modules/agents/views/agentCard.tsx:42 | A reference reader recovers every integer from its template-literal rendering, negative numbers included. |
| WebhookProperties.AuthGate | src/app/api/webhook/route.ts:21-32 | The response is 401 exactly when a header is missing or the signature check on the raw body fails; then nothing changes and nothing is called. |
| WebhookProperties.VerifyBeforeParse | src/app/api/webhook/route.ts:28-34 | An unauthenticated request gets the same response whatever the JSON parser would do, so the body is never parsed first. |
| WebhookProperties.MalformedBodyRejected | src/app/api/webhook/route.ts:34-40 | An authenticated body that is not JSON gets 400 with no table change and no effect. |
| WebhookProperties.StartedGuard | src/app/api/webhook/route.ts:46-73 | A start event with no meeting id gets 400. With an id but no row that is still startable, it gets 404 with the message about completed or cancelled meetings. Neither case changes anything. |
| WebhookProperties.FindStartable | src/app/api/webhook/route.ts:55-66 | The guard's select returns the first row with that id whose status is not completed, active, cancelled or processing. |
| WebhookProperties.FindAgent | src/app/api/webhook/route.ts:80-84 | The agent lookup returns the first agent with the meeting's agent id. |
| WebhookProperties.StartedCommitsActive | src/app/api/webhook/route.ts:75-78 | After a passing start, exactly the rows with that id become active with `startedAt = now`. Every other row and the agents are unchanged. |
| WebhookProperties.StartedAgentMissing | src/app/api/webhook/route.ts:80-87 | When the meeting's agent is missing, the response is 404 and nothing is called, but the active update is already committed. |
| WebhookProperties.StartedConnects | src/app/api/webhook/route.ts:89-105 | With the agent found, the effects are, in order: connect the AI to the `default` call with the agent as user and the realtime model; set the instructions; set the voice `alloy`. The answer is 200, or 500 if the connect rejects. |
| WebhookProperties.ParticipantLeftEndsCall | src/app/api/webhook/route.ts:108-120 | A participant leaving never changes the tables. With no second `:` field in `call_cid` the answer is 400 and nothing is called. Otherwise the only effect is ending that call, and the answer is 200 exactly when the end resolves. |
| WebhookProperties.SessionEndedTransition | src/app/api/webhook/route.ts:121-132 | An end with no meeting id gets 400. Otherwise the answer is 200, the rows with that id that were active become processing with `endedAt = now`, and every other row is unchanged. |
| WebhookProperties.TranscriptionAttaches | src/app/api/webhook/route.ts:134-144 | The transcript link is written only into the rows named by `call_cid`. The answer is 404, with no change, exactly when no row has that id. |
| WebhookProperties.RecordingAttaches | src/app/api/webhook/route.ts:145-150 | The recording link is written only into the named rows, and the answer is 200 even when no row matches. |
| WebhookProperties.UnknownEventIgnored | src/app/api/webhook/route.ts:153 | Any other event type gets 200 "Event received" with no change. |
| WebhookProperties.StartedOnlyAdvances | src/app/api/webhook/route.ts:44-106 | A start can only move a row from upcoming to active, and only then set `startedAt`. |
| WebhookProperties.StartTarget | src/app/api/webhook/route.ts:46-73 | A start has a target row only with a non-empty meeting id, and the target is a row with that id whose status passes the guard. |
| WebhookProperties.StartedTables | src/app/api/webhook/route.ts:55-78 | After a start the tables are the commit of `active` for the target's id, or unchanged when there is no target, whatever happens after the commit. |
| WebhookProperties.EndedOnlyAdvances | src/app/api/webhook/route.ts:121-132 | An end can only move a row from active to processing, and only then set `endedAt`. |
| WebhookProperties.MarkActiveOnlyAdvances | src/app/api/webhook/route.ts:55-78 | Committing `active` for the id of a startable row, with unique ids, moves only that row and only from upcoming to active. |
| WebhookProperties.TranscriptOnlyAdvances | src/app/api/webhook/route.ts:134-142 | The transcript event changes no status and no timestamp. |
| WebhookProperties.RecordingOnlyAdvances | src/app/api/webhook/route.ts:145-149 | The recording event changes no status and no timestamp. |
| WebhookProperties.StatusOnlyAdvances | src/app/api/webhook/route.ts:16-153 | Whatever the request and its outcome, no identity column or agent row is written, and a status only moves upcoming→active or active→processing. So completed and cancelled are terminal. |
| WebhookProperties.HandlerFollowsLifecycle | src/app/api/webhook/route.ts:44-132 | After an end delivery, and after a start delivery when ids are unique, each row's new status is the reference state machine `LifecycleNext` applied to its old status, with the start or end trigger for rows with the meeting id and no trigger for the others. Without unique ids, a start that passes the guard activates every row with the id. |
| WebhookProperties.StartFollowsLifecycle | src/app/api/webhook/route.ts:44-106 | With unique ids, a start delivery moves each row as the reference state machine does on the start trigger for the row with the id, and on no trigger for the others. |
| WebhookProperties.StartedRowFollowsLifecycle | src/app/api/webhook/route.ts:55-78 | The same at the level of the start handler, for a non-empty meeting id. |
| WebhookProperties.AfterStartNoUpcoming | src/app/api/webhook/route.ts:55-78 | After any start delivery, no row with that id is upcoming. |
| WebhookProperties.StartedReplayRejected | src/app/api/webhook/route.ts:55-73 | A redelivered start gets 400 or 404 and changes nothing, so `startedAt` keeps the first delivery's time. |
| WebhookProperties.EndedReplayNoOp | src/app/api/webhook/route.ts:121-132 | A redelivered end changes nothing and gets the same answer. |
| WebhookProperties.EndKeepsNoUpcoming | src/app/api/webhook/route.ts:128-131 | An end never makes a row upcoming. |
| WebhookProperties.ReplayStartEndIdempotent | src/app/api/webhook/route.ts:44-132 | Replaying start-then-end leaves the tables exactly as the first pass left them, at any delivery times. |
| MeetingSchema.RequiredString | src/modules/meetings/meetingSchema.ts:5-6 | A required string field passes iff it is a string of length at least 1; otherwise there is one issue at that path. |
| MeetingSchema.OptionalString | src/modules/meetings/meetingSchema.ts:4 | An optional field passes iff it is absent or a string. |
| MeetingSchema.AnyString | src/modules/meetings/meetingSchema.ts:7 | `summary` passes iff it is a string, including the empty one. |
| MeetingSchema.StatusLiteral | src/modules/meetings/meetingSchema.ts:8 | `status` passes iff it is the name of one of the five statuses. |
| MeetingSchema.SafeParse | src/modules/meetings/meetingSchema.ts:3-13 | Parsing succeeds iff there is no issue. On failure it returns all the issues; on success it returns the fields as given. |
| MeetingSchema.RejectsAtConcat | src/modules/meetings/meetingSchema.ts:3-13 | An issue list rejects a path iff one of its parts does. |
| MeetingSchema.IssuesAt | src/modules/meetings/meetingSchema.ts:3-13 | Each path is rejected only by its own field's rule. |
| MeetingSchema.FieldRules | src/modules/meetings/meetingSchema.ts:4-12 | For each of the seven fields, exactly when validation reports an issue at that path. |
| MeetingSchema.ParseEncode | src/modules/meetings/meetingSchema.ts:3-13 | Encoding a well-formed input and parsing it gives the input back, and every accepted raw record is the encoding of what it parses to. |
| MeetingsRouter.JoinAgent | src/modules/meetings/server/procedure.ts:19-27 | The left join gives at least one row per meeting. It gives the single agent-less row iff no agent has the meeting's agent id. Every joined agent has that id. |
| MeetingsRouter.OwnedRows | src/modules/meetings/server/procedure.ts:17-27 | Every listed row's meeting belongs to the caller. |
| MeetingsRouter.GetMany | src/modules/meetings/server/procedure.ts:12-34 | The query fails with UNAUTHORIZED iff there is no user. Otherwise every row belongs to the caller. |
| MeetingsRouter.JoinAgentUnique | src/modules/meetings/server/procedure.ts:19-33 | With unique agent ids, each meeting yields exactly one row, carrying the matching agent's id and name or no agent. |
| MeetingsRouter.FilterNoDuplicateIds | src/modules/meetings/server/procedure.ts:23-24 | With unique agent ids, at most one agent matches a join. |
| MeetingsRouter.GetManyIsOwnedMeetings | src/modules/meetings/server/procedure.ts:17-33 | With unique agent ids, the listing is exactly the caller's meetings, in storage order, each with its joined agent. |
| MeetingsRouter.GetOne | src/modules/meetings/server/procedure.ts:36-56 | A meeting is returned only if its id and owner both match. NOT_FOUND is raised iff no row matches both. |
| MeetingsRouter.OtherOwnerNotFound | src/modules/meetings/server/procedure.ts:44-53 | Another owner's meeting with the right id is NOT_FOUND. |
| MeetingsRouter.OwnedRowsCover | src/modules/meetings/server/procedure.ts:17-27 | Every meeting of the caller appears in the listing. |
| MeetingsRouter.GetOneListed | src/modules/meetings/server/procedure.ts:36-56 | What `getOne` returns is also listed by `getMany`. |
| AgentsRouter.GetMany | src/modules/agents/server/procedure.ts:11-15 | Every agent is listed, whatever its owner. |
| AgentsRouter.GetOne | src/modules/agents/server/procedure.ts:17-26 | The result is an agent with that id, or null iff none exists. |
| AgentsRouter.Create | src/modules/agents/server/procedure.ts:28-40 | The stored row has the input's name and instructions and the caller's id as owner. The table grows by exactly that row, which is also returned. |
| AgentsRouter.GetOneAgreesWithGetMany | src/modules/agents/server/procedure.ts:11-26 | `getOne` finds an agent iff `getMany` lists one with that id. |
| AgentsRouter.CreateThenGetOne | src/modules/agents/server/procedure.ts:28-40 | After a create with a fresh id, `getOne` finds the new row, earlier lookups are unchanged, and the list grows by one. |
| CallSession.Render | src/modules/call/ui/components/callUi.jsx:38-42 | Each of the three states renders its own view and no two states share one. |
| CallSession.HandleJoin | src/modules/call/ui/components/callUi.jsx:14-20 | Without a call handle nothing happens. Otherwise the call is joined and the view becomes the call. |
| CallSession.HandleLeave | src/modules/call/ui/components/callUi.jsx:22-28 | Without a call handle nothing happens. Otherwise the call is ended and the view becomes ended. |
| CallSession.Step | src/modules/call/ui/components/callUi.jsx:38-42 | For a click whose call settles before the next click, a step changes the state exactly when it makes an SDK call. Only two steps do: an enabled join in the lobby with a call handle, which joins and shows the call, and a leave in the call with a handle, which ends it and shows the ended view. |
| CallSession.StepAdvances | src/modules/call/ui/components/callUi.jsx:38-42 | Join is wired only in the lobby and leave only in the call, so a step never moves backwards. |
| CallSession.Run | src/modules/call/ui/components/callUi.jsx:11-42 | A sequence of actions that makes no SDK call leaves the state where it was. |
| CallSession.RunFollowsPath | src/modules/call/ui/components/callUi.jsx:11-42 | When every call settles before the next click, any run from a state only moves forward along lobby→call→ended and makes one SDK call per move. Ended is terminal. From the lobby the calls are a prefix of join-then-end. |
| CallSession.ShownAfter | src/modules/call/ui/components/callUi.jsx:14-28 | A settled join shows the call and a settled endCall shows the ended view, as the two handlers set them after their `await`. |
| CallSession.AsyncStep | src/modules/call/ui/components/callUi.jsx:14-28 | A click starts exactly the SDK call of the atomic step but leaves the view unchanged. Settling a call in flight removes that one call and shows the view its handler sets. Settling a call that is not in flight changes nothing. |
| CallSession.AsyncRun | src/modules/call/ui/components/callUi.jsx:11-42 | Every call still in flight after a sequence of events was in flight before it or was started during it. |
| CallSession.SettledClickIsStep | src/modules/call/ui/components/callUi.jsx:14-28 | A click whose call settles at once makes the same SDK call and reaches the same view as the atomic step. |
| CallSession.SecondClickWhileAwaiting | src/modules/call/ui/components/callLobby.jsx:61 | Join is disabled only for missing permissions and Leave never, so a second click while `join()` or `endCall()` is awaited repeats that call, where the atomic run makes it once. |
| CallSession.JoinEnabled | src/modules/call/ui/components/callLobby.jsx:32 | The join button is enabled iff both microphone and camera permission are granted. |
| CallSession.NoPermissionStaysInLobby | src/modules/call/ui/components/callLobby.jsx:61 | Without both permissions, no sequence of clicks leaves the lobby or calls the SDK. |
| CallSession.CallPageFor | src/modules/call/ui/callView.jsx:16-25 | A completed meeting shows the "meeting has ended" error; every other status reaches the call session for that meeting. |
| Pagination.PageCount | src/modules/meetings/views/components/MeetingTable.jsx:168 | There is at least one page, and exactly the fewest pages of `rows` that hold all items. The agents table computes it the same way. |
| Pagination.Current | src/modules/meetings/views/components/MeetingTable.jsx:169 | The shown page is the requested one clamped into the existing pages. |
| Pagination.Window | src/modules/agents/views/agentTable.jsx:162-166 | The window holds the items from `current*rows` on, at most `rows` of them, in order. |
| Pagination.Slice | src/modules/meetings/views/components/MeetingTable.jsx:171-175 | The shown slice has at most `rows` items taken in order from the clamped page, and is non-empty whenever there are items. |
| Pagination.PrevPage | src/modules/agents/views/agentTable.jsx:133-138 | Previous goes one page back and stays at 0. |
| Pagination.NextPage | src/modules/agents/views/agentTable.jsx:143-148 | Next goes one page on and stays on the last page. |
| Pagination.OnEvent | src/modules/meetings/views/components/MeetingTable.jsx:134-155 | Previous and next move the shown page one step within the pages (a disabled button does nothing). Choosing a page size sets it and returns to page 0. |
| Pagination.NextThenPrev | src/modules/meetings/views/components/MeetingTable.jsx:148-155 | After an enabled next, previous is enabled and returns to the same page. |
| Pagination.PagesConcat | src/modules/meetings/views/components/MeetingTable.jsx:168-175 | The pages, read in order, are exactly the items. |
| Pagination.PagesAreSlices | src/modules/meetings/views/components/MeetingTable.jsx:168-175 | There are `pageCount` pages, and the slice shown for page `c` is the `c`-th of them. |
| Tables.InitialPager | src/modules/meetings/views/components/MeetingTable.jsx:164-166 | Both tables start on page 0 with the default of nine rows, one of the offered sizes. |
| Tables.MeetingTableBody | src/modules/meetings/views/components/MeetingTable.jsx:182-213 | The meetings table shows its empty state iff it gets no meetings. Otherwise it shows the page's rows, never empty, so the "No meetings found." row never appears. |
| Tables.AgentTableBody | src/modules/agents/views/agentTable.jsx:225 | The agents table shows the page's slice, and adds the empty-state row iff there are no agents. |
| Tables.Replay | src/modules/agents/views/agentTable.jsx:119-148 | Any sequence of clicks that only picks offered sizes keeps a positive page size. |
| Tables.PagerKeepsRowsVisible | src/modules/meetings/views/components/MeetingTable.jsx:164-213 | From the initial pager, after any clicks that pick offered sizes, the size is an offered one, the meetings table shows a non-empty page without its placeholder whenever it has meetings, and the agents table shows its placeholder iff it has no agents. |
| MoreMenu.EnabledIndexes | src/components/ui/moreMenu.tsx:100-102 | Every listed index is that of an action that is not disabled. |
| MoreMenu.EnabledIndexesExact | src/components/ui/moreMenu.tsx:100-102 | The list is strictly increasing and holds an index iff that action is not disabled. |
| MoreMenu.NextEnabled | src/components/ui/moreMenu.tsx:119-123 | The reference forward scan: the first enabled index at or after a start, with every index skipped disabled; nothing iff all from the start on are disabled. |
| MoreMenu.PrevEnabled | src/components/ui/moreMenu.tsx:124-130 | The reference backward scan: the last enabled index before a bound, with every index skipped disabled; nothing iff all below the bound are disabled. |
| MoreMenu.NextIsUnique | src/components/ui/moreMenu.tsx:119-123 | An enabled index with only disabled ones between the start and it is what the forward scan finds. |
| MoreMenu.PrevIsUnique | src/components/ui/moreMenu.tsx:124-130 | An enabled index with only disabled ones between it and the bound is what the backward scan finds. |
| MoreMenu.FindAboveIsScan | src/components/ui/moreMenu.tsx:121-122 | `find(i => i > active)` over the enabled list gives what the forward scan from `active + 1` finds. |
| MoreMenu.LastBelowIsScan | src/components/ui/moreMenu.tsx:125-128 | The last element of `filter(i => i < active)` over the enabled list is what the backward scan from `active` finds. |
| MoreMenu.ArrowDown | src/components/ui/moreMenu.tsx:119-123 | ArrowDown is the forward scan after the focus, wrapping to the scan from the top. It focuses the nearest enabled action below, else the first enabled one, and has no target iff every action is disabled. |
| MoreMenu.LastEnabled | src/components/ui/moreMenu.tsx:128 | The last element of the enabled list is the backward scan from the end. |
| MoreMenu.ArrowUp | src/components/ui/moreMenu.tsx:124-130 | ArrowUp is the backward scan from the focus, wrapping to the scan from the end. It focuses the nearest enabled action above, else the last enabled one, and has no target iff every action is disabled. |
| MoreMenu.FirstEnabled | src/components/ui/moreMenu.tsx:139-142 | On open, the focus is the first enabled action, or nothing iff all are disabled. |
| MoreMenu.OpenFocusIsArrowDown | src/components/ui/moreMenu.tsx:119-142 | The focus on open is where ArrowDown goes from no focus. |
| MoreMenu.ArrowUpUndoesArrowDown | src/components/ui/moreMenu.tsx:119-130 | From an enabled action, ArrowDown then ArrowUp comes back to it, wrap-around included. |
| MoreMenu.ArrowDownUndoesArrowUp | src/components/ui/moreMenu.tsx:119-130 | From an enabled action, ArrowUp then ArrowDown comes back to it. |
| MoreMenu.HandleAction | src/components/ui/moreMenu.tsx:148-157 | A disabled action does nothing. Otherwise its handler runs and the menu closes unless the action prevents closing. |
| MoreMenu.ThrowingDoesNotMatter | src/components/ui/moreMenu.tsx:150-156 | A handler that throws leaves the menu as one that returns. |
| MoreMenu.OnKey | src/components/ui/moreMenu.tsx:104-135 | Escape closes the menu. The arrows keep it open and move the focus only onto enabled actions. Enter acts as a click on the focused action. Other keys change nothing. |
| MoreMenu.ClickTrigger | src/components/ui/moreMenu.tsx:250 | The trigger toggles the menu. Opening focuses an enabled action, or nothing iff none is enabled. |
| MoreMenu.FocusStaysEnabled | src/components/ui/moreMenu.tsx:119-142 | No key and no trigger click ever puts the focus on a disabled action. |
| Format.ShortIdWith | src/modules/meetings/views/components/MeetingCard.jsx:49 | An id over 8 characters shows its first 8 and the mark, a shorter one shows as is, and an empty one shows "-". |
| Format.ShortId | src/modules/meetings/views/components/MeetingDrawer.jsx:15 | The short id has at most 9 characters: the id, "-", or its first 8 plus "…". |
| Format.ShortIdTable | src/modules/meetings/views/components/MeetingTable.jsx:26 | The table's short id appends the 3-character "â€¦" instead, so it has up to 11 characters. |
| Format.ShortIdCopiesDiffer | src/modules/meetings/views/components/MeetingTable.jsx:26 | The table's and the other copies' short ids agree iff the id has at most 8 characters. Otherwise they share the first 8 and have lengths 11 and 9. |
| Format.AgentIdLabel | src/modules/agents/views/agentTable.jsx:48 | The agents table always shows up to 8 characters of the id and then "…", even for short ids. |
| Format.AgentCardId | src/modules/agents/views/agentCard.tsx:148 | The agent card shows a prefix of the id, 6 characters when it has that many. |
| Format.TruncateWith | src/modules/meetings/views/components/MeetingCard.jsx:43-47 | Text within the limit is unchanged. Longer text keeps a prefix of at most `limit` characters, with only whitespace dropped from its end, and then the mark. |
| Format.TruncateCard | src/modules/meetings/views/components/MeetingCard.jsx:43-47 | The card's truncation is at most one character over the limit. |
| Format.TruncateAgent | src/modules/agents/views/agentCard.tsx:52-55 | The agent card's truncation ends in the 3-character "â€¦", so it is up to three over the limit. |
| Format.AgentCardInstructions | src/modules/agents/views/agentCard.tsx:205 | The agent card shows instructions of up to 180 characters whole, not cut at the helper's default of 140. Longer ones become at most 180 of their leading characters and the three-character mark. |
| Format.AgentCardCuts181 | src/modules/agents/views/agentCard.tsx:52-55 | Instructions of 181 non-blank characters show as their first 180 and the mark, 183 characters, where the meeting card's copy would show 181. |
| Format.TruncateCopies | src/modules/agents/views/agentCard.tsx:52-55 | The two truncations agree within the limit. Beyond it they keep the same prefix and differ only in the mark. |
| Format.Excerpt | src/modules/meetings/views/components/MeetingCard.jsx:124 | The card excerpt is the summary when it is non-empty, else the name, truncated at 140. |
| Format.AgoBucket | src/modules/meetings/views/components/MeetingCard.jsx:28-41 | Elapsed milliseconds fall in exactly one bucket: seconds under a minute, minutes under an hour, hours under a day, days under 30. Each count is the floor of the elapsed time in that unit. |
| Format.TimeAgo | src/modules/agents/views/agentCard.tsx:37-50 | "-" for a missing time. Otherwise the label is the bucket's count with its unit and " ago", or the locale date after 30 days. What the label means is stated by `TimeAgoReadsBack`. The meeting card behaves the same way. |
| Format.TimeAgoReadsBack | src/modules/agents/views/agentCard.tsx:37-50 | A reference reader takes every relative label back to the bucket of the elapsed time, so the label carries the unit and the floored count that `AgoBucket` bounds. After a month the label is the locale date. |
| Format.ReadAgoLabel | src/modules/agents/views/agentCard.tsx:42-48 | A count followed by "s", "m", "h" or "d" and " ago" reads back as that count in that unit. |
| Format.AgoLabelReadsBack | src/modules/agents/views/agentCard.tsx:42-49 | Every bucket but "older than a month" reads back from the label shown for it. |
| Format.MinutesBetween | src/modules/meetings/views/components/MeetingCard.jsx:55-56 | Whole minutes of a span, floored, with negative spans clamped to 0. |
| Format.FormatMinutes | src/modules/meetings/views/components/MeetingCard.jsx:57-61 | Under an hour "Nm"; otherwise "Hh Mm", or "Hh" when the minutes are 0. |
| Format.ParseFormatMinutes | src/modules/meetings/views/components/MeetingCard.jsx:57-61 | A reference reader of "Nm"/"Hh"/"Hh Mm" recovers the minutes from every formatted duration, so the formatting loses nothing. |
| Format.ParseSingleUnit | src/modules/meetings/views/components/MeetingCard.jsx:58-61 | The reader gives back the minutes of "Nm" and sixty times the hours of "Hh". |
| Format.ParseHoursAndMinutes | src/modules/meetings/views/components/MeetingCard.jsx:59-61 | The reader gives back `60 * H + M` for "Hh Mm". |
| Format.CardDuration | src/modules/meetings/views/components/MeetingCard.jsx:51-62 | The card shows "-" without a start and the start's locale string without an end. Otherwise it shows a duration that reads back as the minutes between start and end. |
| Format.DrawerDuration | src/modules/meetings/views/components/MeetingDrawer.jsx:24-34 | The drawer shows "-" without a start. Otherwise it shows a duration that reads back as the minutes up to the end, or up to now when there is no end. |
| Format.DurationCopies | src/modules/meetings/views/components/MeetingDrawer.jsx:24-34 | The two copies agree when both times exist. Without an end, the card shows the start time and the drawer the time elapsed so far. |
| Format.FormatDateTime | src/modules/meetings/views/components/MeetingDrawer.jsx:16-18 | A missing time shows as "-". |
| Format.Initials | src/components/ui/meetingAgentSelect.jsx:21-27 | At most two letters: the upper-cased first characters of the first two space-separated parts, empty parts included. |
| Format.InitialsOfTwoWords | src/components/ui/meetingAgentSelect.jsx:23-25 | "ada lovelace" gives "AL". |
| Format.InitialsOfLeadingSpaces | src/components/ui/meetingAgentSelect.jsx:23-25 | "  Bob" gives "" because the empty parts before the name count as the two parts. |
| MeetingView.FromRow | src/modules/meetings/server/procedure.ts:30-33 | A listed row reaches the client with its id, its joined agent and a status string that names its status, and with no `agentName`. |
| MeetingView.TableAgentName | src/modules/meetings/views/components/MeetingTable.jsx:61 | The table's agent label is the joined name when non-empty, else `agentName`, else "Unknown". |
| MeetingView.CardAgentName | src/modules/meetings/views/components/MeetingCard.jsx:65 | The card's label is never empty, and anything but "Unknown" is the joined agent's name. |
| MeetingView.DrawerAgentName | src/modules/meetings/views/components/StateDrawer.jsx:319 | The drawer's label falls back to the meeting's agent id before "Unknown". |
| MeetingView.SearchAgentName | src/modules/meetings/views/meetings.jsx:99 | The searched agent name is empty iff neither the joined name nor `agentName` is. |
| MeetingView.AgentLabelsOnRows | src/modules/meetings/views/components/MeetingTable.jsx:61 | On rows as the router sends them, table and card agree. With a named agent all labels are its name. Without an agent the table shows "Unknown" and the drawer shows the agent id. |
| Search.NormalQuery | src/modules/meetings/views/meetings.jsx:96 | The normalised query is empty iff the query is blank. |
| Search.FilterMeetings | src/modules/meetings/views/meetings.jsx:94-106 | A blank query lists every meeting unchanged. Otherwise the result keeps the input's order, and a meeting is kept iff the query occurs in its lower-cased name, agent name or id. |
| Search.FilterAgents | src/modules/agents/views/agents.jsx:31-40 | A blank query lists every agent. Otherwise the result keeps order, and an agent is kept iff the query occurs in its lower-cased name or instructions. |
| Search.FilterMeetingsIdempotent | src/modules/meetings/views/meetings.jsx:98-105 | Searching the results again with the same query changes nothing. |
| Search.FilterAgentsIdempotent | src/modules/agents/views/agents.jsx:35-39 | The same for agents. |
| Search.SearchIgnoresCase | src/modules/meetings/views/meetings.jsx:96 | Typing the query in capitals finds the same meetings and agents. |
| Search.NarrowingMeetingQuery | src/modules/meetings/views/meetings.jsx:98-105 | Extending a query never brings a meeting back: the longer query's results are a subsequence of the shorter one's. |
| Search.NarrowingAgentQuery | src/modules/agents/views/agents.jsx:35-39 | The same for agents. |
| Highlights.SplitSentences | src/modules/meetings/views/components/StateDrawer.jsx:782 | Splitting after `.`, `?` or `!` and a run of whitespace gives pieces that contain no such point. Each piece but the last ends a sentence, and each piece but the first starts with a non-space. |
| Highlights.SplitJoinSentences | src/modules/meetings/views/components/StateDrawer.jsx:782 | Splitting undoes joining with single spaces, for every list of the shape the split produces. |
| Highlights.Pieces | src/modules/meetings/views/components/StateDrawer.jsx:782 | The kept pieces are non-empty and trimmed. |
| Highlights.Shorten | src/modules/meetings/views/components/StateDrawer.jsx:784 | A piece over 120 characters becomes its first 117 and "…". Shorter pieces are untouched. |
| Highlights.Highlights | src/modules/meetings/views/components/StateDrawer.jsx:780-785 | No bullets for a missing or empty summary; never more than `max`; each non-empty and trimmed. With at most `max` pieces they are returned uncapped. Otherwise the first `max` are returned, each at most 120 characters. |
| Highlights.InsightBullets | src/modules/meetings/views/components/StateDrawer.jsx:671 | The insights card shows at most four bullets. |
| Highlights.PiecesOfSentences | src/modules/meetings/views/components/StateDrawer.jsx:782 | Splitting, trimming and dropping empty pieces recovers a non-empty list of trimmed, stop-terminated sentences from their space-joined text. |
| Highlights.HighlightsOfSentences | src/modules/meetings/views/components/StateDrawer.jsx:780-785 | A summary of up to `max` trimmed, stop-terminated sentences joined by spaces gives back exactly those sentences. |
| StatusView.BadgeClass | src/modules/meetings/views/components/MeetingTable.jsx:35-50 | An unknown status gets the default class. |
| StatusView.BadgeClassDistinct | src/modules/meetings/views/components/MeetingDrawer.jsx:35-50 | The five statuses have distinct classes, and a status shares the completed class iff it is "completed" or unknown. |
| StatusView.CardBadgeClass | src/modules/meetings/views/components/MeetingCard.jsx:143 | The card uses its grey fallback iff the status is unknown. |
| StatusView.StatusColorsDistinct | src/modules/meetings/views/components/MeetingCard.jsx:17-23 | The card's table gives five different classes, none equal to the grey fallback. |
| StatusView.EmptyStatusClasses | src/modules/meetings/views/components/MeetingCard.jsx:143 | An empty status shows the completed class in the table but the grey fallback on a card. |
| StatusView.CardBadgeDistinct | src/modules/meetings/views/components/MeetingCard.jsx:17-23 | The card's five classes are distinct, and unlike the table the card does not render an unknown status as completed. |
| StatusView.StatusConfig | src/modules/meetings/views/components/StateDrawer.jsx:49-83 | The drawer uses the completed configuration iff the status is "completed" or unknown. |
| StatusView.StatusConfigDistinct | src/modules/meetings/views/components/StateDrawer.jsx:49-83 | The five colours are distinct, while active and completed share an icon. |
| StatusView.Banner | src/modules/meetings/views/components/StateDrawer.jsx:379-394 | There is a banner iff the status is known. |
| StatusView.BannerDistinct | src/modules/meetings/views/components/StateDrawer.jsx:379-394 | The five statuses have five different banners. |
| StatusView.DrawerActions | src/modules/meetings/views/components/StateDrawer.jsx:538-592 | Copy ID is always last. Start and cancel appear iff upcoming, join iff active, and transcript and recording iff completed. |
| StatusView.UnknownStatusLooksCompleted | src/modules/meetings/views/components/StateDrawer.jsx:82 | An unknown status is styled as completed, yet it has no banner, no insights and only Copy ID. |
| StatusView.DotClass | src/modules/meetings/views/components/StateDrawer.jsx:627-631 | The badge dot is red iff the status is cancelled or unknown. |
| StatusView.Capitalize | src/modules/meetings/views/components/StateDrawer.jsx:634 | The label upper-cases the first character and keeps the rest. |
| StatusView.BadgeLabelReadsBack | src/modules/meetings/views/components/StateDrawer.jsx:634 | Lower-casing the label of any status gives back that status's name. |
| StatusView.OpenLink | src/modules/meetings/views/components/MeetingDrawer.jsx:142-150 | A link opens a tab iff it is non-empty; otherwise an error is shown. |
| StatusView.OpenRecording | src/modules/meetings/views/components/MeetingDrawer.jsx:142-145 | The recording opens iff there is a link; otherwise "No recording available". |
| StatusView.OpenTranscript | src/modules/meetings/views/components/MeetingDrawer.jsx:147-150 | The transcript opens iff there is a link; otherwise "No transcript available". |
| StatusView.TranscriptFileName | src/modules/meetings/views/components/StateDrawer.jsx:361 | The saved file name ends in "-transcript.txt" after a non-empty stem. |
| StatusView.DownloadTranscript | src/modules/meetings/views/components/MeetingDrawer.jsx:114-130 | With no link, an error and no request. Otherwise the file is saved when the fetch works, and the link opens when it fails. |
| StatusView.NoUrlNoRequest | src/modules/meetings/views/components/MeetingDrawer.jsx:115-119 | Without a link, no button fetches or opens anything. |
| StatusView.StateDrawerDownload | src/modules/meetings/views/components/StateDrawer.jsx:349-366 | A parent handler, when given, replaces the drawer's own download. |
| StatusView.StateDrawerRecording | src/modules/meetings/views/components/StateDrawer.jsx:368-372 | A parent handler, when given, replaces the drawer's own recording button. |
| Dialogs.AgentPrefill | src/modules/agents/views/agentDialog.jsx:21-24 | Opening copies the initial name and instructions, or "" when missing. |
| Dialogs.AgentEditMode | src/modules/agents/views/agentDialog.jsx:18 | The agent dialog edits iff its initial data has a non-empty id: the card's dialog for an agent with one, never the page's dialog without data. |
| Dialogs.AgentCanSaveBounds | src/modules/agents/views/agentDialog.jsx:48-49 | Save needs a name of two and instructions of four characters at least, and on texts without blank edges those lengths and no save in flight are exactly what it needs. |
| Dialogs.AgentDialogSave | src/modules/agents/views/agentDialog.jsx:62-80 | Save sends nothing iff it is disabled. Otherwise it sends the trimmed texts, longer than 1 and 3 characters, and the id exactly when editing. On success the dialog closes and clears; on failure it stays as it was. |
| Dialogs.EditUnchangedResendsAgent | src/modules/agents/views/agentDialog.jsx:18-66 | Opening the edit dialog of a well-formed agent and saving at once sends back exactly that agent. |
| Dialogs.SavedFormCannotResend | src/modules/agents/views/agentDialog.jsx:52-75 | After a successful save, Save sends nothing. |
| Dialogs.AgentKeySave | src/modules/agents/views/agentDialog.jsx:31-50 | Ctrl/Cmd+S sends iff the texts are long enough and the saving flag seen by the listener's render is off. It sends what Save would send on the idle form. It agrees with Save whenever that flag is current. |
| Dialogs.KeySaveWhileAwaiting | src/modules/agents/views/agentDialog.jsx:31-50 | While a pressed Save is awaited the button sends nothing, but Ctrl/Cmd+S through the listener registered before the press sends the same payload again. |
| Dialogs.InitialAgent | src/modules/meetings/views/components/MeetingDialog.jsx:39 | The preselected agent is the joined agent's id, else the meeting's agent id, else the first offered agent's id. There is none iff all three are missing. |
| Dialogs.MeetingEditMode | src/modules/meetings/views/components/MeetingDialog.jsx:25 | The meeting dialog edits iff the meeting's `id` key holds a non-empty string. |
| Dialogs.MeetingCanSaveIffNonBlank | src/modules/meetings/views/components/MeetingDialog.jsx:45 | Save is enabled iff the name has a non-blank character and no save is in flight. |
| Dialogs.MeetingPrefill | src/modules/meetings/views/components/MeetingDialog.jsx:36-43 | Opening copies the name, or "", and preselects the initial agent. |
| Dialogs.MeetingDialogSave | src/modules/meetings/views/components/MeetingDialog.jsx:49-66 | Save sends nothing iff it is disabled. Otherwise it sends the trimmed non-empty name, the picked agent and the meeting's own id, which is truthy iff editing. Success closes without clearing; failure keeps the dialog. |
| Dialogs.EditingJoinedRowKeepsAgent | src/modules/meetings/views/components/MeetingDialog.jsx:39 | Editing a listed meeting preselects its own agent, whatever agents are offered. |
| Dialogs.SelectedAgent | src/components/ui/meetingAgentSelect.jsx:46 | The shown agent has the picked id, and one is shown whenever some agent has it. |
| Dialogs.SelectChange | src/components/ui/meetingAgentSelect.jsx:49 | The empty choice is reported as no agent, and any other is passed through. |
| Dialogs.SelectRoundTrip | src/components/ui/meetingAgentSelect.jsx:49 | The select's value and its change handler are inverse on every id but "". |
| Dialogs.PickAgentSelectsIt | src/components/ui/meetingAgentSelect.jsx:46-49 | With unique ids, picking an agent shows exactly that agent. |
| MeetingsPage.DecodeViewMode | src/modules/meetings/views/meetings.jsx:28-36 | The stored mode is the table exactly for "table" read without an exception; anything else gives cards. |
| MeetingsPage.ViewModeRoundTrip | src/modules/meetings/views/meetings.jsx:31-39 | The mode written back after a change reads back as that mode. |
| MeetingsPage.OpenNew | src/modules/meetings/views/meetings.jsx:109-112 | "New" opens the dialog on no meeting, so it creates. |
| MeetingsPage.OpenEdit | src/modules/meetings/views/meetings.jsx:114-118 | "Edit" opens the dialog on the meeting and closes the drawer. |
| MeetingsPage.HandleView | src/modules/meetings/views/meetings.jsx:120-123 | "View" opens the drawer on the meeting and leaves the dialog alone. |
| MeetingsPage.HandleSave | src/modules/meetings/views/meetings.jsx:125-134 | A payload with a truthy id is updated and any other is created. The dialog closes only after success; a failure changes nothing and rejects. |
| MeetingsPage.HandleDelete | src/modules/meetings/views/meetings.jsx:136-149 | Nothing happens unless confirmed. A confirmed delete calls delete for that id. After success the drawer no longer shows the deleted meeting, and nothing else changes. |
| MeetingsPage.SaveRoutesByDialog | src/modules/meetings/views/meetings.jsx:109-134 | Saving the dialog opened by Edit updates that meeting, and saving the one opened by New creates one. Page and dialog close together. |
| MeetingsPage.PageContent | src/modules/meetings/views/meetings.jsx:178-207 | The empty state shows iff the search leaves nothing. Otherwise the page shows one card per match or the table of the matches. |
| MeetingsPage.TableNeverShowsItsEmptyState | src/modules/meetings/views/meetings.jsx:198-207 | The page never gives the table an empty list, so the table's own empty state and placeholder row never show. |
| MeetingsPage.DrawerDownloadAsWritten | src/modules/meetings/views/meetings.jsx:221 | As the page wires it, the drawer's transcript button reaches the page's empty handler. |
| MeetingsPage.DrawerRecordingAsWritten | src/modules/meetings/views/meetings.jsx:222 | As the page wires it, the drawer's recording button reaches the page's empty handler. |
| MeetingsPage.DrawerLinksIgnored | src/modules/meetings/views/meetings.jsx:221-222 | As wired, the drawer's transcript and recording buttons reach the page's empty handlers even when both links exist. |
| MeetingsPage.DrawerDownload | src/modules/meetings/views/components/StateDrawer.jsx:349-366 | The drawer's own download always delivers an existing transcript, saved or opened, and reports a missing one. |
| MeetingsPage.DrawerRecording | src/modules/meetings/views/components/StateDrawer.jsx:368-372 | The drawer's own recording button opens an existing recording and reports a missing one. |
| MeetingsPage.DrawerLinksReachFiles | src/modules/meetings/views/components/StateDrawer.jsx:349-377 | Without those handlers, the failed-fetch download and the transcript link open the same page, and the recording button matches the drawer's recording link. |
| AgentsPage.HandleSave | src/modules/agents/views/agents.jsx:42-45 | The page forwards only the name and instructions to create. |
| AgentsPage.KeySaveCreatesTwice | src/modules/agents/views/agents.jsx:42-45 | Save followed by Ctrl/Cmd+S before the create settles stores two agents with the same name, instructions and owner under two ids. |
| AgentsPage.NewAgentIsStored | src/modules/agents/views/agents.jsx:42-45 | A form saved on the agents page becomes a stored agent with the trimmed texts, owned by the caller and found under its new id. |
| AgentsPage.AgentsListing | src/modules/agents/views/agents.jsx:91-100 | The page lists the search results and says none were found iff there are none. |
| AgentsPage.CardHandleUpdate | src/modules/agents/views/agentCard.tsx:163-169 | The card forwards exactly id, name and instructions to update. |
| AgentsPage.CardHandleDelete | src/modules/agents/views/agentCard.tsx:171-181 | The card deletes only after confirmation, and then exactly its own agent. |
| AgentsPage.CardEditUpdatesItsAgent | src/modules/agents/views/agentCard.tsx:211-215 | Editing from a card updates that card's agent with the form's trimmed texts. |

## Left out

- The tables are sequences rather than maps from id to row. Properties that need the
  primary key assume it in their preconditions: `UniqueIds`, `UniqueAgentIds`.
- The platform SDK and the realtime AI session are not modelled as behaviour. That covers
  the signature check, `connectOpenAi`, `updateSession`, `call.end`, `join` and `endCall`.
  The signature check is a function parameter; the other calls are recorded effects whose
  success is a parameter.
- `callConnect.jsx` and `callProvider.jsx` are React effect plumbing around the SDK client
  and are not part of this model.
- Concurrent or interleaved webhook deliveries are not modelled. Each request is one atomic
  step, and redelivery is sequential replay.
- The `protectedProcedure` middleware, the database driver and the query builder are not
  part of this model. The caller's id is a parameter, and queries are filters and updates
  over the row sequences.
- The meetings router has no create, update or delete procedure, and the agents router has
  no update or delete. The pages' calls to them appear only as recorded mutations
  (`MeetingsPage.Mutation`, `AgentsPage.AgentMutation`).
- `agentSchema.ts` is not part of this model.
- The date conversion after the schema's string check is not modelled, so invalid dates
  are not represented.
- `Date.now`, `new Date(…)` parsing and `toLocaleString` are not modelled. Times are
  integer milliseconds (`Option<int>` where the value may be missing), and locale-formatted
  strings are parameters. NaN from an unparsable date is not represented.
- Case mapping and whitespace are ASCII (`Text`). JavaScript's Unicode `toLowerCase`,
  `toUpperCase`, `trim` and `\s` are wider.
- Strings are sequences of Unicode scalar values (Dafny `char`). JavaScript's `.length`,
  `.slice` and `[0]` count UTF-16 code units, so a character outside the Basic Multilingual
  Plane, such as an emoji, counts once here and twice there. The members below therefore
  measure and cut such text differently from the source; on text without such characters
  they agree.
- Format.TruncateWith: the limit counts scalar values, not UTF-16 code units.
- Format.TruncateCard: 100 emoji (200 code units) fit the limit of 140 here, while the meeting
  card cuts them.
- Format.TruncateAgent: the limit counts scalar values, not UTF-16 code units.
- Format.AgentCardInstructions: the limit of 180 counts scalar values, not UTF-16 code units.
- Format.AgentCardCuts181: the 181 characters are scalar values, not UTF-16 code units.
- Format.Excerpt: the limit of 140 counts scalar values, not UTF-16 code units.
- Format.ShortIdWith: the 8 kept characters are scalar values, not UTF-16 code units.
- Format.ShortId: the 8 kept characters are scalar values, not UTF-16 code units.
- Format.ShortIdTable: the 8 kept characters are scalar values, not UTF-16 code units.
- Format.AgentIdLabel: the 8 kept characters are scalar values, not UTF-16 code units.
- Format.AgentCardId: the 6 kept characters are scalar values, not UTF-16 code units.
- Format.Initials: `p[0]` is the first scalar value here; in the source it is the first
  UTF-16 code unit, half of an emoji.
- Highlights.Shorten: "over 120" and "first 117" count scalar values, not UTF-16 code units.
- Highlights.Highlights: its 120-character cap counts scalar values, not UTF-16 code units.
- Dialogs.AgentDialogSave: the name "😀" has length 2 in the source and passes its name
  check; here it has length 1 and does not.
- Dialogs.AgentCanSaveBounds: the bounds of two and four characters count scalar values, not
  UTF-16 code units.
- `JSON.parse` is a function parameter returning an optional event.
- DOM geometry, clipboard, blob downloads, `fetch`, `window.open`, `localStorage` and
  toasts are not modelled. Only the decision each handler takes is modelled (`Click`,
  `DecodeViewMode`).
- Loaders, error views and the other purely presentational components are not part of
  this model. The same holds for the confirmation dialog, whose answer is a parameter.
- The `!meetings` loading branch of the meetings page is not modelled. The query is
  suspense-based, so the page only renders with data.
- Form typing and the agent dialog's Escape key are not modelled. Its Ctrl/Cmd+S is
  modelled by `Dialogs.AgentKeySave`.
- Dialogs.AgentDialogSave: covers a press of the Save button only. Ctrl/Cmd+S ignores the
  in-flight guard while a save is awaited, and can send the payload twice. That path is
  `Dialogs.AgentKeySave`, not this member.
- Dialogs.AgentKeySave: the listener also keeps the `initialData` of the render that
  registered it. That initial data is taken to be the current one, because the dialog is
  not re-targeted while open.
- MoreMenu.OnKey: Enter is modelled only on a focused menu action. With no action focused,
  the source clicks whatever element holds the page focus, such as the trigger; the model
  leaves the menu unchanged because page focus outside the menu is not modelled.
- StatusView.StatusConfig: an object lookup with an inherited property name as status,
  such as `"constructor"`, is treated like any unknown status. In JavaScript it returns the
  inherited value instead.
- StatusView.CardBadgeClass: the same simplification for the card's class lookup.
- CallSession.Step: models a click whose SDK call settles before the next click. A click
  made while `join` or `endCall` is awaited is not a `Step`, and can repeat the SDK call.
  `CallSession.AsyncStep` models that interleaving.
- CallSession.RunFollowsPath: "each call at most once" holds only for the atomic runs of
  `Step`. With clicks made while a call is awaited, `CallSession.SecondClickWhileAwaiting`
  shows two joins or two ends.
- CallSession.HandleJoin: `join` and `endCall` are assumed to resolve. A rejection that
  leaves the view unchanged is not modelled.
- MeetingsRouter.GetMany: the contract states the caller scoping only. The exact listing
  is stated by `GetManyIsOwnedMeetings`, under the assumption of unique agent ids.
- Format.FormatDateTime: the present case returns the locale string parameter, so its
  formatting is not modelled.

## Findings

| source | as written | input that shows it | evidently intended | confidence | as-written member | corrected member |
|---|---|---|---|---|---|---|
| src/modules/meetings/views/components/MeetingTable.jsx:26 | The table's `shortId` appends the three characters "â€¦", the UTF-8 bytes of "…" decoded as Windows-1252. | The id "0123456789" shows as "01234567â€¦" (11 characters). | "01234567…", as the card, drawer and agent picker show it. | high, not executed | Format.ShortIdCopiesDiffer | Format.ShortId |
| src/modules/agents/views/agentCard.tsx:52-55 | The agent card's `truncate` appends the same three characters "â€¦". | Instructions of 181 letters show as their first 180 and "â€¦" (183 characters). | The first 180 and "…", at most one over the limit, as on the meeting card. | high, not executed | Format.TruncateCopies | Format.TruncateCard |
| src/modules/meetings/views/meetings.jsx:221-222 | The page passes `() => {}` as the drawer's download and recording handlers. The drawer defers to any handler it is given (src/modules/meetings/views/components/StateDrawer.jsx:350, 369). | A completed meeting with transcript and recording links: both buttons do nothing. | The drawer's own download and open of the links. | medium, not executed | MeetingsPage.DrawerLinksIgnored | MeetingsPage.DrawerLinksReachFiles |
