/** The client-side call session: the three-view state machine of the call screen, the
    lobby's join gate, and the gate that keeps completed meetings out of the call. */
module CallSession {
  import opened Domain

  /** The `show` state. */
  datatype Show = Lobby | InCall | Ended

  /** The view rendered for a state, with the handler it wires. */
  datatype View = LobbyView | ActiveView | EndedView

  /** A user action on the rendered view. */
  datatype Action = JoinClicked | LeaveClicked

  /** The SDK calls made, in order (abstract, assumed to resolve). */
  datatype SdkCall = JoinCall | EndCallCall

  /** The session starts in the lobby. */
  const Initial: Show := Lobby

  /** Exactly one view per state, and a different one for each. */
  function Render(s: Show): (v: View)
    ensures v == LobbyView <==> s == Lobby
    ensures v == ActiveView <==> s == InCall
    ensures v == EndedView <==> s == Ended
  {
    match s
    case Lobby => LobbyView
    case InCall => ActiveView
    case Ended => EndedView
  }

  /** `handleJoin`: without a call handle nothing happens; otherwise join, then show the call. */
  function HandleJoin(s: Show, hasCall: bool): (r: (Show, seq<SdkCall>))
    ensures !hasCall ==> r == (s, [])
    ensures hasCall ==> r == (InCall, [JoinCall])
  {
    if !hasCall then (s, []) else (InCall, [JoinCall])
  }

  /** `handleLeave`: without a call handle nothing happens; otherwise end the call, then show
      the ended view. */
  function HandleLeave(s: Show, hasCall: bool): (r: (Show, seq<SdkCall>))
    ensures !hasCall ==> r == (s, [])
    ensures hasCall ==> r == (Ended, [EndCallCall])
  {
    if !hasCall then (s, []) else (Ended, [EndCallCall])
  }

  /** An action reaches a handler only through the view that wires it: join exists only in
      the lobby, and only while its button is enabled (`canJoin`), leave only in the call. */
  function Step(s: Show, a: Action, hasCall: bool, canJoin: bool): (r: (Show, seq<SdkCall>))
    ensures r.0 == s <==> r.1 == []
    ensures r.1 != [] ==>
      (s == Lobby && a == JoinClicked && canJoin && hasCall && r == (InCall, [JoinCall])) ||
      (s == InCall && a == LeaveClicked && hasCall && r == (Ended, [EndCallCall]))
  {
    match (Render(s), a)
    case (LobbyView, JoinClicked) => if canJoin then HandleJoin(s, hasCall) else (s, [])
    case (ActiveView, LeaveClicked) => HandleLeave(s, hasCall)
    case _ => (s, [])
  }

  /** The position of a state on the only path lobby -> call -> ended. */
  function Rank(s: Show): nat {
    match s
    case Lobby => 0
    case InCall => 1
    case Ended => 2
  }

  /** A step never goes back, moves at most one position, and `ended` is terminal. */
  lemma StepAdvances(s: Show, a: Action, hasCall: bool, canJoin: bool)
    ensures var t := Step(s, a, hasCall, canJoin).0;
      Rank(s) <= Rank(t) <= Rank(s) + 1 && (s == Ended ==> t == Ended)
  {
  }

  /** The state after a sequence of actions, and every SDK call made along the way. */
  function Run(s: Show, actions: seq<Action>, hasCall: bool, canJoin: bool): (r: (Show, seq<SdkCall>))
    ensures r.1 == [] ==> r.0 == s
    decreases |actions|
  {
    if |actions| == 0 then (s, [])
    else
      var (t, calls) := Step(s, actions[0], hasCall, canJoin);
      var (u, more) := Run(t, actions[1..], hasCall, canJoin);
      (u, calls + more)
  }

  /** From any state, any sequence of actions only moves forward; from the lobby the SDK
      calls made are a prefix of [join, endCall] — each at most once, join first. */
  lemma {:induction false} RunFollowsPath(s: Show, actions: seq<Action>, hasCall: bool, canJoin: bool)
    ensures Rank(s) <= Rank(Run(s, actions, hasCall, canJoin).0)
    ensures s == Ended ==> Run(s, actions, hasCall, canJoin) == (Ended, [])
    ensures s == Lobby ==> Run(s, actions, hasCall, canJoin).1 <= [JoinCall, EndCallCall]
    ensures s == InCall ==> Run(s, actions, hasCall, canJoin).1 <= [EndCallCall]
    ensures |Run(s, actions, hasCall, canJoin).1| == Rank(Run(s, actions, hasCall, canJoin).0) - Rank(s)
    decreases |actions|
  {
    if |actions| > 0 {
      StepAdvances(s, actions[0], hasCall, canJoin);
      var (t, calls) := Step(s, actions[0], hasCall, canJoin);
      RunFollowsPath(t, actions[1..], hasCall, canJoin);
    }
  }

  // ---------------------------------------------------------------- awaited SDK calls

  /** The session as the handlers run it: `handleJoin` and `handleLeave` await the SDK call
      before they change `show`, so a call can be in flight while the old view, and the
      button that started it, is still shown. */
  datatype Pending = Pending(show: Show, inFlight: seq<SdkCall>)

  /** A click on the rendered view, or the i-th call in flight settling. */
  datatype Event = Click(a: Action) | Settle(i: nat)

  /** The view an awaited call switches to once it resolves. */
  function ShownAfter(c: SdkCall): (s: Show)
    ensures s == HandleJoin(Lobby, true).0 <==> c == JoinCall
    ensures s == HandleLeave(InCall, true).0 <==> c == EndCallCall
  {
    match c
    case JoinCall => InCall
    case EndCallCall => Ended
  }

  /** One event: a click starts the SDK call the atomic `Step` would make, but leaves the
      view as it is; settling a call in flight removes it and shows the view its handler
      sets. */
  function AsyncStep(p: Pending, e: Event, hasCall: bool, canJoin: bool): (r: (Pending, seq<SdkCall>))
    ensures e.Click? ==> r.1 == Step(p.show, e.a, hasCall, canJoin).1
    ensures e.Click? ==> r.0 == Pending(p.show, p.inFlight + r.1)
    ensures e.Settle? ==> r.1 == []
    ensures e.Settle? && e.i < |p.inFlight| ==>
      && r.0.show == ShownAfter(p.inFlight[e.i])
      && |r.0.inFlight| == |p.inFlight| - 1
      && multiset(r.0.inFlight) + multiset{p.inFlight[e.i]} == multiset(p.inFlight)
    ensures e.Settle? && e.i >= |p.inFlight| ==> r.0 == p
  {
    match e
    case Click(a) =>
      var calls := Step(p.show, a, hasCall, canJoin).1;
      (Pending(p.show, p.inFlight + calls), calls)
    case Settle(i) =>
      if i < |p.inFlight| then
        var rest := p.inFlight[..i] + p.inFlight[i + 1..];
        assert p.inFlight == p.inFlight[..i] + [p.inFlight[i]] + p.inFlight[i + 1..];
        (Pending(ShownAfter(p.inFlight[i]), rest), [])
      else (p, [])
  }

  /** The state after a sequence of events, and every SDK call started along the way. A
      call still in flight at the end was in flight before or was started on the way. */
  function AsyncRun(p: Pending, events: seq<Event>, hasCall: bool, canJoin: bool): (r: (Pending, seq<SdkCall>))
    ensures multiset(r.0.inFlight) <= multiset(p.inFlight) + multiset(r.1)
    decreases |events|
  {
    if |events| == 0 then (p, [])
    else
      var (q, calls) := AsyncStep(p, events[0], hasCall, canJoin);
      var (u, more) := AsyncRun(q, events[1..], hasCall, canJoin);
      (u, calls + more)
  }

  /** When every call settles before the next click, the awaited handlers behave as the
      atomic step: the click makes the same SDK call and settling shows the same view. */
  lemma SettledClickIsStep(s: Show, a: Action, hasCall: bool, canJoin: bool)
    ensures var (q, calls) := AsyncStep(Pending(s, []), Click(a), hasCall, canJoin);
      && calls == Step(s, a, hasCall, canJoin).1
      && AsyncStep(q, Settle(0), hasCall, canJoin).0 == Pending(Step(s, a, hasCall, canJoin).0, [])
  {
  }

  /** A second click on Join while the first `join()` is awaited joins again, and a second
      click on Leave while `endCall()` is awaited ends the call again; the atomic run of the
      same clicks makes each call once. */
  lemma SecondClickWhileAwaiting()
    ensures AsyncRun(Pending(Lobby, []), [Click(JoinClicked), Click(JoinClicked)], true, true).1 == [JoinCall, JoinCall]
    ensures Run(Lobby, [JoinClicked, JoinClicked], true, true).1 == [JoinCall]
    ensures AsyncRun(Pending(InCall, []), [Click(LeaveClicked), Click(LeaveClicked)], true, true).1 == [EndCallCall, EndCallCall]
    ensures Run(InCall, [LeaveClicked, LeaveClicked], true, true).1 == [EndCallCall]
  {
    var joins := [Click(JoinClicked), Click(JoinClicked)];
    assert joins[1..] == [Click(JoinClicked)];
    assert [Click(JoinClicked)][1..] == [];
    var leaves := [Click(LeaveClicked), Click(LeaveClicked)];
    assert leaves[1..] == [Click(LeaveClicked)];
    assert [Click(LeaveClicked)][1..] == [];
    assert [JoinClicked, JoinClicked][1..] == [JoinClicked];
    assert [LeaveClicked, LeaveClicked][1..] == [LeaveClicked];
  }

  /** `hasBrowserMediaPermission`: the join button is enabled only with both permissions. */
  function JoinEnabled(hasMicPermission: bool, hasCameraPermission: bool): (r: bool)
    ensures r <==> hasMicPermission && hasCameraPermission
  {
    hasMicPermission && hasCameraPermission
  }

  /** Without both permissions the session never leaves the lobby and calls nothing. */
  lemma {:induction false} NoPermissionStaysInLobby(actions: seq<Action>, hasCall: bool, mic: bool, camera: bool)
    requires !(mic && camera)
    ensures Run(Lobby, actions, hasCall, JoinEnabled(mic, camera)) == (Lobby, [])
    decreases |actions|
  {
    if |actions| > 0 {
      NoPermissionStaysInLobby(actions[1..], hasCall, mic, camera);
      assert Step(Lobby, actions[0], hasCall, JoinEnabled(mic, camera)) == (Lobby, []);
      var none: seq<SdkCall> := [];
      assert none + none == none;
    }
  }

  /** What the call page shows for a meeting loaded by `getOne`. */
  datatype CallPage = MeetingEndedError | CallScreen(meetingName: string)

  /** Completed meetings get the "meeting ended" error; every other status gets the call. */
  function CallPageFor(m: Meeting): (r: CallPage)
    ensures r.MeetingEndedError? <==> m.status == Completed
    ensures r.CallScreen? ==> r.meetingName == m.name
  {
    if m.status == Completed then MeetingEndedError else CallScreen(m.name)
  }
}
