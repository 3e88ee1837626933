/** The `MeetingSchema` record validator: what a meeting form must contain before it is
    accepted, and the list of issues reported for a rejected one. */
module MeetingSchema {
  import opened Common
  import opened Domain

  /** A property of the incoming JSON object: absent (`undefined`), a string, or a value of
      any other JSON type. */
  datatype Value = Undefined | Str(s: string) | NotString

  /** The incoming object, reduced to the keys the schema declares (others are stripped). */
  datatype RawMeeting = RawMeeting(
    id: Value, name: Value, agentId: Value, summary: Value,
    status: Value, startedAt: Value, endedAt: Value)

  /** The parsed record. The two times are kept as the accepted non-empty strings; the
      conversion to `Date` is not modelled. */
  datatype MeetingInput = MeetingInput(
    id: Option<string>, name: string, agentId: string, summary: string,
    status: Status, startedAt: string, endedAt: string)

  datatype IssueKind = InvalidType | TooSmall | InvalidValue

  /** One reported problem: the key, its kind, and the custom message the schema attaches
      (`None` where the validator's default message is used). */
  datatype Issue = Issue(path: string, kind: IssueKind, message: Option<string>)

  const NameRequired := "Meeting name is required"
  const AgentIdRequired := "Agent ID is required"
  const StartRequired := "Start time is required"
  const EndRequired := "End time is required"

  /** `z.string().min(1, message)`. */
  function RequiredString(path: string, v: Value, message: string): (r: seq<Issue>)
    ensures r == [] <==> v.Str? && |v.s| >= 1
    ensures |r| <= 1 && forall i :: 0 <= i < |r| ==> r[i].path == path
  {
    match v
    case Str(s) => if |s| >= 1 then [] else [Issue(path, TooSmall, Some(message))]
    case _ => [Issue(path, InvalidType, None)]
  }

  /** `z.string().optional()`. */
  function OptionalString(path: string, v: Value): (r: seq<Issue>)
    ensures r == [] <==> !v.NotString?
    ensures |r| <= 1 && forall i :: 0 <= i < |r| ==> r[i].path == path
  {
    if v.NotString? then [Issue(path, InvalidType, None)] else []
  }

  /** `z.string(message)`: any string, the message replaces the type error's default. */
  function AnyString(path: string, v: Value, message: string): (r: seq<Issue>)
    ensures r == [] <==> v.Str?
    ensures |r| <= 1 && forall i :: 0 <= i < |r| ==> r[i].path == path
  {
    if v.Str? then [] else [Issue(path, InvalidType, Some(message))]
  }

  /** `z.enum([...five statuses])`. */
  function StatusLiteral(path: string, v: Value): (r: seq<Issue>)
    ensures r == [] <==> v.Str? && exists st: Status :: StatusName(st) == v.s
    ensures |r| <= 1 && forall i :: 0 <= i < |r| ==> r[i].path == path
  {
    if v.Str? && ParseStatus(v.s).Some? then []
    else
      assert v.Str? ==> forall st: Status :: StatusName(st) != v.s;
      [Issue(path, InvalidValue, None)]
  }

  /** Every issue of the object, in the order the keys are declared. */
  function Issues(raw: RawMeeting): seq<Issue> {
    OptionalString("id", raw.id)
    + RequiredString("name", raw.name, NameRequired)
    + RequiredString("agentId", raw.agentId, AgentIdRequired)
    + AnyString("summary", raw.summary, AgentIdRequired)
    + StatusLiteral("status", raw.status)
    + RequiredString("startedAt", raw.startedAt, StartRequired)
    + RequiredString("endedAt", raw.endedAt, EndRequired)
  }

  /** Some issue is reported at `path`. */
  predicate RejectsAt(issues: seq<Issue>, path: string) {
    exists i :: 0 <= i < |issues| && issues[i].path == path
  }

  /** `MeetingSchema.safeParse`: the parsed record when there is no issue, otherwise all issues. */
  function SafeParse(raw: RawMeeting): (r: Result<MeetingInput, seq<Issue>>)
    ensures r.Ok? <==> Issues(raw) == []
    ensures r.Err? ==> r.error == Issues(raw) && |r.error| > 0
    ensures r.Ok? ==> r.value.name == raw.name.s && r.value.agentId == raw.agentId.s &&
                      StatusName(r.value.status) == raw.status.s
  {
    var issues := Issues(raw);
    if issues != [] then Err(issues)
    else
      Ok(MeetingInput(
        if raw.id.Str? then Some(raw.id.s) else None,
        raw.name.s, raw.agentId.s, raw.summary.s,
        ParseStatus(raw.status.s).value,
        raw.startedAt.s, raw.endedAt.s))
  }

  lemma RejectsAtConcat(x: seq<Issue>, y: seq<Issue>, path: string)
    ensures RejectsAt(x + y, path) <==> RejectsAt(x, path) || RejectsAt(y, path)
  {
    if RejectsAt(x, path) {
      var i :| 0 <= i < |x| && x[i].path == path;
      assert (x + y)[i] == x[i];
    }
    if RejectsAt(y, path) {
      var i :| 0 <= i < |y| && y[i].path == path;
      assert (x + y)[|x| + i] == y[i];
    }
    if RejectsAt(x + y, path) {
      var i :| 0 <= i < |x + y| && (x + y)[i].path == path;
      if i < |x| {
        assert x[i] == (x + y)[i];
      } else {
        assert y[i - |x|] == (x + y)[i];
      }
    }
  }

  /** The issues of `Issues(raw)` at one path are those of the rule for that key. */
  lemma IssuesAt(raw: RawMeeting, path: string)
    ensures RejectsAt(Issues(raw), path) <==>
      || (path == "id" && OptionalString("id", raw.id) != [])
      || (path == "name" && RequiredString("name", raw.name, NameRequired) != [])
      || (path == "agentId" && RequiredString("agentId", raw.agentId, AgentIdRequired) != [])
      || (path == "summary" && AnyString("summary", raw.summary, AgentIdRequired) != [])
      || (path == "status" && StatusLiteral("status", raw.status) != [])
      || (path == "startedAt" && RequiredString("startedAt", raw.startedAt, StartRequired) != [])
      || (path == "endedAt" && RequiredString("endedAt", raw.endedAt, EndRequired) != [])
  {
    var a := OptionalString("id", raw.id);
    var b := RequiredString("name", raw.name, NameRequired);
    var c := RequiredString("agentId", raw.agentId, AgentIdRequired);
    var d := AnyString("summary", raw.summary, AgentIdRequired);
    var e := StatusLiteral("status", raw.status);
    var f := RequiredString("startedAt", raw.startedAt, StartRequired);
    var g := RequiredString("endedAt", raw.endedAt, EndRequired);
    RejectsAtConcat(a, b, path);
    RejectsAtConcat(a + b, c, path);
    RejectsAtConcat(a + b + c, d, path);
    RejectsAtConcat(a + b + c + d, e, path);
    RejectsAtConcat(a + b + c + d + e, f, path);
    RejectsAtConcat(a + b + c + d + e + f, g, path);
    assert RejectsAt(a, path) <==> path == "id" && a != [] by { if a != [] { assert a[0].path == "id"; } }
    assert RejectsAt(b, path) <==> path == "name" && b != [] by { if b != [] { assert b[0].path == "name"; } }
    assert RejectsAt(c, path) <==> path == "agentId" && c != [] by { if c != [] { assert c[0].path == "agentId"; } }
    assert RejectsAt(d, path) <==> path == "summary" && d != [] by { if d != [] { assert d[0].path == "summary"; } }
    assert RejectsAt(e, path) <==> path == "status" && e != [] by { if e != [] { assert e[0].path == "status"; } }
    assert RejectsAt(f, path) <==> path == "startedAt" && f != [] by { if f != [] { assert f[0].path == "startedAt"; } }
    assert RejectsAt(g, path) <==> path == "endedAt" && g != [] by { if g != [] { assert g[0].path == "endedAt"; } }
  }

  /** Field by field, a key is rejected exactly when its rule fails: `id` may be absent or any
      string; `name`, `agentId`, `startedAt` and `endedAt` must be non-empty strings;
      `summary` any string; `status` one of the five literals. */
  lemma FieldRules(raw: RawMeeting)
    ensures RejectsAt(Issues(raw), "id") <==> raw.id.NotString?
    ensures RejectsAt(Issues(raw), "name") <==> !(raw.name.Str? && |raw.name.s| >= 1)
    ensures RejectsAt(Issues(raw), "agentId") <==> !(raw.agentId.Str? && |raw.agentId.s| >= 1)
    ensures RejectsAt(Issues(raw), "summary") <==> !raw.summary.Str?
    ensures RejectsAt(Issues(raw), "status") <==>
              !(raw.status.Str? && exists st: Status :: StatusName(st) == raw.status.s)
    ensures RejectsAt(Issues(raw), "startedAt") <==> !(raw.startedAt.Str? && |raw.startedAt.s| >= 1)
    ensures RejectsAt(Issues(raw), "endedAt") <==> !(raw.endedAt.Str? && |raw.endedAt.s| >= 1)
  {
    IssuesAt(raw, "id");
    IssuesAt(raw, "name");
    IssuesAt(raw, "agentId");
    IssuesAt(raw, "summary");
    IssuesAt(raw, "status");
    IssuesAt(raw, "startedAt");
    IssuesAt(raw, "endedAt");
  }

  /** The object a client sends for a record. */
  function Encode(v: MeetingInput): RawMeeting {
    RawMeeting(
      if v.id.Some? then Str(v.id.value) else Undefined,
      Str(v.name), Str(v.agentId), Str(v.summary), Str(StatusName(v.status)),
      Str(v.startedAt), Str(v.endedAt))
  }

  /** The records the schema can produce: the four required strings are non-empty. */
  predicate WellFormed(v: MeetingInput) {
    |v.name| >= 1 && |v.agentId| >= 1 && |v.startedAt| >= 1 && |v.endedAt| >= 1
  }

  /** Parsing the encoding of a well-formed record gives it back, and an accepted object is
      the encoding of what it parsed to (the schema loses nothing it accepts). */
  lemma ParseEncode(v: MeetingInput, raw: RawMeeting)
    ensures WellFormed(v) ==> SafeParse(Encode(v)) == Ok(v)
    ensures SafeParse(raw).Ok? ==> WellFormed(SafeParse(raw).value) && Encode(SafeParse(raw).value) == raw
  {
    ParseStatusName(v.status);
  }
}
