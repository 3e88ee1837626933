/** How the meeting views present a status string: badge classes, the drawer's status
    configuration, banner, actions and badge label, and what the artifact buttons do. */
module StatusView {
  import opened Common
  import opened Text
  import opened Domain
  import opened MeetingView

  /** `statusBadgeClass` of the meetings table, identical in the meeting drawer. */
  function BadgeClass(status: string): (r: string)
    ensures ParseStatus(status).None? ==> r == "bg-gray-800 text-gray-200"
  {
    if status == "upcoming" then "bg-blue-900 text-blue-200"
    else if status == "active" then "bg-green-900 text-green-200"
    else if status == "processing" then "bg-yellow-900 text-yellow-200"
    else if status == "completed" then "bg-gray-800 text-gray-200"
    else if status == "cancelled" then "bg-red-900 text-red-200"
    else "bg-gray-800 text-gray-200"
  }

  /** The five statuses get five different classes, and the class of every other string is
      the `completed` class: a badge alone cannot tell `completed` from an unknown status. */
  lemma BadgeClassDistinct(a: Status, b: Status, other: string)
    ensures a != b ==> BadgeClass(StatusName(a)) != BadgeClass(StatusName(b))
    ensures BadgeClass(other) == BadgeClass(StatusName(Completed)) <==>
              other == "completed" || ParseStatus(other).None?
  {
  }

  const CardFallbackClass := "bg-gray-500/10 text-gray-400"

  /** The meeting card's `statusColors` table. */
  function StatusColors(s: Status): string {
    match s
    case Upcoming => "bg-blue-500/10 text-blue-400 border border-blue-500/20"
    case Active => "bg-green-500/10 text-green-400 border border-green-500/20"
    case Completed => "bg-gray-500/10 text-gray-400 border border-gray-500/20"
    case Processing => "bg-yellow-500/10 text-yellow-400 border border-yellow-500/20"
    case Cancelled => "bg-red-500/10 text-red-400 border border-red-500/20"
  }

  /** `statusColors[status] || "bg-gray-500/10 text-gray-400"` of the meeting card. */
  function CardBadgeClass(status: string): (r: string)
    ensures ParseStatus(status).None? <==> r == CardFallbackClass
  {
    match ParseStatus(status)
    case Some(s) => StatusColors(s)
    case None => CardFallbackClass
  }

  /** On a card the five statuses and the fallback are six different classes, unlike the
      table, where the fallback is the `completed` class. */
  lemma CardBadgeDistinct(a: Status, b: Status)
    ensures a != b ==> CardBadgeClass(StatusName(a)) != CardBadgeClass(StatusName(b))
    ensures CardBadgeClass(StatusName(a)) != CardFallbackClass
    ensures BadgeClass("") == BadgeClass(StatusName(Completed)) &&
            CardBadgeClass("") != CardBadgeClass(StatusName(Completed))
  {
    ParseStatusName(a);
    ParseStatusName(b);
    ParseStatusName(Completed);
    StatusColorsDistinct(a, b);
    StatusColorsDistinct(Completed, Completed);
    EmptyStatusClasses();
  }

  lemma StatusColorsDistinct(a: Status, b: Status)
    ensures a != b ==> StatusColors(a) != StatusColors(b)
    ensures StatusColors(a) != CardFallbackClass
  {
    UpcomingColorsDistinct();
    ActiveColorsDistinct();
    LastColorsDistinct();
  }

  /** The class of `upcoming` differs from the other four. */
  lemma UpcomingColorsDistinct()
    ensures StatusColors(Upcoming) != StatusColors(Active)
    ensures StatusColors(Upcoming) != StatusColors(Processing)
    ensures StatusColors(Upcoming) != StatusColors(Completed)
    ensures StatusColors(Upcoming) != StatusColors(Cancelled)
  {
  }

  /** The class of `active` differs from those of the three statuses after it. */
  lemma ActiveColorsDistinct()
    ensures StatusColors(Active) != StatusColors(Processing)
    ensures StatusColors(Active) != StatusColors(Completed)
    ensures StatusColors(Active) != StatusColors(Cancelled)
  {
  }

  /** The remaining pairs of the table. */
  lemma LastColorsDistinct()
    ensures StatusColors(Processing) != StatusColors(Completed)
    ensures StatusColors(Processing) != StatusColors(Cancelled)
    ensures StatusColors(Completed) != StatusColors(Cancelled)
  {
  }

  /** An empty status gets the `completed` class in the table but the fallback on a card. */
  lemma EmptyStatusClasses()
    ensures BadgeClass("") == BadgeClass("completed")
    ensures CardBadgeClass("") == CardFallbackClass
  {
  }

  datatype Icon = ClockIcon | CheckCircleIcon | RefreshIcon | AlertIcon

  /** One entry of `getStatusConfig`. */
  datatype Config = Config(color: string, bg: string, icon: Icon, gradient: string)

  const CompletedConfig :=
    Config("text-purple-600", "bg-purple-50 dark:bg-purple-900/20", CheckCircleIcon, "from-purple-500 to-pink-500")

  /** `getStatusConfig(status)`: `configs[status] || configs.completed`. */
  function StatusConfig(status: string): (r: Config)
    ensures r == CompletedConfig <==> status == "completed" || ParseStatus(status).None?
  {
    if status == "upcoming" then
      Config("text-blue-600", "bg-blue-50 dark:bg-blue-900/20", ClockIcon, "from-blue-500 to-cyan-500")
    else if status == "active" then
      Config("text-green-600", "bg-green-50 dark:bg-green-900/20", CheckCircleIcon, "from-green-500 to-emerald-500")
    else if status == "processing" then
      Config("text-orange-600", "bg-orange-50 dark:bg-orange-900/20", RefreshIcon, "from-orange-500 to-yellow-500")
    else if status == "cancelled" then
      Config("text-red-600", "bg-red-50 dark:bg-red-900/20", AlertIcon, "from-red-500 to-pink-500")
    else CompletedConfig
  }

  /** Each status has its own colour; `active` and `completed` share an icon. */
  lemma StatusConfigDistinct(a: Status, b: Status)
    ensures a != b ==> StatusConfig(StatusName(a)).color != StatusConfig(StatusName(b)).color
    ensures StatusConfig(StatusName(Active)).icon == StatusConfig(StatusName(Completed)).icon
  {
  }

  datatype BannerKind = UpcomingBanner | ActiveBanner | CompletedBanner | ProcessingBanner | CancelledBanner

  /** `renderBanner`: one banner per status, none for any other string. */
  function Banner(status: string): (r: Option<BannerKind>)
    ensures r.None? <==> ParseStatus(status).None?
  {
    if status == "upcoming" then Some(UpcomingBanner)
    else if status == "active" then Some(ActiveBanner)
    else if status == "completed" then Some(CompletedBanner)
    else if status == "processing" then Some(ProcessingBanner)
    else if status == "cancelled" then Some(CancelledBanner)
    else None
  }

  lemma BannerDistinct(a: Status, b: Status)
    ensures a != b ==> Banner(StatusName(a)) != Banner(StatusName(b))
  {
  }

  /** The buttons of the drawer's action row. */
  datatype DrawerAction = StartButton | CancelButton | JoinButton | TranscriptButton | RecordingButton | CopyIdButton

  /** The action row: Start and Cancel for `upcoming`, Join for `active`, Download and
      Recording for `completed`, and Copy ID always. */
  function DrawerActions(status: string): (r: seq<DrawerAction>)
    ensures CopyIdButton in r && r[|r| - 1] == CopyIdButton
    ensures (StartButton in r) == (CancelButton in r) == (status == "upcoming")
    ensures (JoinButton in r) == (status == "active")
    ensures (TranscriptButton in r) == (RecordingButton in r) == (status == "completed")
  {
    (if status == "upcoming" then [StartButton, CancelButton] else [])
    + (if status == "active" then [JoinButton] else [])
    + (if status == "completed" then [TranscriptButton, RecordingButton] else [])
    + [CopyIdButton]
  }

  /** The insights card is shown only for `completed`. */
  predicate ShowsInsights(status: string) {
    status == "completed"
  }

  /** An unknown status is coloured as `completed` but gets neither its banner, nor its
      actions, nor its insights. */
  lemma UnknownStatusLooksCompleted(status: string)
    requires ParseStatus(status).None?
    ensures StatusConfig(status) == StatusConfig(StatusName(Completed))
    ensures Banner(status).None? && DrawerActions(status) == [CopyIdButton] && !ShowsInsights(status)
    ensures DrawerActions(StatusName(Completed)) != DrawerActions(status)
  {
  }

  /** The status dot of `StatusBadge`. */
  function DotClass(status: string): (r: string)
    ensures status == "cancelled" || ParseStatus(status).None? <==> r == "bg-red-500"
  {
    if status == "active" then "bg-green-500 animate-pulse"
    else if status == "upcoming" then "bg-blue-500"
    else if status == "completed" then "bg-purple-500"
    else if status == "processing" then "bg-orange-500"
    else "bg-red-500"
  }

  /** `status.charAt(0).toUpperCase() + status.slice(1)`. */
  function Capitalize(s: string): (r: string)
    ensures |r| == |s|
    ensures |s| > 0 ==> r[0] == UpperChar(s[0]) && r[1..] == s[1..]
  {
    if |s| == 0 then "" else [UpperChar(s[0])] + s[1..]
  }

  predicate NoCapitals(s: string) {
    forall i :: 0 <= i < |s| ==> !('A' <= s[i] <= 'Z')
  }

  lemma LowerCapitalize(s: string)
    requires NoCapitals(s)
    ensures Lower(Capitalize(s)) == s
  {
    var r := Lower(Capitalize(s));
    forall i | 0 <= i < |s| ensures r[i] == s[i] {
      if i > 0 {
        assert Capitalize(s)[i] == s[i];
      }
    }
  }

  lemma StatusNameNoCapitals(st: Status)
    ensures NoCapitals(StatusName(st))
  {
    var n := StatusName(st);
    forall i | 0 <= i < |n| ensures !('A' <= n[i] <= 'Z') {
      match st
      case Upcoming => assert n == "upcoming";
      case Active => assert n == "active";
      case Processing => assert n == "processing";
      case Completed => assert n == "completed";
      case Cancelled => assert n == "cancelled";
    }
  }

  /** The badge label reads back as the status it shows: lower-casing it gives the status
      literal, so two statuses never share a label. */
  lemma BadgeLabelReadsBack(st: Status)
    ensures ParseStatus(Lower(Capitalize(StatusName(st)))) == Some(st)
  {
    StatusNameNoCapitals(st);
    LowerCapitalize(StatusName(st));
    ParseStatusName(st);
  }

  /** What a click on an artifact button does. */
  datatype Click =
    | OpenTab(url: string)
    | SaveFile(fileName: string, url: string)
    | ErrorToast(message: string)
    /** The handler passed in by the parent was called instead. */
    | Delegated

  const NoRecording := "No recording available"
  const NoTranscript := "No transcript available"

  /** `if (url) window.open(url, "_blank") else toast.error(missing)`. */
  function OpenLink(url: Option<string>, missing: string): (r: Click)
    ensures r.OpenTab? <==> Truthy(url)
    ensures r.OpenTab? ==> r.url == url.value
    ensures !r.OpenTab? ==> r == ErrorToast(missing)
  {
    if Truthy(url) then OpenTab(url.value) else ErrorToast(missing)
  }

  /** The drawer's `openRecording`. */
  function OpenRecording(m: ClientMeeting): (r: Click)
    ensures !Truthy(m.recordingUrl) ==> r == ErrorToast(NoRecording)
    ensures Truthy(m.recordingUrl) ==> r == OpenTab(m.recordingUrl.value)
  {
    OpenLink(m.recordingUrl, NoRecording)
  }

  /** The drawer's `openTranscript`. */
  function OpenTranscript(m: ClientMeeting): (r: Click)
    ensures !Truthy(m.transcriptUrl) ==> r == ErrorToast(NoTranscript)
    ensures Truthy(m.transcriptUrl) ==> r == OpenTab(m.transcriptUrl.value)
  {
    OpenLink(m.transcriptUrl, NoTranscript)
  }

  /** The name of the downloaded transcript: `${meeting.name || "meeting"}-transcript.txt`. */
  function TranscriptFileName(m: ClientMeeting): (r: string)
    ensures |r| > |"-transcript.txt"|
    ensures r[|r| - |"-transcript.txt"|..] == "-transcript.txt"
  {
    OrElse(m.name, "meeting") + "-transcript.txt"
  }

  /** The drawer's `handleDownloadTranscript`: no URL reports an error and fetches nothing;
      otherwise the fetched text is saved, or, when the fetch fails, the URL is opened. */
  function DownloadTranscript(m: ClientMeeting, fetchSucceeds: bool): (r: Click)
    ensures !Truthy(m.transcriptUrl) ==> r == ErrorToast(NoTranscript)
    ensures Truthy(m.transcriptUrl) && fetchSucceeds ==> r == SaveFile(TranscriptFileName(m), m.transcriptUrl.value)
    ensures Truthy(m.transcriptUrl) && !fetchSucceeds ==> r == OpenTab(m.transcriptUrl.value)
  {
    if !Truthy(m.transcriptUrl) then ErrorToast(NoTranscript)
    else if fetchSucceeds then SaveFile(TranscriptFileName(m), m.transcriptUrl.value)
    else OpenTab(m.transcriptUrl.value)
  }

  /** Without a URL no artifact button opens or fetches anything, whatever the network does. */
  lemma NoUrlNoRequest(m: ClientMeeting, fetchSucceeds: bool)
    ensures !Truthy(m.transcriptUrl) ==>
      !DownloadTranscript(m, fetchSucceeds).OpenTab? && !DownloadTranscript(m, fetchSucceeds).SaveFile? &&
      !OpenTranscript(m).OpenTab?
    ensures !Truthy(m.recordingUrl) ==> !OpenRecording(m).OpenTab?
  {
  }

  /** The state drawer's download and recording buttons first defer to the handlers the
      page passed in (any passed handler is truthy); the transcript link never defers. */
  function StateDrawerDownload(hasHandler: bool, m: ClientMeeting, fetchSucceeds: bool): (r: Click)
    ensures hasHandler ==> r == Delegated
    ensures !hasHandler ==> r == DownloadTranscript(m, fetchSucceeds)
  {
    if hasHandler then Delegated else DownloadTranscript(m, fetchSucceeds)
  }

  function StateDrawerRecording(hasHandler: bool, m: ClientMeeting): (r: Click)
    ensures hasHandler ==> r == Delegated
    ensures !hasHandler ==> r == OpenRecording(m)
  {
    if hasHandler then Delegated else OpenRecording(m)
  }
}
