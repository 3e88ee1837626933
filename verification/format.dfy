/** The small text helpers of the meeting and agent views: short ids, truncation with an
    ellipsis, relative times, durations in minutes and hours, and name initials. Several
    views carry their own copy of a helper; where the copies differ the differences are
    separate definitions here. */
module Format {
  import opened Common
  import opened Text

  /** The horizontal ellipsis U+2026. */
  const Ellipsis: string := "…"

  /** What the bytes of U+2026 read as when decoded as Windows-1252 and saved again as
      UTF-8: U+00E2 U+20AC U+00A6, three characters. */
  const Mojibake: string := "â€¦"

  /** `shortId`: ids longer than 8 are cut to 8 characters and marked; an empty id is `-`. */
  function ShortIdWith(id: string, mark: string): (r: string)
    ensures |id| > 8 ==> r == id[..8] + mark
    ensures 1 <= |id| <= 8 ==> r == id
    ensures id == "" ==> r == "-"
  {
    if |id| > 8 then id[..8] + mark else if id == "" then "-" else id
  }

  /** The copy in the meeting card, the drawer and the agent select. */
  function ShortId(id: string): (r: string)
    ensures |r| <= 9 && (r == id || r == "-" || (|id| > 8 && r == id[..8] + Ellipsis))
  {
    ShortIdWith(id, Ellipsis)
  }

  /** The copy in the meetings table, whose ellipsis is the three-character mojibake. */
  function ShortIdTable(id: string): (r: string)
    ensures |r| <= 11 && (r == id || r == "-" || (|id| > 8 && r == id[..8] + Mojibake))
  {
    ShortIdWith(id, Mojibake)
  }

  /** The two copies agree exactly on ids of at most 8 characters; a longer id keeps its
      first 8 characters in both, followed by one character in one and three in the other. */
  lemma ShortIdCopiesDiffer(id: string)
    ensures ShortIdTable(id) == ShortId(id) <==> |id| <= 8
    ensures |id| > 8 ==> |ShortId(id)| == 9 && |ShortIdTable(id)| == 11 &&
                         ShortId(id)[..8] == ShortIdTable(id)[..8] == id[..8]
  {
    if |id| > 8 {
      assert ShortIdTable(id)[8] != ShortId(id)[8];
    }
  }

  /** `id.slice(0, k)`: the first `k` characters, or all of a shorter id. */
  function Prefix(id: string, k: nat): (r: string)
    ensures r <= id
    ensures |r| == if |id| < k then |id| else k
  {
    if |id| < k then id else id[..k]
  }

  /** The agents table's id label: the first 8 characters and an ellipsis, even when the id
      is shorter and nothing was cut. */
  function AgentIdLabel(id: string): (r: string)
    ensures r == Prefix(id, 8) + Ellipsis
    ensures |r| == (if |id| < 8 then |id| else 8) + 1
  {
    Prefix(id, 8) + Ellipsis
  }

  /** The agent card's footer shows the first 6 characters of the id. */
  function AgentCardId(id: string): (r: string)
    ensures r <= id && |r| <= 6
    ensures |id| >= 6 ==> |r| == 6
  {
    Prefix(id, 6)
  }

  /** The agent card's `truncate`: text that fits is returned as is; otherwise the first
      `limit` characters without trailing whitespace, followed by `mark`. */
  function TruncateWith(text: string, limit: nat, mark: string): (r: string)
    ensures |text| <= limit ==> r == text
    ensures |text| > limit ==>
      exists k :: 0 <= k <= limit && r == text[..k] + mark &&
                  (k == 0 || !IsSpace(text[k - 1])) &&
                  forall i :: k <= i < limit ==> IsSpace(text[i])
    ensures |r| <= limit + |mark| || r == text
  {
    if |text| <= limit then text
    else
      var kept := TrimEnd(text[..limit]);
      assert kept == text[..|kept|];
      kept + mark
  }

  /** The meeting card's `truncate`: an empty text gives `""`, then as above with `"…"`. */
  function TruncateCard(text: string, limit: nat): (r: string)
    ensures |r| <= limit + 1 || r == text
  {
    if text == "" then "" else TruncateWith(text, limit, Ellipsis)
  }

  /** The agent card's copy has no empty-text guard and ends in the three-character mojibake. */
  function TruncateAgent(text: string, limit: nat): (r: string)
    ensures |r| <= limit + 3 || r == text
  {
    TruncateWith(text, limit, Mojibake)
  }

  /** The meeting card's empty-text guard changes nothing: the empty text already fits. The
      two copies agree on every text that fits and keep the same characters otherwise. */
  lemma TruncateCopies(text: string, limit: nat)
    ensures TruncateCard(text, limit) == TruncateWith(text, limit, Ellipsis)
    ensures |text| <= limit ==> TruncateCard(text, limit) == TruncateAgent(text, limit) == text
    ensures |text| > limit ==>
      TruncateCard(text, limit)[..|TruncateCard(text, limit)| - 1] ==
      TruncateAgent(text, limit)[..|TruncateAgent(text, limit)| - 3]
  {
    if |text| > limit {
      var kept := TrimEnd(text[..limit]);
      assert TruncateCard(text, limit)[..|TruncateCard(text, limit)| - 1] == kept;
      assert TruncateAgent(text, limit)[..|TruncateAgent(text, limit)| - 3] == kept;
    }
  }

  /** The meeting card's truncation limit. */
  const CardTruncateLength: nat := 140
  /** The agent card's truncation limit. */
  const AgentTruncateLength: nat := 180

  /** The agent card body: the instructions cut at the card's own limit of 180, not at the
      helper's default of 140, and marked with the mojibake. */
  function AgentCardInstructions(instructions: string): (r: string)
    ensures |instructions| <= AgentTruncateLength ==> r == instructions
    ensures |instructions| > AgentTruncateLength ==>
      && 3 <= |r| <= AgentTruncateLength + 3
      && r[|r| - 3..] == Mojibake
      && r[..|r| - 3] <= instructions[..AgentTruncateLength]
  {
    TruncateAgent(instructions, AgentTruncateLength)
  }

  /** Instructions of 181 non-blank characters: the agent card shows the first 180 and the
      three mojibake characters, 183 in all, where the meeting card's copy of `truncate`
      would show the first 180 and "…". */
  lemma AgentCardCuts181(instructions: string)
    requires |instructions| == AgentTruncateLength + 1
    requires forall i :: 0 <= i < |instructions| ==> !IsSpace(instructions[i])
    ensures AgentCardInstructions(instructions) == instructions[..AgentTruncateLength] + Mojibake
    ensures |AgentCardInstructions(instructions)| == AgentTruncateLength + 3
    ensures TruncateCard(instructions, AgentTruncateLength) == instructions[..AgentTruncateLength] + Ellipsis
  {
    var head := instructions[..AgentTruncateLength];
    assert !IsSpace(head[|head| - 1]);
    assert TrimEnd(head) == head;
  }

  /** The card body: the summary when non-empty, otherwise the name, cut at 140. */
  function Excerpt(summary: string, name: string): (r: string)
    ensures summary != "" ==> r == TruncateCard(summary, CardTruncateLength)
    ensures summary == "" ==> r == TruncateCard(name, CardTruncateLength)
    ensures |r| <= CardTruncateLength + 1 || r == summary || r == name
  {
    TruncateCard(if summary != "" then summary else name, CardTruncateLength)
  }

  /** The bucket `timeAgo` puts an elapsed time in. */
  datatype Ago = Seconds(n: int) | Minutes(n: int) | Hours(n: int) | Days(n: int) | OlderThanMonth

  /** Milliseconds elapsed, bucketed by floor division (`/` on `int` with a positive
      divisor is `Math.floor`). A time in the future gives a negative number of seconds. */
  function AgoBucket(diff: int): (r: Ago)
    ensures r.Seconds? <==> diff < 60000
    ensures r.Seconds? ==> r.n * 1000 <= diff < r.n * 1000 + 1000
    ensures r.Minutes? ==> 1 <= r.n < 60 && r.n * 60000 <= diff < r.n * 60000 + 60000
    ensures r.Hours? ==> 1 <= r.n < 24 && r.n * 3600000 <= diff < r.n * 3600000 + 3600000
    ensures r.Days? ==> 1 <= r.n < 30 && r.n * 86400000 <= diff < r.n * 86400000 + 86400000
    ensures r.OlderThanMonth? <==> diff >= 30 * 86400000
  {
    var sec := diff / 1000;
    if sec < 60 then Seconds(sec)
    else
      var min := sec / 60;
      if min < 60 then Minutes(min)
      else
        var hr := min / 60;
        if hr < 24 then Hours(hr)
        else
          var days := hr / 24;
          if days < 30 then Days(days) else OlderThanMonth
  }

  /** `timeAgo`, shared by the meeting card and the agent card. A missing time is `-`; a
      time a month or more ago is shown with the runtime's locale date, passed in. */
  function TimeAgo(at: Option<int>, now: int, localeDate: string): (r: string)
    ensures at.None? ==> r == "-"
    ensures at.Some? ==> match AgoBucket(now - at.value)
      case Seconds(n) => r == IntToString(n) + "s ago"
      case Minutes(n) => r == IntToString(n) + "m ago"
      case Hours(n) => r == IntToString(n) + "h ago"
      case Days(n) => r == IntToString(n) + "d ago"
      case OlderThanMonth => r == localeDate
  {
    match at
    case None => "-"
    case Some(t) => AgoLabel(AgoBucket(now - t), localeDate)
  }

  /** The text shown for a bucket. */
  function AgoLabel(b: Ago, localeDate: string): string {
    match b
    case Seconds(n) => IntToString(n) + "s ago"
    case Minutes(n) => IntToString(n) + "m ago"
    case Hours(n) => IntToString(n) + "h ago"
    case Days(n) => IntToString(n) + "d ago"
    case OlderThanMonth => localeDate
  }

  /** Reads a relative `timeAgo` label back to its bucket: an integer, one unit letter
      (`s`, `m`, `h` or `d`) and " ago". The locale date shown after a month is not read. */
  function ReadAgo(s: string): Option<Ago> {
    if |s| >= 5 && s[|s| - 4..] == " ago" then
      var unit := s[|s| - 5];
      match ParseInt(s[..|s| - 5])
      case None => None
      case Some(n) =>
        if unit == 's' then Some(Seconds(n))
        else if unit == 'm' then Some(Minutes(n))
        else if unit == 'h' then Some(Hours(n))
        else if unit == 'd' then Some(Days(n))
        else None
    else None
  }

  /** A count with its unit letter and " ago" reads back as that count in that unit. */
  lemma ReadAgoLabel(n: int, unit: char)
    ensures var r := ReadAgo(IntToString(n) + [unit] + " ago");
      && (unit == 's' ==> r == Some(Seconds(n)))
      && (unit == 'm' ==> r == Some(Minutes(n)))
      && (unit == 'h' ==> r == Some(Hours(n)))
      && (unit == 'd' ==> r == Some(Days(n)))
  {
    var s := IntToString(n) + [unit] + " ago";
    assert s[|s| - 4..] == " ago";
    assert s[|s| - 5] == unit;
    assert s[..|s| - 5] == IntToString(n);
    ParseIntToString(n);
  }

  /** Every relative label `timeAgo` shows reads back as the bucket of the elapsed time, so
      it names the unit and the floored count that `AgoBucket` bounds; only after a month is
      the label the locale date instead. */
  lemma TimeAgoReadsBack(at: int, now: int, localeDate: string)
    ensures AgoBucket(now - at).OlderThanMonth? ==> TimeAgo(Some(at), now, localeDate) == localeDate
    ensures !AgoBucket(now - at).OlderThanMonth? ==>
      ReadAgo(TimeAgo(Some(at), now, localeDate)) == Some(AgoBucket(now - at))
  {
    AgoLabelReadsBack(AgoBucket(now - at), localeDate);
  }

  /** Every bucket but the last reads back from its label. */
  lemma AgoLabelReadsBack(b: Ago, localeDate: string)
    ensures !b.OlderThanMonth? ==> ReadAgo(AgoLabel(b, localeDate)) == Some(b)
  {
    match b
    case Seconds(n) =>
      assert IntToString(n) + "s ago" == IntToString(n) + ['s'] + " ago";
      ReadAgoLabel(n, 's');
    case Minutes(n) =>
      assert IntToString(n) + "m ago" == IntToString(n) + ['m'] + " ago";
      ReadAgoLabel(n, 'm');
    case Hours(n) =>
      assert IntToString(n) + "h ago" == IntToString(n) + ['h'] + " ago";
      ReadAgoLabel(n, 'h');
    case Days(n) =>
      assert IntToString(n) + "d ago" == IntToString(n) + ['d'] + " ago";
      ReadAgoLabel(n, 'd');
    case OlderThanMonth =>
  }

  /** Whole minutes between two instants, negative spans counted as 0. */
  function MinutesBetween(start: int, end: int): (r: nat)
    ensures start <= end ==> r * 60000 <= end - start < r * 60000 + 60000
    ensures end <= start ==> r == 0
  {
    if end - start <= 0 then 0 else (end - start) / 60000
  }

  /** `Nm` below an hour, otherwise `Hh Mm`, or `Hh` on the hour. */
  function FormatMinutes(mins: nat): (r: string)
    ensures mins < 60 ==> r == NatToString(mins) + "m"
    ensures mins >= 60 && mins % 60 != 0 ==> r == NatToString(mins / 60) + "h " + NatToString(mins % 60) + "m"
    ensures mins >= 60 && mins % 60 == 0 ==> r == NatToString(mins / 60) + "h"
  {
    if mins < 60 then NatToString(mins) + "m"
    else if mins % 60 != 0 then NatToString(mins / 60) + "h " + NatToString(mins % 60) + "m"
    else NatToString(mins / 60) + "h"
  }

  /** Reads a number followed by a one-character unit. */
  function ParseUnit(s: string, unit: char): Option<nat> {
    if |s| >= 2 && s[|s| - 1] == unit then ParseNat(s[..|s| - 1]) else None
  }

  /** Reads a duration label back to minutes: `Nm`, `Hh` or `Hh Mm`. */
  function ParseDuration(s: string): Option<nat> {
    var parts := Split(s, ' ');
    if |parts| == 1 then
      match ParseUnit(s, 'm')
      case Some(m) => Some(m)
      case None =>
        match ParseUnit(s, 'h')
        case Some(h) => Some(h * 60)
        case None => None
    else if |parts| == 2 then
      match (ParseUnit(parts[0], 'h'), ParseUnit(parts[1], 'm'))
      case (Some(h), Some(m)) => Some(h * 60 + m)
      case _ => None
    else None
  }

  lemma NoSpaceInNumber(n: nat)
    ensures ' ' !in NatToString(n)
  {
  }

  lemma ParseUnitNumber(n: nat, unit: char)
    requires !IsDigit(unit)
    ensures ParseUnit(NatToString(n) + [unit], unit) == Some(n)
    ensures forall other: char :: other != unit ==> ParseUnit(NatToString(n) + [unit], other).None?
  {
    var s := NatToString(n) + [unit];
    assert s[..|s| - 1] == NatToString(n);
    ParseNatToString(n);
  }

  /** Every duration label reads back as the number of minutes it was made from, so no two
      minute counts share a label. */
  lemma ParseFormatMinutes(mins: nat)
    ensures ParseDuration(FormatMinutes(mins)) == Some(mins)
  {
    if mins < 60 {
      ParseSingleUnit(mins, 'm');
    } else if mins % 60 != 0 {
      ParseHoursAndMinutes(mins / 60, mins % 60);
    } else {
      ParseSingleUnit(mins / 60, 'h');
    }
  }

  /** A label with one part, `Nm` or `Hh`, reads back as its number in its unit. */
  lemma ParseSingleUnit(n: nat, unit: char)
    requires unit == 'm' || unit == 'h'
    ensures ParseDuration(NatToString(n) + [unit]) == Some(if unit == 'm' then n else n * 60)
  {
    var s := NatToString(n) + [unit];
    NoSpaceInNumber(n);
    assert ' ' !in s;
    SplitJoin([s], ' ');
    ParseUnitNumber(n, unit);
  }

  /** A label `Hh Mm` reads back as `H * 60 + M`. */
  lemma ParseHoursAndMinutes(h: nat, m: nat)
    ensures ParseDuration(NatToString(h) + "h " + NatToString(m) + "m") == Some(h * 60 + m)
  {
    var a := NatToString(h) + "h";
    var b := NatToString(m) + "m";
    NoSpaceInNumber(h);
    NoSpaceInNumber(m);
    assert ' ' !in a && ' ' !in b;
    assert NatToString(h) + "h " + NatToString(m) + "m" == a + [' '] + b;
    ParseUnitNumber(h, 'h');
    ParseUnitNumber(m, 'm');
    ParseTwoParts(a, b, h, m);
  }

  /** Two space-free parts joined by one space read as hours and minutes when they do. */
  lemma ParseTwoParts(a: string, b: string, h: nat, m: nat)
    requires ' ' !in a && ' ' !in b
    requires ParseUnit(a, 'h') == Some(h) && ParseUnit(b, 'm') == Some(m)
    ensures ParseDuration(a + [' '] + b) == Some(h * 60 + m)
  {
    assert Join([a, b], ' ') == a + [' '] + b;
    SplitJoin([a, b], ' ');
  }

  /** The meeting card's `durationText`: `-` without a start; without an end, the start
      time in the runtime's locale format (passed in); otherwise the elapsed minutes. */
  function CardDuration(start: Option<int>, end: Option<int>, startLocale: string): (r: string)
    ensures start.None? ==> r == "-"
    ensures start.Some? && end.None? ==> r == startLocale
    ensures start.Some? && end.Some? ==> ParseDuration(r) == Some(MinutesBetween(start.value, end.value))
  {
    match (start, end)
    case (None, _) => "-"
    case (Some(_), None) => startLocale
    case (Some(s), Some(e)) =>
      ParseFormatMinutes(MinutesBetween(s, e));
      FormatMinutes(MinutesBetween(s, e))
  }

  /** The drawer's `durationText`: `-` without a start; a missing end counts as `now`. */
  function DrawerDuration(start: Option<int>, end: Option<int>, now: int): (r: string)
    ensures start.None? ==> r == "-"
    ensures start.Some? ==> ParseDuration(r) == Some(MinutesBetween(start.value, end.GetOr(now)))
  {
    match start
    case None => "-"
    case Some(s) =>
      ParseFormatMinutes(MinutesBetween(s, end.GetOr(now)));
      FormatMinutes(MinutesBetween(s, end.GetOr(now)))
  }

  /** The two copies agree when both times are known and differ on an open meeting: the
      card shows when it started, the drawer how long it has been running. */
  lemma DurationCopies(start: int, end: Option<int>, now: int, startLocale: string)
    ensures end.Some? ==> CardDuration(Some(start), end, startLocale) == DrawerDuration(Some(start), end, now)
    ensures end.None? ==> CardDuration(Some(start), end, startLocale) == startLocale &&
                          DrawerDuration(Some(start), end, now) == FormatMinutes(MinutesBetween(start, now))
  {
  }

  /** The drawer's `formatDateTime`: a missing time is `-`, otherwise the locale rendering. */
  function FormatDateTime(at: Option<int>, locale: string): (r: string)
    ensures at.None? ==> r == "-"
    ensures at.Some? ==> r == locale
  {
    if at.None? then "-" else locale
  }

  /** `p[0] || ""`. */
  function FirstChar(p: string): (r: string)
    ensures |r| <= 1 && r <= p && (p != "" ==> |r| == 1)
  {
    if p == "" then "" else p[..1]
  }

  /** `initials`: the first characters of the first two space-separated parts, uppercased.
      Empty parts (from leading or repeated spaces) count as parts and contribute nothing. */
  function Initials(name: string): (r: string)
    ensures |r| <= 2
    ensures var parts := Split(name, ' ');
      r == Upper(FirstChar(parts[0]) + if |parts| > 1 then FirstChar(parts[1]) else "")
  {
    var parts := Split(name, ' ');
    var firsts := seq(|parts|, i requires 0 <= i < |parts| => FirstChar(parts[i]));
    var kept := if |firsts| > 2 then firsts[..2] else firsts;
    var joined := if |kept| == 1 then kept[0] else kept[0] + kept[1];
    Upper(joined)
  }

  /** Two words give their two initials. */
  lemma InitialsOfTwoWords()
    ensures Initials("ada lovelace") == "AL"
  {
    assert Join(["ada", "lovelace"], ' ') == "ada lovelace";
    SplitJoin(["ada", "lovelace"], ' ');
    assert FirstChar("ada") == "a" && FirstChar("lovelace") == "l";
    var u := Upper("a" + "l");
    assert u[0] == 'A' && u[1] == 'L';
    assert u == "AL";
  }

  /** Leading spaces use up the two slots, so `"  Bob"` has no initials at all. */
  lemma InitialsOfLeadingSpaces()
    ensures Initials("  Bob") == ""
  {
    SplitJoin(["", "", "Bob"], ' ');
    assert Join(["", "", "Bob"], ' ') == "  Bob";
  }
}
