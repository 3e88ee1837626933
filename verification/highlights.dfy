/** `getHighlightsFromSummary`: the bullet points the meeting drawer shows for a summary. */
module Highlights {
  import opened Common
  import opened Text

  /** The characters that end a sentence. */
  predicate IsStop(c: char) {
    c == '.' || c == '?' || c == '!'
  }

  /** The pattern `/(?<=[.?!])\s+/` can start matching at `k`: a sentence end precedes
      position `k`, and whitespace starts there. */
  predicate BoundaryAt(s: string, k: int) {
    1 <= k < |s| && IsStop(s[k - 1]) && IsSpace(s[k])
  }

  /** No split point anywhere in `s`. */
  predicate Unbroken(s: string) {
    forall k :: 1 <= k < |s| ==> !BoundaryAt(s, k)
  }

  /** The first split point at or after `from`. */
  function FirstBoundary(s: string, from: nat): (r: Option<nat>)
    ensures r.Some? ==> from <= r.value && BoundaryAt(s, r.value) &&
                        forall k :: from <= k < r.value ==> !BoundaryAt(s, k)
    ensures r.None? ==> forall k :: from <= k ==> !BoundaryAt(s, k)
    decreases |s| - from
  {
    if from >= |s| then None
    else if BoundaryAt(s, from) then Some(from)
    else FirstBoundary(s, from + 1)
  }

  /** The end of the run of whitespace that starts at `k` (the greedy `\s+`). */
  function SpaceRunEnd(s: string, k: nat): (e: nat)
    requires k <= |s|
    ensures k <= e <= |s|
    ensures forall i :: k <= i < e ==> IsSpace(s[i])
    ensures e == |s| || !IsSpace(s[e])
    decreases |s| - k
  {
    if k < |s| && IsSpace(s[k]) then SpaceRunEnd(s, k + 1) else k
  }

  /** `text.split(/(?<=[.?!])\s+/)`: the pieces between the whitespace runs that follow a
      sentence end. No piece contains a split point; every piece but the last ends a
      sentence; every piece but the first starts with a non-space character. */
  function SplitSentences(s: string): (r: seq<string>)
    ensures |r| >= 1 && r[0] <= s
    ensures forall i :: 0 <= i < |r| ==> Unbroken(r[i])
    ensures forall i :: 0 <= i < |r| - 1 ==> |r[i]| > 0 && IsStop(r[i][|r[i]| - 1])
    ensures forall i :: 1 <= i < |r| ==> |r[i]| == 0 || !IsSpace(r[i][0])
    decreases |s|
  {
    match FirstBoundary(s, 1)
    case None => [s]
    case Some(k) =>
      var e := SpaceRunEnd(s, k);
      var rest := SplitSentences(s[e..]);
      assert forall j :: !BoundaryAt(s[..k], j) by {
        forall j | BoundaryAt(s[..k], j) ensures false {
          assert BoundaryAt(s, j);
        }
      }
      assert |rest[0]| > 0 ==> rest[0][0] == s[e];
      var r := [s[..k]] + rest;
      assert r[1..] == rest;
      r
  }

  /** The sentences joined with single spaces. */
  function JoinSentences(parts: seq<string>): string
    requires |parts| >= 1
  {
    Join(parts, ' ')
  }

  /** The shape `SplitSentences` produces. */
  predicate SentenceList(parts: seq<string>) {
    && |parts| >= 1
    && (forall i :: 0 <= i < |parts| ==> Unbroken(parts[i]))
    && (forall i :: 0 <= i < |parts| - 1 ==> |parts[i]| > 0 && IsStop(parts[i][|parts[i]| - 1]))
    && (forall i :: 1 <= i < |parts| ==> |parts[i]| == 0 || !IsSpace(parts[i][0]))
  }

  lemma JoinFirst(parts: seq<string>)
    requires |parts| >= 1
    ensures |parts[0]| > 0 ==> |Join(parts, ' ')| > 0 && Join(parts, ' ')[0] == parts[0][0]
    ensures |parts| == 1 ==> Join(parts, ' ') == parts[0]
  {
  }

  /** Splitting undoes joining with single spaces: every list of the shape the split
      produces is produced from its own join. */
  lemma {:induction false} SplitJoinSentences(parts: seq<string>)
    requires SentenceList(parts)
    ensures SplitSentences(JoinSentences(parts)) == parts
    decreases |parts|
  {
    var s := JoinSentences(parts);
    if |parts| == 1 {
      assert s == parts[0];
      assert FirstBoundary(s, 1).None?;
    } else {
      var p := parts[0];
      var t := Join(parts[1..], ' ');
      assert s == p + [' '] + t;
      JoinedBoundary(p, t);
      JoinFirst(parts[1..]);
      assert |parts[1]| > 0 ==> !IsSpace(t[0]);
      SingleSpaceRun(s, |p|);
      SplitSentencesStep(s, |p|);
      assert s[..|p|] == p;
      assert s[|p| + 1..] == t;
      SentenceListTail(parts);
      SplitJoinSentences(parts[1..]);
      assert [p] + parts[1..] == parts;
    }
  }

  /** The first split point of `p + " " + t` is the space after `p`, when `p` ends a
      sentence and has no split point of its own. */
  lemma JoinedBoundary(p: string, t: string)
    requires |p| > 0 && IsStop(p[|p| - 1]) && Unbroken(p)
    ensures FirstBoundary(p + [' '] + t, 1) == Some(|p|)
  {
    var s := p + [' '] + t;
    forall k | 1 <= k < |p| ensures !BoundaryAt(s, k) {
      assert !BoundaryAt(p, k);
    }
    FirstBoundaryIs(s, 1, |p|);
  }

  lemma {:induction false} FirstBoundaryIs(s: string, from: nat, k: nat)
    requires from <= k && BoundaryAt(s, k)
    requires forall j :: from <= j < k ==> !BoundaryAt(s, j)
    ensures FirstBoundary(s, from) == Some(k)
    decreases k - from
  {
    if from < k {
      FirstBoundaryIs(s, from + 1, k);
    }
  }

  /** A single space followed by the end or by a non-space is a run of length one. */
  lemma SingleSpaceRun(s: string, k: nat)
    requires k < |s| && IsSpace(s[k])
    requires k + 1 == |s| || !IsSpace(s[k + 1])
    ensures SpaceRunEnd(s, k) == k + 1
  {
    assert SpaceRunEnd(s, k) == SpaceRunEnd(s, k + 1);
  }

  lemma SplitSentencesStep(s: string, k: nat)
    requires FirstBoundary(s, 1) == Some(k)
    ensures SplitSentences(s) == [s[..k]] + SplitSentences(s[SpaceRunEnd(s, k)..])
  {
  }

  lemma SentenceListTail(parts: seq<string>)
    requires SentenceList(parts) && |parts| > 1
    ensures SentenceList(parts[1..])
  {
    forall i | 1 <= i < |parts[1..]| ensures |parts[1..][i]| == 0 || !IsSpace(parts[1..][i][0]) {
      assert parts[1..][i] == parts[i + 1];
    }
  }

  predicate NonEmpty(s: string) {
    s != ""
  }

  function NonEmptyText(): string -> bool {
    (s: string) => NonEmpty(s)
  }

  /** `.map((s) => s.trim())`. */
  function TrimAll(parts: seq<string>): (r: seq<string>)
    ensures |r| == |parts|
    ensures forall i :: 0 <= i < |r| ==> Trimmed(r[i])
  {
    var r := seq(|parts|, i requires 0 <= i < |parts| => Trim(parts[i]));
    assert forall i :: 0 <= i < |r| ==> Trimmed(r[i]) by {
      forall i | 0 <= i < |r| ensures Trimmed(r[i]) {
        TrimIsTrimmed(parts[i]);
      }
    }
    r
  }

  lemma TrimIsTrimmed(s: string)
    ensures Trimmed(Trim(s))
  {
    var t := Trim(s);
    assert |t| == 0 || (!IsSpace(t[0]) && !IsSpace(t[|t| - 1]));
  }

  /** The trimmed, non-empty sentences of a summary. */
  function Pieces(text: string): (r: seq<string>)
    ensures forall i :: 0 <= i < |r| ==> r[i] != "" && Trimmed(r[i])
  {
    Filter(TrimAll(SplitSentences(text)), NonEmptyText())
  }

  const CapLength := 120
  const CutLength := 117

  /** `s.length > 120 ? s.slice(0, 117) + "…" : s`. */
  function Shorten(s: string): (r: string)
    ensures |s| <= CapLength ==> r == s
    ensures |s| > CapLength ==> |r| == CutLength + 1 && r[..CutLength] == s[..CutLength] && r[CutLength] == '…'
    ensures s != "" && Trimmed(s) ==> r != "" && Trimmed(r)
  {
    if |s| > CapLength then s[..CutLength] + "…" else s
  }

  /** `getHighlightsFromSummary(text, max)`: no bullets for a missing or empty summary; all
      sentences when there are at most `max`; otherwise the first `max`, each cut to 117
      characters and an ellipsis when longer than 120. Every bullet is non-empty and has
      no surrounding whitespace. */
  function Highlights(text: Option<string>, max: nat): (r: seq<string>)
    ensures text.None? || text == Some("") ==> r == []
    ensures |r| <= max
    ensures forall i :: 0 <= i < |r| ==> r[i] != "" && Trimmed(r[i])
    ensures text.Some? && |Pieces(text.value)| <= max ==> r == Pieces(text.value)
    ensures text.Some? && text.value != "" && |Pieces(text.value)| > max ==>
      |r| == max && forall i :: 0 <= i < max ==> |r[i]| <= CapLength && r[i] == Shorten(Pieces(text.value)[i])
  {
    if text.None? || text.value == "" then []
    else
      var parts := Pieces(text.value);
      if |parts| <= max then parts
      else ShortenFirst(parts, max)
  }

  /** `parts.slice(0, max).map(shorten)`. */
  function ShortenFirst(parts: seq<string>, max: nat): (r: seq<string>)
    requires max <= |parts|
    requires forall i :: 0 <= i < |parts| ==> parts[i] != "" && Trimmed(parts[i])
    ensures |r| == max
    ensures forall i :: 0 <= i < max ==> r[i] != "" && Trimmed(r[i]) && |r[i]| <= CapLength && r[i] == Shorten(parts[i])
  {
    seq(max, i requires 0 <= i < max => Shorten(parts[i]))
  }

  /** The insights card asks for at most four bullets. */
  const InsightsMax: nat := 4

  function InsightBullets(summary: Option<string>): (r: seq<string>)
    ensures |r| <= 4
  {
    Highlights(summary, InsightsMax)
  }

  /** A summary written as at most `max` trimmed sentences, each ending in `.`, `?` or `!`
      and separated by single spaces, gives back exactly those sentences. */
  lemma HighlightsOfSentences(sentences: seq<string>, max: nat)
    requires 1 <= |sentences| <= max
    requires forall i :: 0 <= i < |sentences| ==>
      sentences[i] != "" && Trimmed(sentences[i]) && Unbroken(sentences[i]) &&
      IsStop(sentences[i][|sentences[i]| - 1])
    ensures Highlights(Some(JoinSentences(sentences)), max) == sentences
  {
    PiecesOfSentences(sentences);
    JoinFirst(sentences);
  }

  lemma PiecesOfSentences(sentences: seq<string>)
    requires 1 <= |sentences|
    requires forall i :: 0 <= i < |sentences| ==>
      sentences[i] != "" && Trimmed(sentences[i]) && Unbroken(sentences[i]) &&
      IsStop(sentences[i][|sentences[i]| - 1])
    ensures Pieces(JoinSentences(sentences)) == sentences
  {
    assert SentenceList(sentences);
    SplitJoinSentences(sentences);
    TrimAllOfTrimmed(sentences);
    FilterAll(sentences, NonEmptyText());
  }

  lemma TrimAllOfTrimmed(parts: seq<string>)
    requires forall i :: 0 <= i < |parts| ==> Trimmed(parts[i])
    ensures TrimAll(parts) == parts
  {
    forall i | 0 <= i < |parts| ensures TrimAll(parts)[i] == parts[i] {
      TrimOfTrimmed(parts[i]);
    }
  }
}
