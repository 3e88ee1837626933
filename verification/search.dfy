/** The case-insensitive search boxes of the meetings page and the agents page. */
module Search {
  import opened Common
  import opened Text
  import opened Domain
  import opened MeetingView

  /** The query as both pages normalise it: `query.trim().toLowerCase()`. */
  function NormalQuery(query: string): (q: string)
    ensures |q| <= |query|
    ensures q == "" <==> Trim(query) == ""
  {
    Lower(Trim(query))
  }

  /** A meeting matches when the query occurs in its lower-cased name, agent name or id. */
  predicate MeetingMatches(m: ClientMeeting, q: string) {
    || Includes(Lower(OrElse(m.name, "")), q)
    || Includes(Lower(SearchAgentName(m)), q)
    || Includes(Lower(OrElse(m.id, "")), q)
  }

  function MeetingMatcher(q: string): ClientMeeting -> bool {
    (m: ClientMeeting) => MeetingMatches(m, q)
  }

  /** The meetings page's `filtered`: every meeting for a blank query, otherwise the
      matching meetings in their original order. */
  function FilterMeetings(ms: seq<ClientMeeting>, query: string): (r: seq<ClientMeeting>)
    ensures Trim(query) == "" ==> r == ms
    ensures IsSubsequence(r, ms)
    ensures Trim(query) != "" ==>
      forall i :: 0 <= i < |ms| ==> (ms[i] in r <==> MeetingMatches(ms[i], NormalQuery(query)))
  {
    var q := NormalQuery(query);
    if q == "" then
      SubsequenceRefl(ms);
      ms
    else Filter(ms, MeetingMatcher(q))
  }

  /** An agent matches when the query occurs in its lower-cased name or instructions. */
  predicate AgentMatches(a: Agent, q: string) {
    Includes(Lower(a.name), q) || Includes(Lower(a.instructions), q)
  }

  function AgentMatcher(q: string): Agent -> bool {
    (a: Agent) => AgentMatches(a, q)
  }

  /** The agents page's `filtered`. */
  function FilterAgents(agents: seq<Agent>, query: string): (r: seq<Agent>)
    ensures Trim(query) == "" ==> r == agents
    ensures IsSubsequence(r, agents)
    ensures Trim(query) != "" ==>
      forall i :: 0 <= i < |agents| ==> (agents[i] in r <==> AgentMatches(agents[i], NormalQuery(query)))
  {
    var q := NormalQuery(query);
    if q == "" then
      SubsequenceRefl(agents);
      agents
    else Filter(agents, AgentMatcher(q))
  }

  /** Searching the search results again with the same query changes nothing. */
  lemma FilterMeetingsIdempotent(ms: seq<ClientMeeting>, query: string)
    ensures FilterMeetings(FilterMeetings(ms, query), query) == FilterMeetings(ms, query)
  {
    if NormalQuery(query) != "" {
      FilterIdempotent(ms, MeetingMatcher(NormalQuery(query)));
    }
  }

  lemma FilterAgentsIdempotent(agents: seq<Agent>, query: string)
    ensures FilterAgents(FilterAgents(agents, query), query) == FilterAgents(agents, query)
  {
    if NormalQuery(query) != "" {
      FilterIdempotent(agents, AgentMatcher(NormalQuery(query)));
    }
  }

  /** Typing the query in capitals finds the same meetings and agents. */
  lemma SearchIgnoresCase(ms: seq<ClientMeeting>, agents: seq<Agent>, query: string)
    ensures FilterMeetings(ms, Upper(query)) == FilterMeetings(ms, query)
    ensures FilterAgents(agents, Upper(query)) == FilterAgents(agents, query)
  {
    LowerTrimUpper(query);
  }

  /** A meeting that matches a query matches every prefix of it. */
  lemma MatchesPrefix(m: ClientMeeting, q: string, extra: string)
    requires MeetingMatches(m, q + extra)
    ensures MeetingMatches(m, q)
  {
    if Includes(Lower(OrElse(m.name, "")), q + extra) {
      IncludesPrefix(Lower(OrElse(m.name, "")), q, extra);
    } else if Includes(Lower(SearchAgentName(m)), q + extra) {
      IncludesPrefix(Lower(SearchAgentName(m)), q, extra);
    } else {
      IncludesPrefix(Lower(OrElse(m.id, "")), q, extra);
    }
  }

  lemma AgentMatchesPrefix(a: Agent, q: string, extra: string)
    requires AgentMatches(a, q + extra)
    ensures AgentMatches(a, q)
  {
    if Includes(Lower(a.name), q + extra) {
      IncludesPrefix(Lower(a.name), q, extra);
    } else {
      IncludesPrefix(Lower(a.instructions), q, extra);
    }
  }

  /** Every meeting the longer query matches, the shorter one matches too. */
  lemma MeetingMatcherWeakens(q: string, q': string)
    requires q <= q'
    ensures forall m :: MeetingMatcher(q')(m) ==> MeetingMatcher(q)(m)
  {
    var extra := q'[|q|..];
    assert q' == q + extra;
    forall m | MeetingMatcher(q')(m) ensures MeetingMatcher(q)(m) {
      MatchesPrefix(m, q, extra);
    }
  }

  lemma AgentMatcherWeakens(q: string, q': string)
    requires q <= q'
    ensures forall a :: AgentMatcher(q')(a) ==> AgentMatcher(q)(a)
  {
    var extra := q'[|q|..];
    assert q' == q + extra;
    forall a | AgentMatcher(q')(a) ensures AgentMatcher(q)(a) {
      AgentMatchesPrefix(a, q, extra);
    }
  }

  /** Typing more characters never brings back a meeting: the results for the longer query
      are a subsequence of the results for the shorter one. */
  lemma NarrowingMeetingQuery(ms: seq<ClientMeeting>, short: string, long: string)
    requires NormalQuery(short) != ""
    requires NormalQuery(short) <= NormalQuery(long)
    ensures IsSubsequence(FilterMeetings(ms, long), FilterMeetings(ms, short))
  {
    var q := NormalQuery(short);
    var q' := NormalQuery(long);
    MeetingMatcherWeakens(q, q');
    FilterStronger(ms, MeetingMatcher(q'), MeetingMatcher(q));
    assert FilterMeetings(ms, long) == Filter(ms, MeetingMatcher(q'));
    assert FilterMeetings(ms, short) == Filter(ms, MeetingMatcher(q));
  }

  /** The same for agents. */
  lemma NarrowingAgentQuery(agents: seq<Agent>, short: string, long: string)
    requires NormalQuery(short) != ""
    requires NormalQuery(short) <= NormalQuery(long)
    ensures IsSubsequence(FilterAgents(agents, long), FilterAgents(agents, short))
  {
    var q := NormalQuery(short);
    var q' := NormalQuery(long);
    AgentMatcherWeakens(q, q');
    FilterStronger(agents, AgentMatcher(q'), AgentMatcher(q));
    assert FilterAgents(agents, long) == Filter(agents, AgentMatcher(q'));
    assert FilterAgents(agents, short) == Filter(agents, AgentMatcher(q));
  }
}
