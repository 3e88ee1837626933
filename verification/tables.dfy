/** What the meetings table and the agents table put in their body for the current page. */
module Tables {
  import opened Pagination

  /** The rows-per-page choices of both tables, and the initial page size. */
  const PageSizeOptions: seq<nat> := [5, 9, 15, 25, 50]
  const DefaultPageSize: nat := 9

  /** Both tables start on the first page with the default size. */
  function InitialPager(): (p: Pager)
    ensures p.page == 0 && p.rows == DefaultPageSize && p.rows in PageSizeOptions
  {
    Pager(0, DefaultPageSize)
  }

  /** A table body: the empty-state view, or the rows of the page plus, when `placeholder`
      holds, the "nothing here" row. */
  datatype Body<T> = EmptyState | Rows(rows: seq<T>, placeholder: bool)

  /** The meetings table: its empty state when it is given no meetings, otherwise the rows
      of the current page and the "No meetings found." row when that page is empty. The
      page is never empty once there are meetings, so that row is never shown. */
  function MeetingTableBody<T>(meetings: seq<T>, p: Pager): (r: Body<T>)
    requires p.rows > 0
    ensures r.EmptyState? <==> |meetings| == 0
    ensures r.Rows? ==> !r.placeholder && 0 < |r.rows| <= p.rows
    ensures r.Rows? ==> r.rows == Slice(meetings, p.page, p.rows)
  {
    if |meetings| == 0 then EmptyState
    else
      var slice := Slice(meetings, p.page, p.rows);
      Rows(slice, |slice| == 0)
  }

  /** The agents table: always a table, with the placeholder row exactly when the page is
      empty, which is exactly when there are no agents. */
  function AgentTableBody<T>(agents: seq<T>, p: Pager): (r: Body<T>)
    requires p.rows > 0
    ensures r.Rows? && |r.rows| <= p.rows
    ensures r.placeholder <==> |agents| == 0
    ensures r.rows == Slice(agents, p.page, p.rows)
  {
    var slice := Slice(agents, p.page, p.rows);
    Rows(slice, |slice| == 0)
  }

  /** Whatever the user clicks, both bodies keep showing a valid page: after any sequence of
      pager events that only selects offered sizes, starting from the initial pager, the
      size is one of the offered ones, the meetings table shows a non-empty page without
      its placeholder whenever it has meetings, and the agents table shows its placeholder
      exactly when it has no agents. */
  lemma PagerKeepsRowsVisible<T>(items: seq<T>, events: seq<PagerEvent>)
    requires forall i :: 0 <= i < |events| ==> events[i].RowsSelected? ==> events[i].n in PageSizeOptions
    ensures var q := Replay(InitialPager(), |items|, events);
      && q.rows in PageSizeOptions
      && (|items| > 0 ==> MeetingTableBody(items, q).Rows? && !MeetingTableBody(items, q).placeholder)
      && (AgentTableBody(items, q).placeholder <==> |items| == 0)
  {
  }

  /** The pager after a sequence of events on a table of `n` items. */
  function Replay(p: Pager, n: nat, events: seq<PagerEvent>): (r: Pager)
    requires p.rows > 0
    requires forall i :: 0 <= i < |events| ==> events[i].RowsSelected? ==> events[i].n in PageSizeOptions
    ensures r.rows > 0
    ensures r.rows == p.rows || r.rows in PageSizeOptions
    decreases |events|
  {
    if |events| == 0 then p
    else
      var e := events[0];
      assert e.RowsSelected? ==> e.n > 0;
      Replay(OnEvent(p, n, e), n, events[1..])
  }
}
