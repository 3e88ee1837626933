/** The client-side pagination shared by the meetings table and the agents table: the page
    count, the clamped current page, the displayed window, the Previous/Next buttons and
    the rows-per-page selector. */
module Pagination {

  /** `Math.max(1, Math.ceil(n / rows))`: the least number of pages of `rows` items that
      hold `n` items, and never less than one. */
  function PageCount(n: nat, rows: nat): (r: nat)
    requires rows > 0
    ensures r >= 1
    ensures n == 0 ==> r == 1
    ensures n > 0 ==> (r - 1) * rows < n <= r * rows
  {
    if n == 0 then 1
    else
      var q := (n + rows - 1) / rows;
      assert q * rows <= n + rows - 1 < q * rows + rows;
      q
  }

  /** `Math.min(page, pageCount - 1)`. The page state starts at 0 and is only ever set to
      0 or to the clamped values below, so it is a natural number. */
  function Current(page: nat, pageCount: nat): (r: nat)
    requires pageCount >= 1
    ensures r < pageCount
    ensures page < pageCount ==> r == page
    ensures page >= pageCount ==> r == pageCount - 1
  {
    if page < pageCount - 1 then page else pageCount - 1
  }

  /** `items.slice(current * rows, current * rows + rows)` (JavaScript clamps both ends). */
  function Window<T>(items: seq<T>, current: nat, rows: nat): (r: seq<T>)
    ensures |r| <= rows
    ensures current * rows >= |items| ==> r == []
    ensures current * rows < |items| ==> |r| == if current * rows + rows <= |items| then rows else |items| - current * rows
    ensures forall i :: 0 <= i < |r| ==> current * rows + i < |items| && r[i] == items[current * rows + i]
  {
    var start := if current * rows <= |items| then current * rows else |items|;
    var end := if start + rows <= |items| then start + rows else |items|;
    items[start..end]
  }

  /** The rows the table displays for the stored page state. */
  function Slice<T>(items: seq<T>, page: nat, rows: nat): (r: seq<T>)
    requires rows > 0
    ensures |r| <= rows
    ensures |items| > 0 ==> |r| > 0
    ensures var c := Current(page, PageCount(|items|, rows));
      forall i :: 0 <= i < |r| ==> c * rows + i < |items| && r[i] == items[c * rows + i]
  {
    var pc := PageCount(|items|, rows);
    var c := Current(page, pc);
    assert |items| > 0 ==> c * rows <= (pc - 1) * rows < |items| by {
      if |items| > 0 { MulMono(c, pc - 1, rows); }
    }
    Window(items, c, rows)
  }

  lemma MulMono(a: nat, b: nat, k: nat)
    requires a <= b
    ensures a * k <= b * k
  {
  }

  /** "Previous": enabled unless on the first page, and goes back one page, never below 0. */
  predicate PrevDisabled(current: nat) {
    current == 0
  }

  function PrevPage(current: nat): (r: nat)
    ensures current == 0 ==> r == 0
    ensures current > 0 ==> r == current - 1
  {
    if current == 0 then 0 else current - 1
  }

  /** "Next": enabled unless on the last page, and goes forward one page, never past the last. */
  predicate NextDisabled(current: nat, pageCount: nat) {
    current >= pageCount - 1
  }

  function NextPage(current: nat, pageCount: nat): (r: nat)
    requires current < pageCount
    ensures r < pageCount
    ensures current + 1 < pageCount ==> r == current + 1
    ensures current + 1 >= pageCount ==> r == pageCount - 1
  {
    if current + 1 <= pageCount - 1 then current + 1 else pageCount - 1
  }

  /** The table's pagination state. */
  datatype Pager = Pager(page: nat, rows: nat)

  datatype PagerEvent = PrevClicked | NextClicked | RowsSelected(n: nat)

  /** One user event on the controls of a table of `n` items: the displayed page moves one
      step within the existing pages (a disabled button does nothing at all), and choosing a
      page size also returns to the first page. */
  function OnEvent(p: Pager, n: nat, e: PagerEvent): (r: Pager)
    requires p.rows > 0
    requires e.RowsSelected? ==> e.n > 0
    ensures r.rows > 0
    ensures e.RowsSelected? ==> r == Pager(0, e.n)
    ensures !e.RowsSelected? ==> r.rows == p.rows
    ensures var pc := PageCount(n, p.rows);
            var c := Current(p.page, pc);
            && (e.PrevClicked? ==> Current(r.page, pc) == if c == 0 then 0 else c - 1)
            && (e.NextClicked? ==> Current(r.page, pc) == if c + 1 < pc then c + 1 else pc - 1)
  {
    var pc := PageCount(n, p.rows);
    var c := Current(p.page, pc);
    match e
    case PrevClicked => if PrevDisabled(c) then p else p.(page := PrevPage(c))
    case NextClicked => if NextDisabled(c, pc) then p else p.(page := NextPage(c, pc))
    case RowsSelected(k) => Pager(0, k)
  }

  /** Next and then Previous return to the page one started on, when Next was enabled. */
  lemma NextThenPrev(current: nat, pageCount: nat)
    requires current < pageCount && !NextDisabled(current, pageCount)
    ensures !PrevDisabled(NextPage(current, pageCount))
    ensures PrevPage(NextPage(current, pageCount)) == current
  {
  }

  /** The pages as a reference definition: cut `items` into consecutive blocks of `rows`. */
  function Pages<T>(items: seq<T>, rows: nat): (r: seq<seq<T>>)
    requires rows > 0
    ensures |r| >= 1
    decreases |items|
  {
    if |items| <= rows then [items] else [items[..rows]] + Pages(items[rows..], rows)
  }

  function Concat<T>(pages: seq<seq<T>>): seq<T>
    decreases |pages|
  {
    if |pages| == 0 then [] else pages[0] + Concat(pages[1..])
  }

  /** The blocks put back together give the items: nothing is lost or repeated. */
  lemma {:induction false} PagesConcat<T>(items: seq<T>, rows: nat)
    requires rows > 0
    ensures Concat(Pages(items, rows)) == items
    decreases |items|
  {
    if |items| > rows {
      PagesConcat(items[rows..], rows);
      var rest := Pages(items[rows..], rows);
      assert ([items[..rows]] + rest)[1..] == rest;
      assert items[..rows] + items[rows..] == items;
    } else {
      assert Concat([items][1..]) == [];
    }
  }

  /** At most one page count fits the ceiling bounds. */
  lemma CeilUnique(a: nat, b: nat, n: nat, rows: nat)
    requires a >= 1 && b >= 1
    requires (a - 1) * rows < n <= a * rows
    requires (b - 1) * rows < n <= b * rows
    ensures a == b
  {
    if a < b { MulMono(a, b - 1, rows); }
    if b < a { MulMono(b, a - 1, rows); }
  }

  /** Dropping the first page leaves one page fewer. */
  lemma PageCountStep(n: nat, rows: nat)
    requires rows > 0 && n > rows
    ensures PageCount(n, rows) == PageCount(n - rows, rows) + 1
  {
    var p := PageCount(n - rows, rows);
    assert (p - 1) * rows + rows == p * rows;
    assert p * rows + rows == (p + 1) * rows;
    CeilUnique(PageCount(n, rows), p + 1, n, rows);
  }

  /** Page `c` of the items is page `c - 1` of the items after the first page. */
  lemma SliceStep<T>(items: seq<T>, rows: nat, c: nat)
    requires rows > 0 && |items| > rows
    requires 0 < c < PageCount(|items|, rows)
    ensures Slice(items, c, rows) == Slice(items[rows..], c - 1, rows)
  {
    var tail := items[rows..];
    PageCountStep(|items|, rows);
    var s1 := Slice(items, c, rows);
    var s0 := Slice(tail, c - 1, rows);
    assert (c - 1) * rows + rows == c * rows;
    assert |s1| == |s0|;
    forall i | 0 <= i < |s1| ensures s1[i] == s0[i] {
      assert s1[i] == items[c * rows + i];
      assert s0[i] == tail[(c - 1) * rows + i];
    }
  }

  /** There are exactly `PageCount` blocks, and block `c` is what the table shows on page `c`. */
  lemma {:induction false} PagesAreSlices<T>(items: seq<T>, rows: nat, c: nat)
    requires rows > 0
    ensures |Pages(items, rows)| == PageCount(|items|, rows)
    ensures c < |Pages(items, rows)| ==> Pages(items, rows)[c] == Slice(items, c, rows)
    decreases |items|
  {
    if |items| > rows {
      var tail := items[rows..];
      PagesAreSlices(tail, rows, if c > 0 then c - 1 else 0);
      PageCountStep(|items|, rows);
      if 0 < c < |Pages(items, rows)| {
        SliceStep(items, rows, c);
      } else if c == 0 {
        assert Slice(items, 0, rows) == items[..rows];
      }
    }
  }
}
