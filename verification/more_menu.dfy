/** The keyboard and click behaviour of the "more actions" menu: which items can take
    focus, where ArrowDown/ArrowUp move it (wrapping around), what Escape and Enter do, and
    when running an action closes the menu. */
module MoreMenu {
  import opened Common

  /** An `ActionButton`: its label, whether it is disabled, whether running it keeps the
      menu open, and whether it has an `onClick`. */
  datatype Action = Action(name: string, disabled: bool, preventClose: bool, hasOnClick: bool)

  predicate Enabled(actions: seq<Action>, i: int) {
    0 <= i < |actions| && !actions[i].disabled
  }

  /** `enabledIndexes` from position `k` on. */
  function EnabledFrom(actions: seq<Action>, k: nat): (r: seq<int>)
    requires k <= |actions|
    ensures forall i :: 0 <= i < |r| ==> k <= r[i] && Enabled(actions, r[i])
    decreases |actions| - k
  {
    if k == |actions| then []
    else if !actions[k].disabled then [k] + EnabledFrom(actions, k + 1)
    else EnabledFrom(actions, k + 1)
  }

  /** `enabledIndexes`: the positions of the actions that are not disabled. */
  function EnabledIndexes(actions: seq<Action>): (r: seq<int>)
    ensures forall i :: 0 <= i < |r| ==> Enabled(actions, r[i])
  {
    EnabledFrom(actions, 0)
  }

  predicate Increasing(s: seq<int>) {
    forall i, j :: 0 <= i < j < |s| ==> s[i] < s[j]
  }

  lemma IncreasingCons(x: int, s: seq<int>)
    requires Increasing(s)
    requires forall i :: 0 <= i < |s| ==> x < s[i]
    ensures Increasing([x] + s)
  {
    var r := [x] + s;
    forall i, j | 0 <= i < j < |r| ensures r[i] < r[j] {
      assert r[j] == s[j - 1];
      if i > 0 { assert r[i] == s[i - 1]; }
    }
  }

  lemma {:induction false} EnabledFromSorted(actions: seq<Action>, k: nat)
    requires k <= |actions|
    ensures Increasing(EnabledFrom(actions, k))
    decreases |actions| - k
  {
    if k < |actions| {
      EnabledFromSorted(actions, k + 1);
      var rest := EnabledFrom(actions, k + 1);
      if !actions[k].disabled {
        assert EnabledFrom(actions, k) == [k] + rest;
        IncreasingCons(k, rest);
      } else {
        assert EnabledFrom(actions, k) == rest;
      }
    }
  }

  lemma {:induction false} EnabledFromComplete(actions: seq<Action>, k: nat)
    requires k <= |actions|
    ensures var r := EnabledFrom(actions, k);
      forall j :: k <= j < |actions| ==> (j in r <==> !actions[j].disabled)
    decreases |actions| - k
  {
    if k < |actions| {
      EnabledFromComplete(actions, k + 1);
      var rest := EnabledFrom(actions, k + 1);
      if !actions[k].disabled {
        assert EnabledFrom(actions, k) == [k] + rest;
      } else {
        assert EnabledFrom(actions, k) == rest;
        assert k !in rest;
      }
    }
  }

  /** The enabled indexes are strictly increasing and are exactly the positions of the
      actions that are not disabled. */
  lemma EnabledIndexesExact(actions: seq<Action>)
    ensures Increasing(EnabledIndexes(actions))
    ensures forall j :: 0 <= j < |actions| ==> (j in EnabledIndexes(actions) <==> !actions[j].disabled)
  {
    EnabledFromSorted(actions, 0);
    EnabledFromComplete(actions, 0);
  }

  /** Reference scan: the first enabled index at or after `k`. */
  function NextEnabled(actions: seq<Action>, k: nat): (r: Option<int>)
    ensures r.Some? ==> k <= r.value && Enabled(actions, r.value) &&
                        forall j :: k <= j < r.value ==> actions[j].disabled
    ensures r.None? ==> forall j :: k <= j < |actions| ==> actions[j].disabled
    decreases |actions| - k
  {
    if k >= |actions| then None
    else if !actions[k].disabled then Some(k)
    else NextEnabled(actions, k + 1)
  }

  /** Reference scan: the last enabled index before `k`. */
  function PrevEnabled(actions: seq<Action>, k: int): (r: Option<int>)
    ensures r.Some? ==> r.value < k && Enabled(actions, r.value) &&
                        forall j :: r.value < j < k && j < |actions| ==> actions[j].disabled
    ensures r.None? ==> forall j :: 0 <= j < k && j < |actions| ==> actions[j].disabled
    decreases k
  {
    if k <= 0 then None
    else if k - 1 < |actions| && !actions[k - 1].disabled then Some(k - 1)
    else PrevEnabled(actions, k - 1)
  }

  /** The scan finds `a` from any start with only disabled actions in between. */
  lemma {:induction false} NextIsUnique(actions: seq<Action>, a: int, k: nat)
    requires Enabled(actions, a) && k <= a
    requires forall j :: k <= j < a ==> actions[j].disabled
    ensures NextEnabled(actions, k) == Some(a)
    decreases a - k
  {
    if k < a {
      NextIsUnique(actions, a, k + 1);
    }
  }

  /** The backward scan finds `a` from any end with only disabled actions in between. */
  lemma {:induction false} PrevIsUnique(actions: seq<Action>, a: int, k: int)
    requires Enabled(actions, a) && a < k
    requires forall j :: a < j < k && j < |actions| ==> actions[j].disabled
    ensures PrevEnabled(actions, k) == Some(a)
    decreases k
  {
    if k - 1 > a {
      PrevIsUnique(actions, a, k - 1);
    }
  }

  function Above(active: int): int -> bool {
    (i: int) => i > active
  }

  function Below(active: int): int -> bool {
    (i: int) => i < active
  }

  /** The first position after `active` (`active` is -1 when no item has focus). */
  function After(active: int): nat {
    if active + 1 > 0 then active + 1 else 0
  }

  lemma FindFirstCons<T>(x: T, s: seq<T>, p: T -> bool)
    ensures FindFirst([x] + s, p) == if p(x) then Some(x) else FindFirst(s, p)
  {
    assert ([x] + s)[1..] == s;
  }

  lemma FilterCons<T>(x: T, s: seq<T>, p: T -> bool)
    ensures Filter([x] + s, p) == if p(x) then [x] + Filter(s, p) else Filter(s, p)
  {
    assert ([x] + s)[1..] == s;
  }

  /** `enabledIndexes.find(i => i > active)`, restricted to the indexes from `k` on, is the
      forward scan from the first position past both `k - 1` and `active`. */
  lemma {:induction false} FindAboveIsScan(actions: seq<Action>, k: nat, active: int)
    requires k <= |actions|
    ensures FindFirst(EnabledFrom(actions, k), Above(active)) ==
            NextEnabled(actions, if active + 1 > k then active + 1 else k)
    decreases |actions| - k
  {
    if k == |actions| {
      assert EnabledFrom(actions, k) == [];
    } else {
      FindAboveIsScan(actions, k + 1, active);
      FindAboveStep(actions, k, active);
    }
  }

  /** One step of `find` over the enabled indexes from `k`. */
  lemma FindAboveStep(actions: seq<Action>, k: nat, active: int)
    requires k < |actions|
    ensures FindFirst(EnabledFrom(actions, k), Above(active)) ==
            if !actions[k].disabled && k > active then Some(k)
            else FindFirst(EnabledFrom(actions, k + 1), Above(active))
  {
    var rest := EnabledFrom(actions, k + 1);
    if !actions[k].disabled {
      assert EnabledFrom(actions, k) == [k] + rest;
      FindFirstCons(k, rest, Above(active));
    }
  }

  function LastOf(s: seq<int>): Option<int> {
    if |s| == 0 then None else Some(s[|s| - 1])
  }

  function AtLeast(o: Option<int>, k: int): Option<int> {
    if o.Some? && o.value >= k then o else None
  }

  /** The last of `enabledIndexes.filter(i => i < active)`, restricted to the indexes from
      `k` on, is the backward scan from `active`, when that lands at `k` or later. */
  lemma {:induction false} LastBelowIsScan(actions: seq<Action>, k: nat, active: int)
    requires k <= |actions|
    ensures LastOf(Filter(EnabledFrom(actions, k), Below(active))) == AtLeast(PrevEnabled(actions, active), k)
    decreases |actions| - k
  {
    if k < |actions| {
      LastBelowIsScan(actions, k + 1, active);
      var rest := EnabledFrom(actions, k + 1);
      var f := Filter(rest, Below(active));
      if !actions[k].disabled {
        FilterCons(k, rest, Below(active));
        if k < active {
          assert Filter(EnabledFrom(actions, k), Below(active)) == [k] + f;
          if |f| == 0 {
            PrevIsUnique(actions, k, active);
          } else {
            assert ([k] + f)[|f|] == f[|f| - 1];
          }
        }
      }
    }
  }

  /** ArrowDown: `enabledIndexes.find(i => i > active) ?? enabledIndexes[0]`; `None` (focus
      stays) when all are disabled. It is the forward scan past the focus, wrapping to the
      scan from the top. */
  function ArrowDown(actions: seq<Action>, active: int): (r: Option<int>)
    ensures r == if NextEnabled(actions, After(active)).Some? then NextEnabled(actions, After(active))
                 else NextEnabled(actions, 0)
    ensures r.None? <==> forall j :: 0 <= j < |actions| ==> actions[j].disabled
    ensures r.Some? ==> Enabled(actions, r.value)
    ensures r.Some? && r.value > active ==> forall j :: active < j < r.value && 0 <= j ==> actions[j].disabled
    ensures r.Some? && r.value <= active ==>
      (forall j :: active < j < |actions| && 0 <= j ==> actions[j].disabled) &&
      (forall j :: 0 <= j < r.value ==> actions[j].disabled)
  {
    var enabled := EnabledIndexes(actions);
    FindAboveIsScan(actions, 0, active);
    match FindFirst(enabled, Above(active))
    case Some(i) => Some(i)
    case None =>
      FindAboveIsScan(actions, 0, -1);
      if |enabled| == 0 then None
      else
        FindFirstCons(enabled[0], enabled[1..], Above(-1));
        assert [enabled[0]] + enabled[1..] == enabled;
        Some(enabled[0])
  }

  /** ArrowUp: the last of `enabledIndexes.filter(i => i < active)`, else the last enabled
      index; `None` when all are disabled. It is the backward scan from the focus, wrapping
      to the scan from the bottom. */
  function ArrowUp(actions: seq<Action>, active: int): (r: Option<int>)
    ensures r == if PrevEnabled(actions, active).Some? then PrevEnabled(actions, active)
                 else PrevEnabled(actions, |actions|)
    ensures r.None? <==> forall j :: 0 <= j < |actions| ==> actions[j].disabled
    ensures r.Some? ==> Enabled(actions, r.value)
    ensures r.Some? && r.value < active ==> forall j :: r.value < j < active && j < |actions| ==> actions[j].disabled
    ensures r.Some? && r.value >= active ==>
      (forall j :: 0 <= j < active && j < |actions| ==> actions[j].disabled) &&
      (forall j :: r.value < j < |actions| ==> actions[j].disabled)
  {
    var enabled := EnabledIndexes(actions);
    var prevList := Filter(enabled, Below(active));
    LastBelowIsScan(actions, 0, active);
    if |prevList| > 0 then Some(prevList[|prevList| - 1]) else LastEnabled(actions)
  }

  /** `enabledIndexes[enabledIndexes.length - 1]`, the target ArrowUp wraps around to: the
      backward scan from the end. */
  function LastEnabled(actions: seq<Action>): (r: Option<int>)
    ensures r == PrevEnabled(actions, |actions|)
  {
    var enabled := EnabledIndexes(actions);
    LastBelowIsScan(actions, 0, |actions|);
    FilterAll(enabled, Below(|actions|));
    if |enabled| > 0 then Some(enabled[|enabled| - 1]) else None
  }

  /** Focus on open: `actions.findIndex(a => !a.disabled)`, nothing when all are disabled. */
  function FirstEnabled(actions: seq<Action>): (r: Option<int>)
    ensures r.Some? ==> Enabled(actions, r.value) && forall j :: 0 <= j < r.value ==> actions[j].disabled
    ensures r.None? <==> forall j :: 0 <= j < |actions| ==> actions[j].disabled
  {
    FirstIndex(actions, (a: Action) => !a.disabled)
  }

  /** Opening focuses what ArrowDown from no focus would focus. */
  lemma OpenFocusIsArrowDown(actions: seq<Action>)
    ensures FirstEnabled(actions) == ArrowDown(actions, -1)
  {
    var f := FirstEnabled(actions);
    if f.Some? {
      NextIsUnique(actions, f.value, 0);
    }
  }

  /** ArrowUp undoes ArrowDown from any enabled item, wrap-around included. */
  lemma ArrowUpUndoesArrowDown(actions: seq<Action>, a: nat)
    requires Enabled(actions, a)
    ensures ArrowDown(actions, a).Some?
    ensures ArrowUp(actions, ArrowDown(actions, a).value) == Some(a)
  {
    var d := ArrowDown(actions, a).value;
    if NextEnabled(actions, a + 1).Some? {
      PrevIsUnique(actions, a, d);
    } else {
      PrevIsUnique(actions, a, |actions|);
    }
  }

  /** ArrowDown undoes ArrowUp from any enabled item, wrap-around included. */
  lemma ArrowDownUndoesArrowUp(actions: seq<Action>, a: nat)
    requires Enabled(actions, a)
    ensures ArrowUp(actions, a).Some?
    ensures ArrowDown(actions, ArrowUp(actions, a).value) == Some(a)
  {
    var u := ArrowUp(actions, a).value;
    assert After(u) == u + 1;
    if PrevEnabled(actions, a).Some? {
      NextIsUnique(actions, a, u + 1);
    } else {
      assert NextEnabled(actions, u + 1).None?;
      NextIsUnique(actions, a, 0);
    }
  }

  /** The open flag and the index of the focused item (-1 when no item has focus). */
  datatype Menu = Menu(open: bool, focus: int)

  datatype Key = ArrowDownKey | ArrowUpKey | EnterKey | EscapeKey | OtherKey(name: string)

  /** What `handleAction` does with an action: whether `onClick` runs and whether the menu
      is still open afterwards. Whether `onClick` throws does not matter: the close runs in
      `finally`. */
  datatype Outcome = Outcome(menu: Menu, ranOnClick: bool)

  function HandleAction(m: Menu, a: Action, onClickThrows: bool): (r: Outcome)
    ensures a.disabled ==> r == Outcome(m, false)
    ensures !a.disabled ==> r.ranOnClick == a.hasOnClick && r.menu.focus == m.focus &&
                            (r.menu.open <==> m.open && a.preventClose)
  {
    if a.disabled then Outcome(m, false)
    else Outcome(if a.preventClose then m else m.(open := false), a.hasOnClick)
  }

  /** The outcome does not depend on whether `onClick` throws. */
  lemma ThrowingDoesNotMatter(m: Menu, a: Action)
    ensures HandleAction(m, a, true) == HandleAction(m, a, false)
  {
  }

  /** The open menu's key handler. Escape closes it (focus returns to the trigger); keys
      other than the arrows, Enter and Escape are ignored; the arrows move focus; Enter
      clicks the focused item. */
  function OnKey(m: Menu, actions: seq<Action>, key: Key): (r: Outcome)
    requires m.open
    ensures key.OtherKey? ==> r == Outcome(m, false)
    ensures key == EscapeKey ==> r == Outcome(Menu(false, -1), false)
    ensures (key == ArrowDownKey || key == ArrowUpKey) ==> r.menu.open && !r.ranOnClick
    ensures (key == ArrowDownKey || key == ArrowUpKey) && r.menu.focus != m.focus ==> Enabled(actions, r.menu.focus)
    ensures key == EnterKey && Enabled(actions, m.focus) ==> r == HandleAction(m, actions[m.focus], false)
  {
    match key
    case EscapeKey => Outcome(Menu(false, -1), false)
    case OtherKey(_) => Outcome(m, false)
    case ArrowDownKey =>
      (match ArrowDown(actions, m.focus)
       case Some(i) => Outcome(m.(focus := i), false)
       case None => Outcome(m, false))
    case ArrowUpKey =>
      (match ArrowUp(actions, m.focus)
       case Some(i) => Outcome(m.(focus := i), false)
       case None => Outcome(m, false))
    case EnterKey =>
      if 0 <= m.focus < |actions| then HandleAction(m, actions[m.focus], false) else Outcome(m, false)
  }

  /** The trigger toggles the menu; opening it focuses the first enabled item. */
  function ClickTrigger(m: Menu, actions: seq<Action>): (r: Menu)
    ensures r.open == !m.open
    ensures r.open ==> (r.focus == -1 <==> FirstEnabled(actions).None?)
    ensures r.open && r.focus != -1 ==> Enabled(actions, r.focus)
  {
    if m.open then Menu(false, -1)
    else Menu(true, match FirstEnabled(actions) case Some(i) => i case None => -1)
  }

  /** Focus is only ever on an enabled item, or on none. */
  predicate FocusOk(m: Menu, actions: seq<Action>) {
    m.focus == -1 || Enabled(actions, m.focus)
  }

  /** Opening the menu and then any key keeps focus off disabled items. */
  lemma FocusStaysEnabled(m: Menu, actions: seq<Action>, key: Key)
    requires m.open && FocusOk(m, actions)
    ensures FocusOk(OnKey(m, actions, key).menu, actions)
    ensures FocusOk(ClickTrigger(m, actions), actions)
  {
  }
}
