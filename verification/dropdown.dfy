/** The navigation dropdowns (script.js:347-369): a click on a toggle closes
    every menu and collapses every toggle, then re-opens the clicked one if
    it was collapsed before. */
module Dropdown {

  /** `expanded[t]` is whether toggle `t` has `aria-expanded="true"`;
      `menuHidden[k]` is menu `k`'s `aria-hidden`; `menuOf[t]` is the menu
      that follows toggle `t` (its `nextElementSibling`). */
  datatype Menus = Menus(expanded: seq<bool>, menuHidden: seq<bool>, menuOf: seq<nat>)

  /** Every toggle is followed by one of the menus. */
  predicate Wf(d: Menus) {
    && |d.menuOf| == |d.expanded|
    && forall t :: 0 <= t < |d.menuOf| ==> d.menuOf[t] < |d.menuHidden|
  }

  /** The click handler of toggle `t`. */
  function Click(d: Menus, t: nat): (e: Menus)
    requires Wf(d) && t < |d.expanded|
    ensures Wf(e) && e.menuOf == d.menuOf
    ensures |e.expanded| == |d.expanded| && |e.menuHidden| == |d.menuHidden|
    ensures forall j :: 0 <= j < |e.expanded| && j != t ==> !e.expanded[j]
    ensures e.expanded[t] <==> !d.expanded[t]
    ensures forall k :: 0 <= k < |e.menuHidden| && k != d.menuOf[t] ==> e.menuHidden[k]
    ensures e.menuHidden[d.menuOf[t]] <==> d.expanded[t]
  {
    var wasExpanded := d.expanded[t];
    var collapsed := seq(|d.expanded|, _ => false);
    var hidden := seq(|d.menuHidden|, _ => true);
    if wasExpanded then Menus(collapsed, hidden, d.menuOf)
    else Menus(collapsed[t := true], hidden[d.menuOf[t] := false], d.menuOf)
  }

  predicate AtMostOneExpanded(d: Menus) {
    forall i, j :: 0 <= i < j < |d.expanded| ==> !(d.expanded[i] && d.expanded[j])
  }

  predicate AllClosed(d: Menus) {
    && (forall j :: 0 <= j < |d.expanded| ==> !d.expanded[j])
    && (forall k :: 0 <= k < |d.menuHidden| ==> d.menuHidden[k])
  }

  /** Whatever the state before, after any click at most one toggle is expanded,
      and only the clicked toggle's menu can be shown. */
  lemma ClickLeavesAtMostOne(d: Menus, t: nat)
    requires Wf(d) && t < |d.expanded|
    ensures AtMostOneExpanded(Click(d, t))
    ensures forall k :: 0 <= k < |d.menuHidden| && !Click(d, t).menuHidden[k] ==> k == d.menuOf[t]
  {
  }

  /** From the all-closed state, two clicks on the same toggle return to it. */
  lemma ClickTwiceRestores(d: Menus, t: nat)
    requires Wf(d) && t < |d.expanded| && AllClosed(d)
    ensures Click(Click(d, t), t) == d
  {
  }

  /** Clicking a different toggle moves the open menu over to it. */
  lemma ClickOtherSwitches(d: Menus, s: nat, t: nat)
    requires Wf(d) && s < |d.expanded| && t < |d.expanded| && s != t && AllClosed(d)
    ensures var e := Click(Click(d, s), t);
            e.expanded[t] && !e.expanded[s] && !e.menuHidden[d.menuOf[t]]
  {
  }
}
