/** The keydown handler that `trapFocus` installs on a modal (script.js:130-153),
    as a pure function of the focusable list captured at install time, the
    element that currently has focus, and the key event. */
module FocusTrap {
  import opened Wrappers

  /** Elements of the page are abstract identities. */
  type Elem = nat

  /** The two fields of a `KeyboardEvent` the handler reads. */
  datatype KeyEvent = KeyEvent(key: string, shiftKey: bool)

  const TabKey: string := "Tab"
  const EscapeKey: string := "Escape"

  /** What one run of the handler does: where focus ends up, whether it
      called `preventDefault`, and whether it asked its modal to close. */
  datatype Outcome = Outcome(focus: Elem, prevented: bool, closes: bool)

  /** `focusable[0]`, which is `undefined` for an empty list. */
  function First(focusable: seq<Elem>): Option<Elem>
  {
    if |focusable| == 0 then None else Some(focusable[0])
  }

  /** `focusable[focusable.length - 1]`, which is `undefined` for an empty list. */
  function Last(focusable: seq<Elem>): Option<Elem>
  {
    if |focusable| == 0 then None else Some(focusable[|focusable| - 1])
  }

  /** The trap handler. `active` is `document.activeElement`; an element
      never equals `undefined`, so an empty list matches nothing. */
  function Handle(focusable: seq<Elem>, active: Elem, ev: KeyEvent): (o: Outcome)
    ensures o.prevented ==> ev.key == TabKey && |focusable| > 0
    ensures o.prevented ==>
              (ev.shiftKey && active == focusable[0] && o.focus == focusable[|focusable| - 1])
              || (!ev.shiftKey && active == focusable[|focusable| - 1] && o.focus == focusable[0])
    ensures !o.prevented ==> o.focus == active
    ensures o.closes <==> ev.key == EscapeKey
  {
    var tab := ev.key == TabKey;
    if tab && ev.shiftKey && First(focusable) == Some(active) then
      Outcome(Last(focusable).value, true, false)
    else if tab && !ev.shiftKey && Last(focusable) == Some(active) then
      Outcome(First(focusable).value, true, false)
    else
      Outcome(active, false, ev.key == EscapeKey)
  }

  /** Tab on the last element wraps to the first and prevents the default. */
  lemma TabWrapsForward(focusable: seq<Elem>, active: Elem)
    requires |focusable| > 0 && active == focusable[|focusable| - 1]
    ensures Handle(focusable, active, KeyEvent(TabKey, false)) == Outcome(focusable[0], true, false)
  {
  }

  /** Shift+Tab on the first element wraps to the last and prevents the default. */
  lemma ShiftTabWrapsBackward(focusable: seq<Elem>, active: Elem)
    requires |focusable| > 0 && active == focusable[0]
    ensures Handle(focusable, active, KeyEvent(TabKey, true))
            == Outcome(focusable[|focusable| - 1], true, false)
  {
  }

  /** Any other Tab is left to the browser: nothing is prevented and focus is not moved. */
  lemma InteriorTabUnprevented(focusable: seq<Elem>, active: Elem, shift: bool)
    requires shift ==> First(focusable) != Some(active)
    requires !shift ==> Last(focusable) != Some(active)
    ensures Handle(focusable, active, KeyEvent(TabKey, shift)) == Outcome(active, false, false)
  {
  }

  /** With a single focusable element, Tab and Shift+Tab both keep focus on it. */
  lemma SingletonKeepsFocus(e: Elem, shift: bool)
    ensures Handle([e], e, KeyEvent(TabKey, shift)) == Outcome(e, true, false)
  {
  }

  /** With nothing focusable the trap never prevents and never moves focus. */
  lemma EmptyNeverPrevents(active: Elem, ev: KeyEvent)
    ensures !Handle([], active, ev).prevented
    ensures Handle([], active, ev).focus == active
  {
  }

  /** The index a cyclic Tab order moves to: forward from `k` or backward from `k`. */
  function CyclicNext(n: nat, k: nat, backward: bool): (j: nat)
    requires k < n
    ensures j < n
  {
    if backward then (k + n - 1) % n else (k + 1) % n
  }

  /** A `NodeList` from `querySelectorAll` holds each element at most once. */
  predicate Distinct(focusable: seq<Elem>) {
    forall i, j :: 0 <= i < j < |focusable| ==> focusable[i] != focusable[j]
  }

  /** Whenever the trap moves focus, it moves it to the cyclic neighbour of
      the focused element's position in the captured list: at the two ends
      where the browser would leave the modal, the trap follows a cyclic
      Tab order. */
  lemma TrapIsCyclic(focusable: seq<Elem>, k: nat, ev: KeyEvent)
    requires Distinct(focusable)
    requires k < |focusable|
    requires Handle(focusable, focusable[k], ev).prevented
    ensures Handle(focusable, focusable[k], ev).focus
            == focusable[CyclicNext(|focusable|, k, ev.shiftKey)]
  {
  }
}
