/** What the modal transitions do over several events: handler accounting
    across open and close, the shared scroll lock, Escape and Tab dispatch
    through the installed handlers. */
module ModalProperties {
  import opened Wrappers
  import opened FocusTrap
  import Detail
  import opened Modals

  /** open;close on the review modal leaves exactly the listeners that were there before. */
  lemma {:induction false} ReviewOpenCloseRestoresListeners(p: Page, place: Option<string>, focusable: seq<Elem>)
    requires Wf(p)
    ensures Close(OpenReview(p, place, focusable), ReviewModal).review.listeners == p.review.listeners
  {
    var q := OpenReview(p, place, focusable);
    RemoveAppended(p.review.listeners, q.review.untrap.value);
  }

  /** open;close on the detail modal, for a known place, leaves exactly the listeners that were there before. */
  lemma {:induction false} DetailOpenCloseRestoresListeners(p: Page, key: string, r: Detail.Ratings, focusable: seq<Elem>)
    requires Wf(p)
    requires key in Detail.LocationsData
    ensures Close(OpenDetail(p, key, r, focusable), DetailModal).detail.listeners == p.detail.listeners
  {
    var q := OpenDetail(p, key, r, focusable);
    RemoveAppended(p.detail.listeners, q.detail.untrap.value);
  }

  /** A second close changes nothing the first did not: the remover it calls
      refers to a listener that is already gone, and the announcement is the same. */
  lemma CloseIdempotent(p: Page, m: ModalId)
    ensures Close(Close(p, m), m) == Close(p, m)
  {
  }

  /** Closing a modal that is already closed, with the scroll lock already
      released and its handle's listener already removed, only rewrites the
      announcement. */
  lemma CloseWhenClosedOnlyAnnounces(p: Page, m: ModalId)
    requires Get(p, m).ariaHidden && Get(p, m).display == DisplayNone && !p.scrollLocked
    requires Get(p, m).untrap.Some? ==> Get(p, m).untrap.value !in Get(p, m).listeners
    ensures Close(p, m) == p.(live := CloseText(m))
  {
  }

  /** open;open;close leaves the first open's handler installed: the second
      open overwrote the handle that would have removed it. */
  lemma {:induction false} ReopenLeaksOneHandler(p: Page, a: Option<string>, b: Option<string>, f1: seq<Elem>, f2: seq<Elem>)
    requires Wf(p)
    ensures var q1 := OpenReview(p, a, f1);
            var q3 := Close(OpenReview(q1, b, f2), ReviewModal);
            && q3.review.listeners == p.review.listeners + [q1.review.untrap.value]
            && q3.review.untrap != q1.review.untrap
  {
    var q1 := OpenReview(p, a, f1);
    var q2 := OpenReview(q1, b, f2);
    var h1 := q1.review.untrap.value;
    var h2 := q2.review.untrap.value;
    assert q2.review.listeners == (p.review.listeners + [h1]) + [h2];
    RemoveAppended(p.review.listeners + [h1], h2);
  }

  /** The body scroll lock is one flag: closing the review modal releases it
      even while the detail modal is still open. */
  lemma SharedScrollLock(p: Page, key: string, r: Detail.Ratings, f1: seq<Elem>, place: Option<string>, f2: seq<Elem>)
    requires key in Detail.LocationsData
    ensures var q := Close(OpenReview(OpenDetail(p, key, r, f1), place, f2), ReviewModal);
            && !q.scrollLocked
            && !q.detail.ariaHidden && q.detail.display == DisplayGrid
  {
  }

  /** A modal whose only listener is the one its handle refers to, and which is
      therefore open exactly once, is closed by Escape exactly once; nothing
      is prevented and focus does not move. */
  lemma {:induction false} EscapeClosesOnce(p: Page, m: ModalId, shift: bool)
    requires Wf(p)
    requires Get(p, m).untrap.Some? && Get(p, m).listeners == [Get(p, m).untrap.value]
    ensures KeyDown(p, m, KeyEvent(EscapeKey, shift)) == (Close(p, m), false)
  {
    var h := Get(p, m).untrap.value;
    var ev := KeyEvent(EscapeKey, shift);
    var (p1, prevented) := RunHandler(p, h, ev);
    assert p1 == Close(p, m);
    assert Get(p1, m).listeners == [];
    assert Dispatch(p1, m, [], ev) == (p1, false);
    assert Dispatch(p, m, [h], ev) == (p1, false || false);
  }

  /** Escape delivered to handlers of an already-closed modal changes nothing:
      each one that is still registered closes a modal that a close no longer changes. */
  lemma {:induction false} EscapeOnSettledPage(c: Page, m: ModalId, pending: seq<Handler>, shift: bool)
    requires Close(c, m) == c
    requires ModalWf(Get(c, m), m, c.nextHandler)
    ensures Dispatch(c, m, pending, KeyEvent(EscapeKey, shift)) == (c, false)
    decreases |pending|
  {
    if |pending| > 0 {
      EscapeOnSettledPage(c, m, pending[1..], shift);
    }
  }

  /** On every well-formed page, Escape reaching a modal that has at least one
      keydown listener closes it: the first handler closes the modal, and every
      later one finds nothing more to change. Nothing is prevented. */
  lemma {:induction false} EscapeCloses(p: Page, m: ModalId, shift: bool)
    requires Wf(p)
    requires |Get(p, m).listeners| > 0
    ensures KeyDown(p, m, KeyEvent(EscapeKey, shift)) == (Close(p, m), false)
  {
    var ls := Get(p, m).listeners;
    var ev := KeyEvent(EscapeKey, shift);
    var c := Close(p, m);
    assert ls[0] in ls;
    assert RunHandler(p, ls[0], ev) == (c, false);
    CloseIdempotent(p, m);
    assert Wf(c);
    EscapeOnSettledPage(c, m, ls[1..], shift);
  }

  /** Closing a modal that is already closed still releases the shared scroll
      lock, even while the other modal is open: the state is not left unchanged. */
  lemma CloseWhenClosedReleasesOtherLock(p: Page, key: string, r: Detail.Ratings, f: seq<Elem>)
    requires key in Detail.LocationsData
    requires p.review.ariaHidden
    ensures var q := OpenDetail(p, key, r, f);
            var c := Close(q, ReviewModal);
            && q.scrollLocked && !c.scrollLocked
            && !c.detail.ariaHidden && c.review.ariaHidden
  {
  }

  /** Closing a modal that was never opened turns its unset display into `none`. */
  lemma CloseNeverOpenedSetsDisplay(m: ModalId)
    ensures Get(Initial, m).display == DisplayUnset
    ensures Get(Close(Initial, m), m).display == DisplayNone
  {
  }

  /** Right after the review modal is opened on a page with no keydown
      listener on it, Escape closes it. */
  lemma EscapeAfterOpenReview(p: Page, place: Option<string>, focusable: seq<Elem>, shift: bool)
    requires Wf(p) && p.review.listeners == []
    ensures var q := OpenReview(p, place, focusable);
            KeyDown(q, ReviewModal, KeyEvent(EscapeKey, shift)) == (Close(q, ReviewModal), false)
  {
    var q := OpenReview(p, place, focusable);
    EscapeClosesOnce(q, ReviewModal, shift);
  }

  /** After open;open, Escape runs the stale handler first; its close removes
      the newer handler, which is then skipped, and the stale one survives. */
  lemma {:induction false} EscapeAfterReopenKeepsStale(p: Page, a: Option<string>, b: Option<string>, f1: seq<Elem>, f2: seq<Elem>, shift: bool)
    requires Wf(p) && p.review.listeners == []
    ensures var q1 := OpenReview(p, a, f1);
            var q2 := OpenReview(q1, b, f2);
            var r := KeyDown(q2, ReviewModal, KeyEvent(EscapeKey, shift));
            && r == (Close(q2, ReviewModal), false)
            && r.0.review.listeners == [q1.review.untrap.value]
  {
    var q1 := OpenReview(p, a, f1);
    var q2 := OpenReview(q1, b, f2);
    var h1 := q1.review.untrap.value;
    var h2 := q2.review.untrap.value;
    var ev := KeyEvent(EscapeKey, shift);
    assert q2.review.listeners == [h1, h2];
    var c := Close(q2, ReviewModal);
    assert RemoveListener([h1, h2], h2) == [h1];
    assert c.review.listeners == [h1];
    assert RunHandler(q2, h1, ev) == (c, false);
    assert Dispatch(c, ReviewModal, [h2], ev) == Dispatch(c, ReviewModal, [], ev);
    assert Dispatch(q2, ReviewModal, [h1, h2], ev) == (c, false);
  }

  /** With one trap installed, Tab on the last captured element moves focus
      to the first and prevents the default. */
  lemma {:induction false} TabWrapsInOpenModal(p: Page, m: ModalId)
    requires Get(p, m).untrap.Some? && Get(p, m).listeners == [Get(p, m).untrap.value]
    requires var f := Get(p, m).untrap.value.focusable; |f| > 0 && p.focus == f[|f| - 1]
    ensures KeyDown(p, m, KeyEvent(TabKey, false)) == (p.(focus := Get(p, m).untrap.value.focusable[0]), true)
  {
    var h := Get(p, m).untrap.value;
    var ev := KeyEvent(TabKey, false);
    var p1 := p.(focus := h.focusable[0]);
    assert RunHandler(p, h, ev) == (p1, true);
    assert Get(p1, m) == Get(p, m);
    assert Dispatch(p1, m, [], ev) == (p1, false);
    assert [h][1..] == [];
    assert Dispatch(p, m, [h], ev) == (p1, true || false);
  }

  /** With one trap installed, a Tab that is not at a wrapping end is left to
      the browser: the page is unchanged and nothing is prevented. */
  lemma {:induction false} InnerTabPassesThrough(p: Page, m: ModalId, shift: bool)
    requires Get(p, m).untrap.Some? && Get(p, m).listeners == [Get(p, m).untrap.value]
    requires shift ==> First(Get(p, m).untrap.value.focusable) != Some(p.focus)
    requires !shift ==> Last(Get(p, m).untrap.value.focusable) != Some(p.focus)
    ensures KeyDown(p, m, KeyEvent(TabKey, shift)) == (p, false)
  {
    var h := Get(p, m).untrap.value;
    var ev := KeyEvent(TabKey, shift);
    assert RunHandler(p, h, ev) == (p, false);
    assert Dispatch(p, m, [], ev) == (p, false);
    assert [h][1..] == [];
    assert Dispatch(p, m, [h], ev) == (p, false || false);
  }
}
