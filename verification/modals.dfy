/** The review and detail modals (script.js:129-283): opening, closing, the
    keydown handlers `trapFocus` installs and the handles that remove them,
    the shared body scroll lock, and the live-region announcement. The page
    is an immutable record and every event is a pure transition on it. */
module Modals {
  import opened Wrappers
  import opened FocusTrap
  import Detail

  datatype ModalId = ReviewModal | DetailModal

  function Other(m: ModalId): ModalId {
    match m
    case ReviewModal => DetailModal
    case DetailModal => ReviewModal
  }

  /** Fixed elements of the page: the document body, each modal's overlay
      root, and each modal's title (`review-title`, `detail-title`). */
  const BodyElem: Elem := 0

  function Root(m: ModalId): Elem {
    match m
    case ReviewModal => 1
    case DetailModal => 2
  }

  function TitleElem(m: ModalId): Elem {
    match m
    case ReviewModal => 3
    case DetailModal => 4
  }

  /** `style.display` of a modal: untouched by script, `grid`, or `none`. */
  datatype Display = DisplayUnset | DisplayGrid | DisplayNone

  /** One closure created by `trapFocus`. Every call creates a new closure,
      so each carries a fresh identity; it remembers its modal and the
      focusable list queried at install time. */
  datatype Handler = Handler(id: nat, modal: ModalId, focusable: seq<Elem>)

  /** One modal element: its `aria-hidden` flag, its display, the keydown
      listeners registered on it (in registration order), and the module
      variable `untrapReview`/`untrapDetail` holding the last remover. */
  datatype Modal = Modal(ariaHidden: bool, display: Display, listeners: seq<Handler>, untrap: Option<Handler>)

  /** The page state these handlers touch. `scrollLocked` is
      `document.body.style.overflow == "hidden"`, one flag shared by both
      modals; `live` is the text of the `sr-live` region; `whereValue` is the
      review form's "where" input; `detailView` what the detail modal shows. */
  datatype Page = Page(
    review: Modal,
    detail: Modal,
    scrollLocked: bool,
    live: string,
    focus: Elem,
    nextHandler: nat,
    whereValue: string,
    detailView: Option<Detail.View>)

  const ClosedModal: Modal := Modal(true, DisplayUnset, [], None)

  /** The page as loaded: both modals hidden, nothing installed, nothing announced. */
  const Initial: Page := Page(ClosedModal, ClosedModal, false, "", BodyElem, 0, "", None)

  function Get(p: Page, m: ModalId): Modal {
    match m
    case ReviewModal => p.review
    case DetailModal => p.detail
  }

  function Put(p: Page, m: ModalId, x: Modal): (q: Page)
    ensures Get(q, m) == x && Get(q, Other(m)) == Get(p, Other(m))
    ensures q.scrollLocked == p.scrollLocked && q.live == p.live && q.focus == p.focus
    ensures q.nextHandler == p.nextHandler && q.whereValue == p.whereValue && q.detailView == p.detailView
  {
    match m
    case ReviewModal => p.(review := x)
    case DetailModal => p.(detail := x)
  }

  /** Every handler on modal `m`, and the one its handle refers to, was
      created for `m` before the counter reached `next`. */
  predicate ModalWf(x: Modal, m: ModalId, next: nat) {
    && (forall h :: h in x.listeners ==> h.id < next && h.modal == m)
    && (x.untrap.Some? ==> x.untrap.value.id < next && x.untrap.value.modal == m)
  }

  /** The invariant every reachable page keeps. */
  predicate Wf(p: Page) {
    ModalWf(p.review, ReviewModal, p.nextHandler) && ModalWf(p.detail, DetailModal, p.nextHandler)
  }

  lemma InitialWf()
    ensures Wf(Initial)
  {
  }

  /** `addEventListener`: registering a listener that is already registered does nothing. */
  function AddListener(ls: seq<Handler>, h: Handler): (r: seq<Handler>)
    ensures forall x :: x in r <==> x in ls || x == h
    ensures |ls| <= |r| && r[..|ls|] == ls
    ensures h in ls ==> r == ls
    ensures h !in ls ==> |r| == |ls| + 1
  {
    if h in ls then ls else ls + [h]
  }

  /** `removeEventListener`: drops the given listener and keeps the others in order. */
  function RemoveListener(ls: seq<Handler>, h: Handler): (r: seq<Handler>)
    ensures forall x :: x in r <==> x in ls && x != h
    ensures h !in ls ==> r == ls
    ensures |r| <= |ls|
  {
    if |ls| == 0 then []
    else (if ls[0] == h then [] else [ls[0]]) + RemoveListener(ls[1..], h)
  }

  /** Removing a listener just appended, and not registered before, restores the list. */
  lemma {:induction false} RemoveAppended(ls: seq<Handler>, h: Handler)
    requires h !in ls
    ensures RemoveListener(ls + [h], h) == ls
    decreases |ls|
  {
    if |ls| == 0 {
      assert RemoveListener([h], h) == [] + RemoveListener([], h);
    } else {
      assert (ls + [h])[1..] == ls[1..] + [h];
      RemoveAppended(ls[1..], h);
    }
  }

  /** The part of opening shared by both modals (script.js:159-165, 238-242):
      visible, displayed as a grid, body scroll locked, one new keydown
      handler installed and its remover stored over the old one, focus on
      the modal's title. */
  function Show(p: Page, m: ModalId, focusable: seq<Elem>): (q: Page)
    ensures Wf(p) ==> Wf(q)
    ensures !Get(q, m).ariaHidden && Get(q, m).display == DisplayGrid && q.scrollLocked
    ensures Get(q, m).untrap.Some? && Get(q, m).untrap.value.focusable == focusable
    ensures Wf(p) ==> Get(q, m).untrap.value !in Get(p, m).listeners
    ensures Wf(p) ==> Get(q, m).listeners == Get(p, m).listeners + [Get(q, m).untrap.value]
    ensures Wf(p) ==> Get(q, m).untrap.value !in Get(p, Other(m)).listeners
    ensures Get(q, Other(m)) == Get(p, Other(m))
    ensures q.focus == TitleElem(m)
    ensures q.live == p.live && q.whereValue == p.whereValue && q.detailView == p.detailView
  {
    var x := Get(p, m);
    var h := Handler(p.nextHandler, m, focusable);
    var x' := x.(ariaHidden := false, display := DisplayGrid, listeners := AddListener(x.listeners, h), untrap := Some(h));
    Put(p, m, x').(scrollLocked := true, focus := TitleElem(m), nextHandler := p.nextHandler + 1)
  }

  /** The announcement text, which prints a `null` place as "null". */
  function PlaceText(place: Option<string>): string {
    match place
    case Some(s) => s
    case None => "null"
  }

  /** `openReviewModal(place)`: fill "where" with `place || ""`, show, announce. */
  function OpenReview(p: Page, place: Option<string>, focusable: seq<Elem>): (q: Page)
    ensures q.whereValue == place.GetOr("")
    ensures q.live == "Opened review form for " + PlaceText(place)
    ensures !q.review.ariaHidden && q.review.display == DisplayGrid && q.scrollLocked
    ensures q.detail == p.detail && q.detailView == p.detailView
    ensures q.review == Show(p, ReviewModal, focusable).review && q.focus == TitleElem(ReviewModal)
    ensures Wf(p) ==> Wf(q)
  {
    Show(p, ReviewModal, focusable).(whereValue := place.GetOr(""), live := "Opened review form for " + PlaceText(place))
  }

  /** `openDetailModal(key, ratings)`: an unknown key returns before touching
      anything; a known one renders the place, shows the modal and announces. */
  function OpenDetail(p: Page, key: string, ratings: Detail.Ratings, focusable: seq<Elem>): (q: Page)
    ensures key !in Detail.LocationsData ==> q == p
    ensures key in Detail.LocationsData ==>
              && q.detailView == Some(Detail.Render(Detail.LocationsData[key], ratings))
              && q.live == "Opened details for " + Detail.LocationsData[key].title
              && !q.detail.ariaHidden && q.detail.display == DisplayGrid && q.scrollLocked
              && q.review == p.review
              && q.detail == Show(p, DetailModal, focusable).detail
              && q.focus == TitleElem(DetailModal)
    ensures Wf(p) ==> Wf(q)
  {
    if key !in Detail.LocationsData then p
    else
      var data := Detail.LocationsData[key];
      var shown := Show(p.(detailView := Some(Detail.Render(data, ratings))), DetailModal, focusable);
      shown.(live := "Opened details for " + data.title)
  }

  function CloseText(m: ModalId): string {
    match m
    case ReviewModal => "Closed review form"
    case DetailModal => "Closed details page"
  }

  /** `closeReviewModal` / `closeDetailModal`: hide, release the shared
      scroll lock, call the stored remover if there is one, announce. The
      handle is not cleared and focus is not restored. */
  function Close(p: Page, m: ModalId): (q: Page)
    ensures Get(q, m).ariaHidden && Get(q, m).display == DisplayNone && !q.scrollLocked
    ensures q.live == CloseText(m)
    ensures Get(q, m).untrap == Get(p, m).untrap
    ensures forall h :: h in Get(q, m).listeners <==> h in Get(p, m).listeners && Some(h) != Get(p, m).untrap
    ensures Get(q, Other(m)) == Get(p, Other(m))
    ensures q.focus == p.focus && q.nextHandler == p.nextHandler
    ensures q.whereValue == p.whereValue && q.detailView == p.detailView
    ensures Wf(p) ==> Wf(q)
  {
    var x := Get(p, m);
    var ls := if x.untrap.Some? then RemoveListener(x.listeners, x.untrap.value) else x.listeners;
    Put(p, m, x.(ariaHidden := true, display := DisplayNone, listeners := ls)).(scrollLocked := false, live := CloseText(m))
  }

  /** A click on a modal (script.js:276-283): only a click whose target is the
      overlay element itself closes; clicks bubbling from its content do not. */
  function Backdrop(p: Page, m: ModalId, target: Elem): (q: Page)
    ensures target == Root(m) ==> q == Close(p, m)
    ensures target != Root(m) ==> q == p
  {
    if target == Root(m) then Close(p, m) else p
  }

  /** One run of a trap handler against the page: the focus move of the
      trap, then, for Escape, the close of the handler's own modal. */
  function RunHandler(p: Page, h: Handler, ev: KeyEvent): (r: (Page, bool))
    ensures Wf(p) ==> Wf(r.0)
    ensures ev.key == EscapeKey ==> r == (Close(p, h.modal), false)
    ensures ev.key != EscapeKey ==> r.0 == p.(focus := r.0.focus)
  {
    var o := Handle(h.focusable, p.focus, ev);
    var p1 := p.(focus := o.focus);
    (if o.closes then Close(p1, h.modal) else p1, o.prevented)
  }

  /** DOM event dispatch over the listeners registered when dispatch began;
      a listener removed by an earlier one is skipped. The flag is whether
      any listener called `preventDefault`. */
  function Dispatch(p: Page, m: ModalId, pending: seq<Handler>, ev: KeyEvent): (r: (Page, bool))
    ensures Wf(p) ==> Wf(r.0)
    ensures r.0.nextHandler == p.nextHandler
    decreases |pending|
  {
    if |pending| == 0 then (p, false)
    else if pending[0] in Get(p, m).listeners then
      var (p1, prevented) := RunHandler(p, pending[0], ev);
      var (p2, rest) := Dispatch(p1, m, pending[1..], ev);
      (p2, prevented || rest)
    else
      Dispatch(p, m, pending[1..], ev)
  }

  /** A keydown reaching modal `m`. */
  function KeyDown(p: Page, m: ModalId, ev: KeyEvent): (r: (Page, bool))
    ensures Wf(p) ==> Wf(r.0)
  {
    Dispatch(p, m, Get(p, m).listeners, ev)
  }
}
