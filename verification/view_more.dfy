/** The "View more" button of the results list (script.js:425-455): the first
    three cards start visible, and each click reveals the next batch of up
    to three and reports it in the live region. */
module ViewMore {
  import Text

  const CardsPerPage: nat := 3
  const AllLoadedMessage: string := "All locations have been loaded."
  const MoreLoadedSuffix: string := " more locations loaded."

  /** `hidden[i]` is whether card `i` carries the `hidden` class;
      `currentIndex` is the handler's closure counter; `buttonShown` is
      whether `btn-more` is still displayed; `live` is the text the handler
      last wrote to the live region. */
  datatype Pager = Pager(hidden: seq<bool>, currentIndex: nat, buttonShown: bool, live: string)

  function Max(a: int, b: int): int {
    if a < b then b else a
  }

  function Min(a: int, b: int): int {
    if a < b then a else b
  }

  /** The state after `DOMContentLoaded` for `n` cards. */
  function Init(n: nat): (p: Pager)
    ensures |p.hidden| == n
    ensures forall i :: 0 <= i < n ==> (p.hidden[i] <==> i >= CardsPerPage)
    ensures p.currentIndex == CardsPerPage && p.buttonShown
  {
    Pager(seq(n, i requires 0 <= i < n => i >= 3), 3, true, "")
  }

  /** How many cards one click reveals when `ci` of `n` have been passed. */
  function Revealed(n: nat, ci: nat): (k: nat)
    ensures k <= CardsPerPage
    ensures k > 0 <==> ci < n
    ensures ci + k <= Max(ci, n)
  {
    if ci >= n then 0 else Min(CardsPerPage, n - ci)
  }

  /** The announcement after a click that revealed `count` cards and left the counter at `ci`. */
  function Message(n: nat, ci: nat, count: nat): string {
    if ci >= n then AllLoadedMessage else Text.Decimal(count) + MoreLoadedSuffix
  }

  /** The reference reading of one click: the next `Revealed` cards lose
      `hidden`, the counter moves past them, the button goes once nothing is
      left, and the live region says what happened. */
  function Step(p: Pager): Pager {
    var n := |p.hidden|;
    var k := Revealed(n, p.currentIndex);
    var ci := p.currentIndex + k;
    Pager(seq(n, i requires 0 <= i < n => p.hidden[i] && !(p.currentIndex <= i < ci)),
          ci, p.buttonShown && ci < n, Message(n, ci, k))
  }

  /** The click handler, with the source's loop. */
  method Click(p: Pager) returns (q: Pager)
    ensures q == Step(p)
  {
    var hidden := p.hidden;
    var currentIndex := p.currentIndex;
    var count := 0;
    var i := currentIndex;
    while i < |hidden| && count < CardsPerPage
      invariant i == currentIndex == p.currentIndex + count
      invariant count <= CardsPerPage
      invariant count == 0 || currentIndex <= |hidden|
      invariant |hidden| == |p.hidden|
      invariant forall k :: 0 <= k < |hidden| ==> hidden[k] == (p.hidden[k] && !(p.currentIndex <= k < currentIndex))
    {
      hidden := hidden[i := false];
      currentIndex := currentIndex + 1;
      count := count + 1;
      i := i + 1;
    }
    var n := |hidden|;
    assert count == Revealed(n, p.currentIndex);
    var buttonShown := p.buttonShown;
    var live;
    if currentIndex >= n {
      buttonShown := false;
      live := AllLoadedMessage;
    } else {
      live := Text.Decimal(count) + MoreLoadedSuffix;
    }
    q := Pager(hidden, currentIndex, buttonShown, live);
  }

  /** The visible cards are exactly the prefix `[0, max(3, currentIndex))`,
      and the counter never passes `max(3, n)`. */
  predicate Inv(p: Pager) {
    && CardsPerPage <= p.currentIndex <= Max(CardsPerPage, |p.hidden|)
    && forall k :: 0 <= k < |p.hidden| ==> (!p.hidden[k] <==> k < p.currentIndex)
  }

  lemma InitInv(n: nat)
    ensures Inv(Init(n))
  {
  }

  /** Every click keeps the visible cards a prefix and the counter in range. */
  lemma StepPreservesInv(p: Pager)
    requires Inv(p)
    ensures Inv(Step(p))
  {
  }

  /** A click reveals `min(3, n - currentIndex)` cards, or none once the
      counter has reached the end. */
  lemma StepRevealsBatch(p: Pager)
    requires Inv(p)
    ensures var q := Step(p);
            && (p.currentIndex >= |p.hidden| ==> q.hidden == p.hidden && q.currentIndex == p.currentIndex)
            && (p.currentIndex < |p.hidden| ==>
                  q.currentIndex == p.currentIndex + Min(CardsPerPage, |p.hidden| - p.currentIndex))
            && (forall k :: 0 <= k < |p.hidden| ==>
                  (p.hidden[k] && !q.hidden[k] <==> p.currentIndex <= k < q.currentIndex))
  {
  }

  /** The button is hidden and the "all loaded" message written exactly when
      the counter reaches the number of cards; otherwise a full batch of
      three was revealed and the message says so. */
  lemma StepAnnouncement(p: Pager)
    requires p.buttonShown
    ensures var q := Step(p);
            && (!q.buttonShown <==> q.currentIndex >= |p.hidden|)
            && (q.live == AllLoadedMessage <==> q.currentIndex >= |p.hidden|)
            && (q.currentIndex < |p.hidden| ==> q.live == "3 more locations loaded.")
  {
  }
}
