# Ableverse page script: modals, focus trap, pagination, dropdowns and form checks

This project models the state-machine and validator logic of `script.js`, the
client-side script of an accessibility-oriented place directory. Elements are
abstract identities (`nat`) and attributes are booleans or strings. Each part of
the script works on its own immutable record, and each event handler is a pure
transition on that record. The modals and the form submits share one page record
(`Modals.Page`), whose `sr-live` live region is one last-write-wins string. The
"View more" pager keeps its own copy of that text (`ViewMore.Pager`). The
dropdowns work on their own record (`Dropdown.Menus`), and the sign-in check
maps the two field values to its result:

- **Modals** (`Modals`, `ModalProperties`, `FocusTrap`). The review and detail
  modals are opened and closed here. Each open sets `aria-hidden`, the display
  and the shared body scroll lock. It then installs a fresh keydown handler
  through `trapFocus` and stores its remover in the modal's single "untrap"
  handle. Close calls that remover. Keydown dispatch follows the DOM rules: it
  walks the listeners registered when dispatch began and skips any listener an
  earlier one removed. Escape, the close buttons and a click on the overlay
  itself all close the modal.
- **Detail content** (`Detail`). This is the location table. Ratings are
  clamped to 0..100, and `NaN` or missing values become 0. The rows come in a
  fixed Blind, Hearing, Mobility order, and the services list is copied
  wholesale.
- **View more** (`ViewMore`). Cards are revealed in batches of three. The
  click handler is written with the source's loop, and it is proved equal to a
  reference step function.
- **Dropdowns** (`Dropdown`). A click closes every menu, then re-opens the
  clicked toggle's menu if it was closed before.
- **Forms** (`Forms`). The sign-in checks and the review form's
  required-field guard.
- **Helpers** (`Text`, `Wrappers`). `Text` renders a count in decimal and
  measures `.length` in UTF-16 code units. `Wrappers` holds the `Option` type
  used for `null` values.

The model follows the code as written, including these behaviours:

- Close does not restore the focus that was current before open.
- Opening an open modal installs a second keydown handler. The new handle
  overwrites the old one, so the old handler leaks.
- Closing a closed modal still writes its announcement. It is not a silent
  no-op.
- An unknown detail key returns silently. No configuration error is raised.
- The scroll lock is one shared flag. Closing either modal releases it, even
  if the other modal is still open.

## Model

| member | source | states |
|---|---|---|
| Text.Decimal | script.js:452 | the count is written as decimal digits with no leading zero |
| Text.DecimalRoundTrip | script.js:452 | reading the rendered digits back gives the count |
| Text.Utf16Length | script.js:411 | `.length` lies between the number of characters and twice that; it equals the character count iff no character lies outside the Basic Multilingual Plane |
| Text.Utf16LengthAppend | script.js:411 | `.length` adds up over concatenation |
| FocusTrap.Handle | script.js:136-150 | the handler prevents the default only for Tab on a non-empty list. When it does, focus goes from first to last on Shift+Tab, or from last to first on Tab. When it does not, focus stays put. It asks to close iff the key is Escape |
| FocusTrap.TabWrapsForward | script.js:141-144 | Tab on the last captured element moves focus to the first and prevents the default |
| FocusTrap.ShiftTabWrapsBackward | script.js:138-140 | Shift+Tab on the first captured element moves focus to the last and prevents the default |
| FocusTrap.InteriorTabUnprevented | script.js:137-145 | any other Tab is neither prevented nor redirected |
| FocusTrap.SingletonKeepsFocus | script.js:134-145 | with one focusable element, Tab and Shift+Tab both keep focus on it |
| FocusTrap.EmptyNeverPrevents | script.js:134-145 | with nothing focusable, no key is prevented and focus never moves |
| FocusTrap.TrapIsCyclic | script.js:130-145 | on a list of distinct elements, every focus move the trap makes goes to the cyclic neighbour in the captured order |
| Detail.Clamp | script.js:219-220 | a displayed rating lies in 0..100. Values in range are kept, values below 0 become 0 and values above 100 become 100. `NaN` or missing becomes 0 |
| Detail.ClampIdempotent | script.js:220 | clamping a displayed rating again changes nothing |
| Detail.ClampIsNearest | script.js:220 | the clamped rating is the value in 0..100 nearest the input, counting `NaN` or missing as 0 |
| Detail.Rows | script.js:232-235 | exactly three rows, Blind, Hearing and Mobility in that order, each showing the clamped value of its own rating |
| Detail.Render | script.js:204-235 | the view shows the place's title, description and map link, its services in their original order, and the three rating rows |
| Detail.InRangeRatingsShownAsGiven | script.js:219-235 | ratings of 80, 60 and 40 are displayed as 80, 60 and 40 |
| Detail.OutOfRangeRatingsPinned | script.js:219-235 | ratings of -5, 150 and `NaN` are displayed as 0, 100 and 0 |
| Modals.InitialWf | script.js:156-157 | at page load no handler is installed and no handle is set, so the well-formedness invariant holds |
| Modals.AddListener | script.js:151 | registering a handler makes exactly it and the earlier handlers registered, keeps the earlier ones in order, and does nothing if it is already registered |
| Modals.RemoveListener | script.js:152 | `removeEventListener` drops exactly the given handler and keeps every other one. Removing an absent handler changes nothing |
| Modals.RemoveAppended | script.js:151-152 | removing a handler that was just appended, and was not there before, restores the previous list |
| Modals.Show | script.js:158-165 | open makes the modal visible, sets display to grid and locks scrolling. It appends exactly one new handler, which was not installed before, and points the handle at it. The other modal is untouched and focus moves to the title |
| Modals.OpenReview | script.js:158-167 | "where" is set to the place, or to "" for a missing one. The modal is shown, exactly one fresh keydown handler is installed with the handle overwritten to point at it, focus moves to the review title, and "Opened review form for <place>" is announced. The detail modal is untouched. Well-formedness is kept |
| Modals.OpenDetail | script.js:200-244 | an unknown key changes nothing: no render, no open and no announcement. A known key renders that place, shows the detail modal, installs exactly one fresh keydown handler with the handle overwritten to point at it, moves focus to the detail title, announces "Opened details for <title>" and leaves the review modal alone |
| Modals.Close | script.js:168-174 | close hides the modal, sets display to none and releases the scroll lock. It removes exactly the handler the handle refers to and keeps the handle. It announces the close text and moves no focus |
| Modals.Backdrop | script.js:275-283 | a click whose target is the overlay itself has exactly the effect of closing the modal, including the released scroll lock and the removed handler. A click on anything inside changes nothing |
| Modals.RunHandler | script.js:136-149 | one trap handler keeps the page well-formed. On Escape it is exactly a close of its own modal, with nothing prevented. On any other key it changes at most the focus |
| Modals.Dispatch | script.js:151 | delivering a keydown to the registered handlers keeps the page well-formed and installs no handler |
| Modals.KeyDown | script.js:136-151 | a keydown on a modal keeps the page well-formed |
| ModalProperties.ReviewOpenCloseRestoresListeners | script.js:158-174 | open followed by close on the review modal leaves exactly the original listener list |
| ModalProperties.DetailOpenCloseRestoresListeners | script.js:200-251 | open followed by close on the detail modal, for a known place, leaves exactly the original listener list |
| ModalProperties.CloseIdempotent | script.js:168-174 | a second close removes nothing and leaves the page as the first close left it |
| ModalProperties.CloseWhenClosedOnlyAnnounces | script.js:245-251 | closing a modal that is hidden with display none, while the scroll lock is already released and its handle's handler is already gone, changes only the live-region text |
| ModalProperties.CloseWhenClosedReleasesOtherLock | script.js:168-171 | closing the already-hidden review modal while the detail modal is open still releases the shared scroll lock and leaves the detail modal shown |
| ModalProperties.CloseNeverOpenedSetsDisplay | script.js:245-247 | closing a modal that was never opened changes its display from unset to none |
| ModalProperties.EscapeOnSettledPage | script.js:146-152 | Escape delivered to any handlers of a modal that a close no longer changes leaves the page unchanged and prevents nothing |
| ModalProperties.EscapeCloses | script.js:146-152 | on every well-formed page, Escape reaching a modal with at least one keydown listener amounts to exactly one close of that modal and prevents nothing, however many stale handlers are installed |
| ModalProperties.ReopenLeaksOneHandler | script.js:157-174 | open, open, close leaves exactly the first open's handler installed as a stale listener |
| ModalProperties.SharedScrollLock | script.js:163-171 | closing the review modal releases the scroll lock while the detail modal stays open |
| ModalProperties.EscapeClosesOnce | script.js:146-149 | when a modal's only listener is its handle's handler, Escape performs exactly one close and prevents nothing |
| ModalProperties.EscapeAfterOpenReview | script.js:146-166 | right after the review modal opens on a page with no listener on it, Escape closes it |
| ModalProperties.EscapeAfterReopenKeepsStale | script.js:146-174 | after open, open, a single Escape closes the modal, but the first handler stays installed |
| ModalProperties.TabWrapsInOpenModal | script.js:141-151 | with one trap installed, Tab on the last captured element moves focus to the first and prevents the default |
| ModalProperties.InnerTabPassesThrough | script.js:137-151 | with one trap installed, a Tab away from the wrapping ends leaves the page unchanged and is not prevented |
| ViewMore.Init | script.js:429-435 | initially exactly the cards with index below 3 are visible, the counter is 3 and the button is shown |
| ViewMore.Revealed | script.js:440 | a click reveals at most 3 cards, reveals at least one iff cards remain past the counter, and never moves the counter past the last card |
| ViewMore.Click | script.js:438-455 | the handler's loop gives exactly the reference step: the next batch is revealed, the counter moves past it, and the button and message are updated |
| ViewMore.InitInv | script.js:429-435 | the loaded page satisfies the invariant: the visible cards are the prefix below the counter, and the counter lies between 3 and max(3, n) |
| ViewMore.StepPreservesInv | script.js:438-444 | every click keeps the visible cards a prefix and the counter at most max(3, n) |
| ViewMore.StepRevealsBatch | script.js:439-444 | a click newly reveals exactly the cards between the old and new counter. That batch has min(3, n - counter) cards, and nothing changes once the end is reached |
| ViewMore.StepAnnouncement | script.js:446-453 | the button is hidden, and "All locations have been loaded." is written, iff the counter reaches n. Otherwise the message is "3 more locations loaded." |
| Dropdown.Click | script.js:350-368 | every other toggle is collapsed and every other menu hidden. The clicked toggle is expanded, with its menu shown, iff it was collapsed before |
| Dropdown.ClickLeavesAtMostOne | script.js:355-367 | after any click at most one toggle is expanded, and only the clicked toggle's menu can be shown |
| Dropdown.ClickTwiceRestores | script.js:350-368 | from the all-closed state, two clicks on the same toggle return to the all-closed state |
| Dropdown.ClickOtherSwitches | script.js:355-367 | clicking a second toggle opens its menu and collapses the first |
| Forms.SignIn | script.js:398-422 | the email message is set iff the value lacks '@' or lacks '.', and cleared otherwise. The password message is set iff the length is under 8, and cleared otherwise. Sign-in proceeds iff both messages are empty |
| Forms.SignInSucceedsIff | script.js:400-418 | sign-in succeeds iff the email has both '@' and '.' and the password is at least 8 code units long |
| Forms.BothChecksReported | script.js:402-416 | a failing email check does not stop the password check, and both messages are set |
| Forms.AstralPasswordCountsDouble | script.js:411 | four characters outside the Basic Multilingual Plane pass the 8-code-unit length check |
| Forms.Rejects | script.js:333-338 | a review is accepted iff place, service and facility are present and non-empty, and alt text is present and non-empty whenever a photo is chosen |
| Forms.SubmitReview | script.js:324-345 | a rejected review only writes "Please fill all required fields.". An accepted one leaves the page exactly as closing the review modal does. That message is written iff the review is rejected |
| Forms.AcceptedReview | script.js:333-344 | an accepted review has a non-empty place, service and facility, plus alt text if a photo is attached. It leaves the modal hidden, the scroll lock released and "Closed review form" as the last announcement |
| Forms.RejectedReviewKeepsModal | script.js:333-341 | a rejected review leaves both modals and the scroll lock as they were |

## Left out

- Speech synthesis and recognition (script.js:59-65, 93-127): these are browser APIs called fire-and-forget.
- Nav-height measurement (script.js:29-38): layout I/O through `getBoundingClientRect` and `ResizeObserver`.
- These toggles and formatting steps are flag flips or string formatting with no logic to state: high contrast, mobile nav, hero-search announcement, photo-section toggle, password show/hide toggle and `alert` (script.js:46-90, 316-321, 391-395, 419).
- DOM construction and markup (`ensureDetailRatingsContainer`, the `innerHTML` rating markup and its `aria-label` strings; script.js:184-198, 221-230): only the clamped numbers and the row order are kept.
- The delegated open handler (script.js:256-273): it parses `dataset` strings and resolves targets with `closest`. The model takes the parsed ratings (`Detail.RatingInput`, an integer or `NaN`/missing) and the place label directly as arguments of `OpenDetail` and `OpenReview`. Fractional ratings are not modelled.
- The default `ratings` argument of `openDetailModal` (script.js:200): every value it supplies is 0, which is what a missing value already becomes.
- `hydrateCards` (script.js:286-314): it uses floating-point `Math.round` and is not part of the modal logic.
- The `.nav__link--dropdown` handler (script.js:371-380): the script does not show how its elements relate to `.dropdown__toggle`, so its interaction with the dropdown handler cannot be stated. The dropdown's `stopPropagation` is not modelled either.
- The focusable-element query of `trapFocus` (script.js:131-133) is a parameter of the open functions: the model receives the list the query returned.
- The browser's own Tab navigation: when the trap does not prevent the default, the browser moves focus itself. The model reports only the prevented flag and leaves focus where the handler left it.
- Keys that `locationsData` inherits from `Object.prototype` (such as "toString") are treated like unknown keys. In the source they pass the `!data` guard and then fail on `data.services`.
- The review comment (script.js:330): it is read, with a default, but never used.
- ViewMore.Init: assumes the first three cards start without the `hidden` class. The script never touches those cards, so their state comes from the page markup.
- Dropdown.Click: assumes every toggle's `nextElementSibling` is one of the `.dropdown__menu` elements. The script reads it unchecked (script.js:352, 365). If it is null, the click throws after every toggle has been collapsed. If it is some other element, that element is shown and no later click hides it, which would break "at most one menu shown".
- Modals.Initial: assumes the markup starts both modals with `aria-hidden="true"`. The script never sets that attribute at load; it only sets it on open and close.
- FocusTrap.Handle: assumes every element of the captured list can take focus, so that `first.focus()` and `last.focus()` (script.js:140, 143) always move focus. The selector at script.js:132 also matches disabled or hidden `input`, `textarea` and `select` elements. On such an element the browser ignores `.focus()` after the default has been prevented, and focus stays where it was. The wrap lemmas (`FocusTrap.TabWrapsForward`, `FocusTrap.ShiftTabWrapsBackward`, `ModalProperties.TabWrapsInOpenModal`) rest on the same assumption.
- Modals.Show: assumes the modal's title element can take focus, so that the `.focus()` at script.js:165 and script.js:242 moves focus to it. That holds only if the page markup gives the title a `tabindex`; otherwise focus stays where it was.
- Modals.Close: leaves focus where it was. When the closed modal held focus, the browser moves focus off the element that `display: none` hides, and that browser behaviour is not modelled.
- ViewMore.Click: writes the `sr-live` text into its own `Pager.live` rather than into the page record the modals share. The model therefore does not relate a "View more" announcement (script.js:450, 452) to the modal and form announcements it overwrites, or is overwritten by.
