# Shuffle card stack — a verified model

Shuffle is a browser widget that shows a stack of image cards and cycles
through them. Its list `imagesOrder` runs from the lowest z-index to the
highest. `prevElement` moves the first card of the list to its end and raises
that card to the top of the stack with a new maximum z-index. `nextElement`
moves the last card of the list to its start and lowers that card beneath the
stack with a new minimum z-index. A flag, `animating`, makes a
click ignored while a card is in flight.

Each operation takes one of two paths:

- **Without CSS transitions**, the card gets its new z-index at once.
- **With CSS transitions**, the card gets the class `animatingOut`. Its new
  z-index, the second counter update and the clearing of `animating` wait for
  the `transitionend` listener (`animatePrevCallback` / `animateNextCallback`).
  That listener removes itself and resets the card's class to `''`.

The model has two modules:

- `CardStack` (card_stack.dfy) gives the widget's state as a value, `Stack`.
  Each operation is a function on that value. The module also holds the
  invariant `Valid` and the lemmas.
- `ShuffleWidget` (shuffle.dfy) gives the widget as a class, `Shuffle`. The
  class has the same fields, and its methods update them in place. Each
  method is proved to leave the fields exactly as the matching `CardStack`
  function says.

A card is identified by the position of its image in document order. The
invariant `Valid` says this:

- **At rest**, the card at list position `i` has z-index `minZ + i`, and
  `maxZ == minZ + N - 1`.
- **While a card is in flight**, the other cards already fill a contiguous
  range one slot shorter. The moving card keeps its old z-index just outside
  that range.

Construction establishes `Valid`, and every operation and callback preserves
it. A completed `prevElement` followed by a completed `nextElement`
restores the list, both counters and every z-index. The same holds in the
other order.

Transition support (`Modernizr.csstransitions`) is a parameter of the two
operations. The browser's `transitionend` delivery is the method
`OnTransitionEnd`, which runs whichever listener is registered, if any.

On the three cards [A, B, C] with z-indices 0, 1, 2, `prevElement` gives
[B, C, A] and A the new maximum z-index 3 (shuffle.js:72-74, 84, 103;
`ThreeCardsPrev`). `nextElement` gives [C, A, B] and C the new minimum
z-index -1 (shuffle.js:122-126, 136, 155; `ThreeCardsNext`).

## Model

| member | source | states |
|---|---|---|
| CardStack.Init | shuffle.js:24-40 | the stack built at construction lists the N images in document order, image i has z-index i and keeps its class, minZ is 0, maxZ is N-1, it is not animating, and it satisfies the invariant |
| CardStack.Prev | shuffle.js:69-90 | while animating, nothing changes; otherwise the first card moves to the end of the list and minZ rises by one; without transitions the card gets maxZ+1, maxZ rises and animating stays false; with transitions the card gets class animatingOut, its listener is pending, animating stays true and maxZ and every z-index are unchanged |
| CardStack.PrevDone | shuffle.js:99-108 | the prevElement listener raises maxZ by one, gives the moving card that z-index and class '', clears animating and removes itself; the order and minZ are unchanged |
| CardStack.Next | shuffle.js:117-142 | while animating, nothing changes; otherwise the last card moves to the start of the list and maxZ drops by one; without transitions the card gets minZ-1, minZ drops and animating stays false; with transitions the card gets class animatingOut, its listener is pending, animating stays true and minZ and every z-index are unchanged |
| CardStack.NextDone | shuffle.js:151-160 | the nextElement listener lowers minZ by one, gives the moving card that z-index and class '', clears animating and removes itself; the order and maxZ are unchanged |
| CardStack.TransitionEnd | shuffle.js:78-79 | a transitionend runs the registered one-shot listener, after which none is registered; the order never changes, and with no listener nothing changes |
| CardStack.SameCards | shuffle.js:72-126 | prevElement and nextElement only reorder the list: it holds the same cards, with the same multiplicities |
| CardStack.RunSameCards | shuffle.js:69-160 | after any sequence of clicks and transition ends the list holds the same cards as before |
| CardStack.PrevKeepsValid | shuffle.js:69-90 | prevElement preserves the invariant, on both paths and while animating |
| CardStack.NextKeepsValid | shuffle.js:117-142 | nextElement preserves the invariant, on both paths and while animating |
| CardStack.TransitionEndKeepsValid | shuffle.js:99-160 | a transition end preserves the invariant and leaves the widget at rest, with the z-indices again minZ..maxZ in list order |
| CardStack.RunKeepsValid | shuffle.js:69-160 | any sequence of clicks and transition ends from a valid state ends in a valid state |
| CardStack.ReachableValid | shuffle.js:24-160 | every state reachable from construction satisfies the invariant and holds the constructed cards |
| CardStack.RestZContiguous | shuffle.js:28-40 | at rest every card's z-index lies in minZ..maxZ, no two cards share one, and the set of z-indices is exactly minZ..maxZ |
| CardStack.PrevThenNextRestores | shuffle.js:69-160 | a completed prevElement then a completed nextElement restores the order, both counters and every z-index; without transitions they restore the whole state |
| CardStack.NextThenPrevRestores | shuffle.js:69-160 | a completed nextElement then a completed prevElement restores the order, both counters and every z-index; without transitions they restore the whole state |
| CardStack.PrevPathsAgree | shuffle.js:76-108 | prevElement with transitions, once its listener has run, leaves the same order, z-indices, counters and flag as without transitions; the card's class ends as '' |
| CardStack.NextPathsAgree | shuffle.js:129-160 | nextElement with transitions, once its listener has run, leaves the same order, z-indices, counters and flag as without transitions; the card's class ends as '' |
| CardStack.ThreeCardsPrev | shuffle.js:69-108 | from A, B, C at z 0, 1, 2, a completed prevElement gives B, C, A, with A at z 3, minZ 1 and maxZ 3 |
| CardStack.ThreeCardsNext | shuffle.js:117-160 | from A, B, C at z 0, 1, 2, a completed nextElement gives C, A, B, with C at z -1, minZ -1 and maxZ 1 |
| ShuffleWidget.Shuffle.constructor | shuffle.js:16-40 | imagesOrder lists the images in document order, image i gets z-index i, minZ is 0, maxZ is N-1, animating is false, and the invariant holds |
| ShuffleWidget.Shuffle.PrevElement | shuffle.js:69-90 | shift and push on the list, the counter and flag updates and animateCardOut leave the fields as Prev says, and the invariant holds |
| ShuffleWidget.Shuffle.AnimatePrevCallback | shuffle.js:99-108 | the fields end as PrevDone says, and the invariant holds |
| ShuffleWidget.Shuffle.NextElement | shuffle.js:117-142 | pop and unshift on the list, the counter and flag updates and animateCardOut leave the fields as Next says, and the invariant holds |
| ShuffleWidget.Shuffle.AnimateNextCallback | shuffle.js:151-160 | the fields end as NextDone says, and the invariant holds |
| ShuffleWidget.Shuffle.OnTransitionEnd | shuffle.js:78-79 | delivering transitionend runs the registered listener once, or does nothing when none is registered |
| ShuffleWidget.Shuffle.AnimateCardOut | shuffle.js:169-170 | the card's class becomes 'animatingOut' and no other card's class changes |
| ShuffleWidget.Shuffle.ResetCard | shuffle.js:189-190 | the card's class becomes '' and no other card's class changes |

## Left out

- Document lookups (`getElementsByClassName`, `getElementsByTagName`) are not modelled. The constructor takes the class names the images already have in the page, and the card count is the length of that list.
- The navigation buttons are not modelled: their creation, `innerHTML`, `insertBefore` and click wiring (shuffle.js:42-57). A click is a call of `PrevElement` or `NextElement`.
- The `_.extend` settings merge and `Shuffle.defaults` are not modelled. They only decide whether the buttons exist.
- `Modernizr.csstransitions` is not modelled. It becomes the `transitions` parameter, which is fixed for a page when runs are considered.
- `_.whichTransitionEvent` is not modelled. The vendor-specific event name does not change behaviour.
- `addEventListener`, `removeEventListener`, `bind` and `e.stopPropagation` are not modelled directly. The one-shot listener is the `pending` field. Registering it sets the field, and the callback clears it.
- ShuffleWidget.Shuffle.AnimatePrevCallback, ShuffleWidget.Shuffle.AnimateNextCallback: these require their own listener to be pending. In the source, only that listener's `transitionend` calls them. A direct call with no event object throws at `e.stopPropagation`.
- Transform strings are not modelled: the `data-left` / `data-top` / `data-rotation` offsets, the factor of 4, the rotation and translation text and the vendor-prefixed style properties (shuffle.js:33-36, 172-179, 192-197). They are string and number formatting with no effect on order or stacking.
- `setAttribute('data-shuffle', this)` is not modelled. It only writes a string into the page.
- `animatingImg` is not a separate field. It lives in the pending completion, the only place where it is read later.
- ShuffleWidget.Shuffle.PrevElement, ShuffleWidget.Shuffle.NextElement: these require at least one card. With no images, the source dereferences `undefined` and throws after setting `animating`. The model does not follow it into that broken state.
- z-indices are unbounded integers. Browsers clamp `z-index` to a 32-bit range, which a page would reach only after about two billion clicks.
- The scenario lemmas start from the three-card state written out, with z-indices 0, 1, 2. They do not start from a call of `Init`.
