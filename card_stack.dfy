/**
 The state machine behind the Shuffle card-stack widget, as values.

 A stack holds the cards in list order, lowest z-index first, one z-index per card,
 one CSS class per card, the two z-index counters, the re-entrancy flag and
 the completion left pending between an operation and its transition-end
 callback.  Each operation of the widget is a function from the old state to
 the new one; the class in shuffle.dfy updates its fields exactly as these
 functions say, and the lemmas below state what the widget promises.
 */
module CardStack {

  /** A card is identified by the position of its image in document order. */
  type Card = nat

  /** The class a card carries while it flies out of the stack. */
  const AnimatingOut: string := "animatingOut"

  /** The one-shot transition-end listener registered on the moving card, if any. */
  datatype Pending = Idle | PrevPending(card: Card) | NextPending(card: Card)

  datatype Stack = Stack(
    order: seq<Card>,          // imagesOrder
    z: map<Card, int>,         // style.zIndex of each card
    cls: map<Card, string>,    // className of each card
    minZ: int,                 // minZIndex
    maxZ: int,                 // maxZIndex
    animating: bool,
    pending: Pending)

  /** User clicks and the browser's transition-end notification. */
  datatype Event = PrevClick | NextClick | TransitionEndEvent

  predicate Distinct(s: seq<Card>) {
    forall i, j :: 0 <= i < j < |s| ==> s[i] != s[j]
  }

  /**
   The invariant of every state the widget can reach.  At rest the z-indices
   are minZ, minZ+1, ..., maxZ in list order.  While a card is in flight the
   other cards already form that contiguous range, one slot short, and the
   moving card still carries its old z-index just outside it.
   */
  predicate Valid(s: Stack) {
    var n := |s.order|;
    Distinct(s.order)
    && (forall c :: c in s.order ==> c in s.z && c in s.cls)
    && s.animating == !s.pending.Idle?
    && match s.pending
       case Idle =>
         s.maxZ == s.minZ + n - 1
         && (forall i :: 0 <= i < n ==> s.z[s.order[i]] == s.minZ + i)
       case PrevPending(c) =>
         0 < n && c == s.order[n - 1]
         && s.cls[c] == AnimatingOut
         && s.z[c] == s.minZ - 1
         && s.maxZ == s.minZ + n - 2
         && (forall i :: 0 <= i < n - 1 ==> s.z[s.order[i]] == s.minZ + i)
       case NextPending(c) =>
         0 < n && c == s.order[0]
         && s.cls[c] == AnimatingOut
         && s.z[c] == s.maxZ + 1
         && s.maxZ == s.minZ + n - 2
         && (forall i :: 1 <= i < n ==> s.z[s.order[i]] == s.minZ + i - 1)
  }

  /** The state after construction, given the class names the images had in the page. */
  function Init(classNames: seq<string>): (r: Stack)
    ensures Valid(r) && !r.animating
    ensures |r.order| == |classNames| && r.minZ == 0 && r.maxZ == |classNames| - 1
    ensures forall i :: 0 <= i < |r.order| ==>
              r.order[i] == i && r.z[i] == i && r.cls[i] == classNames[i]
  {
    var n := |classNames|;
    var cards := seq(n, i requires 0 <= i < n => i as Card);
    Stack(cards,
          map c | c in cards :: c as int,
          map c | c in cards :: classNames[c],
          0, n - 1, false, Idle)
  }

  /** prevElement: the first card of the list moves to its end and is raised to the top of the stack. */
  function Prev(s: Stack, transitions: bool): (r: Stack)
    requires |s.order| > 0
    ensures |r.order| == |s.order|
    ensures s.animating ==> r == s
    ensures !s.animating ==>
              r.order[..|s.order| - 1] == s.order[1..] && r.order[|s.order| - 1] == s.order[0]
              && r.minZ == s.minZ + 1
    ensures !s.animating && !transitions ==>
              r.z == s.z[s.order[0] := s.maxZ + 1] && r.maxZ == s.maxZ + 1
              && !r.animating && r.cls == s.cls && r.pending == s.pending
    ensures !s.animating && transitions ==>
              r.z == s.z && r.maxZ == s.maxZ && r.animating
              && r.pending == PrevPending(s.order[0])
              && r.cls == s.cls[s.order[0] := AnimatingOut]
  {
    if s.animating then s
    else
      var card := s.order[0];
      var order := s.order[1..] + [card];
      assert s.order == [card] + s.order[1..];
      if transitions then
        s.(order := order, cls := s.cls[card := AnimatingOut], minZ := s.minZ + 1,
           animating := true, pending := PrevPending(card))
      else
        s.(order := order, z := s.z[card := s.maxZ + 1], minZ := s.minZ + 1,
           maxZ := s.maxZ + 1, animating := false)
  }

  /** animatePrevCallback: the card moved to the end of the list lands on top of the stack. */
  function PrevDone(s: Stack): (r: Stack)
    requires s.pending.PrevPending?
    ensures r.order == s.order && r.minZ == s.minZ && r.maxZ == s.maxZ + 1
    ensures r.z == s.z[s.pending.card := r.maxZ]
    ensures r.cls == s.cls[s.pending.card := ""]
    ensures !r.animating && r.pending == Idle
  {
    var card := s.pending.card;
    s.(z := s.z[card := s.maxZ + 1], cls := s.cls[card := ""], maxZ := s.maxZ + 1,
       animating := false, pending := Idle)
  }

  /** nextElement: the last card of the list moves to its start and is lowered beneath the stack. */
  function Next(s: Stack, transitions: bool): (r: Stack)
    requires |s.order| > 0
    ensures |r.order| == |s.order|
    ensures s.animating ==> r == s
    ensures !s.animating ==>
              r.order[0] == s.order[|s.order| - 1] && r.order[1..] == s.order[..|s.order| - 1]
              && r.maxZ == s.maxZ - 1
    ensures !s.animating && !transitions ==>
              r.z == s.z[s.order[|s.order| - 1] := s.minZ - 1] && r.minZ == s.minZ - 1
              && !r.animating && r.cls == s.cls && r.pending == s.pending
    ensures !s.animating && transitions ==>
              r.z == s.z && r.minZ == s.minZ && r.animating
              && r.pending == NextPending(s.order[|s.order| - 1])
              && r.cls == s.cls[s.order[|s.order| - 1] := AnimatingOut]
  {
    if s.animating then s
    else
      var n := |s.order|;
      var card := s.order[n - 1];
      var order := [card] + s.order[..n - 1];
      assert s.order == s.order[..n - 1] + [card];
      if transitions then
        s.(order := order, cls := s.cls[card := AnimatingOut], maxZ := s.maxZ - 1,
           animating := true, pending := NextPending(card))
      else
        s.(order := order, z := s.z[card := s.minZ - 1], minZ := s.minZ - 1,
           maxZ := s.maxZ - 1, animating := false)
  }

  /** animateNextCallback: the card moved to the start of the list lands beneath the stack. */
  function NextDone(s: Stack): (r: Stack)
    requires s.pending.NextPending?
    ensures r.order == s.order && r.maxZ == s.maxZ && r.minZ == s.minZ - 1
    ensures r.z == s.z[s.pending.card := r.minZ]
    ensures r.cls == s.cls[s.pending.card := ""]
    ensures !r.animating && r.pending == Idle
  {
    var card := s.pending.card;
    s.(z := s.z[card := s.minZ - 1], cls := s.cls[card := ""], minZ := s.minZ - 1,
       animating := false, pending := Idle)
  }

  /**
   The browser's transition-end event: it runs the listener registered by the
   last deferred operation, which removes itself; with no listener it does nothing.
   */
  function TransitionEnd(s: Stack): (r: Stack)
    ensures r.order == s.order && r.pending == Idle
    ensures s.pending.Idle? ==> r == s
  {
    match s.pending
    case Idle => s
    case PrevPending(_) => PrevDone(s)
    case NextPending(_) => NextDone(s)
  }

  function Step(s: Stack, e: Event, transitions: bool): (r: Stack)
    requires |s.order| > 0
    ensures |r.order| == |s.order|
  {
    match e
    case PrevClick => Prev(s, transitions)
    case NextClick => Next(s, transitions)
    case TransitionEndEvent => TransitionEnd(s)
  }

  /** The state after a sequence of events; transition support is fixed for the page. */
  function Run(s: Stack, events: seq<Event>, transitions: bool): (r: Stack)
    requires |s.order| > 0
    ensures |r.order| == |s.order|
    decreases |events|
  {
    if events == [] then s
    else Run(Step(s, events[0], transitions), events[1..], transitions)
  }

  // ---------------------------------------------------------------------------
  // The invariant is kept by every operation
  // ---------------------------------------------------------------------------

  /** Both operations only reorder the cards: the list holds the same cards as before. */
  lemma SameCards(s: Stack, transitions: bool)
    requires |s.order| > 0
    ensures multiset(Prev(s, transitions).order) == multiset(s.order)
    ensures multiset(Next(s, transitions).order) == multiset(s.order)
  {
    var n := |s.order|;
    assert s.order == [s.order[0]] + s.order[1..];
    assert s.order == s.order[..n - 1] + [s.order[n - 1]];
  }

  lemma {:induction false} RunSameCards(s: Stack, events: seq<Event>, transitions: bool)
    requires |s.order| > 0
    ensures multiset(Run(s, events, transitions).order) == multiset(s.order)
    decreases |events|
  {
    if events != [] {
      SameCards(s, transitions);
      RunSameCards(Step(s, events[0], transitions), events[1..], transitions);
    }
  }

  lemma PrevKeepsValid(s: Stack, transitions: bool)
    requires Valid(s) && |s.order| > 0
    ensures Valid(Prev(s, transitions))
  {
  }

  lemma NextKeepsValid(s: Stack, transitions: bool)
    requires Valid(s) && |s.order| > 0
    ensures Valid(Next(s, transitions))
  {
  }

  lemma TransitionEndKeepsValid(s: Stack)
    requires Valid(s)
    ensures Valid(TransitionEnd(s)) && !TransitionEnd(s).animating
  {
  }

  lemma {:induction false} RunKeepsValid(s: Stack, events: seq<Event>, transitions: bool)
    requires Valid(s) && |s.order| > 0
    ensures Valid(Run(s, events, transitions))
    decreases |events|
  {
    if events != [] {
      var t := Step(s, events[0], transitions);
      match events[0] {
        case PrevClick => PrevKeepsValid(s, transitions);
        case NextClick => NextKeepsValid(s, transitions);
        case TransitionEndEvent => TransitionEndKeepsValid(s);
      }
      RunKeepsValid(t, events[1..], transitions);
    }
  }

  /** Every state reachable from construction satisfies the invariant. */
  lemma ReachableValid(classNames: seq<string>, events: seq<Event>, transitions: bool)
    requires |classNames| > 0
    ensures Valid(Run(Init(classNames), events, transitions))
    ensures multiset(Run(Init(classNames), events, transitions).order) == multiset(Init(classNames).order)
  {
    RunKeepsValid(Init(classNames), events, transitions);
    RunSameCards(Init(classNames), events, transitions);
  }

  /** The integers lo..hi. */
  function Interval(lo: int, hi: int): (r: set<int>)
    ensures forall v :: v in r <==> lo <= v <= hi
    decreases hi - lo
  {
    if hi < lo then {} else {lo} + Interval(lo + 1, hi)
  }

  /**
   At rest the z-indices of the cards are exactly the integers minZ..maxZ,
   one per card: each lies in the range, no two coincide, and each value of
   the range belongs to a card.
   */
  lemma RestZContiguous(s: Stack)
    requires Valid(s) && !s.animating
    ensures forall c :: c in s.order ==> s.minZ <= s.z[c] <= s.maxZ
    ensures forall i, j :: 0 <= i < |s.order| && 0 <= j < |s.order| && i != j ==>
              s.z[s.order[i]] != s.z[s.order[j]]
    ensures (set c | c in s.order :: s.z[c]) == Interval(s.minZ, s.maxZ)
  {
    var zs := set c | c in s.order :: s.z[c];
    forall v | v in Interval(s.minZ, s.maxZ) ensures v in zs {
      assert s.z[s.order[v - s.minZ]] == v;
    }
    forall c | c in s.order ensures s.minZ <= s.z[c] <= s.maxZ {
      var i :| 0 <= i < |s.order| && s.order[i] == c;
    }
  }

  // ---------------------------------------------------------------------------
  // Round trips and the agreement of the two paths
  // ---------------------------------------------------------------------------

  /** A completed prevElement followed by a completed nextElement restores the stack. */
  lemma PrevThenNextRestores(s: Stack, transitions: bool)
    requires Valid(s) && !s.animating && |s.order| > 0
    ensures var r := TransitionEnd(Next(TransitionEnd(Prev(s, transitions)), transitions));
            r.order == s.order && r.z == s.z && r.minZ == s.minZ && r.maxZ == s.maxZ
            && !r.animating && r.pending == s.pending
    ensures !transitions ==> TransitionEnd(Next(TransitionEnd(Prev(s, transitions)), transitions)) == s
  {
  }

  /** A completed nextElement followed by a completed prevElement restores the stack. */
  lemma NextThenPrevRestores(s: Stack, transitions: bool)
    requires Valid(s) && !s.animating && |s.order| > 0
    ensures var r := TransitionEnd(Prev(TransitionEnd(Next(s, transitions)), transitions));
            r.order == s.order && r.z == s.z && r.minZ == s.minZ && r.maxZ == s.maxZ
            && !r.animating && r.pending == s.pending
    ensures !transitions ==> TransitionEnd(Prev(TransitionEnd(Next(s, transitions)), transitions)) == s
  {
  }

  /**
   The deferred path, once its callback has run, leaves the same order,
   z-indices and counters as the synchronous path; the moving card ends with
   an empty class.
   */
  lemma PrevPathsAgree(s: Stack)
    requires Valid(s) && !s.animating && |s.order| > 0
    ensures var d := TransitionEnd(Prev(s, true));
            var i := Prev(s, false);
            d.order == i.order && d.z == i.z && d.minZ == i.minZ && d.maxZ == i.maxZ
            && d.animating == i.animating && d.pending == i.pending
            && d.cls == s.cls[s.order[0] := ""]
  {
  }

  lemma NextPathsAgree(s: Stack)
    requires Valid(s) && !s.animating && |s.order| > 0
    ensures var d := TransitionEnd(Next(s, true));
            var i := Next(s, false);
            d.order == i.order && d.z == i.z && d.minZ == i.minZ && d.maxZ == i.maxZ
            && d.animating == i.animating && d.pending == i.pending
            && d.cls == s.cls[s.order[|s.order| - 1] := ""]
  {
  }

  // ---------------------------------------------------------------------------
  // Three cards A, B, C (0, 1, 2) with z-indices 0, 1, 2
  // ---------------------------------------------------------------------------

  /** Cards A, B, C in document order with the z-indices construction gives them, 0, 1, 2. */
  function ThreeCards(): (r: Stack) {
    Stack([0, 1, 2], map[0 := 0, 1 := 1, 2 := 2], map[0 := "", 1 := "", 2 := ""], 0, 2, false, Idle)
  }

  /** prevElement on A, B, C gives B, C, A, and A lands on top with z-index 3. */
  lemma ThreeCardsPrev(t: bool)
    ensures var r := TransitionEnd(Prev(ThreeCards(), t));
            r.order == [1, 2, 0] && r.z == map[0 := 3, 1 := 1, 2 := 2]
            && r.minZ == 1 && r.maxZ == 3 && !r.animating
  {
  }

  /** nextElement on A, B, C gives C, A, B, and C lands beneath with z-index -1. */
  lemma ThreeCardsNext(t: bool)
    ensures var r := TransitionEnd(Next(ThreeCards(), t));
            r.order == [2, 0, 1] && r.z == map[0 := 0, 1 := 1, 2 := -1]
            && r.minZ == -1 && r.maxZ == 1 && !r.animating
  {
  }
}
