/**
 The Shuffle widget as an object whose fields change in place.

 The fields are the widget's own state: the list of cards in stacking order,
 the two z-index counters, the re-entrancy flag and the completion left
 pending for the transition-end listener, together with the two properties
 of each card element the widget writes (its z-index and its class name).
 Every method leaves the fields as the matching function of CardStack says,
 so the invariant and the laws proved there hold of the object.
 */
module ShuffleWidget {
  import opened CardStack

  class Shuffle {
    var order: seq<Card>
    var zIndex: map<Card, int>
    var className: map<Card, string>
    var minZ: int
    var maxZ: int
    var animating: bool
    var pending: Pending

    function State(): (r: Stack)
      reads this
    {
      Stack(order, zIndex, className, minZ, maxZ, animating, pending)
    }

    ghost predicate Valid()
      reads this
    {
      CardStack.Valid(State())
    }

    /**
     Records the images in document order and stacks them with z-indices
     0..N-1.  classNames holds the class each image already has in the page.
     */
    constructor (classNames: seq<string>)
      ensures Valid() && State() == Init(classNames)
      ensures !animating && minZ == 0 && maxZ == |classNames| - 1
      ensures |order| == |classNames|
      ensures forall i :: 0 <= i < |order| ==> order[i] == i && zIndex[i] == i
    {
      var n := |classNames|;
      var cards: seq<Card> := [];
      var zs: map<Card, int> := map[];
      var i := 0;
      while i < n
        invariant 0 <= i <= n
        invariant cards == seq(i, k requires 0 <= k < i => k as Card)
        invariant zs == map c | c in cards :: c as int
      {
        cards := cards + [i];
        zs := zs[i := i];
        i := i + 1;
      }
      order := cards;
      zIndex := zs;
      className := map c | c in cards :: classNames[c];
      animating := false;
      pending := Idle;
      minZ := 0;
      maxZ := n - 1;
    }

    /** prevElement: moves the first card of the list to its end and raises it to the top of the stack. */
    method PrevElement(transitions: bool)
      requires Valid() && |order| > 0
      modifies this
      ensures Valid() && State() == Prev(old(State()), transitions)
    {
      PrevKeepsValid(State(), transitions);
      if !animating {
        animating := true;
        var card := order[0];
        order := order[1..] + [card];
        if transitions {
          pending := PrevPending(card);
          AnimateCardOut(card);
        } else {
          maxZ := maxZ + 1;
          zIndex := zIndex[card := maxZ];
          animating := false;
        }
        minZ := minZ + 1;
      }
    }

    /** animatePrevCallback: the listener for the end of prevElement's transition. */
    method AnimatePrevCallback()
      requires Valid() && pending.PrevPending?
      modifies this
      ensures Valid() && State() == PrevDone(old(State()))
    {
      TransitionEndKeepsValid(State());
      var card := pending.card;
      pending := Idle;
      maxZ := maxZ + 1;
      zIndex := zIndex[card := maxZ];
      ResetCard(card);
      animating := false;
    }

    /** nextElement: moves the last card of the list to its start and lowers it beneath the stack. */
    method NextElement(transitions: bool)
      requires Valid() && |order| > 0
      modifies this
      ensures Valid() && State() == Next(old(State()), transitions)
    {
      NextKeepsValid(State(), transitions);
      if !animating {
        animating := true;
        var card := order[|order| - 1];
        order := [card] + order[..|order| - 1];
        if transitions {
          pending := NextPending(card);
          AnimateCardOut(card);
        } else {
          minZ := minZ - 1;
          zIndex := zIndex[card := minZ];
          animating := false;
        }
        maxZ := maxZ - 1;
      }
    }

    /** animateNextCallback: the listener for the end of nextElement's transition. */
    method AnimateNextCallback()
      requires Valid() && pending.NextPending?
      modifies this
      ensures Valid() && State() == NextDone(old(State()))
    {
      TransitionEndKeepsValid(State());
      var card := pending.card;
      pending := Idle;
      minZ := minZ - 1;
      zIndex := zIndex[card := minZ];
      ResetCard(card);
      animating := false;
    }

    /**
     The browser delivering transitionend on the moving card: the registered
     listener, if any, runs once and removes itself.
     */
    method OnTransitionEnd()
      requires Valid()
      modifies this
      ensures Valid() && State() == TransitionEnd(old(State()))
    {
      match pending
      case Idle =>
      case PrevPending(_) => AnimatePrevCallback();
      case NextPending(_) => AnimateNextCallback();
    }

    /** animateCardOut: marks the card as flying out of the stack. */
    method AnimateCardOut(card: Card)
      modifies this`className
      ensures className == old(className)[card := AnimatingOut]
    {
      className := className[card := AnimatingOut];
    }

    /** resetCard: returns the card to its resting class. */
    method ResetCard(card: Card)
      modifies this`className
      ensures className == old(className)[card := ""]
    {
      className := className[card := ""];
    }
  }
}
