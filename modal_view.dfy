/**
 * The full-screen card viewer: which displayed card it shows, the swipe animation in flight,
 * and the drag that may start one. The images, the card name and the timers that run the
 * animation are left to the page; finishing an animation is the explicit step `CompleteSwipe`.
 */
module Viewer {
  import opened Wrappers
  import opened Records
  import Catalog

  /** A drag must move further than this many pixels to turn the card. Touch coordinates
      (`clientX`) are fractional, so offsets are reals. */
  const DragThreshold: real := 80.0

  /** How a call to `show` ends: refused in a deck edit mode, nothing to show, a `TypeError` on
      `cards[index].image` for an index outside the list, or the viewer opened. */
  datatype ShowOutcome = Prevented | EmptyList | Threw | Opened

  /**
   * The index `direction` steps away from `current` in a list of `n` cards: stepping below 0
   * lands on the last card and stepping to `n` or beyond lands on the first. Whatever the
   * starting index, the result is a valid position.
   */
  function Step(current: int, direction: int, n: nat): (r: int)
    requires n > 0
    ensures 0 <= r < n
  {
    var next := current + direction;
    if next < 0 then n - 1 else if next >= n then 0 else next
  }

  /** From a valid position one step either way is a move around a cycle of `n` cards. */
  lemma StepIsCyclic(current: int, direction: int, n: nat)
    requires n > 0 && 0 <= current < n && (direction == 1 || direction == -1)
    ensures Step(current, direction, n) == (current + direction) % n
  {
  }

  /** Stepping forward and then back returns to the card one started from. */
  lemma {:induction false} StepBackUndoesStep(current: int, n: nat)
    requires n > 0 && 0 <= current < n
    ensures Step(Step(current, 1, n), -1, n) == current
    ensures Step(Step(current, -1, n), 1, n) == current
  {
    StepIsCyclic(current, 1, n);
    StepIsCyclic(current, -1, n);
    StepIsCyclic(Step(current, 1, n), -1, n);
    StepIsCyclic(Step(current, -1, n), 1, n);
  }

  /** The previous and next positions `preloadAdjacentImages` loads around `current`. */
  function Neighbours(current: int, n: nat): (r: (int, int))
  {
    (if current > 0 then current - 1 else n - 1, if current < n - 1 then current + 1 else 0)
  }

  /** Around a valid position the neighbours are the cyclic predecessor and successor, the
      same cards one step of navigation reaches. */
  lemma {:induction false} NeighboursAreSteps(current: int, n: nat)
    requires n > 0 && 0 <= current < n
    ensures Neighbours(current, n) == (Step(current, -1, n), Step(current, 1, n))
    ensures Neighbours(current, n) == ((current - 1) % n, (current + 1) % n)
  {
    StepIsCyclic(current, 1, n);
    StepIsCyclic(current, -1, n);
  }

  /** The end of a drag of `dx` pixels: a turn only past the threshold either way, to the
      previous card for a drag to the right and to the next for a drag to the left. */
  function SwipeDirection(dx: real): (r: Option<int>)
    ensures r.Some? <==> dx > DragThreshold || dx < -DragThreshold
    ensures r == Some(-1) <==> dx > DragThreshold
    ensures r == Some(1) <==> dx < -DragThreshold
  {
    if dx > DragThreshold || dx < -DragThreshold then Some(if dx > 0.0 then -1 else 1) else None
  }

  /** A drag of 80.5 pixels to the right is past the threshold and turns to the previous card. */
  lemma FractionalDragTurns()
    ensures SwipeDirection(80.5) == Some(-1)
  {
  }

  /** `show` is refused when the page is in deck mode with its add or edit buttons present. */
  predicate ShowPrevented(isDeckMode: bool, isDeckAddMode: bool, isDeckEditMode: bool)
  {
    isDeckMode && (isDeckAddMode || isDeckEditMode)
  }

  class ModalView {
    const cardManager: Catalog.CardManager
    var currentIndex: int
    var touchStartX: real
    var isDragging: bool
    var translateX: real
    var isAnimating: bool
    var isOpen: bool
    /** The indices the pending swipe timers will settle on, in the order they fire. */
    var pendingSwipes: seq<int>

    /** Closed, on the first card, nothing dragged or animating. */
    constructor (cardManager: Catalog.CardManager)
      ensures this.cardManager == cardManager
      ensures currentIndex == 0 && touchStartX == 0.0 && !isDragging && translateX == 0.0
      ensures !isAnimating && !isOpen && pendingSwipes == []
    {
      this.cardManager := cardManager;
      currentIndex := 0;
      touchStartX := 0.0;
      isDragging := false;
      translateX := 0.0;
      isAnimating := false;
      isOpen := false;
      pendingSwipes := [];
    }

    /** How many cards the viewer pages through: the catalog's displayed list. */
    function Count(): nat
      reads this, cardManager, cardManager.cards, cardManager.filteredCards
    {
      |cardManager.GetDisplayCards()|
    }

    /**
     * `triggerSwipe(direction)`: ignored while an animation runs or when nothing is displayed;
     * otherwise an animation starts towards the wrapped neighbour and its timer is queued; the
     * index itself moves only when that timer fires.
     */
    method TriggerSwipe(direction: int)
      modifies this
      ensures old(isAnimating) || Count() == 0 ==> isAnimating == old(isAnimating) && pendingSwipes == old(pendingSwipes)
      ensures !old(isAnimating) && Count() > 0 ==>
        isAnimating && pendingSwipes == old(pendingSwipes) + [Step(currentIndex, direction, Count())]
      ensures currentIndex == old(currentIndex) && isOpen == old(isOpen) && isDragging == old(isDragging)
      ensures translateX == old(translateX) && touchStartX == old(touchStartX)
    {
      if isAnimating {
        return;
      }
      var n := |cardManager.GetDisplayCards()|;
      if n == 0 {
        return;
      }
      isAnimating := true;
      pendingSwipes := pendingSwipes + [Step(currentIndex, direction, n)];
    }

    /** The oldest pending animation timer of `triggerSwipe` firing: the index settles on the
        card it chose and the viewer accepts input again, even if a later timer is still pending.
        Without a pending timer nothing happens. */
    method CompleteSwipe()
      modifies this
      ensures old(pendingSwipes) != [] ==>
        currentIndex == old(pendingSwipes)[0] && !isAnimating && pendingSwipes == old(pendingSwipes)[1..]
      ensures old(pendingSwipes) == [] ==>
        currentIndex == old(currentIndex) && isAnimating == old(isAnimating) && pendingSwipes == []
      ensures isOpen == old(isOpen) && isDragging == old(isDragging) && translateX == old(translateX) && touchStartX == old(touchStartX)
    {
      if pendingSwipes != [] {
        currentIndex := pendingSwipes[0];
        isAnimating := false;
        pendingSwipes := pendingSwipes[1..];
      }
    }

    /** `navigateCard(direction)`: ignored while animating or when nothing is displayed;
        otherwise the index moves at once to the wrapped neighbour. */
    method NavigateCard(direction: int)
      modifies this
      ensures old(isAnimating) || Count() == 0 ==> currentIndex == old(currentIndex)
      ensures !old(isAnimating) && Count() > 0 ==> currentIndex == Step(old(currentIndex), direction, Count())
      ensures isAnimating == old(isAnimating) && pendingSwipes == old(pendingSwipes) && isOpen == old(isOpen)
      ensures isDragging == old(isDragging) && translateX == old(translateX) && touchStartX == old(touchStartX)
    {
      if isAnimating {
        return;
      }
      var n := |cardManager.GetDisplayCards()|;
      if n == 0 {
        return;
      }
      currentIndex := Step(currentIndex, direction, n);
    }

    /** A finger touching the image at `x`: ignored while animating, otherwise a drag starts there. */
    method TouchStart(x: real)
      modifies this
      ensures old(isAnimating) ==> touchStartX == old(touchStartX) && isDragging == old(isDragging)
      ensures !old(isAnimating) ==> touchStartX == x && isDragging
      ensures currentIndex == old(currentIndex) && isAnimating == old(isAnimating) && pendingSwipes == old(pendingSwipes)
      ensures translateX == old(translateX) && isOpen == old(isOpen)
    {
      if isAnimating {
        return;
      }
      touchStartX := x;
      isDragging := true;
    }

    /** The finger moving to `x`: during a drag, and not while animating, the offset becomes
        the distance from where the drag started. */
    method TouchMove(x: real)
      modifies this
      ensures isDragging && !isAnimating ==> translateX == x - touchStartX
      ensures !(isDragging && !isAnimating) ==> translateX == old(translateX)
      ensures currentIndex == old(currentIndex) && isAnimating == old(isAnimating) && pendingSwipes == old(pendingSwipes)
      ensures isDragging == old(isDragging) && touchStartX == old(touchStartX) && isOpen == old(isOpen)
    {
      if !isDragging || isAnimating {
        return;
      }
      translateX := x - touchStartX;
    }

    /**
     * The finger lifting: outside a drag, or while animating, nothing happens. Otherwise the drag
     * ends, a drag past the threshold triggers a swipe in `SwipeDirection` of the offset, and
     * the offset returns to 0.
     */
    method TouchEnd()
      modifies this
      ensures !old(isDragging) || old(isAnimating) ==>
        translateX == old(translateX) && isDragging == old(isDragging) && isAnimating == old(isAnimating) && pendingSwipes == old(pendingSwipes)
      ensures old(isDragging) && !old(isAnimating) ==> !isDragging && translateX == 0.0
      ensures old(isDragging) && !old(isAnimating) && SwipeDirection(old(translateX)).Some? && Count() > 0 ==>
        isAnimating && pendingSwipes == old(pendingSwipes) + [Step(currentIndex, SwipeDirection(old(translateX)).value, Count())]
      ensures old(isDragging) && !old(isAnimating) && (SwipeDirection(old(translateX)).None? || Count() == 0) ==>
        isAnimating == old(isAnimating) && pendingSwipes == old(pendingSwipes)
      ensures currentIndex == old(currentIndex) && touchStartX == old(touchStartX) && isOpen == old(isOpen)
    {
      if !isDragging || isAnimating {
        return;
      }
      isDragging := false;
      var direction := SwipeDirection(translateX);
      if direction.Some? {
        TriggerSwipe(direction.value);
      }
      translateX := 0.0;
    }

    /**
     * `show(index)`, with the page's deck-mode buttons given as flags. Refused in a deck edit
     * mode and empty-handed when nothing is displayed. Otherwise the drag and animation state
     * is reset first; then an index outside the list throws before the index is stored, and a
     * valid index opens the viewer on that card.
     */
    method Show(index: int, isDeckMode: bool, isDeckAddMode: bool, isDeckEditMode: bool) returns (o: ShowOutcome)
      modifies this
      ensures o == Prevented <==> ShowPrevented(isDeckMode, isDeckAddMode, isDeckEditMode)
      ensures o == EmptyList <==> !ShowPrevented(isDeckMode, isDeckAddMode, isDeckEditMode) && Count() == 0
      ensures o == Threw <==> !ShowPrevented(isDeckMode, isDeckAddMode, isDeckEditMode) && Count() > 0 && !(0 <= index < Count())
      ensures o == Opened <==> !ShowPrevented(isDeckMode, isDeckAddMode, isDeckEditMode) && 0 <= index < Count()
      ensures o.Prevented? || o.EmptyList? ==>
        isDragging == old(isDragging) && translateX == old(translateX) && isAnimating == old(isAnimating)
      ensures o.Threw? || o.Opened? ==> !isDragging && translateX == 0.0 && !isAnimating
      ensures o.Opened? ==> isOpen && currentIndex == index
      ensures !o.Opened? ==> isOpen == old(isOpen) && currentIndex == old(currentIndex)
      ensures pendingSwipes == old(pendingSwipes) && touchStartX == old(touchStartX)
    {
      if ShowPrevented(isDeckMode, isDeckAddMode, isDeckEditMode) {
        return Prevented;
      }
      var n := |cardManager.GetDisplayCards()|;
      if n == 0 {
        return EmptyList;
      }
      isDragging := false;
      translateX := 0.0;
      isAnimating := false;
      if !(0 <= index < n) {
        return Threw;
      }
      isOpen := true;
      currentIndex := index;
      o := Opened;
    }

    /** `close()`. */
    method Close()
      modifies this
      ensures !isOpen
      ensures currentIndex == old(currentIndex) && isAnimating == old(isAnimating) && pendingSwipes == old(pendingSwipes)
      ensures isDragging == old(isDragging) && translateX == old(translateX) && touchStartX == old(touchStartX)
    {
      isOpen := false;
    }

    /** The positions `preloadAdjacentImages()` loads: none when nothing is displayed. */
    function AdjacentIndices(): (r: Option<(int, int)>)
      reads this, cardManager, cardManager.cards, cardManager.filteredCards
      ensures r.None? <==> Count() == 0
      ensures r.Some? && 0 <= currentIndex < Count() ==>
        r.value == (Step(currentIndex, -1, Count()), Step(currentIndex, 1, Count()))
    {
      var n := |cardManager.GetDisplayCards()|;
      if n == 0 then None
      else
        var r := Neighbours(currentIndex, n);
        if 0 <= currentIndex < n then
          NeighboursAreSteps(currentIndex, n);
          Some(r)
        else Some(r)
    }
  }
}
