/**
 * The card grid of the trading-card app: it draws the displayed cards in batches of 50, each
 * with the count badge the current view calls for, maps clicks to a mouse button, and turns a
 * short two-finger touch into one "remove a copy". The page's state that the grid reads from
 * the document (which bars are shown, the current deck) is given as explicit parameters, and an
 * element on the page is a `PageCard` value.
 */
module Grid {
  import opened Wrappers
  import opened Records
  import opened Decks
  import Catalog
  import Editor

  const BatchSize: nat := 50
  /** A touch that starts less than this many milliseconds after the last one ended is ignored. */
  const TouchStartGap: int := 300
  /** A two-finger touch removes a copy only when it is shorter than this many milliseconds. */
  const TwoFingerLimit: int := 500

  /** Where the grid finds a deck: no deck manager attached, one without a current deck, or the
      current deck. */
  datatype DeckSource = NoDeckManager | NoCurrentDeck | Current(deck: Deck)

  /** What the grid reads from the page when it draws a card: whether the deck tabs are shown,
      whether the search bar is shown, and the deck it can reach. */
  datatype PageFlags = PageFlags(isDeckMode: bool, hasSearchHeader: bool, deck: DeckSource)

  /** A card element on the page: its position in the displayed list, the card's ID and the
      count its badge shows, if any. */
  datatype PageCard = PageCard(index: int, cardId: string, badge: Option<int>)

  function Min(a: int, b: int): int
  {
    if a <= b then a else b
  }

  /** The count of card `id` in deck `d`: that of its first entry, 0 when the deck lacks it. */
  function DeckQuantity(d: Deck, id: string): (r: int)
    ensures !HasId(d.cards, id) ==> r == 0
    ensures HasId(d.cards, id) ==> exists k :: 0 <= k < |d.cards| && d.cards[k].id == id && r == d.cards[k].quantity
  {
    match EntryIndex(d.cards, id)
    case Some(k) => d.cards[k].quantity
    case None => 0
  }

  /** The deck view is deck mode with the search bar hidden; adding cards to a deck is deck mode
      with the search bar shown. */
  predicate IsDeckView(f: PageFlags)
  {
    f.isDeckMode && !f.hasSearchHeader
  }

  /**
   * The badge `createCardElement` gives a card. In the deck view: the card's count in the
   * current deck, shown only above 1. While adding to a deck: that count, shown above 0. In
   * every other case, and while adding with no deck manager attached: the owned count, shown
   * above 0.
   */
  function CardBadge(f: PageFlags, card: CardData): (b: Option<int>)
    ensures IsDeckView(f) ==>
      (b.Some? <==> f.deck.Current? && DeckQuantity(f.deck.deck, card.id) > 1)
    ensures f.isDeckMode && f.hasSearchHeader && !f.deck.NoDeckManager? ==>
      (b.Some? <==> f.deck.Current? && DeckQuantity(f.deck.deck, card.id) > 0)
    ensures f.isDeckMode && f.deck.Current? && b.Some? ==> b.value == DeckQuantity(f.deck.deck, card.id)
    ensures !f.isDeckMode || (f.hasSearchHeader && f.deck.NoDeckManager?) ==>
      b == (if card.quantity > 0 then Some(card.quantity) else None)
  {
    if IsDeckView(f) then
      if f.deck.Current? && DeckQuantity(f.deck.deck, card.id) > 1 then Some(DeckQuantity(f.deck.deck, card.id)) else None
    else if f.isDeckMode && !f.deck.NoDeckManager? then
      if f.deck.Current? && DeckQuantity(f.deck.deck, card.id) > 0 then Some(DeckQuantity(f.deck.deck, card.id)) else None
    else if card.quantity > 0 then Some(card.quantity)
    else None
  }

  /** The count `createCardElement` computes before deciding whether to show it. */
  function DisplayQuantity(f: PageFlags, card: CardData): int
  {
    if f.isDeckMode && !f.deck.NoDeckManager? then
      (if f.deck.Current? then DeckQuantity(f.deck.deck, card.id) else 0)
    else if IsDeckView(f) then 0
    else card.quantity
  }

  /** `updateCardQuantityDisplay`'s rule: in the deck view a count is shown above 1, elsewhere
      above 0. */
  function UpdatedBadge(isDeckMode: bool, hasSearchHeader: bool, quantity: int): (b: Option<int>)
    ensures b.Some? <==> (if isDeckMode && !hasSearchHeader then quantity > 1 else quantity > 0)
    ensures b.Some? ==> b.value == quantity
  {
    if isDeckMode && !hasSearchHeader then
      (if quantity > 1 then Some(quantity) else None)
    else if quantity > 0 then Some(quantity) else None
  }

  /** Drawing a card and later updating its count use the same threshold: the badge a card is
      drawn with is what `updateCardQuantityDisplay` would set for the count drawn. */
  lemma CardBadgeFollowsUpdateRule(f: PageFlags, card: CardData)
    ensures CardBadge(f, card) == UpdatedBadge(f.isDeckMode, f.hasSearchHeader, DisplayQuantity(f, card))
  {
  }

  /** `contextmenu` is the right button; every other event, a click among them, the left. */
  function ButtonOf(eventType: string): (r: Editor.Button)
    ensures r.Right? <==> eventType == "contextmenu"
    ensures r.Left? <==> eventType != "contextmenu"
  {
    if eventType == "contextmenu" then Editor.Right else Editor.Left
  }

  /** The element drawn for the displayed card at `i` of `cards`. */
  function ElementOf(f: PageFlags, cards: seq<CardData>, i: nat): PageCard
    requires i < |cards|
  {
    PageCard(i, cards[i].id, CardBadge(f, cards[i]))
  }

  /** The page state `Consistent` asks for, over `count` displayed cards. */
  predicate PageConsistent(rendered: seq<PageCard>, batch: nat, loading: bool, trigger: bool, count: nat)
  {
    && !loading
    && |rendered| == Min(BatchSize * batch, count)
    && (forall k :: 0 <= k < |rendered| ==> rendered[k].index == k)
    && (trigger <==> BatchSize * batch < count)
  }

  /** Loading the batch after `batch` consistent ones, of the cards from `BatchSize * batch`
      up to `end`, leaves the page consistent with one batch more. */
  lemma NextBatchConsistent(r0: seq<PageCard>, r1: seq<PageCard>, batch: nat, count: nat, end: nat)
    requires PageConsistent(r0, batch, false, BatchSize * batch < count, count)
    requires BatchSize * batch < count && end == Min(BatchSize * batch + BatchSize, count)
    requires |r1| == |r0| + (end - BatchSize * batch) && r1[..|r0|] == r0
    requires forall j :: |r0| <= j < |r1| ==> r1[j].index == BatchSize * batch + j - |r0|
    ensures PageConsistent(r1, batch + 1, false, end < count, count)
  {
    forall k | 0 <= k < |r1|
      ensures r1[k].index == k
    {
      if k < |r0| {
        assert r1[k] == r0[k];
      }
    }
  }

  class CardGrid {
    const cardManager: Catalog.CardManager
    /** Whether an `onQuantityChange` handler was given. */
    const hasQuantityHandler: bool
    var currentBatch: nat
    var isLoadingBatch: bool
    /** The card elements on the page, in page order. */
    var rendered: seq<PageCard>
    /** Whether the page ends with the load-more trigger. */
    var hasTrigger: bool
    var touchStartTime: int
    var touchCount: nat
    var isMultiTouch: bool
    var lastTouchEndTime: int
    var doubleTouchProcessed: bool

    /** Nothing drawn, no batch loaded, no touch under way. */
    constructor (cardManager: Catalog.CardManager, hasQuantityHandler: bool)
      ensures this.cardManager == cardManager && this.hasQuantityHandler == hasQuantityHandler
      ensures currentBatch == 0 && !isLoadingBatch && rendered == [] && !hasTrigger
      ensures touchStartTime == 0 && touchCount == 0 && !isMultiTouch && lastTouchEndTime == 0 && !doubleTouchProcessed
    {
      this.cardManager := cardManager;
      this.hasQuantityHandler := hasQuantityHandler;
      currentBatch := 0;
      isLoadingBatch := false;
      rendered := [];
      hasTrigger := false;
      touchStartTime := 0;
      touchCount := 0;
      isMultiTouch := false;
      lastTouchEndTime := 0;
      doubleTouchProcessed := false;
    }

    /** How many cards the catalog displays. */
    function Count(): nat
      reads cardManager, cardManager.cards, cardManager.filteredCards
    {
      |cardManager.GetDisplayCards()|
    }

    /**
     * After `render` and any number of batch loads: the page holds the displayed cards
     * 0, 1, ... up to 50 times the batches loaded (or all of them), each once and in order, and
     * ends with the load-more trigger exactly when more cards remain.
     */
    predicate Consistent()
      reads this, cardManager, cardManager.cards, cardManager.filteredCards
    {
      PageConsistent(rendered, currentBatch, isLoadingBatch, hasTrigger, Count())
    }

    /** The loop of `loadNextBatch`: the elements for `cards[start..end]` are appended in order. */
    method AppendElements(f: PageFlags, cards: seq<CardData>, start: nat, end: nat)
      requires start <= end <= |cards|
      modifies this`rendered
      ensures |rendered| == |old(rendered)| + (end - start)
      ensures rendered[..|old(rendered)|] == old(rendered)
      ensures forall j :: |old(rendered)| <= j < |rendered| ==> rendered[j] == ElementOf(f, cards, start + j - |old(rendered)|)
    {
      var i := start;
      while i < end
        invariant start <= i <= end
        invariant |rendered| == |old(rendered)| + (i - start)
        invariant rendered[..|old(rendered)|] == old(rendered)
        invariant forall j :: |old(rendered)| <= j < |rendered| ==> rendered[j] == ElementOf(f, cards, start + j - |old(rendered)|)
      {
        rendered := rendered + [ElementOf(f, cards, i)];
        i := i + 1;
      }
    }

    /**
     * `loadNextBatch()`: nothing while a batch is loading or once every displayed card is on
     * the page. Otherwise the next batch of up to 50 cards is appended in order, the trigger
     * stays exactly when cards remain after it, and the batch count goes up by one.
     */
    method LoadNextBatch(f: PageFlags)
      modifies this`isLoadingBatch, this`rendered, this`hasTrigger, this`currentBatch
      ensures old(isLoadingBatch) || BatchSize * old(currentBatch) >= old(Count()) ==>
        rendered == old(rendered) && currentBatch == old(currentBatch) && hasTrigger == old(hasTrigger)
        && isLoadingBatch == old(isLoadingBatch)
      ensures !old(isLoadingBatch) && BatchSize * old(currentBatch) < old(Count()) ==>
        var cards := old(cardManager.GetDisplayCards());
        var start := BatchSize * old(currentBatch);
        var end := Min(start + BatchSize, |cards|);
        && |rendered| == |old(rendered)| + (end - start)
        && rendered[..|old(rendered)|] == old(rendered)
        && (forall j :: |old(rendered)| <= j < |rendered| ==> rendered[j] == ElementOf(f, cards, start + j - |old(rendered)|))
        && (hasTrigger <==> end < |cards|)
        && currentBatch == old(currentBatch) + 1
        && !isLoadingBatch
      ensures old(Consistent()) ==> Consistent()
    {
      if isLoadingBatch {
        return;
      }
      var cards := cardManager.GetDisplayCards();
      if BatchSize * currentBatch >= |cards| {
        return;
      }
      LoadBatchOf(f, cards);
    }

    /** The body of `loadNextBatch` once it goes ahead, over the displayed cards `cards`. */
    method LoadBatchOf(f: PageFlags, cards: seq<CardData>)
      requires !isLoadingBatch && BatchSize * currentBatch < |cards|
      modifies this`isLoadingBatch, this`rendered, this`hasTrigger, this`currentBatch
      ensures var start := BatchSize * old(currentBatch);
        var end := Min(start + BatchSize, |cards|);
        && |rendered| == |old(rendered)| + (end - start)
        && rendered[..|old(rendered)|] == old(rendered)
        && (forall j :: |old(rendered)| <= j < |rendered| ==> rendered[j] == ElementOf(f, cards, start + j - |old(rendered)|))
        && (hasTrigger <==> end < |cards|)
        && currentBatch == old(currentBatch) + 1
        && !isLoadingBatch
      ensures PageConsistent(old(rendered), old(currentBatch), false, old(hasTrigger), |cards|) ==>
        PageConsistent(rendered, currentBatch, false, hasTrigger, |cards|)
    {
      var start := BatchSize * currentBatch;
      ghost var wasConsistent := PageConsistent(rendered, currentBatch, false, hasTrigger, |cards|);
      ghost var before := rendered;
      isLoadingBatch := true;
      var end := Min(start + BatchSize, |cards|);
      AppendElements(f, cards, start, end);
      hasTrigger := end < |cards|;
      currentBatch := currentBatch + 1;
      isLoadingBatch := false;
      if wasConsistent {
        NextBatchConsistent(before, rendered, currentBatch - 1, |cards|, end);
      }
    }

    /**
     * `render()`: the page is emptied and the batch count reset; when any card is displayed
     * the first batch is drawn. Unless a batch was loading, the page is then `Consistent`.
     */
    method Render(f: PageFlags)
      modifies this`isLoadingBatch, this`rendered, this`hasTrigger, this`currentBatch
      ensures !old(isLoadingBatch) ==> Consistent() && currentBatch == (if Count() > 0 then 1 else 0)
      ensures old(isLoadingBatch) ==> rendered == [] && currentBatch == 0 && !hasTrigger
    {
      rendered := [];
      hasTrigger := false;
      currentBatch := 0;
      if Count() > 0 {
        LoadNextBatch(f);
      }
    }

    /**
     * `updateCardQuantityDisplay(cardId, quantity)`: every element of card `cardId` gets the
     * badge `UpdatedBadge` gives for `quantity`; all other elements, and the order, stay.
     */
    method UpdateCardQuantityDisplay(cardId: string, quantity: int, isDeckMode: bool, hasSearchHeader: bool)
      modifies this
      ensures |rendered| == |old(rendered)|
      ensures forall k :: 0 <= k < |rendered| ==>
        && rendered[k].index == old(rendered)[k].index && rendered[k].cardId == old(rendered)[k].cardId
        && rendered[k].badge == (if old(rendered)[k].cardId == cardId then UpdatedBadge(isDeckMode, hasSearchHeader, quantity)
                                 else old(rendered)[k].badge)
      ensures currentBatch == old(currentBatch) && isLoadingBatch == old(isLoadingBatch) && hasTrigger == old(hasTrigger)
      ensures touchStartTime == old(touchStartTime) && touchCount == old(touchCount) && isMultiTouch == old(isMultiTouch)
      ensures lastTouchEndTime == old(lastTouchEndTime) && doubleTouchProcessed == old(doubleTouchProcessed)
    {
      var badge := UpdatedBadge(isDeckMode, hasSearchHeader, quantity);
      var k := 0;
      while k < |rendered|
        invariant 0 <= k <= |rendered| == |old(rendered)|
        invariant forall j :: 0 <= j < |rendered| ==>
          && rendered[j].index == old(rendered)[j].index && rendered[j].cardId == old(rendered)[j].cardId
          && rendered[j].badge == (if j < k && old(rendered)[j].cardId == cardId then badge else old(rendered)[j].badge)
        invariant currentBatch == old(currentBatch) && isLoadingBatch == old(isLoadingBatch) && hasTrigger == old(hasTrigger)
        invariant touchStartTime == old(touchStartTime) && touchCount == old(touchCount) && isMultiTouch == old(isMultiTouch)
        invariant lastTouchEndTime == old(lastTouchEndTime) && doubleTouchProcessed == old(doubleTouchProcessed)
      {
        if rendered[k].cardId == cardId {
          rendered := rendered[k := rendered[k].(badge := badge)];
        }
        k := k + 1;
      }
    }

    /** A two-finger touch may still remove a copy when it ends. */
    predicate Armed()
      reads this
    {
      isMultiTouch && touchCount >= 2 && !doubleTouchProcessed
    }

    /**
     * `handleCardTouchStart` at time `now` with `touches` fingers down: ignored right after a
     * touch ended; otherwise a new gesture starts, two fingers or more making it a two-finger one.
     */
    method TouchStart(now: int, touches: nat)
      requires touches >= 1
      modifies this
      ensures now - old(lastTouchEndTime) < TouchStartGap ==>
        && touchStartTime == old(touchStartTime) && touchCount == old(touchCount)
        && isMultiTouch == old(isMultiTouch) && doubleTouchProcessed == old(doubleTouchProcessed)
      ensures now - old(lastTouchEndTime) >= TouchStartGap ==>
        && touchStartTime == now && touchCount == touches && !doubleTouchProcessed
        && (isMultiTouch <==> touches >= 2)
        && (Armed() <==> touches >= 2)
      ensures lastTouchEndTime == old(lastTouchEndTime)
      ensures rendered == old(rendered) && currentBatch == old(currentBatch) && hasTrigger == old(hasTrigger)
      ensures isLoadingBatch == old(isLoadingBatch)
    {
      if now - lastTouchEndTime < TouchStartGap {
        return;
      }
      touchStartTime := now;
      touchCount := touches;
      doubleTouchProcessed := false;
      if touchCount >= 2 {
        isMultiTouch := true;
        return;
      }
      isMultiTouch := false;
    }

    /**
     * `handleCardTouchEnd` at time `now`: `fired` says whether one copy is removed, which
     * happens exactly for an armed two-finger gesture shorter than 500 ms with a handler
     * present. Afterwards the gesture is disarmed, so it removes at most one copy.
     */
    method TouchEnd(now: int) returns (fired: bool)
      modifies this
      ensures fired <==> old(Armed()) && hasQuantityHandler && now - old(touchStartTime) < TwoFingerLimit
      ensures lastTouchEndTime == now && !isMultiTouch && !Armed()
      ensures fired ==> doubleTouchProcessed
      ensures !fired ==> doubleTouchProcessed == old(doubleTouchProcessed)
      ensures touchStartTime == old(touchStartTime) && touchCount == old(touchCount)
      ensures rendered == old(rendered) && currentBatch == old(currentBatch) && hasTrigger == old(hasTrigger)
      ensures isLoadingBatch == old(isLoadingBatch)
    {
      lastTouchEndTime := now;
      var duration := now - touchStartTime;
      fired := false;
      if isMultiTouch && touchCount >= 2 && !doubleTouchProcessed {
        if hasQuantityHandler && duration < TwoFingerLimit {
          fired := true;
          doubleTouchProcessed := true;
        }
        isMultiTouch := false;
        return;
      }
      isMultiTouch := false;
    }

    /** `handleCardTouchCancel`: the gesture is dropped. */
    method TouchCancel()
      modifies this
      ensures !isMultiTouch && !doubleTouchProcessed && !Armed()
      ensures touchStartTime == old(touchStartTime) && touchCount == old(touchCount) && lastTouchEndTime == old(lastTouchEndTime)
      ensures rendered == old(rendered) && currentBatch == old(currentBatch) && hasTrigger == old(hasTrigger)
      ensures isLoadingBatch == old(isLoadingBatch)
    {
      isMultiTouch := false;
      doubleTouchProcessed := false;
    }
  }
}
