/**
 * The deck editor: the modes of the deck screen (browsing a deck, editing it, adding cards to
 * it, choosing its cover), how a click on a card is routed among them, and how each mode
 * changes what the catalog displays. The page's mode, which the editor reads from the
 * presence of buttons on the page, is given as explicit flags.
 */
module Editor {
  import opened Wrappers
  import opened Records
  import opened Decks
  import opened Catalog
  import DeckStore
  import Viewer

  /** The page's mode as the presence of its buttons tells it: the deck tabs (deck mode), the
      "done" button (adding cards), the "add" button (editing), and stats mode of the grid. */
  datatype DomFlags = DomFlags(isDeckMode: bool, isDeckAddMode: bool, isDeckEditMode: bool, isStatsMode: bool)

  /** Which mouse button a click used: `contextmenu` gives `Right`, anything else `Left`. */
  datatype Button = Left | Right

  /** Where `handleCardClick` sends a click. */
  datatype Route = CoverSelect | StatsAdjust | AddToDeck | EditQuantity | OpenDetail

  /** The buttons under the deck tabs. */
  datatype ButtonSet = NoButtons | AddModeButtons | EditModeButtons | DeckModeButtons

  /** A left click adds one copy, a right click removes one. */
  function Delta(b: Button): (r: int)
    ensures r == 1 <==> b.Left?
    ensures r == -1 <==> b.Right?
  {
    match b
    case Left => 1
    case Right => -1
  }

  /**
   * The order `handleCardClick` tries the modes in: choosing a cover first; then stats mode,
   * but only outside deck mode; then adding cards; then editing, only in deck mode and not
   * while adding; otherwise the card opens in the viewer.
   */
  function RouteClick(selectingCover: bool, f: DomFlags, inAddMode: bool): (r: Route)
    ensures r == CoverSelect <==> selectingCover
    ensures r == StatsAdjust <==> !selectingCover && f.isStatsMode && !f.isDeckMode
    ensures r == AddToDeck <==>
      !selectingCover && !(f.isStatsMode && !f.isDeckMode) && (f.isDeckAddMode || inAddMode)
    ensures r == EditQuantity <==>
      && !selectingCover && !(f.isStatsMode && !f.isDeckMode) && !(f.isDeckAddMode || inAddMode)
      && f.isDeckEditMode && f.isDeckMode
    ensures r == OpenDetail <==>
      && !selectingCover && !(f.isStatsMode && !f.isDeckMode) && !(f.isDeckAddMode || inAddMode)
      && !(f.isDeckEditMode && f.isDeckMode)
  {
    if selectingCover then CoverSelect
    else if f.isStatsMode && !f.isDeckMode then StatsAdjust
    else if f.isDeckAddMode || inAddMode then AddToDeck
    else if f.isDeckEditMode && f.isDeckMode && !f.isDeckAddMode then EditQuantity
    else OpenDetail
  }

  /** Stats mode takes a click only outside deck mode: in deck mode the same click goes to the
      deck modes or the viewer, whatever the stats flag says. */
  lemma StatsIgnoredInDeckMode(selectingCover: bool, f: DomFlags, inAddMode: bool)
    requires f.isDeckMode
    ensures RouteClick(selectingCover, f, inAddMode) == RouteClick(selectingCover, f.(isStatsMode := !f.isStatsMode), inAddMode)
  {
  }

  /** The replaced `modalView.show` does nothing while cards are being added, the deck is being
      edited or a cover is being chosen. */
  predicate ModalSuppressed(inAddMode: bool, editing: bool, selectingCover: bool)
  {
    inAddMode || editing || selectingCover
  }

  /** `shouldRerenderAfterQuantityChange(oldQuantity, newQuantity)`: a card appearing (0 to 1)
      or disappearing (any positive count to 0) needs the deck drawn again. */
  function ShouldRerender(oldQuantity: int, newQuantity: int): (r: bool)
    ensures r <==> (oldQuantity == 0 && newQuantity == 1) || (oldQuantity >= 1 && newQuantity == 0)
  {
    (oldQuantity == 0 && newQuantity == 1) || (oldQuantity == 1 && newQuantity == 0) || (oldQuantity > 1 && newQuantity == 0)
  }

  /** Between two positive counts the deck is never drawn again, only the badge changes. */
  lemma NoRerenderBetweenPositiveCounts(oldQuantity: int, newQuantity: int)
    requires oldQuantity >= 1 && newQuantity >= 1
    ensures !ShouldRerender(oldQuantity, newQuantity)
  {
  }

  /** `forceRefreshButtons()`: the add-mode buttons while adding, else the edit-mode buttons
      while editing, else the deck-mode buttons. */
  function ButtonsFor(inAddMode: bool, editing: bool): (r: ButtonSet)
    ensures r == AddModeButtons <==> inAddMode
    ensures r == EditModeButtons <==> !inAddMode && editing
    ensures r == DeckModeButtons <==> !inAddMode && !editing
  {
    if inAddMode then AddModeButtons else if editing then EditModeButtons else DeckModeButtons
  }

  /** The count `addCardToDeck` shows on the card: the entry's count when the deck store
      returns one, 1 for an addition that returned none, and nothing otherwise. */
  function AddBadge(r: DeckStore.DeckResult, change: int): Option<int>
  {
    if r.Entry? then Some(r.entry.quantity) else if change > 0 then Some(1) else None
  }

  /** When the deck was valid, the badge after adding to it shows the count the deck holds,
      except for an addition the deck refused, which still shows 1. */
  lemma {:induction false} AddBadgeShowsCount(catalog: seq<Card>, nameLe: (string, string) -> bool, d: Deck, id: string, change: int)
    requires DeckValid(d)
    ensures var r := DeckStore.ResultOf(ApplyChange(catalog, nameLe, d, id, change), id);
      var n := NewCount(catalog, d.cards, id, change);
      && (n > 0 ==> AddBadge(r, change) == Some(n))
      && (n <= 0 && change > 0 ==> AddBadge(r, change) == Some(1))
      && (n <= 0 && change <= 0 ==> AddBadge(r, change).None?)
  {
    DeckStore.UpdateOutcome(catalog, nameLe, d, id, change);
  }

  /** Whether `handleQuantityChange` draws the deck again after entry `e` was changed and the
      deck became `d`: when the card left the deck, or when `ShouldRerender` says so. */
  function RerenderAfter(d: Deck, e: DeckEntry): bool
  {
    match DeckStore.ResultOf(d, e.id)
    case Entry(x) => ShouldRerender(e.quantity, x.quantity)
    case _ => true
  }

  /** On a valid deck, changing one of its entries draws the deck again exactly when the card
      leaves the deck: a count that stays positive never does. */
  lemma {:induction false} RerenderExactlyOnRemoval(catalog: seq<Card>, nameLe: (string, string) -> bool, d: Deck, k: nat, change: int)
    requires DeckValid(d) && k < |d.cards|
    ensures RerenderAfter(ApplyChange(catalog, nameLe, d, d.cards[k].id, change), d.cards[k]) <==>
      NewCount(catalog, d.cards, d.cards[k].id, change) <= 0
  {
    assert d.cards[k].quantity > 0;
    DeckStore.UpdateOutcome(catalog, nameLe, d, d.cards[k].id, change);
  }

  class DeckEditor {
    const deckManager: DeckStore.DeckManager
    const cardManager: CardManager
    const modal: Viewer.ModalView
    var isInAddMode: bool
    /** `originalGetDisplayCards`: the displayed list a later restore goes back to. */
    var savedView: Option<DisplayView>
    /** `originalFilteredCards`. */
    var savedFiltered: Option<seq<Card>>
    /** `originalCurrentTab`. */
    var savedTab: Option<string>
    var buttons: ButtonSet

    /** Not adding, nothing saved, no deck buttons yet. */
    constructor (deckManager: DeckStore.DeckManager, cardManager: CardManager, modal: Viewer.ModalView)
      ensures this.deckManager == deckManager && this.cardManager == cardManager && this.modal == modal
      ensures !isInAddMode && savedView.None? && savedFiltered.None? && savedTab.None? && buttons == NoButtons
    {
      this.deckManager := deckManager;
      this.cardManager := cardManager;
      this.modal := modal;
      isInAddMode := false;
      savedView := None;
      savedFiltered := None;
      savedTab := None;
      buttons := NoButtons;
    }

    /** The catalog's loaded cards, tab, flag and cache are as before. */
    twostate predicate CatalogKept()
      reads this, cardManager
    {
      && cardManager.cards == old(cardManager.cards) && cardManager.currentTab == old(cardManager.currentTab)
      && cardManager.isShowingAllCards == old(cardManager.isShowingAllCards)
      && cardManager.allCardsCache == old(cardManager.allCardsCache)
    }

    /** The deck store is as before. */
    twostate predicate DecksKept()
      reads this, deckManager
    {
      && deckManager.decks == old(deckManager.decks) && deckManager.currentDeckIndex == old(deckManager.currentDeckIndex)
      && deckManager.isEditing == old(deckManager.isEditing) && deckManager.isSelectingCover == old(deckManager.isSelectingCover)
    }

    /**
     * `renderCurrentDeck()`: while adding cards it does nothing. Otherwise what was displayed
     * is kept as the list to restore, and the catalog displays the current deck's entries.
     */
    method RenderCurrentDeck()
      modifies this, cardManager
      ensures old(isInAddMode) ==> savedView == old(savedView) && cardManager.view == old(cardManager.view)
      ensures !old(isInAddMode) ==>
        savedView == Some(old(cardManager.view)) && cardManager.view == DeckView(deckManager.GetDeckDisplayCards())
      ensures isInAddMode == old(isInAddMode) && savedFiltered == old(savedFiltered) && savedTab == old(savedTab)
      ensures buttons == old(buttons) && cardManager.filteredCards == old(cardManager.filteredCards) && CatalogKept()
    {
      if isInAddMode {
        return;
      }
      savedView := Some(cardManager.view);
      cardManager.view := DeckView(deckManager.GetDeckDisplayCards());
    }

    /** `enterDeckMode()`: remembers what the catalog displayed, its search result and its tab,
        puts up the deck-mode buttons (search and edit), then displays the current deck. */
    method EnterDeckMode()
      modifies this, cardManager
      ensures savedView == Some(old(cardManager.view))
      ensures savedFiltered == Some(old(cardManager.filteredCards)) && savedTab == Some(old(cardManager.currentTab))
      ensures !old(isInAddMode) ==> cardManager.view == DeckView(deckManager.GetDeckDisplayCards())
      ensures old(isInAddMode) ==> cardManager.view == old(cardManager.view)
      ensures isInAddMode == old(isInAddMode) && buttons == DeckModeButtons
      ensures cardManager.filteredCards == old(cardManager.filteredCards) && CatalogKept()
    {
      savedView := Some(cardManager.view);
      savedFiltered := Some(cardManager.filteredCards);
      savedTab := Some(cardManager.currentTab);
      buttons := DeckModeButtons;
      RenderCurrentDeck();
    }

    /** `forceRefreshButtons()`. */
    method ForceRefreshButtons()
      modifies this
      ensures buttons == ButtonsFor(isInAddMode, deckManager.isEditing)
      ensures isInAddMode == old(isInAddMode) && savedView == old(savedView)
      ensures savedFiltered == old(savedFiltered) && savedTab == old(savedTab)
    {
      buttons := ButtonsFor(isInAddMode, deckManager.isEditing);
    }

    /** `enterEditMode()`: the deck store is put in edit mode and the buttons follow. */
    method EnterEditMode()
      modifies this, deckManager
      ensures deckManager.isEditing && deckManager.isSelectingCover == old(deckManager.isSelectingCover)
      ensures deckManager.decks == old(deckManager.decks) && deckManager.currentDeckIndex == old(deckManager.currentDeckIndex)
      ensures buttons == ButtonsFor(isInAddMode, true)
      ensures isInAddMode == old(isInAddMode) && savedView == old(savedView)
      ensures savedFiltered == old(savedFiltered) && savedTab == old(savedTab)
    {
      deckManager.SetEditingMode(true);
      ForceRefreshButtons();
    }

    /** `enterAddMode()`: adding starts, every loaded card becomes the search result and the
        catalog displays exactly that result; the buttons follow. */
    method EnterAddMode()
      modifies this, cardManager
      ensures isInAddMode && buttons == AddModeButtons
      ensures cardManager.filteredCards == cardManager.cards && cardManager.view == FilteredOnly
      ensures savedView == old(savedView) && savedFiltered == old(savedFiltered) && savedTab == old(savedTab)
      ensures CatalogKept()
    {
      isInAddMode := true;
      cardManager.filteredCards := cardManager.cards;
      cardManager.view := FilteredOnly;
      ForceRefreshButtons();
    }

    /** `enterCoverSelectionMode()`: cover selection and adding start; the search result and
        the displayed list are remembered, then every loaded card is shown. */
    method EnterCoverSelectionMode()
      modifies this, cardManager, deckManager
      ensures deckManager.isSelectingCover && isInAddMode
      ensures savedFiltered == Some(old(cardManager.filteredCards)) && savedView == Some(old(cardManager.view))
      ensures cardManager.filteredCards == cardManager.cards && cardManager.view == FilteredOnly
      ensures deckManager.isEditing == old(deckManager.isEditing) && deckManager.decks == old(deckManager.decks)
      ensures deckManager.currentDeckIndex == old(deckManager.currentDeckIndex)
      ensures savedTab == old(savedTab) && buttons == old(buttons) && CatalogKept()
    {
      deckManager.SetSelectingCoverMode(true);
      isInAddMode := true;
      savedFiltered := Some(cardManager.filteredCards);
      savedView := Some(cardManager.view);
      cardManager.filteredCards := cardManager.cards;
      cardManager.view := FilteredOnly;
    }

    /** `enterAddModeForCover()`: adding starts and every loaded card becomes the search result. */
    method EnterAddModeForCover()
      modifies this, cardManager
      ensures isInAddMode && cardManager.filteredCards == cardManager.cards
      ensures cardManager.view == old(cardManager.view) && savedView == old(savedView)
      ensures savedFiltered == old(savedFiltered) && savedTab == old(savedTab) && buttons == old(buttons)
      ensures CatalogKept()
    {
      isInAddMode := true;
      cardManager.filteredCards := cardManager.cards;
    }

    /** `cancelCoverSelection()`: cover selection and adding end, the remembered list is
        restored when there is one, and then the current deck is displayed again. */
    method CancelCoverSelection()
      modifies this, cardManager, deckManager
      ensures !deckManager.isSelectingCover && !isInAddMode
      ensures savedView == Some(if old(savedView).Some? then old(savedView).value else old(cardManager.view))
      ensures cardManager.view == DeckView(deckManager.GetDeckDisplayCards())
      ensures deckManager.isEditing == old(deckManager.isEditing) && deckManager.decks == old(deckManager.decks)
      ensures deckManager.currentDeckIndex == old(deckManager.currentDeckIndex)
      ensures cardManager.filteredCards == old(cardManager.filteredCards)
      ensures savedFiltered == old(savedFiltered) && savedTab == old(savedTab) && buttons == old(buttons)
      ensures CatalogKept()
    {
      deckManager.SetSelectingCoverMode(false);
      isInAddMode := false;
      if savedView.Some? {
        cardManager.view := savedView.value;
      }
      RenderCurrentDeck();
    }

    /**
     * `exitAddMode()`: adding and cover selection end while editing goes on; the remembered
     * displayed list and search result are restored where there are some, the edit-mode buttons
     * come back, and the current deck is displayed again.
     */
    method ExitAddMode()
      modifies this, cardManager, deckManager
      ensures !isInAddMode && !deckManager.isSelectingCover && deckManager.isEditing == old(deckManager.isEditing)
      ensures buttons == EditModeButtons
      ensures old(savedFiltered).Some? ==> cardManager.filteredCards == old(savedFiltered).value
      ensures old(savedFiltered).None? ==> cardManager.filteredCards == old(cardManager.filteredCards)
      ensures savedView == Some(if old(savedView).Some? then old(savedView).value else old(cardManager.view))
      ensures cardManager.view == DeckView(deckManager.GetDeckDisplayCards())
      ensures deckManager.decks == old(deckManager.decks) && deckManager.currentDeckIndex == old(deckManager.currentDeckIndex)
      ensures savedFiltered == old(savedFiltered) && savedTab == old(savedTab) && CatalogKept()
    {
      isInAddMode := false;
      deckManager.SetSelectingCoverMode(false);
      if savedView.Some? {
        cardManager.view := savedView.value;
      }
      if savedFiltered.Some? {
        cardManager.filteredCards := savedFiltered.value;
      }
      buttons := EditModeButtons;
      RenderCurrentDeck();
    }

    /**
     * `exitEditMode()`: editing, adding and cover selection all end, the deck-mode buttons come
     * back, and the search result becomes new card objects holding the displayed forms of the
     * current deck's entries (`resetToDeckCards`).
     */
    method ExitEditMode()
      modifies this, cardManager, deckManager
      ensures !deckManager.isEditing && !isInAddMode && !deckManager.isSelectingCover
      ensures buttons == DeckModeButtons
      ensures Datas(cardManager.filteredCards) == DeckItems(cardManager.cards, deckManager.GetDeckDisplayCards())
      ensures forall c :: c in cardManager.filteredCards ==> fresh(c)
      ensures cardManager.view == old(cardManager.view)
      ensures deckManager.decks == old(deckManager.decks) && deckManager.currentDeckIndex == old(deckManager.currentDeckIndex)
      ensures savedView == old(savedView) && savedFiltered == old(savedFiltered) && savedTab == old(savedTab)
      ensures CatalogKept()
    {
      deckManager.SetEditingMode(false);
      isInAddMode := false;
      deckManager.SetSelectingCoverMode(false);
      buttons := DeckModeButtons;
      var shown := Instantiate(DeckItems(cardManager.cards, deckManager.GetDeckDisplayCards()));
      cardManager.filteredCards := shown;
    }

    /** The "+" tab: outside edit mode a new deck is created in front and displayed; while
        editing nothing happens. */
    method ClickNewDeck(now: string)
      modifies this, cardManager, deckManager, deckManager.storage
      ensures old(deckManager.isEditing) ==> DecksKept() && cardManager.view == old(cardManager.view)
      ensures !old(deckManager.isEditing) ==>
        && deckManager.decks == [NewDeck(now)] + old(deckManager.decks) && deckManager.currentDeckIndex == 0
        && (!isInAddMode ==> cardManager.view == DeckView([]))
      ensures deckManager.isEditing == old(deckManager.isEditing) && isInAddMode == old(isInAddMode)
      ensures cardManager.filteredCards == old(cardManager.filteredCards) && CatalogKept()
    {
      if deckManager.isEditing {
        return;
      }
      var _ := deckManager.CreateNewDeck(now);
      RenderCurrentDeck();
    }

    /** A deck tab: outside edit mode the deck at `index` becomes current if there is one, and
        the current deck is displayed; while editing nothing happens. */
    method ClickDeckTab(index: int)
      modifies this, cardManager, deckManager
      ensures old(deckManager.isEditing) ==> DecksKept() && cardManager.view == old(cardManager.view)
      ensures !old(deckManager.isEditing) ==>
        && deckManager.currentDeckIndex == (if 0 <= index < |deckManager.decks| then index else old(deckManager.currentDeckIndex))
        && (!isInAddMode ==> cardManager.view == DeckView(deckManager.GetDeckDisplayCards()))
      ensures deckManager.decks == old(deckManager.decks) && deckManager.isEditing == old(deckManager.isEditing)
      ensures isInAddMode == old(isInAddMode) && cardManager.filteredCards == old(cardManager.filteredCards) && CatalogKept()
    {
      if deckManager.isEditing {
        return;
      }
      var _ := deckManager.SwitchDeck(index);
      RenderCurrentDeck();
    }

    /**
     * The cover-selection branch of `handleCardClick`: an index outside the displayed list
     * changes nothing. Otherwise the displayed card becomes the current deck's cover (when there
     * is a current deck), cover selection ends and the editor leaves add mode.
     */
    method SelectCover(index: int) returns (ok: bool)
      modifies this, cardManager, deckManager, deckManager.storage
      ensures ok <==> 0 <= index < |old(cardManager.GetDisplayCards())|
      ensures !ok ==> DecksKept() && isInAddMode == old(isInAddMode) && cardManager.view == old(cardManager.view)
      ensures !ok ==> cardManager.filteredCards == old(cardManager.filteredCards)
      ensures deckManager.currentDeckIndex == old(deckManager.currentDeckIndex)
      ensures ok ==> !deckManager.isSelectingCover && !isInAddMode && deckManager.isEditing == old(deckManager.isEditing)
      ensures ok && old(deckManager.CurrentDeck()).Some? ==>
        deckManager.decks == old(deckManager.decks)[deckManager.currentDeckIndex :=
          old(deckManager.CurrentDeck()).value.(coverCardId := Some(old(cardManager.GetDisplayCards())[index].id))]
      ensures ok && old(deckManager.CurrentDeck()).None? ==> deckManager.decks == old(deckManager.decks)
      ensures CatalogKept()
    {
      var shown := cardManager.GetDisplayCards();
      if index < 0 || index >= |shown| {
        return false;
      }
      var _ := deckManager.SetDeckCover(shown[index].id);
      deckManager.SetSelectingCoverMode(false);
      ExitAddMode();
      ok := true;
    }

    /** The stats branch of `handleCardClick`: the displayed card's owned count changes by
        `change` through the catalog, and the new count is returned; nothing for an index
        outside the displayed list. */
    method AdjustOwned(index: int, change: int) returns (q: Option<int>)
      modifies set c | c in cardManager.cards
      ensures !(0 <= index < |old(cardManager.GetDisplayCards())|) ==>
        q.None? && forall c :: c in cardManager.cards ==> c.quantity == old(c.quantity)
      ensures 0 <= index < |old(cardManager.GetDisplayCards())| ==>
        var id := old(cardManager.GetDisplayCards())[index].id;
        && q.Some?
        && (FirstIndex(cardManager.cards, id).None? ==>
              q.value == 0 && forall c :: c in cardManager.cards ==> c.quantity == old(c.quantity))
        && (FirstIndex(cardManager.cards, id).Some? ==>
              var card := cardManager.cards[FirstIndex(cardManager.cards, id).value];
              && card.quantity == Clamp0(old(card.quantity) + change) && q.value == card.quantity
              && forall c :: c in cardManager.cards && c != card ==> c.quantity == old(c.quantity))
    {
      var shown := cardManager.GetDisplayCards();
      if index < 0 || index >= |shown| {
        return None;
      }
      var n := cardManager.UpdateCardQuantity(shown[index].id, change);
      q := Some(n);
    }

    /**
     * `addCardToDeck(index, change)`: an index outside the displayed list changes nothing.
     * Otherwise the displayed card's count in the current deck changes by `change` through the
     * deck store, and the count shown on the card is `AddBadge` of the store's answer.
     */
    method AddCardToDeck(index: int, change: int) returns (badge: Option<int>)
      modifies deckManager, deckManager.storage
      ensures !(0 <= index < |old(cardManager.GetDisplayCards())|) ==>
        badge.None? && DecksKept() && deckManager.storage.deckStore == old(deckManager.storage.deckStore)
      ensures deckManager.currentDeckIndex == old(deckManager.currentDeckIndex)
      ensures 0 <= index < |old(cardManager.GetDisplayCards())| ==>
        var id := old(cardManager.GetDisplayCards())[index].id;
        && (old(deckManager.CurrentDeck()).None? ==> deckManager.decks == old(deckManager.decks) && badge == AddBadge(DeckStore.NoDeck, change))
        && (old(deckManager.CurrentDeck()).Some? ==>
              var d := ApplyChange(deckManager.cardManager.cards, deckManager.nameLe, old(deckManager.CurrentDeck()).value, id, change);
              && deckManager.decks == old(deckManager.decks)[deckManager.currentDeckIndex := d]
              && badge == AddBadge(DeckStore.ResultOf(d, id), change))
      ensures deckManager.isEditing == old(deckManager.isEditing) && deckManager.isSelectingCover == old(deckManager.isSelectingCover)
    {
      var shown := cardManager.GetDisplayCards();
      if index < 0 || index >= |shown| {
        return None;
      }
      var r := deckManager.UpdateCardQuantity(shown[index].id, change);
      badge := AddBadge(r, change);
    }

    /**
     * The second half of `handleQuantityChange`, once the deck store answered `r` for entry `e`:
     * the deck is drawn again when the card left the deck or `ShouldRerender` says so;
     * otherwise the displayed deck list, which shares the deck's entries, shows the change.
     */
    method RefreshAfterChange(e: DeckEntry, r: DeckStore.DeckResult) returns (rerendered: bool)
      modifies this, cardManager
      ensures rerendered == (match r case Entry(x) => ShouldRerender(e.quantity, x.quantity) case _ => true)
      ensures rerendered && !isInAddMode ==> cardManager.view == DeckView(deckManager.GetDeckDisplayCards())
      ensures !rerendered && old(cardManager.view).DeckView? ==> cardManager.view == DeckView(deckManager.GetDeckDisplayCards())
      ensures !rerendered && !old(cardManager.view).DeckView? ==> cardManager.view == old(cardManager.view)
      ensures isInAddMode == old(isInAddMode) && savedFiltered == old(savedFiltered) && savedTab == old(savedTab)
      ensures buttons == old(buttons) && cardManager.filteredCards == old(cardManager.filteredCards) && CatalogKept()
    {
      if r.Entry? && !ShouldRerender(e.quantity, r.entry.quantity) {
        if cardManager.view.DeckView? {
          cardManager.view := DeckView(deckManager.GetDeckDisplayCards());
        }
        return false;
      }
      RenderCurrentDeck();
      rerendered := true;
    }

    /**
     * `handleQuantityChange(index, change)` on the current deck's entry at `index`: an index
     * outside the deck changes nothing. Otherwise the entry's count changes through the deck
     * store and `RefreshAfterChange` follows; on a valid deck the deck is drawn again exactly
     * when the card left it (`RerenderExactlyOnRemoval`).
     */
    method HandleQuantityChange(index: int, change: int) returns (rerendered: bool)
      modifies this, cardManager, deckManager, deckManager.storage
      ensures deckManager.currentDeckIndex == old(deckManager.currentDeckIndex)
      ensures !(0 <= index < |old(deckManager.GetDeckDisplayCards())|) ==>
        && !rerendered && DecksKept() && deckManager.storage.deckStore == old(deckManager.storage.deckStore)
        && cardManager.view == old(cardManager.view) && savedView == old(savedView)
      ensures 0 <= index < |old(deckManager.GetDeckDisplayCards())| ==>
        var e := old(deckManager.GetDeckDisplayCards())[index];
        var d := ApplyChange(old(deckManager.cardManager.cards), deckManager.nameLe, old(deckManager.CurrentDeck()).value, e.id, change);
        deckManager.decks == old(deckManager.decks)[deckManager.currentDeckIndex := d] && rerendered == RerenderAfter(d, e)
      ensures rerendered && !isInAddMode ==> cardManager.view == DeckView(deckManager.GetDeckDisplayCards())
      ensures 0 <= index < |old(deckManager.GetDeckDisplayCards())| && !rerendered && old(cardManager.view).DeckView? ==>
        cardManager.view == DeckView(deckManager.GetDeckDisplayCards())
      ensures isInAddMode == old(isInAddMode) && deckManager.isEditing == old(deckManager.isEditing)
      ensures cardManager.filteredCards == old(cardManager.filteredCards) && CatalogKept()
    {
      var entries := deckManager.GetDeckDisplayCards();
      if index < 0 || index >= |entries| {
        return false;
      }
      var e := entries[index];
      ghost var d := ApplyChange(deckManager.cardManager.cards, deckManager.nameLe, deckManager.CurrentDeck().value, e.id, change);
      var r := deckManager.UpdateCardQuantity(e.id, change);
      assert r == DeckStore.ResultOf(d, e.id);
      rerendered := RefreshAfterChange(e, r);
    }

    /** The replaced `modalView.show(index)`: nothing while adding, editing or choosing a cover,
        otherwise the viewer's own `show`. */
    method ShowDetail(index: int, flags: DomFlags) returns (o: Option<Viewer.ShowOutcome>)
      modifies modal
      ensures o.None? <==> ModalSuppressed(isInAddMode, deckManager.isEditing, deckManager.isSelectingCover)
      ensures o.None? ==> modal.isOpen == old(modal.isOpen) && modal.currentIndex == old(modal.currentIndex)
      ensures o == Some(Viewer.Opened) <==>
        && !ModalSuppressed(isInAddMode, deckManager.isEditing, deckManager.isSelectingCover)
        && !Viewer.ShowPrevented(flags.isDeckMode, flags.isDeckAddMode, flags.isDeckEditMode)
        && 0 <= index < modal.Count()
      ensures o == Some(Viewer.Opened) ==> modal.isOpen && modal.currentIndex == index
    {
      if ModalSuppressed(isInAddMode, deckManager.isEditing, deckManager.isSelectingCover) {
        return None;
      }
      var outcome := modal.Show(index, flags.isDeckMode, flags.isDeckAddMode, flags.isDeckEditMode);
      o := Some(outcome);
    }

    /**
     * `handleCardClick(index, button)`: the click goes where `RouteClick` says, with a left click
     * as +1 and a right click as -1. Only the cover, add and edit routes touch the decks, and a
     * click the viewer takes while an edit-like mode is on leaves the viewer closed.
     */
    method HandleCardClick(index: int, button: Button, flags: DomFlags) returns (route: Route)
      modifies this, cardManager, (set c | c in cardManager.cards), deckManager, deckManager.storage, modal
      ensures deckManager.currentDeckIndex == old(deckManager.currentDeckIndex)
      ensures route == RouteClick(old(deckManager.isSelectingCover), flags, old(isInAddMode))
      ensures route == CoverSelect && 0 <= index < |old(cardManager.GetDisplayCards())| ==>
        !deckManager.isSelectingCover && !isInAddMode
      ensures route == CoverSelect && 0 <= index < |old(cardManager.GetDisplayCards())| && old(deckManager.CurrentDeck()).Some? ==>
        deckManager.decks == old(deckManager.decks)[deckManager.currentDeckIndex :=
          old(deckManager.CurrentDeck()).value.(coverCardId := Some(old(cardManager.GetDisplayCards())[index].id))]
      ensures route == StatsAdjust || route == OpenDetail ==> DecksKept() && isInAddMode == old(isInAddMode)
      ensures route == OpenDetail && ModalSuppressed(old(isInAddMode), old(deckManager.isEditing), old(deckManager.isSelectingCover)) ==>
        modal.isOpen == old(modal.isOpen) && modal.currentIndex == old(modal.currentIndex)
      ensures route != StatsAdjust ==> forall c :: c in old(cardManager.cards) ==> c.quantity == old(c.quantity)
    {
      route := RouteClick(deckManager.isSelectingCover, flags, isInAddMode);
      match route
      case CoverSelect =>
        var _ := SelectCover(index);
      case StatsAdjust =>
        var _ := AdjustOwned(index, Delta(button));
      case AddToDeck =>
        var _ := AddCardToDeck(index, Delta(button));
      case EditQuantity =>
        if index < |deckManager.GetDeckDisplayCards()| {
          var _ := HandleQuantityChange(index, Delta(button));
        }
      case OpenDetail =>
        var _ := ShowDetail(index, flags);
    }
  }
}
