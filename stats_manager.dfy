/**
 * Stats mode of both card apps: while it is on, clicks on the displayed cards change the owned
 * counts, and turning it off saves the counts. The newer app's manager works over the newer
 * catalog, the older app's over the older one and also relabels its button.
 */
module Stats {
  import opened Wrappers
  import opened Records
  import opened Catalog
  import Persistence
  import LegacyPersistence
  import LegacyCatalog

  /** What a stats-mode click returns: the card's ID and its new owned count. */
  datatype StatChange = StatChange(cardId: string, quantity: int)

  const DoneLabel: string := "完成"
  const StatsLabel: string := "统计"

  /** The older app's stats button reads "done" while stats mode is on and "stats" while off. */
  function ButtonLabel(on: bool): (r: string)
    ensures r == DoneLabel <==> on
    ensures r == StatsLabel <==> !on
  {
    if on then DoneLabel else StatsLabel
  }

  class StatsManager {
    const cardManager: CardManager
    var isStatMode: bool

    /** Stats mode starts off. */
    constructor (cardManager: CardManager)
      ensures this.cardManager == cardManager && !isStatMode
    {
      this.cardManager := cardManager;
      isStatMode := false;
    }

    /**
     * `toggleStatMode()`: flips the mode, and saves the counts of the current tab exactly when
     * the mode goes from on to off (`saved`); turning it on leaves the store alone.
     */
    method ToggleStatMode() returns (saved: bool)
      modifies this`isStatMode, cardManager.storage`quantityStore
      ensures isStatMode == !old(isStatMode)
      ensures saved <==> old(isStatMode)
      ensures saved && !cardManager.storage.writesFail ==>
        cardManager.storage.quantityStore == Persistence.Parsed(Persistence.Merged(
          Persistence.AllCardQuantities(old(cardManager.storage.quantityStore)),
          old(cardManager.currentTab), Persistence.QuantityItems(old(Datas(cardManager.cards)))))
      ensures !saved || cardManager.storage.writesFail ==>
        cardManager.storage.quantityStore == old(cardManager.storage.quantityStore)
    {
      isStatMode := !isStatMode;
      saved := !isStatMode;
      if saved {
        var _ := cardManager.SaveData();
      }
    }

    /**
     * `updateCardQuantity(index, change)`: an index outside the displayed list returns nothing
     * and changes nothing. Otherwise the displayed card's ID goes to the catalog's update, and
     * the result pairs the ID with the count the catalog returns.
     */
    method UpdateCardQuantity(index: int, change: int) returns (r: Option<StatChange>)
      modifies set c | c in cardManager.cards
      ensures !(0 <= index < |old(cardManager.GetDisplayCards())|) ==>
        r.None? && forall c :: c in cardManager.cards ==> c.quantity == old(c.quantity)
      ensures 0 <= index < |old(cardManager.GetDisplayCards())| ==>
        var id := old(cardManager.GetDisplayCards())[index].id;
        && r.Some? && r.value.cardId == id
        && (FirstIndex(cardManager.cards, id).None? ==>
              r.value.quantity == 0 && forall c :: c in cardManager.cards ==> c.quantity == old(c.quantity))
        && (FirstIndex(cardManager.cards, id).Some? ==>
              var card := cardManager.cards[FirstIndex(cardManager.cards, id).value];
              && card.quantity == Clamp0(old(card.quantity) + change)
              && r.value.quantity == card.quantity
              && forall c :: c in cardManager.cards && c != card ==> c.quantity == old(c.quantity))
    {
      var shown := cardManager.GetDisplayCards();
      if index < 0 || index >= |shown| {
        return None;
      }
      var id := shown[index].id;
      var q := cardManager.UpdateCardQuantity(id, change);
      r := Some(StatChange(id, q));
    }

    /** `isStatModeActive()`. */
    function IsStatModeActive(): (r: bool)
      reads this
      ensures r <==> isStatMode
    {
      isStatMode
    }
  }

  class LegacyStatsManager {
    const cardManager: LegacyCatalog.LegacyCardManager
    var isStatMode: bool
    var buttonText: string

    /** Stats mode starts off; the button keeps the label the page gave it. */
    constructor (cardManager: LegacyCatalog.LegacyCardManager, buttonText: string)
      ensures this.cardManager == cardManager && !isStatMode && this.buttonText == buttonText
    {
      this.cardManager := cardManager;
      isStatMode := false;
      this.buttonText := buttonText;
    }

    /**
     * `toggleStatMode()`: flips the mode and relabels the button; going from on to off also
     * overwrites the store with the current tab's counts (`saved`).
     */
    method ToggleStatMode() returns (saved: bool)
      modifies this, cardManager.storage
      ensures isStatMode == !old(isStatMode)
      ensures buttonText == ButtonLabel(isStatMode)
      ensures saved <==> old(isStatMode)
      ensures saved && !old(cardManager.storage.writesFail) ==>
        cardManager.storage.quantityStore ==
          Persistence.Parsed(LegacyPersistence.AllRecords(Datas(cardManager.cards), cardManager.currentTab))
      ensures !saved || old(cardManager.storage.writesFail) ==>
        cardManager.storage.quantityStore == old(cardManager.storage.quantityStore)
      ensures cardManager.storage.writesFail == old(cardManager.storage.writesFail)
    {
      isStatMode := !isStatMode;
      if isStatMode {
        buttonText := DoneLabel;
        saved := false;
      } else {
        buttonText := StatsLabel;
        var _ := cardManager.SaveData();
        saved := true;
      }
    }

    /**
     * `updateCardQuantity(index, change)`: nothing for an index outside the displayed list;
     * otherwise the displayed card's ID and the count the catalog's update returns.
     */
    method UpdateCardQuantity(index: int, change: int) returns (r: Option<StatChange>)
      modifies set c | c in cardManager.cards
      ensures !(0 <= index < |old(cardManager.GetDisplayCards())|) ==>
        r.None? && forall c :: c in cardManager.cards ==> c.quantity == old(c.quantity)
      ensures 0 <= index < |old(cardManager.GetDisplayCards())| ==>
        var id := old(cardManager.GetDisplayCards())[index].id;
        && r.Some? && r.value.cardId == id
        && (FirstIndex(cardManager.cards, id).None? ==>
              r.value.quantity == 0 && forall c :: c in cardManager.cards ==> c.quantity == old(c.quantity))
        && (FirstIndex(cardManager.cards, id).Some? ==>
              var card := cardManager.cards[FirstIndex(cardManager.cards, id).value];
              && card.quantity == Clamp0(old(card.quantity) + change)
              && r.value.quantity == card.quantity
              && forall c :: c in cardManager.cards && c != card ==> c.quantity == old(c.quantity))
    {
      var shown := cardManager.GetDisplayCards();
      if index < 0 || index >= |shown| {
        return None;
      }
      var id := shown[index].id;
      var q := cardManager.UpdateCardQuantity(id, change);
      r := Some(StatChange(id, q));
    }

    /** `isStatModeActive()`. */
    function IsStatModeActive(): (r: bool)
      reads this
      ensures r <==> isStatMode
    {
      isStatMode
    }
  }
}
