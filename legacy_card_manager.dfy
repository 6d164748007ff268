/**
 * The card catalog of the older, single-category version of the card app. It builds, searches
 * and counts cards exactly as the newer catalog does, but keeps no "showing all" flag and no
 * base-information cache, and its storage overwrites instead of merging.
 */
module LegacyCatalog {
  import opened Wrappers
  import opened Text
  import opened Categories
  import opened Records
  import opened Catalog
  import Persistence
  import LegacyPersistence

  class LegacyCardManager {
    const storage: LegacyPersistence.LegacyStorageService
    var cards: seq<Card>
    var filteredCards: seq<Card>
    var currentTab: string

    /** A catalog with nothing loaded, on the Pokémon tab. */
    constructor (storage: LegacyPersistence.LegacyStorageService)
      ensures this.storage == storage
      ensures cards == [] && filteredCards == [] && currentTab == Pokemon
    {
      this.storage := storage;
      cards := [];
      filteredCards := [];
      currentTab := Pokemon;
    }

    /**
     * `loadCardData(cardType)`, with the fetched file given as `fetched` (`None` when the request
     * or the JSON parse fails). An unknown category is refused before anything is fetched, and a
     * failed fetch changes nothing. Otherwise the cards are built from the file with image paths
     * under the category's image directory, the stored quantities are laid over them, and they
     * become both the loaded and the displayed cards of the tab `category`.
     */
    method LoadCardData(category: string, fetched: Option<seq<SourceEntry>>) returns (ok: bool)
      modifies this`cards, this`filteredCards, this`currentTab
      ensures ok <==> IsCardType(category) && fetched.Some?
      ensures !ok ==> cards == old(cards) && filteredCards == old(filteredCards) && currentTab == old(currentTab)
      ensures ok ==> Datas(cards) == Loaded(ProcessedCards(fetched.value, category), storage.quantityStore, category)
      ensures ok ==> filteredCards == cards && currentTab == category && Distinct(cards)
      ensures ok ==> forall c :: c in cards ==> fresh(c)
    {
      if !IsCardType(category) {
        return false;
      }
      if fetched.None? {
        return false;
      }
      var processed := LegacyLoadedCards(storage, fetched.value, category);
      cards := processed;
      filteredCards := processed;
      currentTab := category;
      ok := true;
    }

    /**
     * `updateCardQuantity(cardId, change)`: the first loaded card with the ID gets
     * `max(0, quantity + change)`, which is returned; every other card keeps its count, and an
     * unknown ID returns 0.
     */
    method UpdateCardQuantity(id: string, change: int) returns (q: int)
      modifies set c | c in cards
      ensures FirstIndex(cards, id).None? ==> q == 0 && forall c :: c in cards ==> c.quantity == old(c.quantity)
      ensures FirstIndex(cards, id).Some? ==>
        var card := cards[FirstIndex(cards, id).value];
        && card.quantity == Clamp0(old(card.quantity) + change)
        && q == card.quantity
        && forall c :: c in cards && c != card ==> c.quantity == old(c.quantity)
    {
      match FirstIndex(cards, id)
      case Some(k) =>
        cards[k].quantity := Clamp0(cards[k].quantity + change);
        q := cards[k].quantity;
      case None =>
        q := 0;
    }

    /** `searchCards(searchText)`: every card for blank text, otherwise the cards one of whose
        fields contains the lower-cased, trimmed text, in their order. */
    method SearchCards(text: string, lower: string -> string) returns (r: seq<Card>)
      modifies this
      ensures AllSpace(text) ==> filteredCards == cards
      ensures !AllSpace(text) ==> filteredCards == FilterCards(cards, currentTab, lower, Trim(lower(text)))
      ensures r == filteredCards
      ensures cards == old(cards) && currentTab == old(currentTab)
    {
      var trimmed := Trim(text);
      assert trimmed == [] <==> AllSpace(text);
      if trimmed == [] {
        filteredCards := cards;
      } else {
        var needle := Trim(lower(text));
        filteredCards := FilterCards(cards, currentTab, lower, needle);
      }
      r := filteredCards;
    }

    /** `getDisplayCards()`: the search result, or every card when that is empty, so the list
        shown is empty only when nothing is loaded. */
    function GetDisplayCards(): (r: seq<Card>)
      reads this
      ensures r == [] <==> filteredCards == [] && cards == []
      ensures filteredCards == [] ==> r == cards
      ensures filteredCards != [] ==> r == filteredCards
    {
      if |filteredCards| > 0 then filteredCards else cards
    }

    /** `saveData()`: overwrites the store with every loaded card of the current tab. */
    method SaveData() returns (ok: bool)
      modifies storage
      ensures ok == !old(storage.writesFail)
      ensures ok ==> storage.quantityStore == Persistence.Parsed(LegacyPersistence.AllRecords(Datas(cards), currentTab))
      ensures !ok ==> storage.quantityStore == old(storage.quantityStore)
      ensures storage.writesFail == old(storage.writesFail)
    {
      ok := storage.SaveCardQuantities(cards, currentTab);
    }
  }

  /** The cards `processCardData` builds from `entries`, with the stored quantities laid over them. */
  method LegacyLoadedCards(storage: LegacyPersistence.LegacyStorageService, entries: seq<SourceEntry>, category: string)
    returns (cards: seq<Card>)
    ensures Datas(cards) == Loaded(ProcessedCards(entries, category), storage.quantityStore, category)
    ensures Distinct(cards) && forall c :: c in cards ==> fresh(c)
  {
    cards := ProcessCardData(entries, category);
    LegacyLoadInto(storage, cards, category);
  }

  /** `storageService.loadCardQuantities(processedCards, cardType)`, stated on the values the
      cards hold. */
  method LegacyLoadInto(storage: LegacyPersistence.LegacyStorageService, cards: seq<Card>, category: string)
    modifies set c | c in cards
    ensures Datas(cards) == Loaded(old(Datas(cards)), storage.quantityStore, category)
  {
    ghost var before := Datas(cards);
    forall k | 0 <= k < |cards|
      ensures before[k] == cards[k].Data()
    {
      DatasAt(cards, k);
    }
    storage.LoadCardQuantities(cards, category);
    forall k | 0 <= k < |cards|
      ensures Datas(cards)[k] == Loaded(before, storage.quantityStore, category)[k]
    {
      DatasAt(cards, k);
    }
  }
}
