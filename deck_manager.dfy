/**
 * The deck store of the card app: the list of decks, which one is current, and the editing
 * and cover-selection flags. Every change to the decks is written to storage.
 */
module DeckStore {
  import opened Wrappers
  import opened Records
  import opened Decks
  import Catalog
  import Persistence

  /** What `updateCardQuantity` returns: `null` when there is no current deck, otherwise the
      card's entry after the change, or `undefined` (`Absent`) when the deck no longer holds it. */
  datatype DeckResult = NoDeck | Absent | Entry(entry: DeckEntry)

  /** `name || '新卡组'`: an empty name falls back to the default one. */
  function NameOrDefault(name: string): (r: string)
    ensures r != []
    ensures name != [] ==> r == name
    ensures name == [] ==> r == DefaultDeckName
  {
    if name != [] then name else DefaultDeckName
  }

  /** `deck.cards.find(card => card.id === cardId)` on the changed deck: the card's first entry,
      or `Absent` when the deck holds none. */
  function ResultOf(d: Deck, id: string): (r: DeckResult)
    ensures !r.NoDeck?
    ensures r.Absent? <==> !HasId(d.cards, id)
    ensures r.Entry? ==> r.entry in d.cards && r.entry.id == id
  {
    match EntryIndex(d.cards, id)
    case Some(k) => Entry(d.cards[k])
    case None => Absent
  }

  /** A valid deck stays valid under a card-count change, and the result holds the card's new
      count exactly when the card is left with copies. */
  lemma UpdateOutcome(catalog: seq<Card>, nameLe: (string, string) -> bool, d: Deck, id: string, change: int)
    requires DeckValid(d)
    ensures var r := ApplyChange(catalog, nameLe, d, id, change);
      && DeckValid(r)
      && (ResultOf(r, id).Entry? <==> NewCount(catalog, d.cards, id, change) > 0)
      && (ResultOf(r, id).Entry? ==> ResultOf(r, id).entry.quantity == NewCount(catalog, d.cards, id, change))
  {
    ApplyChangeKeepsValid(catalog, nameLe, d, id, change);
    ApplyChangeEntry(catalog, nameLe, d, id, change);
  }

  class DeckManager {
    const storage: Persistence.StorageService
    const cardManager: Catalog.CardManager
    /** `nameLe(x, y)` stands for `x.localeCompare(y) <= 0`. */
    const nameLe: (string, string) -> bool
    var decks: seq<Deck>
    var currentDeckIndex: int
    var isEditing: bool
    var isSelectingCover: bool

    /** No decks yet, the first one current, neither editing nor choosing a cover. */
    constructor (storage: Persistence.StorageService, cardManager: Catalog.CardManager, nameLe: (string, string) -> bool)
      ensures this.storage == storage && this.cardManager == cardManager && this.nameLe == nameLe
      ensures decks == [] && currentDeckIndex == 0 && !isEditing && !isSelectingCover
    {
      this.storage := storage;
      this.cardManager := cardManager;
      this.nameLe := nameLe;
      decks := [];
      currentDeckIndex := 0;
      isEditing := false;
      isSelectingCover := false;
    }

    /** `saveDecks()`: writes every deck; a failed write is ignored. */
    method SaveDecks()
      modifies storage
      ensures !old(storage.writesFail) ==> storage.deckStore == Persistence.Parsed(decks)
      ensures old(storage.writesFail) ==> storage.deckStore == old(storage.deckStore)
      ensures storage.quantityStore == old(storage.quantityStore) && storage.writesFail == old(storage.writesFail)
    {
      var _ := storage.SaveDecks(decks);
    }

    /**
     * `init()`, with the clock reading `now` as the ID of a deck it may create: stored decks
     * replace the list only when there are some, and a list still empty gets the default deck,
     * which is then saved. Either way at least one deck exists afterwards.
     */
    method Init(now: string)
      modifies this, storage
      ensures |decks| > 0
      ensures old(storage.LoadDecks()).Some? && |old(storage.LoadDecks()).value| > 0 ==>
        decks == old(storage.LoadDecks()).value && storage.deckStore == old(storage.deckStore)
      ensures !(old(storage.LoadDecks()).Some? && |old(storage.LoadDecks()).value| > 0) && old(decks) != [] ==>
        decks == old(decks) && storage.deckStore == old(storage.deckStore)
      ensures !(old(storage.LoadDecks()).Some? && |old(storage.LoadDecks()).value| > 0) && old(decks) == [] ==>
        decks == [NewDeck(now)] && (!old(storage.writesFail) ==> storage.deckStore == Persistence.Parsed(decks))
      ensures currentDeckIndex == old(currentDeckIndex) && isEditing == old(isEditing) && isSelectingCover == old(isSelectingCover)
      ensures storage.quantityStore == old(storage.quantityStore) && storage.writesFail == old(storage.writesFail)
    {
      var saved := storage.LoadDecks();
      if saved.Some? && |saved.value| > 0 {
        decks := saved.value;
      }
      if |decks| == 0 {
        CreateDefaultDeck(now);
      }
    }

    /** `createDefaultDeck()`: the list becomes one new deck, which is saved. */
    method CreateDefaultDeck(now: string)
      modifies this, storage
      ensures decks == [NewDeck(now)]
      ensures !old(storage.writesFail) ==> storage.deckStore == Persistence.Parsed(decks)
      ensures old(storage.writesFail) ==> storage.deckStore == old(storage.deckStore)
      ensures currentDeckIndex == old(currentDeckIndex) && isEditing == old(isEditing) && isSelectingCover == old(isSelectingCover)
      ensures storage.quantityStore == old(storage.quantityStore) && storage.writesFail == old(storage.writesFail)
    {
      decks := [NewDeck(now)];
      SaveDecks();
    }

    /** `createNewDeck()`: a new empty deck goes in front of the others, which keep their order,
        and becomes the current one; the list is saved and the new deck returned. */
    method CreateNewDeck(now: string) returns (d: Deck)
      modifies this, storage
      ensures d == NewDeck(now) && DeckValid(d)
      ensures decks == [d] + old(decks) && currentDeckIndex == 0
      ensures !old(storage.writesFail) ==> storage.deckStore == Persistence.Parsed(decks)
      ensures old(storage.writesFail) ==> storage.deckStore == old(storage.deckStore)
      ensures isEditing == old(isEditing) && isSelectingCover == old(isSelectingCover)
      ensures storage.quantityStore == old(storage.quantityStore) && storage.writesFail == old(storage.writesFail)
    {
      d := NewDeck(now);
      decks := [d] + decks;
      currentDeckIndex := 0;
      SaveDecks();
    }

    /** `getCurrentDeck()`: `undefined` (`None`) when the index is outside the list. */
    function CurrentDeck(): (r: Option<Deck>)
      reads this
      ensures r.Some? <==> 0 <= currentDeckIndex < |decks|
      ensures r.Some? ==> r.value == decks[currentDeckIndex]
    {
      if 0 <= currentDeckIndex < |decks| then Some(decks[currentDeckIndex]) else None
    }

    /** `switchDeck(index)`: only an index inside the list is accepted and made current. */
    method SwitchDeck(index: int) returns (ok: bool)
      modifies this
      ensures ok <==> 0 <= index < |decks|
      ensures ok ==> currentDeckIndex == index
      ensures !ok ==> currentDeckIndex == old(currentDeckIndex)
      ensures decks == old(decks) && isEditing == old(isEditing) && isSelectingCover == old(isSelectingCover)
    {
      if 0 <= index < |decks| {
        currentDeckIndex := index;
        return true;
      }
      return false;
    }

    /**
     * `updateCardQuantity(cardId, change)`: with no current deck nothing changes and nothing is
     * saved. Otherwise only the current deck changes: its entries change as `ChangedCards` says,
     * the total is recounted, the entries are sorted by the category of the loaded cards and
     * then by name, the list is saved, and the result is the card's entry in the sorted deck.
     */
    method UpdateCardQuantity(id: string, change: int) returns (r: DeckResult)
      modifies this`decks, storage
      ensures old(CurrentDeck()).None? ==> r == NoDeck && decks == old(decks) && storage.deckStore == old(storage.deckStore)
      ensures old(CurrentDeck()).Some? ==>
        && decks == old(decks)[currentDeckIndex := ApplyChange(cardManager.cards, nameLe, old(CurrentDeck()).value, id, change)]
        && r == ResultOf(decks[currentDeckIndex], id)
        && (!old(storage.writesFail) ==> storage.deckStore == Persistence.Parsed(decks))
        && (old(storage.writesFail) ==> storage.deckStore == old(storage.deckStore))
      ensures old(CurrentDeck()).Some? && DeckValid(old(CurrentDeck()).value) ==>
        && DeckValid(decks[currentDeckIndex])
        && (r.Entry? <==> NewCount(cardManager.cards, old(CurrentDeck()).value.cards, id, change) > 0)
        && (r.Entry? ==> r.entry.quantity == NewCount(cardManager.cards, old(CurrentDeck()).value.cards, id, change))
      ensures old(CurrentDeck()).Some? && TotalPreorder(nameLe) ==> Sorted(cardManager.cards, nameLe, decks[currentDeckIndex].cards)
      ensures storage.quantityStore == old(storage.quantityStore) && storage.writesFail == old(storage.writesFail)
    {
      if !(0 <= currentDeckIndex < |decks|) {
        return NoDeck;
      }
      var before := decks[currentDeckIndex];
      var d := ApplyChange(cardManager.cards, nameLe, before, id, change);
      if DeckValid(before) {
        UpdateOutcome(cardManager.cards, nameLe, before, id, change);
      }
      if TotalPreorder(nameLe) {
        SortedDeck(cardManager.cards, nameLe, ChangedCards(cardManager.cards, before.cards, id, change));
      }
      decks := decks[currentDeckIndex := d];
      SaveDecks();
      r := ResultOf(d, id);
    }

    /** `setDeckCover(cardId)`: any ID becomes the current deck's cover, whether or not the deck
        holds that card; false, with nothing changed, only when there is no current deck. */
    method SetDeckCover(id: string) returns (ok: bool)
      modifies this, storage
      ensures currentDeckIndex == old(currentDeckIndex) && isEditing == old(isEditing) && isSelectingCover == old(isSelectingCover)
      ensures ok <==> old(CurrentDeck()).Some?
      ensures ok ==> decks == old(decks)[currentDeckIndex := old(CurrentDeck()).value.(coverCardId := Some(id))]
      ensures ok && !old(storage.writesFail) ==> storage.deckStore == Persistence.Parsed(decks)
      ensures !ok || old(storage.writesFail) ==> storage.deckStore == old(storage.deckStore)
      ensures !ok ==> decks == old(decks)
      ensures storage.quantityStore == old(storage.quantityStore) && storage.writesFail == old(storage.writesFail)
    {
      if !(0 <= currentDeckIndex < |decks|) {
        return false;
      }
      decks := decks[currentDeckIndex := decks[currentDeckIndex].(coverCardId := Some(id))];
      SaveDecks();
      ok := true;
    }

    /** `updateDeckName(name)`: the current deck takes the name, or the default one for an empty
        name; false, with nothing changed, only when there is no current deck. */
    method UpdateDeckName(name: string) returns (ok: bool)
      modifies this, storage
      ensures currentDeckIndex == old(currentDeckIndex) && isEditing == old(isEditing) && isSelectingCover == old(isSelectingCover)
      ensures ok <==> old(CurrentDeck()).Some?
      ensures ok ==> decks == old(decks)[currentDeckIndex := old(CurrentDeck()).value.(name := NameOrDefault(name))]
      ensures ok && !old(storage.writesFail) ==> storage.deckStore == Persistence.Parsed(decks)
      ensures !ok || old(storage.writesFail) ==> storage.deckStore == old(storage.deckStore)
      ensures !ok ==> decks == old(decks)
      ensures storage.quantityStore == old(storage.quantityStore) && storage.writesFail == old(storage.writesFail)
    {
      if !(0 <= currentDeckIndex < |decks|) {
        return false;
      }
      decks := decks[currentDeckIndex := decks[currentDeckIndex].(name := NameOrDefault(name))];
      SaveDecks();
      ok := true;
    }

    /**
     * `importDecks(data)`, with `parsed` the parsed text, `None` when `JSON.parse` throws or the
     * value is not an array. An array replaces the decks, even an empty one, makes the first
     * deck current and is saved; anything else changes nothing.
     */
    method ImportDecks(parsed: Option<seq<Deck>>) returns (ok: bool)
      modifies this, storage
      ensures ok <==> parsed.Some?
      ensures ok ==> decks == parsed.value && currentDeckIndex == 0
      ensures ok && !old(storage.writesFail) ==> storage.deckStore == Persistence.Parsed(decks)
      ensures !ok || old(storage.writesFail) ==> storage.deckStore == old(storage.deckStore)
      ensures !ok ==> decks == old(decks) && currentDeckIndex == old(currentDeckIndex)
      ensures isEditing == old(isEditing) && isSelectingCover == old(isSelectingCover)
      ensures storage.quantityStore == old(storage.quantityStore) && storage.writesFail == old(storage.writesFail)
    {
      if parsed.None? {
        return false;
      }
      decks := parsed.value;
      currentDeckIndex := 0;
      SaveDecks();
      ok := true;
    }

    /** `getDeckDisplayCards()`: the current deck's entries, or none without a current deck. */
    function GetDeckDisplayCards(): (r: seq<DeckEntry>)
      reads this
      ensures CurrentDeck().Some? ==> r == CurrentDeck().value.cards
      ensures CurrentDeck().None? ==> r == []
    {
      match CurrentDeck()
      case Some(d) => d.cards
      case None => []
    }

    /** `setEditingMode(editing)`: leaving edit mode also ends cover selection. */
    method SetEditingMode(editing: bool)
      modifies this
      ensures isEditing == editing
      ensures isSelectingCover == (editing && old(isSelectingCover))
      ensures decks == old(decks) && currentDeckIndex == old(currentDeckIndex)
    {
      isEditing := editing;
      if !editing {
        isSelectingCover := false;
      }
    }

    /** `setSelectingCoverMode(selecting)`. */
    method SetSelectingCoverMode(selecting: bool)
      modifies this
      ensures isSelectingCover == selecting
      ensures isEditing == old(isEditing) && decks == old(decks) && currentDeckIndex == old(currentDeckIndex)
    {
      isSelectingCover := selecting;
    }
  }
}
