/**
 * The card catalog of the trading-card app: the cards of the category being browsed, the
 * current search result, the cache of base information used to show deck entries of any
 * category, and the changes a user makes to owned counts.
 */
module Catalog {
  import opened Wrappers
  import opened Text
  import opened Categories
  import opened Records
  import opened Decks
  import ImageFiles
  import Persistence
  import Quantities

  /** What `getCardBaseInfo` answers: the name, image path and category of a card. */
  datatype BaseInfo = BaseInfo(name: string, image: string, category: string)

  /** One element of the base-information cache. */
  datatype BaseCard = BaseCard(id: string, info: BaseInfo)

  /**
   * Which list `getDisplayCards` returns. The catalog's own function shows the search result,
   * or every card when that is empty. The deck editor replaces the function: `FilteredOnly`
   * shows the search result even when it is empty, and `DeckView` shows the entries of a deck,
   * each completed from the loaded card with the same ID.
   */
  datatype DisplayView = OwnDisplay | FilteredOnly | DeckView(entries: seq<DeckEntry>)

  /** `generateDefaultImage(cardId)`: the same path the legacy catalog builds from the category's
      image directory and the image file name. */
  function GenerateDefaultImage(id: string): (r: string)
    ensures r == CardImage(id)
  {
    "images/hk" + ImageFiles.PadStart(id, 8, '0') + ".webp"
  }

  /** The base information a card object carries; it never changes. */
  function CardInfo(c: Card): BaseInfo
  {
    BaseInfo(c.name, c.image, c.category)
  }

  /** The cache entries describing a list of card values, in order. */
  function BaseCardsOf(ds: seq<CardData>): (r: seq<BaseCard>)
    ensures |r| == |ds|
    ensures forall k :: 0 <= k < |ds| ==> r[k] == BaseCard(ds[k].id, BaseInfo(ds[k].name, ds[k].image, ds[k].category))
  {
    seq(|ds|, k requires 0 <= k < |ds| => BaseCard(ds[k].id, BaseInfo(ds[k].name, ds[k].image, ds[k].category)))
  }

  lemma BaseCardsSnoc(ds: seq<CardData>, d: CardData)
    ensures BaseCardsOf(ds + [d]) == BaseCardsOf(ds) + [BaseCard(d.id, BaseInfo(d.name, d.image, d.category))]
  {
  }

  lemma BaseCardsAppend(a: seq<CardData>, b: seq<CardData>)
    ensures BaseCardsOf(a + b) == BaseCardsOf(a) + BaseCardsOf(b)
  {
  }

  /**
   * `extractBaseCardInfo(jsonData, cardType)`: for each entry in file order and each of its
   * non-empty IDs in order, that ID with the entry's name, the generated image path and the
   * category: the base information of exactly the cards `processCardData` builds.
   */
  method ExtractBaseCardInfo(entries: seq<SourceEntry>, category: string) returns (base: seq<BaseCard>)
    ensures base == BaseCardsOf(ProcessedCards(entries, category))
  {
    base := [];
    var i := 0;
    while i < |entries|
      invariant 0 <= i <= |entries|
      invariant base == BaseCardsOf(ProcessedCards(entries[..i], category))
    {
      var more := EntryBaseCards(entries[i], category);
      BaseCardsStep(entries, i, category);
      base := base + more;
      i := i + 1;
    }
    assert entries[..i] == entries;
  }

  /** The inner loop of `extractBaseCardInfo`: one cache entry per non-empty ID of one entry. */
  method EntryBaseCards(e: SourceEntry, category: string) returns (more: seq<BaseCard>)
    ensures more == BaseCardsOf(EntryCards(e, e.ids, category))
  {
    more := [];
    var j := 0;
    while j < |e.ids|
      invariant 0 <= j <= |e.ids|
      invariant more == BaseCardsOf(EntryCards(e, e.ids[..j], category))
    {
      var id := e.ids[j];
      EntryBaseCardsStep(e, j, category);
      if id != "" {
        var name := if e.cardName != "" then e.cardName else if e.pokemonName != "" then e.pokemonName else Unknown;
        var image := "images/hk" + ImageFiles.PadStart(id, 8, '0') + ".webp";
        assert name == DisplayName(e) && image == GenerateDefaultImage(id);
        more := more + [BaseCard(id, BaseInfo(name, image, category))];
      }
      j := j + 1;
    }
    assert e.ids[..j] == e.ids;
  }

  lemma BaseCardsStep(entries: seq<SourceEntry>, i: nat, category: string)
    requires i < |entries|
    ensures BaseCardsOf(ProcessedCards(entries[..i + 1], category))
      == BaseCardsOf(ProcessedCards(entries[..i], category)) + BaseCardsOf(EntryCards(entries[i], entries[i].ids, category))
  {
    ProcessedCardsStep(entries, i, category);
    BaseCardsAppend(ProcessedCards(entries[..i], category), EntryCards(entries[i], entries[i].ids, category));
  }

  lemma EntryBaseCardsStep(e: SourceEntry, j: nat, category: string)
    requires j < |e.ids|
    ensures BaseCardsOf(EntryCards(e, e.ids[..j + 1], category)) == BaseCardsOf(EntryCards(e, e.ids[..j], category))
      + (if e.ids[j] != "" then [BaseCard(e.ids[j], BaseInfo(DisplayName(e), GenerateDefaultImage(e.ids[j]), category))] else [])
  {
    assert e.ids[..j + 1] == e.ids[..j] + [e.ids[j]];
    EntryBaseCardsSnoc(e, e.ids[..j], e.ids[j], category);
  }

  lemma EntryBaseCardsSnoc(e: SourceEntry, ids: seq<string>, id: string, category: string)
    ensures BaseCardsOf(EntryCards(e, ids + [id], category)) == BaseCardsOf(EntryCards(e, ids, category))
      + (if id != "" then [BaseCard(id, BaseInfo(DisplayName(e), GenerateDefaultImage(id), category))] else [])
  {
    EntryCardsSnoc(e, ids, id, category);
    if id != "" {
      BaseCardsSnoc(EntryCards(e, ids, category), MakeCard(e, id, category));
    }
  }

  /** Every extracted entry has a non-empty ID, the category it was extracted for and the image
      path generated from its ID; the IDs are the non-empty IDs of the file, in order. */
  lemma {:induction false} ExtractedShape(entries: seq<SourceEntry>, category: string, k: int)
    requires 0 <= k < |BaseCardsOf(ProcessedCards(entries, category))|
    ensures var b := BaseCardsOf(ProcessedCards(entries, category))[k];
      b.id == PresentIds(entries)[k] && b.id != "" && b.info.category == category && b.info.image == GenerateDefaultImage(b.id)
  {
    ProcessedCardsShape(entries, category, k);
  }

  /** `allCardsCache.find(c => c.id === id)`, as a position. */
  function CacheIndex(cache: seq<BaseCard>, id: string): (r: Option<nat>)
    ensures r.Some? ==> r.value < |cache| && cache[r.value].id == id
    ensures r.Some? ==> forall j :: 0 <= j < r.value ==> cache[j].id != id
    ensures r.None? ==> forall k :: 0 <= k < |cache| ==> cache[k].id != id
  {
    if cache == [] then None
    else if cache[0].id == id then Some(0)
    else
      match CacheIndex(cache[1..], id)
      case Some(k) => Some(k + 1)
      case None => None
  }

  /** The default answer for a card found nowhere. */
  function DefaultInfo(id: string): BaseInfo
  {
    BaseInfo("卡牌 " + id, GenerateDefaultImage(id), Unknown)
  }

  /** `getCardBaseInfo(cardId)` over the loaded cards and the cache (`None` before it is built;
      an empty cache is still consulted). */
  function BaseInfoLookup(cards: seq<Card>, cache: Option<seq<BaseCard>>, id: string): BaseInfo
  {
    match FirstIndex(cards, id)
    case Some(k) => CardInfo(cards[k])
    case None =>
      if cache.Some? && CacheIndex(cache.value, id).Some? then cache.value[CacheIndex(cache.value, id).value].info
      else DefaultInfo(id)
  }

  /**
   * The three sources are tried in order: the first loaded card with the ID answers; when no
   * loaded card has it, the first cached entry with the ID answers; when neither has it, the
   * answer is named `卡牌 <id>`, has the generated image path and the unknown category.
   */
  lemma BaseInfoPrecedence(cards: seq<Card>, cache: Option<seq<BaseCard>>, id: string)
    ensures var r := BaseInfoLookup(cards, cache, id);
      && ((exists k :: 0 <= k < |cards| && cards[k].id == id) ==>
            exists k :: 0 <= k < |cards| && cards[k].id == id && r == CardInfo(cards[k])
              && forall j :: 0 <= j < k ==> cards[j].id != id)
      && ((forall k :: 0 <= k < |cards| ==> cards[k].id != id) && cache.Some? && (exists k :: 0 <= k < |cache.value| && cache.value[k].id == id) ==>
            exists k :: 0 <= k < |cache.value| && cache.value[k].id == id && r == cache.value[k].info
              && forall j :: 0 <= j < k ==> cache.value[j].id != id)
      && ((forall k :: 0 <= k < |cards| ==> cards[k].id != id) && (cache.None? || forall k :: 0 <= k < |cache.value| ==> cache.value[k].id != id) ==>
            r == BaseInfo("卡牌 " + id, GenerateDefaultImage(id), Unknown))
  {
  }

  /** Whichever source answers, the image path is the one generated from the ID, provided the
      loaded cards and the cache carry generated paths (as processing and extraction give them). */
  lemma BaseInfoImage(cards: seq<Card>, cache: Option<seq<BaseCard>>, id: string)
    requires forall k :: 0 <= k < |cards| ==> cards[k].image == CardImage(cards[k].id)
    requires cache.Some? ==> forall k :: 0 <= k < |cache.value| ==> cache.value[k].info.image == CardImage(cache.value[k].id)
    ensures BaseInfoLookup(cards, cache, id).image == GenerateDefaultImage(id)
  {
  }

  /** A cache extracted from the same file as the loaded cards answers exactly as the cards do. */
  lemma {:induction false} CacheAgreesWithCards(cards: seq<Card>, entries: seq<SourceEntry>, category: string, id: string)
    requires |cards| == |ProcessedCards(entries, category)|
    requires forall k :: 0 <= k < |cards| ==> cards[k].id == ProcessedCards(entries, category)[k].id
    requires forall k :: 0 <= k < |cards| ==> CardInfo(cards[k]) == BaseCardsOf(ProcessedCards(entries, category))[k].info
    ensures BaseInfoLookup([], Some(BaseCardsOf(ProcessedCards(entries, category))), id) == BaseInfoLookup(cards, None, id)
  {
    var cache := BaseCardsOf(ProcessedCards(entries, category));
    assert forall k :: 0 <= k < |cards| ==> cache[k].id == cards[k].id && cache[k].info == CardInfo(cards[k]);
    CacheMirrors(cards, cache, id);
  }

  /** A cache holding, position by position, the IDs and descriptions of the loaded cards
      answers as the cards do. */
  lemma CacheMirrors(cards: seq<Card>, cache: seq<BaseCard>, id: string)
    requires |cards| == |cache|
    requires forall k :: 0 <= k < |cards| ==> cache[k].id == cards[k].id && cache[k].info == CardInfo(cards[k])
    ensures BaseInfoLookup([], Some(cache), id) == BaseInfoLookup(cards, None, id)
  {
    match FirstIndex(cards, id)
    case Some(k) =>
      assert cache[k].id == id;
      var c := CacheIndex(cache, id);
      assert c.Some?;
      assert c.value == k;
    case None =>
      assert CacheIndex(cache, id).None?;
  }

  /** The card values once the stored quantities have been laid over freshly processed cards:
      a card whose (category, ID) pair is stored takes the stored count, every other keeps its own. */
  function Loaded(ds: seq<CardData>, store: Persistence.Stored<seq<Quantities.Record>>, category: string): (r: seq<CardData>)
    ensures |r| == |ds|
    ensures forall k :: 0 <= k < |ds| ==>
      r[k] == ds[k].(quantity := if store.Parsed? then Persistence.Overlaid(ds[k].quantity, store.value, category, ds[k].id) else ds[k].quantity)
  {
    seq(|ds|, k requires 0 <= k < |ds| =>
      ds[k].(quantity := if store.Parsed? then Persistence.Overlaid(ds[k].quantity, store.value, category, ds[k].id) else ds[k].quantity))
  }

  // ---------------------------------------------------------------- searching

  /** The texts of a skill list that a search looks at: each skill's name, then its effect. */
  function SkillTexts(skills: seq<Skill>): (r: seq<string>)
    ensures |r| == 2 * |skills|
    ensures forall k :: 0 <= k < |skills| ==> r[2 * k] == skills[k].name && r[2 * k + 1] == skills[k].effect
  {
    if skills == [] then []
    else
      var rest := SkillTexts(skills[1..]);
      assert forall k :: 1 <= k < |skills| ==> rest[2 * (k - 1)] == skills[k].name && rest[2 * (k - 1) + 1] == skills[k].effect;
      [skills[0].name, skills[0].effect] + rest
  }

  /** The fields searched for a card under the tab `tab`: its name, then, under the Pokémon tab,
      the ability name and effect and each skill's name and effect, and under any other tab its
      effect text. */
  function SearchFields(tab: string, c: Card): (r: seq<string>)
    ensures |r| >= 1 && r[0] == c.name
  {
    [c.name] +
      if tab == Pokemon then
        match c.details
        case PokemonDetails(_, _, abilityName, abilityEffect, skills) => [abilityName, abilityEffect] + SkillTexts(skills)
        case _ => []
      else
        match c.details
        case OtherDetails(effect) => [effect]
        case _ => []
  }

  /** A card matches when one of its non-empty fields, lower-cased, contains `needle`. */
  predicate Matches(tab: string, c: Card, lower: string -> string, needle: string)
  {
    exists f :: f in SearchFields(tab, c) && f != "" && Contains(lower(f), needle)
  }

  /** `cards.filter(...)` with the search predicate: the matching cards, in their order. */
  function FilterCards(cards: seq<Card>, tab: string, lower: string -> string, needle: string): (r: seq<Card>)
    ensures |r| <= |cards|
  {
    if cards == [] then []
    else
      var c := cards[|cards| - 1];
      FilterCards(cards[..|cards| - 1], tab, lower, needle) + (if Matches(tab, c, lower, needle) then [c] else [])
  }

  /** `idx` lists, in increasing order, positions of `b` that hold the elements of `a`. */
  ghost predicate Embeds<T>(idx: seq<nat>, a: seq<T>, b: seq<T>)
  {
    && |idx| == |a|
    && (forall i :: 0 <= i < |a| ==> idx[i] < |b| && a[i] == b[idx[i]])
    && (forall i, j :: 0 <= i < j < |a| ==> idx[i] < idx[j])
  }

  /** `a` is `b` with some elements left out and the rest in their order. */
  ghost predicate SubsequenceOf<T>(a: seq<T>, b: seq<T>)
  {
    exists idx :: Embeds(idx, a, b)
  }

  /** The positions of the cards a search keeps. */
  function KeptPositions(cards: seq<Card>, tab: string, lower: string -> string, needle: string): (idx: seq<nat>)
    ensures Embeds(idx, FilterCards(cards, tab, lower, needle), cards)
    ensures forall i :: 0 <= i < |idx| ==> idx[i] < |cards|
  {
    if cards == [] then []
    else
      var n := |cards| - 1;
      var front := KeptPositions(cards[..n], tab, lower, needle);
      var keep := Matches(tab, cards[n], lower, needle);
      EmbedsSnoc(front, FilterCards(cards[..n], tab, lower, needle), cards, n, keep);
      front + (if keep then [n] else [])
  }

  /** Positions into a prefix of `b` stay valid in `b`, and the next position may join them. */
  lemma EmbedsSnoc<T>(idx: seq<nat>, a: seq<T>, b: seq<T>, n: nat, keep: bool)
    requires n < |b| && Embeds(idx, a, b[..n])
    ensures Embeds(idx + (if keep then [n] else []), a + (if keep then [b[n]] else []), b)
  {
    assert forall i :: 0 <= i < |idx| ==> idx[i] < n;
  }

  /** A search result keeps the order of the cards it was taken from. */
  lemma SearchKeepsOrder(cards: seq<Card>, tab: string, lower: string -> string, needle: string)
    ensures SubsequenceOf(FilterCards(cards, tab, lower, needle), cards)
  {
    var idx := KeptPositions(cards, tab, lower, needle);
  }

  /** A card is in the search result exactly when it is one of the cards and it matches. */
  lemma {:induction false} SearchMembers(cards: seq<Card>, tab: string, lower: string -> string, needle: string, c: Card)
    ensures c in FilterCards(cards, tab, lower, needle) <==> c in cards && Matches(tab, c, lower, needle)
  {
    if cards != [] {
      var n := |cards| - 1;
      SearchMembers(cards[..n], tab, lower, needle, c);
      assert cards == cards[..n] + [cards[n]];
    }
  }

  /** Searching the result of a search again with the same text changes nothing. */
  lemma {:induction false} SearchIdempotent(cards: seq<Card>, tab: string, lower: string -> string, needle: string)
    ensures FilterCards(FilterCards(cards, tab, lower, needle), tab, lower, needle) == FilterCards(cards, tab, lower, needle)
  {
    if cards != [] {
      var n := |cards| - 1;
      var front := FilterCards(cards[..n], tab, lower, needle);
      SearchIdempotent(cards[..n], tab, lower, needle);
      if Matches(tab, cards[n], lower, needle) {
        var r := front + [cards[n]];
        assert FilterCards(cards, tab, lower, needle) == r;
        assert r[..|r| - 1] == front && r[|r| - 1] == cards[n];
        assert FilterCards(r, tab, lower, needle) == FilterCards(front, tab, lower, needle) + [cards[n]];
      } else {
        assert FilterCards(cards, tab, lower, needle) == front;
      }
    }
  }

  /** The displayed form of one deck entry: name, image and category come from the loaded card
      with that ID when there is one (each falling back when empty), the count from the entry. */
  function DeckItem(cards: seq<Card>, e: DeckEntry): (r: CardData)
    ensures r.id == e.id && r.quantity == e.quantity && r.details == NoDetails
    ensures FirstIndex(cards, e.id).None? ==> r.name == e.name && r.image == e.image && r.category == Unknown
    ensures FirstIndex(cards, e.id).Some? ==>
      var c := cards[FirstIndex(cards, e.id).value];
      && (c.name != "" ==> r.name == c.name) && (c.name == "" ==> r.name == e.name)
      && (c.image != "" ==> r.image == c.image) && (c.image == "" ==> r.image == e.image)
      && (c.category != "" ==> r.category == c.category) && (c.category == "" ==> r.category == Unknown)
  {
    match FirstIndex(cards, e.id)
    case Some(k) =>
      var c := cards[k];
      CardData(e.id, if c.name != "" then c.name else e.name, if c.category != "" then c.category else Unknown,
               if c.image != "" then c.image else e.image, NoDetails, e.quantity)
    case None => CardData(e.id, e.name, Unknown, e.image, NoDetails, e.quantity)
  }

  /** The displayed forms of a deck's entries, in the deck's order. */
  function DeckItems(cards: seq<Card>, es: seq<DeckEntry>): (r: seq<CardData>)
    ensures |r| == |es|
    ensures forall k :: 0 <= k < |es| ==> r[k].id == es[k].id && r[k].quantity == es[k].quantity
  {
    seq(|es|, k requires 0 <= k < |es| => DeckItem(cards, es[k]))
  }

  /** The copies a list of displayed cards shows, over all of them. */
  function Copies(ds: seq<CardData>): int
  {
    if ds == [] then 0 else Copies(ds[..|ds| - 1]) + ds[|ds| - 1].quantity
  }

  /** The deck view shows as many copies as the deck's entries hold, so for a valid deck the
      displayed counts add up to its total. */
  lemma {:induction false} DeckItemsTotal(cards: seq<Card>, es: seq<DeckEntry>)
    ensures Copies(DeckItems(cards, es)) == Sum(es)
  {
    if es != [] {
      var init := es[..|es| - 1];
      DeckItemsTotal(cards, init);
      assert DeckItems(cards, es)[..|es| - 1] == DeckItems(cards, init);
    }
  }

  class CardManager {
    const storage: Persistence.StorageService
    var cards: seq<Card>
    var filteredCards: seq<Card>
    var currentTab: string
    var isShowingAllCards: bool
    var allCardsCache: Option<seq<BaseCard>>
    var view: DisplayView

    /** A catalog with nothing loaded, on the Pokémon tab, showing all cards. */
    constructor (storage: Persistence.StorageService)
      ensures this.storage == storage
      ensures cards == [] && filteredCards == [] && currentTab == Pokemon && isShowingAllCards
      ensures allCardsCache == None && view == OwnDisplay
    {
      this.storage := storage;
      cards := [];
      filteredCards := [];
      currentTab := Pokemon;
      isShowingAllCards := true;
      allCardsCache := None;
      view := OwnDisplay;
    }

    /**
     * `preloadAllCardBaseInfo()`, with the category files that could be fetched given as a map
     * from category to entries (a category missing from it failed and is skipped). A cache that
     * exists, even an empty one, is returned unchanged; otherwise the cache becomes the base
     * information of every fetched category, in category order.
     */
    method PreloadAllCardBaseInfo(fetched: map<string, seq<SourceEntry>>) returns (r: seq<BaseCard>)
      modifies this
      ensures old(allCardsCache).Some? ==> allCardsCache == old(allCardsCache) && r == old(allCardsCache).value
      ensures old(allCardsCache).None? ==> allCardsCache == Some(r) && r == Preloaded(fetched, |CardTypes|)
      ensures cards == old(cards) && filteredCards == old(filteredCards) && currentTab == old(currentTab)
      ensures isShowingAllCards == old(isShowingAllCards) && view == old(view)
    {
      if allCardsCache.Some? {
        return allCardsCache.value;
      }
      r := [];
      var t := 0;
      while t < |CardTypes|
        invariant 0 <= t <= |CardTypes|
        invariant r == Preloaded(fetched, t)
        invariant allCardsCache == old(allCardsCache) && cards == old(cards) && filteredCards == old(filteredCards)
        invariant currentTab == old(currentTab) && isShowingAllCards == old(isShowingAllCards) && view == old(view)
      {
        var category := CardTypes[t];
        if category in fetched {
          var base := ExtractBaseCardInfo(fetched[category], category);
          r := r + base;
        }
        t := t + 1;
      }
      allCardsCache := Some(r);
    }

    /** `getCardBaseInfo(cardId)`. */
    function GetCardBaseInfo(id: string): (r: BaseInfo)
      reads this
      ensures r == BaseInfoLookup(cards, allCardsCache, id)
    {
      BaseInfoLookup(cards, allCardsCache, id)
    }

    /**
     * `updateCardQuantity(cardId, change)`: the first loaded card with the ID gets
     * `max(0, quantity + change)`, which is returned; every other card keeps its count, and an
     * unknown ID returns 0.
     */
    method UpdateCardQuantity(id: string, change: int) returns (q: int)
      modifies set c | c in cards
      ensures FirstIndex(cards, id).None? ==> q == 0 && forall c :: c in cards ==> c.quantity == old(c.quantity)
      ensures FirstIndex(cards, id).Some? ==>
        var card := cards[FirstIndex(cards, id).value];
        && card.quantity == Clamp0(old(card.quantity) + change)
        && q == card.quantity
        && forall c :: c in cards && c != card ==> c.quantity == old(c.quantity)
    {
      match FirstIndex(cards, id)
      case Some(k) =>
        cards[k].quantity := Clamp0(cards[k].quantity + change);
        q := cards[k].quantity;
      case None =>
        q := 0;
    }

    /**
     * `searchCards(searchText)`: blank text shows every card; any other text keeps the cards
     * one of whose fields contains the lower-cased, trimmed text and marks the list as partial.
     */
    method SearchCards(text: string, lower: string -> string) returns (r: seq<Card>)
      modifies this`filteredCards, this`isShowingAllCards
      ensures isShowingAllCards <==> AllSpace(text)
      ensures filteredCards == if AllSpace(text) then cards else FilterCards(cards, currentTab, lower, Trim(lower(text)))
      ensures r == filteredCards
    {
      var blank := Trim(text) == [];
      assert blank <==> AllSpace(text);
      if blank {
        r := cards;
      } else {
        r := FilterCards(cards, currentTab, lower, Trim(lower(text)));
      }
      isShowingAllCards := blank;
      filteredCards := r;
    }

    /** `showAllCards()`. */
    method ShowAllCards() returns (r: seq<Card>)
      modifies this
      ensures filteredCards == cards && isShowingAllCards && r == cards
      ensures cards == old(cards) && currentTab == old(currentTab) && allCardsCache == old(allCardsCache) && view == old(view)
    {
      filteredCards := cards;
      isShowingAllCards := true;
      r := filteredCards;
    }

    /**
     * `getDisplayCards()`, as its current replacement answers. The catalog's own answer is the
     * search result, or every card when the search result is empty, so it is empty only when
     * nothing is loaded.
     */
    function GetDisplayCards(): (r: seq<CardData>)
      reads this, cards, filteredCards
      ensures view.OwnDisplay? ==> (r == [] <==> filteredCards == [] && cards == [])
      ensures view.OwnDisplay? && filteredCards == [] ==> r == Datas(cards)
      ensures view.OwnDisplay? && filteredCards != [] ==> r == Datas(filteredCards)
      ensures view.FilteredOnly? ==> r == Datas(filteredCards)
      ensures view.DeckView? ==> r == DeckItems(cards, view.entries)
    {
      match view
      case OwnDisplay => if |filteredCards| > 0 then Datas(filteredCards) else Datas(cards)
      case FilteredOnly => Datas(filteredCards)
      case DeckView(es) => DeckItems(cards, es)
    }

    /**
     * `loadCardData(cardType)`, with the fetched file given as `fetched` (`None` when the request
     * or the JSON parse fails). An unknown category or a failed fetch is an error that changes
     * nothing. Otherwise the cards are built from the file, the stored quantities laid over them,
     * and they become both the loaded and the displayed cards of the tab `category`.
     */
    method LoadCardData(category: string, fetched: Option<seq<SourceEntry>>) returns (ok: bool)
      modifies this`cards, this`filteredCards, this`currentTab
      ensures ok <==> IsCardType(category) && fetched.Some?
      ensures !ok ==> cards == old(cards) && filteredCards == old(filteredCards) && currentTab == old(currentTab)
      ensures ok ==> Datas(cards) == Loaded(ProcessedCards(fetched.value, category), storage.quantityStore, category)
      ensures ok ==> filteredCards == cards && currentTab == category && Distinct(cards)
      ensures ok ==> forall c :: c in cards ==> fresh(c)
    {
      if !IsCardType(category) {
        return false;
      }
      if fetched.None? {
        return false;
      }
      var processed := LoadedCards(storage, fetched.value, category);
      cards := processed;
      filteredCards := processed;
      currentTab := category;
      ok := true;
    }

    /** `saveData()`: saves the loaded cards' counts under the current tab. */
    method SaveData() returns (ok: bool)
      modifies storage`quantityStore
      ensures ok == !storage.writesFail
      ensures ok ==> storage.quantityStore == Persistence.Parsed(Persistence.Merged(
        Persistence.AllCardQuantities(old(storage.quantityStore)), currentTab, Persistence.QuantityItems(old(Datas(cards)))))
      ensures !ok ==> storage.quantityStore == old(storage.quantityStore)
    {
      ok := storage.SaveCardQuantities(cards, currentTab);
    }
  }

  /** `storageService.loadCardQuantities(processedCards, cardType)`, stated on the values the
      cards hold. */
  /** The cards `processCardData` builds from `entries`, with the stored quantities laid over them. */
  method LoadedCards(storage: Persistence.StorageService, entries: seq<SourceEntry>, category: string)
    returns (cards: seq<Card>)
    ensures Datas(cards) == Loaded(ProcessedCards(entries, category), storage.quantityStore, category)
    ensures Distinct(cards) && forall c :: c in cards ==> fresh(c)
  {
    cards := ProcessCardData(entries, category);
    LoadQuantitiesInto(storage, cards, category);
  }

  method LoadQuantitiesInto(storage: Persistence.StorageService, cards: seq<Card>, category: string)
    modifies set c | c in cards
    ensures Datas(cards) == Loaded(old(Datas(cards)), storage.quantityStore, category)
  {
    ghost var before := Datas(cards);
    forall k | 0 <= k < |cards|
      ensures before[k] == cards[k].Data()
    {
      DatasAt(cards, k);
    }
    storage.LoadCardQuantities(cards, category);
    forall k | 0 <= k < |cards|
      ensures Datas(cards)[k] == Loaded(before, storage.quantityStore, category)[k]
    {
      DatasAt(cards, k);
    }
  }

  /** The cache `preloadAllCardBaseInfo` builds from the first `n` categories. */
  function Preloaded(fetched: map<string, seq<SourceEntry>>, n: nat): seq<BaseCard>
    requires n <= |CardTypes|
  {
    if n == 0 then []
    else
      var t := CardTypes[n - 1];
      Preloaded(fetched, n - 1) + (if t in fetched then BaseCardsOf(ProcessedCards(fetched[t], t)) else [])
  }
}
