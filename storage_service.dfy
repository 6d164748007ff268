/**
 * Browser storage as the card app uses it. `localStorage` is modelled by fields holding what
 * each key holds, and a flag saying whether writing throws (quota exceeded, storage
 * disabled). Quantities are stored as one flat list of records; decks as the list of decks.
 */
module Persistence {
  import opened Wrappers
  import opened Categories
  import opened Quantities
  import opened Records
  import opened Decks

  /** What a storage key holds: nothing (or the empty string), text that `JSON.parse` rejects
      or that is not a list, or the parsed list. */
  datatype Stored<T> = Missing | Unparsable | Parsed(value: T)

  // ---------------------------------------------------------------- JSON values

  /** A parsed JSON value. Numbers are integers here; an object keeps its members in text order. */
  datatype Json =
    | JNull
    | JBool(b: bool)
    | JNumber(n: int)
    | JString(s: string)
    | JArray(items: seq<Json>)
    | JObject(members: seq<(string, Json)>)

  /** The value of the last member named `key`, which is the one `JSON.parse` keeps. */
  function LastMember(ms: seq<(string, Json)>, key: string): (r: Option<Json>)
    ensures r.Some? ==> exists k :: 0 <= k < |ms| && ms[k] == (key, r.value) && forall j :: k < j < |ms| ==> ms[j].0 != key
    ensures r.None? ==> forall k :: 0 <= k < |ms| ==> ms[k].0 != key
  {
    if ms == [] then None
    else if ms[|ms| - 1].0 == key then Some(ms[|ms| - 1].1)
    else LastMember(ms[..|ms| - 1], key)
  }

  /** `data.key`: a member of an object; `undefined` (`None`) for anything else. */
  function Member(data: Json, key: string): (r: Option<Json>)
    ensures r.Some? ==> data.JObject?
  {
    if data.JObject? then LastMember(data.members, key) else None
  }

  /** JavaScript truthiness of a JSON value. */
  predicate Truthy(j: Json)
  {
    match j
    case JNull => false
    case JBool(b) => b
    case JNumber(n) => n != 0
    case JString(s) => s != ""
    case JArray(_) => true
    case JObject(_) => true
  }

  /**
   * `validateImportData(data)`: the data must be an object whose `version` is the string
   * `"1.0"`, whose `cards` is an object or an array (`typeof` says `object` for both), and
   * whose `decks` is an array.
   */
  function ValidateImportData(data: Json): (ok: bool)
    ensures ok <==>
      && data.JObject?
      && Member(data, "version") == Some(JString("1.0"))
      && Member(data, "cards").Some? && (Member(data, "cards").value.JObject? || Member(data, "cards").value.JArray?)
      && Member(data, "decks").Some? && Member(data, "decks").value.JArray?
  {
    && Truthy(data)
    && Member(data, "version") == Some(JString("1.0"))
    && (match Member(data, "cards")
        case Some(c) => Truthy(c) && (c.JObject? || c.JArray?)
        case None => false)
    && (match Member(data, "decks")
        case Some(d) => Truthy(d) && d.JArray?
        case None => false)
  }

  /** A file whose `cards` is an array rather than a grouped object still passes validation. */
  lemma ValidateAcceptsArrayCards()
    ensures ValidateImportData(JObject([("version", JString("1.0")), ("cards", JArray([])), ("decks", JArray([]))]))
  {
    var data := JObject([("version", JString("1.0")), ("cards", JArray([])), ("decks", JArray([]))]);
    assert LastMember(data.members, "decks") == Some(JArray([]));
    assert LastMember(data.members, "cards") == Some(JArray([]));
    assert LastMember(data.members, "version") == Some(JString("1.0"));
  }

  /** The version must be the string `"1.0"`: the number 1 is refused. */
  lemma ValidateRefusesNumericVersion()
    ensures !ValidateImportData(JObject([("version", JNumber(1)), ("cards", JObject([])), ("decks", JArray([]))]))
  {
    var data := JObject([("version", JNumber(1)), ("cards", JObject([])), ("decks", JArray([]))]);
    assert LastMember(data.members, "version") == Some(JNumber(1));
  }

  // ---------------------------------------------------------------- quantity records

  /** The key `loadCardQuantities` files a record under: `${type}_${id}`. */
  function QuantityKey(category: string, id: string): (k: string)
    ensures |k| == |category| + 1 + |id|
    ensures k[..|category|] == category && k[|category|] == '_' && k[|category| + 1..] == id
  {
    category + "_" + id
  }

  /** The quantity the `Map` built from `records` holds under `key`: the last record with that
      key wins; `None` when no record has it. */
  function StoredQuantity(records: seq<Record>, key: string): Option<int>
  {
    if records == [] then None
    else
      var last := records[|records| - 1];
      if QuantityKey(last.category, last.id) == key then Some(last.quantity)
      else StoredQuantity(records[..|records| - 1], key)
  }

  /** Record `k` is the last of `records` filed under `key`. */
  predicate IsLastWithKey(records: seq<Record>, key: string, k: int)
  {
    && 0 <= k < |records|
    && QuantityKey(records[k].category, records[k].id) == key
    && forall j :: k < j < |records| ==> QuantityKey(records[j].category, records[j].id) != key
  }

  /** The stored quantity under `key` is the quantity of the last record with that key. */
  lemma {:induction false} StoredQuantityIsLast(records: seq<Record>, key: string)
    requires StoredQuantity(records, key).Some?
    ensures exists k :: IsLastWithKey(records, key, k) && records[k].quantity == StoredQuantity(records, key).value
  {
    var n := |records| - 1;
    var init := records[..n];
    assert records == init + [records[n]];
    if QuantityKey(records[n].category, records[n].id) == key {
      assert IsLastWithKey(records, key, n);
    } else {
      StoredQuantityIsLast(init, key);
      var k :| IsLastWithKey(init, key, k) && init[k].quantity == StoredQuantity(init, key).value;
      LastWithKeyExtends(init, records[n], key, k);
    }
  }

  /** Appending a record with another key keeps the last record with `key` the last. */
  lemma LastWithKeyExtends(records: seq<Record>, r: Record, key: string, k: int)
    requires IsLastWithKey(records, key, k) && QuantityKey(r.category, r.id) != key
    ensures IsLastWithKey(records + [r], key, k) && (records + [r])[k] == records[k]
  {
  }

  /** There is no stored quantity under `key` exactly when no record has that key. */
  lemma {:induction false} StoredQuantityNone(records: seq<Record>, key: string)
    ensures StoredQuantity(records, key).None? <==> forall k :: 0 <= k < |records| ==> QuantityKey(records[k].category, records[k].id) != key
  {
    if records != [] {
      var n := |records| - 1;
      var init := records[..n];
      StoredQuantityNone(init, key);
      assert forall k :: 0 <= k < n ==> records[k] == init[k];
    }
  }

  /** The quantity a card of category `category` holding `q` has after the overlay. */
  function Overlaid(q: int, records: seq<Record>, category: string, id: string): (r: int)
    ensures StoredQuantity(records, QuantityKey(category, id)).None? ==> r == q
    ensures StoredQuantity(records, QuantityKey(category, id)).Some? ==> r == StoredQuantity(records, QuantityKey(category, id)).value
  {
    StoredQuantity(records, QuantityKey(category, id)).GetOr(q)
  }

  /**
   * The shared body of both `loadCardQuantities`: every card whose (category, ID) key has a
   * stored record takes that record's quantity; every other card keeps its own. The cards are
   * updated in place; a card object listed twice is updated to the same value twice.
   */
  method OverlayStoredQuantities(cards: seq<Card>, records: seq<Record>, category: string)
    modifies set c | c in cards
    ensures forall c :: c in cards ==> c.quantity == Overlaid(old(c.quantity), records, category, c.id)
  {
    ghost var found := seq(|cards|, j requires 0 <= j < |cards| => StoredQuantity(records, QuantityKey(category, cards[j].id)));
    var i := 0;
    while i < |cards|
      invariant 0 <= i <= |cards|
      invariant forall j :: 0 <= j < |cards| ==>
        cards[j].quantity == old(cards[j].quantity) || cards[j].quantity == found[j].GetOr(old(cards[j].quantity))
      invariant forall j :: 0 <= j < i ==> cards[j].quantity == found[j].GetOr(old(cards[j].quantity))
    {
      var c := cards[i];
      var stored := StoredQuantity(records, QuantityKey(category, c.id));
      assert stored == found[i];
      if stored.Some? {
        c.quantity := stored.value;
      }
      i := i + 1;
    }
  }

  /** The (ID, quantity) items of a list of card values, in order. */
  function QuantityItems(ds: seq<CardData>): (r: seq<Item>)
    ensures |r| == |ds|
    ensures forall k :: 0 <= k < |ds| ==> r[k] == Item(ds[k].id, ds[k].quantity)
  {
    if ds == [] then [] else QuantityItems(ds[..|ds| - 1]) + [Item(ds[|ds| - 1].id, ds[|ds| - 1].quantity)]
  }

  /** `items.filter(card => card.quantity > 0)`. */
  function Positive(items: seq<Item>): (r: seq<Item>)
    ensures |r| <= |items|
    ensures forall k :: 0 <= k < |r| ==> r[k].quantity > 0 && r[k] in items
    ensures forall it :: it in items && it.quantity > 0 ==> it in r
  {
    if items == [] then []
    else
      var last := items[|items| - 1];
      Positive(items[..|items| - 1]) + (if last.quantity > 0 then [last] else [])
  }

  /** `getAllCardQuantities()`: the stored records grouped by category; every category empty
      when nothing usable is stored. */
  function AllCardQuantities(store: Stored<seq<Record>>): (g: seq<Group>)
    ensures WellFormed(g)
    ensures forall i :: 0 <= i < |g| ==> g[i].items == if store.Parsed? then ItemsOf(store.value, CardTypes[i]) else []
  {
    match store
    case Parsed(records) => GroupedAll(records); GroupQuantitiesByType(records)
    case _ => InitializeEmptyQuantities()
  }

  lemma GroupedAll(records: seq<Record>)
    ensures forall i :: 0 <= i < |CardTypes| ==> GroupQuantitiesByType(records)[i].items == ItemsOf(records, CardTypes[i])
  {
    forall i | 0 <= i < |CardTypes| {
      GroupedItems(records, i);
    }
  }

  /** The record list written by a save of one category: the current groups with that
      category's items replaced by `items`' positive ones, flattened. */
  function Merged(g: seq<Group>, category: string, items: seq<Item>): seq<Record>
  {
    FlattenQuantities(Assign(g, category, Positive(items)))
  }

  /** Saving one category replaces that category's stored items by the positive ones and
      leaves every other category as it was. */
  lemma {:induction false} MergedKnownCategory(g: seq<Group>, i: int, items: seq<Item>)
    requires WellFormed(g) && 0 <= i < |g|
    ensures GroupQuantitiesByType(Merged(g, CardTypes[i], items)) == g[i := Group(CardTypes[i], Positive(items))]
  {
    AssignWellFormed(g, i, Positive(items));
    GroupFlattenRoundTrip(g[i := Group(CardTypes[i], Positive(items))]);
  }

  lemma {:induction false} AssignAbsent(g: seq<Group>, key: string, items: seq<Item>)
    requires forall i :: 0 <= i < |g| ==> g[i].category != key
    ensures Assign(g, key, items) == g + [Group(key, items)]
  {
    if g != [] {
      assert g == [g[0]] + g[1..];
      AssignAbsent(g[1..], key, items);
    }
  }

  /** Saving under a name that is not a category stores records nobody reads back: the
      grouped quantities are unchanged. */
  lemma {:induction false} MergedUnknownCategory(g: seq<Group>, category: string, items: seq<Item>)
    requires WellFormed(g) && category !in CardTypes
    ensures GroupQuantitiesByType(Merged(g, category, items)) == g
  {
    var p := Positive(items);
    assert Merged(g, category, items) == FlattenQuantities(g) + RecordsOf(category, p) by {
      AssignAbsent(g, category, p);
      FlattenSnoc(g, Group(category, p));
    }
    forall i | 0 <= i < |g|
      ensures GroupQuantitiesByType(FlattenQuantities(g) + RecordsOf(category, p))[i] == g[i]
    {
      SavedGroupKept(g, category, p, i);
    }
  }

  lemma {:induction false} SavedGroupKept(g: seq<Group>, category: string, p: seq<Item>, i: int)
    requires WellFormed(g) && category !in CardTypes && 0 <= i < |g|
    ensures GroupQuantitiesByType(FlattenQuantities(g) + RecordsOf(category, p))[i] == g[i]
  {
    ExtraRecordsIgnored(FlattenQuantities(g), category, p, i);
    ItemsOfFlattenPrefix(g, |g|, i);
    assert g[..|g|] == g;
  }

  lemma FlattenSnoc(g: seq<Group>, last: Group)
    ensures FlattenQuantities(g + [last]) == FlattenQuantities(g) + RecordsOf(last.category, last.items)
  {
    assert (g + [last])[..|g|] == g;
  }

  lemma {:induction false} ExtraRecordsIgnored(flat: seq<Record>, category: string, p: seq<Item>, i: int)
    requires category !in CardTypes && 0 <= i < |CardTypes|
    ensures GroupQuantitiesByType(flat + RecordsOf(category, p))[i] == Group(CardTypes[i], ItemsOf(flat, CardTypes[i]))
  {
    GroupedItems(flat + RecordsOf(category, p), i);
    ItemsOfConcat(flat, RecordsOf(category, p), CardTypes[i]);
    ItemsOfRecords(category, p, CardTypes[i]);
    assert ItemsOf(flat, CardTypes[i]) + [] == ItemsOf(flat, CardTypes[i]);
  }

  /** A cleared store, a missing one and an unreadable one all read back as every category empty. */
  lemma ClearedReadsEmpty()
    ensures AllCardQuantities(Parsed([])) == InitializeEmptyQuantities()
    ensures AllCardQuantities(Missing) == InitializeEmptyQuantities()
    ensures AllCardQuantities(Unparsable) == InitializeEmptyQuantities()
  {
  }

  /** Two keys built from categories without `_` are equal only for the same category and ID. */
  lemma KeysDiffer(c1: string, x: string, c2: string, y: string)
    requires '_' !in c1 && '_' !in c2
    requires c1 != c2 || x != y
    ensures QuantityKey(c1, x) != QuantityKey(c2, y)
  {
  }

  /**
   * A card saved with no positive count leaves no record behind in its category, and no other
   * category's record has its key, so reloading it keeps whatever quantity the card was built
   * with.
   */
  lemma {:induction false} SavedZeroIsNotRestored(g: seq<Group>, i: int, items: seq<Item>, id: string, q: int)
    requires WellFormed(g) && 0 <= i < |g|
    requires forall it :: it in items && it.id == id ==> it.quantity <= 0
    ensures Overlaid(q, Merged(g, CardTypes[i], items), CardTypes[i], id) == q
  {
    var flat := Merged(g, CardTypes[i], items);
    forall k | 0 <= k < |flat|
      ensures QuantityKey(flat[k].category, flat[k].id) != QuantityKey(CardTypes[i], id)
    {
      MergedRecordKey(g, i, items, id, k);
    }
    StoredQuantityNone(flat, QuantityKey(CardTypes[i], id));
  }

  /** One record of a save whose items hold no positive count for `id`: its key is not that
      of card `id` in the saved category. */
  lemma MergedRecordKey(g: seq<Group>, i: int, items: seq<Item>, id: string, k: int)
    requires WellFormed(g) && 0 <= i < |g|
    requires forall it :: it in items && it.id == id ==> it.quantity <= 0
    requires 0 <= k < |Merged(g, CardTypes[i], items)|
    ensures var r := Merged(g, CardTypes[i], items)[k];
      QuantityKey(r.category, r.id) != QuantityKey(CardTypes[i], id)
  {
    var flat := Merged(g, CardTypes[i], items);
    var r := flat[k];
    ItemsOfHas(flat, k);
    MergedOtherCategory(g, i, items, r.category);
    CardTypeHasNoUnderscore(r.category);
    CardTypeHasNoUnderscore(CardTypes[i]);
    if r.category == CardTypes[i] {
      MergedSavedId(g, i, items, id, k);
    }
    KeysDiffer(r.category, r.id, CardTypes[i], id);
  }

  /** After a save, no record of the saved category is card `id` when `id` had no positive count. */
  lemma MergedSavedId(g: seq<Group>, i: int, items: seq<Item>, id: string, k: int)
    requires WellFormed(g) && 0 <= i < |g|
    requires forall it :: it in items && it.id == id ==> it.quantity <= 0
    requires 0 <= k < |Merged(g, CardTypes[i], items)|
    requires Merged(g, CardTypes[i], items)[k].category == CardTypes[i]
    ensures Merged(g, CardTypes[i], items)[k].id != id
  {
    var flat := Merged(g, CardTypes[i], items);
    var it := Item(flat[k].id, flat[k].quantity);
    ItemsOfHas(flat, k);
    MergedSavedItems(g, i, items);
    var p := Positive(items);
    assert it in p;
    var m :| 0 <= m < |p| && p[m] == it;
    assert it in items && it.quantity > 0;
  }

  /** After a save, the records of the saved category are its positive items. */
  lemma MergedSavedItems(g: seq<Group>, i: int, items: seq<Item>)
    requires WellFormed(g) && 0 <= i < |g|
    ensures ItemsOf(Merged(g, CardTypes[i], items), CardTypes[i]) == Positive(items)
  {
    MergedKnownCategory(g, i, items);
    GroupedItems(Merged(g, CardTypes[i], items), i);
  }

  /** After a save, a category outside the seven has no records. */
  lemma MergedOtherCategory(g: seq<Group>, i: int, items: seq<Item>, t: string)
    requires WellFormed(g) && 0 <= i < |g|
    ensures t !in CardTypes ==> ItemsOf(Merged(g, CardTypes[i], items), t) == []
  {
    var h := g[i := Group(CardTypes[i], Positive(items))];
    AssignWellFormed(g, i, Positive(items));
    if t !in CardTypes {
      assert forall j :: 0 <= j < |h| ==> h[j].category == CardTypes[j];
      ItemsOfFlattenOther(h, t);
    }
  }

  /**
   * The app's storage. `quantityStore` and `deckStore` are what the quantity and deck keys
   * hold; `writesFail` says whether `setItem` throws.
   */
  class StorageService {
    var quantityStore: Stored<seq<Record>>
    var deckStore: Stored<seq<Deck>>
    var writesFail: bool

    constructor (quantities: Stored<seq<Record>>, decks: Stored<seq<Deck>>, failing: bool)
      ensures quantityStore == quantities && deckStore == decks && writesFail == failing
    {
      quantityStore := quantities;
      deckStore := decks;
      writesFail := failing;
    }

    /**
     * `saveCardQuantities(cards, currentTab)`: reads the grouped quantities, replaces the
     * current category's items by the cards with a positive quantity, and writes the
     * flattened records. Reports `false`, writing nothing, when storage refuses writes.
     */
    method SaveCardQuantities(cards: seq<Card>, tab: string) returns (ok: bool)
      modifies this`quantityStore
      ensures ok == !writesFail
      ensures ok ==> quantityStore == Parsed(Merged(AllCardQuantities(old(quantityStore)), tab, QuantityItems(old(Datas(cards)))))
      ensures !ok ==> quantityStore == old(quantityStore)
    {
      if writesFail {
        return false;
      }
      var existing := AllCardQuantities(quantityStore);
      var items := QuantityItems(Datas(cards));
      quantityStore := Parsed(Merged(existing, tab, items));
      return true;
    }

    /** `loadCardQuantities(cards, cardType)`: overlays the stored quantities on the cards in
        place; nothing changes when nothing usable is stored. The same list is returned. */
    method LoadCardQuantities(cards: seq<Card>, category: string)
      modifies set c | c in cards
      ensures forall c :: c in cards ==>
        c.quantity == if quantityStore.Parsed? then Overlaid(old(c.quantity), quantityStore.value, category, c.id) else old(c.quantity)
    {
      if quantityStore.Parsed? {
        OverlayStoredQuantities(cards, quantityStore.value, category);
      }
    }

    /** `saveCardQuantitiesForImport(cardType, importedCards)`: as a save of one category from
        the imported items; the result is the number of positive items written, 0 on failure. */
    method SaveCardQuantitiesForImport(category: string, items: seq<Item>) returns (count: nat)
      modifies this
      ensures !old(writesFail) ==> count == |Positive(items)|
      ensures !old(writesFail) ==> quantityStore == Parsed(Merged(AllCardQuantities(old(quantityStore)), category, items))
      ensures old(writesFail) ==> count == 0 && quantityStore == old(quantityStore)
      ensures deckStore == old(deckStore) && writesFail == old(writesFail)
    {
      if writesFail {
        return 0;
      }
      var existing := AllCardQuantities(quantityStore);
      quantityStore := Parsed(Merged(existing, category, items));
      count := |Positive(items)|;
    }

    /** `clearAllQuantities()`: writes the empty list. It does not catch a failing write; `ok`
        is `false` when the exception reaches the caller. */
    method ClearAllQuantities() returns (ok: bool)
      modifies this
      ensures ok == !old(writesFail)
      ensures ok ==> quantityStore == Parsed([])
      ensures !ok ==> quantityStore == old(quantityStore)
      ensures deckStore == old(deckStore) && writesFail == old(writesFail)
    {
      if writesFail {
        return false;
      }
      quantityStore := Parsed([]);
      return true;
    }

    /** `saveDecks(decks)`: writes the deck list; `false` when the write throws. */
    method SaveDecks(decks: seq<Deck>) returns (ok: bool)
      modifies this
      ensures ok == !old(writesFail)
      ensures ok ==> deckStore == Parsed(decks)
      ensures !ok ==> deckStore == old(deckStore)
      ensures quantityStore == old(quantityStore) && writesFail == old(writesFail)
    {
      if writesFail {
        return false;
      }
      deckStore := Parsed(decks);
      return true;
    }

    /** `loadDecks()`: the stored deck list, `null` when nothing usable is stored. */
    function LoadDecks(): (r: Option<seq<Deck>>)
      reads this
      ensures r.Some? <==> deckStore.Parsed?
      ensures r.Some? ==> r.value == deckStore.value
    {
      if deckStore.Parsed? then Some(deckStore.value) else None
    }
  }
}
