/**
 * Storage in the older, single-category version of the card app: a save overwrites the
 * whole quantity store with the cards of the current category, export writes the owned
 * cards, and import sets every card of the current category from the imported list.
 */
module LegacyPersistence {
  import opened Wrappers
  import opened Quantities
  import opened Records
  import opened Persistence

  /** The records a save writes: one per card, in order, zero quantities included. */
  function AllRecords(ds: seq<CardData>, tab: string): (r: seq<Record>)
    ensures |r| == |ds|
    ensures forall k :: 0 <= k < |ds| ==> r[k] == Record(ds[k].id, tab, ds[k].quantity)
  {
    if ds == [] then [] else AllRecords(ds[..|ds| - 1], tab) + [Record(ds[|ds| - 1].id, tab, ds[|ds| - 1].quantity)]
  }

  /** The `exportData` payload: the cards holding at least one copy, in order, as (ID, type,
      quantity) records. */
  function ExportPayload(ds: seq<CardData>, tab: string): (r: seq<Record>)
    ensures |r| <= |ds|
    ensures forall k :: 0 <= k < |r| ==> r[k].quantity > 0 && r[k].category == tab
  {
    if ds == [] then []
    else
      var d := ds[|ds| - 1];
      ExportPayload(ds[..|ds| - 1], tab) + (if d.quantity > 0 then [Record(d.id, tab, d.quantity)] else [])
  }

  /** The positions of the cards holding at least one copy, in increasing order. */
  function PositiveIndices(ds: seq<CardData>): (idx: seq<nat>)
    ensures forall k :: 0 <= k < |idx| ==> idx[k] < |ds| && ds[idx[k]].quantity > 0
    ensures forall k, l :: 0 <= k < l < |idx| ==> idx[k] < idx[l]
    ensures forall j :: 0 <= j < |ds| && ds[j].quantity > 0 ==> j in idx
  {
    if ds == [] then []
    else
      var n := |ds| - 1;
      var front := PositiveIndices(ds[..n]);
      assert forall j :: 0 <= j < n ==> ds[..n][j] == ds[j];
      front + (if ds[n].quantity > 0 then [n] else [])
  }

  /** The export is exactly the filter-then-map of the source: its k-th record is the k-th card
      with a positive quantity, as (ID, tab, quantity). */
  lemma {:induction false} ExportPayloadIndices(ds: seq<CardData>, tab: string)
    ensures |ExportPayload(ds, tab)| == |PositiveIndices(ds)|
    ensures forall k :: 0 <= k < |PositiveIndices(ds)| ==>
      ExportPayload(ds, tab)[k] == Record(ds[PositiveIndices(ds)[k]].id, tab, ds[PositiveIndices(ds)[k]].quantity)
  {
    if ds != [] {
      var n := |ds| - 1;
      var d := ds[n];
      var front := ExportPayload(ds[..n], tab);
      var idx := PositiveIndices(ds[..n]);
      ExportPayloadIndices(ds[..n], tab);
      assert ExportPayload(ds, tab) == front + (if d.quantity > 0 then [Record(d.id, tab, d.quantity)] else []);
      assert PositiveIndices(ds) == idx + (if d.quantity > 0 then [n] else []);
      forall k | 0 <= k < |PositiveIndices(ds)|
        ensures ExportPayload(ds, tab)[k] == Record(ds[PositiveIndices(ds)[k]].id, tab, ds[PositiveIndices(ds)[k]].quantity)
      {
        if k < |idx| {
          assert ds[..n][idx[k]] == ds[idx[k]];
        }
      }
    }
  }

  /** One element of an imported file: its ID (`""` when falsy) and its quantity (`None`
      when it is not a number). */
  datatype ImportItem = ImportItem(id: string, quantity: Option<int>)

  /** The quantity the import `Map` holds for card `id`: items without an ID or without a
      numeric quantity are skipped, and a later item for the same ID overrides an earlier one. */
  function ImportedQuantity(items: seq<ImportItem>, id: string): (r: Option<int>)
    ensures r.Some? ==> id != ""
  {
    if items == [] then None
    else
      var it := items[|items| - 1];
      if it.id != "" && it.id == id && it.quantity.Some? then it.quantity
      else ImportedQuantity(items[..|items| - 1], id)
  }

  /** Item `k` is the last usable item of `items` for card `id`. */
  predicate IsLastUsable(items: seq<ImportItem>, id: string, k: int)
  {
    && 0 <= k < |items|
    && items[k].id == id && items[k].quantity.Some?
    && forall j :: k < j < |items| ==> items[j].id != id || items[j].quantity.None?
  }

  /** The imported quantity of a card is that of the last usable item with its ID. */
  lemma {:induction false} ImportedQuantityIsLast(items: seq<ImportItem>, id: string)
    requires ImportedQuantity(items, id).Some?
    ensures exists k :: IsLastUsable(items, id, k) && items[k].quantity == ImportedQuantity(items, id)
  {
    var n := |items| - 1;
    var init := items[..n];
    assert items == init + [items[n]];
    var it := items[n];
    if it.id != "" && it.id == id && it.quantity.Some? {
      assert IsLastUsable(items, id, n);
    } else {
      ImportedQuantityIsLast(init, id);
      var k :| IsLastUsable(init, id, k) && init[k].quantity == ImportedQuantity(init, id);
      LastUsableExtends(init, it, id, k);
    }
  }

  /** Appending an item that is not usable for `id` keeps the last usable item the last. */
  lemma LastUsableExtends(items: seq<ImportItem>, it: ImportItem, id: string, k: int)
    requires IsLastUsable(items, id, k) && (it.id != id || it.quantity.None?)
    ensures IsLastUsable(items + [it], id, k) && (items + [it])[k] == items[k]
  {
  }

  /** Nothing is imported for card `id` exactly when it has no ID or no usable item names it. */
  lemma {:induction false} ImportedQuantityNone(items: seq<ImportItem>, id: string)
    ensures ImportedQuantity(items, id).None? <==>
      id == "" || forall k :: 0 <= k < |items| ==> items[k].id != id || items[k].quantity.None?
  {
    if items != [] {
      var n := |items| - 1;
      var init := items[..n];
      ImportedQuantityNone(init, id);
      assert forall k :: 0 <= k < n ==> items[k] == init[k];
    }
  }

  /** How many of the listed card IDs the import matches. */
  function Matched(ids: seq<string>, items: seq<ImportItem>): (n: nat)
    ensures n <= |ids|
  {
    if ids == [] then 0
    else Matched(ids[..|ids| - 1], items) + (if ImportedQuantity(items, ids[|ids| - 1]).Some? then 1 else 0)
  }

  /** An exported record read back as an import item. */
  function AsImportItems(records: seq<Record>): (r: seq<ImportItem>)
    ensures |r| == |records|
    ensures forall k :: 0 <= k < |r| ==> r[k] == ImportItem(records[k].id, Some(records[k].quantity))
  {
    if records == [] then []
    else AsImportItems(records[..|records| - 1]) + [ImportItem(records[|records| - 1].id, Some(records[|records| - 1].quantity))]
  }

  /** No two card values share an ID. */
  predicate UniqueCardIds(ds: seq<CardData>)
  {
    forall j, k :: 0 <= j < k < |ds| ==> ds[j].id != ds[k].id
  }

  /** Saving the cards of one category and loading the same category back restores every
      card's quantity. */
  lemma SaveLoadRoundTrip(ds: seq<CardData>, tab: string, k: int, q: int)
    requires UniqueCardIds(ds) && 0 <= k < |ds|
    ensures Overlaid(q, AllRecords(ds, tab), tab, ds[k].id) == ds[k].quantity
  {
    var records := AllRecords(ds, tab);
    var key := QuantityKey(tab, ds[k].id);
    assert QuantityKey(records[k].category, records[k].id) == key;
    StoredQuantityNone(records, key);
    StoredQuantityIsLast(records, key);
    var j :| IsLastWithKey(records, key, j) && records[j].quantity == StoredQuantity(records, key).value;
    assert records[j].id == QuantityKey(tab, records[j].id)[|tab| + 1..];
  }

  lemma ExportUnfold(ds: seq<CardData>, tab: string)
    requires ds != []
    ensures AsImportItems(ExportPayload(ds, tab))
      == AsImportItems(ExportPayload(ds[..|ds| - 1], tab))
         + (if ds[|ds| - 1].quantity > 0 then [ImportItem(ds[|ds| - 1].id, Some(ds[|ds| - 1].quantity))] else [])
  {
    var d := ds[|ds| - 1];
    var e := ExportPayload(ds[..|ds| - 1], tab);
    if d.quantity > 0 {
      var r := Record(d.id, tab, d.quantity);
      assert (e + [r])[..|e|] == e;
    } else {
      assert e + [] == e;
    }
  }

  lemma ImportedSnoc(items: seq<ImportItem>, it: ImportItem, id: string)
    ensures ImportedQuantity(items + [it], id)
      == if it.id != "" && it.id == id && it.quantity.Some? then it.quantity else ImportedQuantity(items, id)
  {
    assert (items + [it])[..|items|] == items;
  }

  /** The imported quantity of the exported file for the last card, given that of the others. */
  lemma ExportedLast(ds: seq<CardData>, tab: string, id: string)
    requires ds != []
    ensures var d := ds[|ds| - 1];
      ImportedQuantity(AsImportItems(ExportPayload(ds, tab)), id)
      == if d.quantity > 0 && d.id != "" && d.id == id then Some(d.quantity)
         else ImportedQuantity(AsImportItems(ExportPayload(ds[..|ds| - 1], tab)), id)
  {
    var d := ds[|ds| - 1];
    ExportUnfold(ds, tab);
    var xs := AsImportItems(ExportPayload(ds[..|ds| - 1], tab));
    if d.quantity > 0 {
      ImportedSnoc(xs, ImportItem(d.id, Some(d.quantity)), id);
    } else {
      assert xs + [] == xs;
    }
  }

  lemma {:induction false} NotExported(ds: seq<CardData>, tab: string, id: string)
    requires forall j :: 0 <= j < |ds| ==> ds[j].id != id
    ensures ImportedQuantity(AsImportItems(ExportPayload(ds, tab)), id).None?
  {
    if ds != [] {
      var init := ds[..|ds| - 1];
      assert forall j :: 0 <= j < |init| ==> init[j].id != id;
      NotExported(init, tab, id);
      ExportedLast(ds, tab, id);
    }
  }

  lemma LastExported(ds: seq<CardData>, tab: string)
    requires ds != [] && ds[|ds| - 1].id != ""
    requires forall j :: 0 <= j < |ds| - 1 ==> ds[j].id != ds[|ds| - 1].id
    ensures var d := ds[|ds| - 1];
      ImportedQuantity(AsImportItems(ExportPayload(ds, tab)), d.id) == if d.quantity > 0 then Some(d.quantity) else None
  {
    var init := ds[..|ds| - 1];
    var id := ds[|ds| - 1].id;
    ExportedLast(ds, tab, id);
    assert forall j :: 0 <= j < |init| ==> init[j].id != id;
    NotExported(init, tab, id);
  }

  /** The exported file holds, for a card with copies whose ID no other card has, exactly
      its quantity; a card without copies is not in it. */
  lemma {:induction false} ExportedQuantity(ds: seq<CardData>, tab: string, k: int)
    requires 0 <= k < |ds| && ds[k].id != ""
    requires forall j :: 0 <= j < |ds| && j != k ==> ds[j].id != ds[k].id
    ensures ImportedQuantity(AsImportItems(ExportPayload(ds, tab)), ds[k].id)
      == if ds[k].quantity > 0 then Some(ds[k].quantity) else None
  {
    if k == |ds| - 1 {
      LastExported(ds, tab);
    } else {
      var init := ds[..|ds| - 1];
      assert forall j :: 0 <= j < |init| ==> init[j] == ds[j];
      ExportedQuantity(init, tab, k);
      ExportedLast(ds, tab, ds[k].id);
    }
  }

  /** Importing an exported file on the same cards restores every card's quantity, provided
      the quantities are not negative (a card holding none is not exported and is reset to 0). */
  lemma ExportImportRoundTrip(ds: seq<CardData>, tab: string, k: int)
    requires UniqueCardIds(ds) && 0 <= k < |ds| && ds[k].id != ""
    requires forall j :: 0 <= j < |ds| ==> ds[j].quantity >= 0
    ensures ImportedQuantity(AsImportItems(ExportPayload(ds, tab)), ds[k].id).GetOr(0) == ds[k].quantity
  {
    assert forall j :: 0 <= j < |ds| && j != k ==> ds[j].id != ds[k].id;
    ExportedQuantity(ds, tab, k);
  }

  lemma MatchedSnoc(ids: seq<string>, id: string, items: seq<ImportItem>)
    ensures Matched(ids + [id], items) == Matched(ids, items) + (if ImportedQuantity(items, id).Some? then 1 else 0)
  {
    assert (ids + [id])[..|ids|] == ids;
  }

  lemma MatchedStep(cards: seq<Card>, i: int, items: seq<ImportItem>)
    requires 0 <= i < |cards|
    ensures Matched(Ids(cards[..i + 1]), items)
      == Matched(Ids(cards[..i]), items) + (if ImportedQuantity(items, cards[i].id).Some? then 1 else 0)
  {
    assert cards[..i + 1][..i] == cards[..i];
    assert Ids(cards[..i + 1]) == Ids(cards[..i]) + [cards[i].id];
    MatchedSnoc(Ids(cards[..i]), cards[i].id, items);
  }

  /** The quantity store of the older app; `writesFail` says whether `setItem` throws. */
  class LegacyStorageService {
    var quantityStore: Stored<seq<Record>>
    var writesFail: bool

    constructor (quantities: Stored<seq<Record>>, failing: bool)
      ensures quantityStore == quantities && writesFail == failing
    {
      quantityStore := quantities;
      writesFail := failing;
    }

    /** `saveCardQuantities(cards, currentTab)`: overwrites the store with one record per
        card of the current category, zeros included; `false` when the write throws. */
    method SaveCardQuantities(cards: seq<Card>, tab: string) returns (ok: bool)
      modifies this
      ensures ok == !old(writesFail) && writesFail == old(writesFail)
      ensures ok ==> quantityStore == Parsed(AllRecords(Datas(cards), tab))
      ensures !ok ==> quantityStore == old(quantityStore)
    {
      if writesFail {
        return false;
      }
      quantityStore := Parsed(AllRecords(Datas(cards), tab));
      return true;
    }

    /** `loadCardQuantities(cards, cardType)`: as in the newer app, overlays the stored
        quantities of matching (category, ID) keys in place. */
    method LoadCardQuantities(cards: seq<Card>, category: string)
      modifies set c | c in cards
      ensures forall c :: c in cards ==>
        c.quantity == if quantityStore.Parsed? then Overlaid(old(c.quantity), quantityStore.value, category, c.id) else old(c.quantity)
    {
      if quantityStore.Parsed? {
        OverlayStoredQuantities(cards, quantityStore.value, category);
      }
    }

    /**
     * The part of `importData` after the file is read. `parsed` is `None` when the text is
     * not JSON or not a list, in which case nothing changes. Otherwise every card whose ID
     * has an imported quantity takes it, unclamped, and every other card is set to 0; the
     * result is the number of cards matched.
     */
    method ImportData(cards: seq<Card>, parsed: Option<seq<ImportItem>>) returns (updated: Option<nat>)
      modifies set c | c in cards
      ensures parsed.None? ==> updated.None? && forall c :: c in cards ==> c.quantity == old(c.quantity)
      ensures parsed.Some? ==> updated == Some(Matched(Ids(cards), parsed.value))
      ensures parsed.Some? ==> forall c :: c in cards ==> c.quantity == ImportedQuantity(parsed.value, c.id).GetOr(0)
    {
      if parsed.None? {
        return None;
      }
      var items := parsed.value;
      var count := 0;
      var i := 0;
      while i < |cards|
        invariant 0 <= i <= |cards|
        invariant count == Matched(Ids(cards[..i]), items)
        invariant forall j :: 0 <= j < |cards| ==>
          cards[j].quantity == old(cards[j].quantity) || cards[j].quantity == ImportedQuantity(items, cards[j].id).GetOr(0)
        invariant forall j :: 0 <= j < i ==> cards[j].quantity == ImportedQuantity(items, cards[j].id).GetOr(0)
      {
        MatchedStep(cards, i, items);
        var c := cards[i];
        var imported := ImportedQuantity(items, c.id);
        c.quantity := imported.GetOr(0);
        if imported.Some? {
          count := count + 1;
        }
        i := i + 1;
      }
      assert cards[..i] == cards;
      return Some(count);
    }
  }
}
