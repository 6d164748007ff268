/**
 * Decks as values, and the rules the deck manager applies to them: the category order used
 * to sort a deck, the stable sort itself, and the change of one card's count.
 */
module Decks {
  import opened Wrappers
  import opened Categories
  import opened Records

  /** One line of a deck: a card and how many copies of it the deck holds. */
  datatype DeckEntry = DeckEntry(id: string, name: string, image: string, quantity: int)

  /** A deck. `id` is the creation time rendered as text; `coverCardId` is `None` for `null`. */
  datatype Deck = Deck(id: string, name: string, coverCardId: Option<string>, cards: seq<DeckEntry>, totalCount: int)

  /** The name every new deck gets, and the one an empty name falls back to. */
  const DefaultDeckName: string := "新卡组"

  /** A deck as it is created: no cover, no cards. */
  function NewDeck(now: string): (d: Deck)
    ensures d.id == now && d.name == DefaultDeckName && d.coverCardId.None?
    ensures d.cards == [] && d.totalCount == 0
  {
    Deck(now, DefaultDeckName, None, [], 0)
  }

  /** The total number of copies in a list of entries. */
  function Sum(cards: seq<DeckEntry>): int
  {
    if cards == [] then 0 else Sum(cards[..|cards| - 1]) + cards[|cards| - 1].quantity
  }

  /** How many copies of card `id` a list of entries holds, over all its entries for that ID. */
  function QuantityOf(cards: seq<DeckEntry>, id: string): int
  {
    if cards == [] then 0
    else QuantityOf(cards[..|cards| - 1], id) + (if cards[|cards| - 1].id == id then cards[|cards| - 1].quantity else 0)
  }

  /** Every entry holds at least one copy. */
  predicate AllPositive(cards: seq<DeckEntry>)
  {
    forall k :: 0 <= k < |cards| ==> cards[k].quantity > 0
  }

  /** No card has two entries. */
  predicate UniqueIds(cards: seq<DeckEntry>)
  {
    forall j, k :: 0 <= j < k < |cards| ==> cards[j].id != cards[k].id
  }

  /** The invariant of a deck built by the editor: positive entries, one per card, and a total
      equal to the number of copies held. */
  predicate DeckValid(d: Deck)
  {
    AllPositive(d.cards) && UniqueIds(d.cards) && d.totalCount == Sum(d.cards)
  }

  // ---------------------------------------------------------------- category order

  /**
   * `getCardTypeOrder()[type] || 999`: a category's rank is its position in the category list,
   * counting from 1; anything else ranks 999, after every category.
   */
  function TypeOrder(category: string): (r: int)
    ensures forall i :: 0 <= i < |CardTypes| && CardTypes[i] == category ==> r == i + 1
    ensures category !in CardTypes ==> r == 999
  {
    CardTypesDistinct();
    if category == Pokemon then 1
    else if category == Supporter then 2
    else if category == Item then 3
    else if category == PokemonTool then 4
    else if category == Stadium then 5
    else if category == BasicEnergy then 6
    else if category == SpecialEnergy then 7
    else 999
  }

  /** `getCardType(cardId)`: the category of the first loaded card with that ID, else `未知`.
      Only the cards of the category currently loaded are searched. */
  function CardTypeOf(catalog: seq<Card>, id: string): (r: string)
    ensures FirstIndex(catalog, id).Some? ==> r == catalog[FirstIndex(catalog, id).value].category
    ensures FirstIndex(catalog, id).None? ==> r == Unknown
  {
    match FirstIndex(catalog, id)
    case Some(k) => catalog[k].category
    case None => Unknown
  }

  /** The rank of a deck entry: its category's rank, 999 for a card not among the loaded ones. */
  function Rank(catalog: seq<Card>, e: DeckEntry): int
  {
    TypeOrder(CardTypeOf(catalog, e.id))
  }

  /** The comparator of `sortDeckCards`, as "strictly before": a lower rank first, then, for the
      same rank, a name that compares before. `nameLe(x, y)` stands for `x.localeCompare(y) <= 0`. */
  predicate Before(catalog: seq<Card>, nameLe: (string, string) -> bool, a: DeckEntry, b: DeckEntry)
  {
    Rank(catalog, a) < Rank(catalog, b) || (Rank(catalog, a) == Rank(catalog, b) && !nameLe(b.name, a.name))
  }

  /** `localeCompare` orders all strings: a total preorder. */
  ghost predicate TotalPreorder(le: (string, string) -> bool)
  {
    (forall x, y :: le(x, y) || le(y, x))
    && (forall x, y, z :: le(x, y) && le(y, z) ==> le(x, z))
  }

  /** The deck comparator as a function value. */
  function DeckOrder(catalog: seq<Card>, nameLe: (string, string) -> bool): (DeckEntry, DeckEntry) -> bool
  {
    (a: DeckEntry, b: DeckEntry) => Before(catalog, nameLe, a, b)
  }

  /** `lt` is a strict order: irreflexive and transitive. */
  ghost predicate StrictOrder(lt: (DeckEntry, DeckEntry) -> bool)
  {
    (forall a :: !lt(a, a))
    && (forall a, b, c :: lt(a, b) && lt(b, c) ==> lt(a, c))
  }

  /** The deck comparator is transitive when the name order is a total preorder. */
  lemma BeforeTransitive(catalog: seq<Card>, nameLe: (string, string) -> bool, a: DeckEntry, b: DeckEntry, c: DeckEntry)
    requires TotalPreorder(nameLe)
    requires Before(catalog, nameLe, a, b) && Before(catalog, nameLe, b, c)
    ensures Before(catalog, nameLe, a, c)
  {
  }

  /** Over a total preorder of names, "strictly before" is a strict order. */
  lemma DeckOrderStrict(catalog: seq<Card>, nameLe: (string, string) -> bool)
    requires TotalPreorder(nameLe)
    ensures StrictOrder(DeckOrder(catalog, nameLe))
  {
    var lt := DeckOrder(catalog, nameLe);
    forall a
      ensures !lt(a, a)
    {
      assert nameLe(a.name, a.name);
    }
    forall a, b, c | lt(a, b) && lt(b, c)
      ensures lt(a, c)
    {
      BeforeTransitive(catalog, nameLe, a, b, c);
    }
  }

  /** Inserts `x` after every entry that is not strictly after it, keeping equal entries in order. */
  function Insert(lt: (DeckEntry, DeckEntry) -> bool, ys: seq<DeckEntry>, x: DeckEntry): (r: seq<DeckEntry>)
    ensures multiset(r) == multiset(ys) + multiset{x}
    ensures Sum(r) == Sum(ys) + x.quantity
  {
    if ys == [] then [x]
    else if lt(x, ys[0]) then
      SumCons(x, ys);
      [x] + ys
    else
      var rest := Insert(lt, ys[1..], x);
      assert ys == [ys[0]] + ys[1..];
      SumCons(ys[0], ys[1..]);
      SumCons(ys[0], rest);
      [ys[0]] + rest
  }

  lemma {:induction false} SumCons(x: DeckEntry, ys: seq<DeckEntry>)
    ensures Sum([x] + ys) == x.quantity + Sum(ys)
  {
    if ys != [] {
      assert ([x] + ys)[..|[x] + ys| - 1] == [x] + ys[..|ys| - 1];
      SumCons(x, ys[..|ys| - 1]);
    }
  }

  /** A stable sort: each entry, in order, is inserted into the sorted prefix. */
  function SortBy(lt: (DeckEntry, DeckEntry) -> bool, cards: seq<DeckEntry>): (r: seq<DeckEntry>)
    ensures multiset(r) == multiset(cards)
    ensures Sum(r) == Sum(cards)
  {
    if cards == [] then []
    else
      var init := cards[..|cards| - 1];
      assert cards == init + [cards[|cards| - 1]];
      Insert(lt, SortBy(lt, init), cards[|cards| - 1])
  }

  /**
   * `sortDeckCards(deck)`: `Array.prototype.sort` with the deck comparator. The sort is stable,
   * so the result is insertion of each entry, in order, into the sorted prefix. It moves entries
   * without adding, dropping or changing any.
   */
  function SortDeckCards(catalog: seq<Card>, nameLe: (string, string) -> bool, cards: seq<DeckEntry>): (r: seq<DeckEntry>)
    ensures multiset(r) == multiset(cards)
    ensures Sum(r) == Sum(cards)
  {
    SortBy(DeckOrder(catalog, nameLe), cards)
  }

  /** No entry is strictly before an entry that precedes it. */
  predicate SortedBy(lt: (DeckEntry, DeckEntry) -> bool, s: seq<DeckEntry>)
  {
    forall i, j :: 0 <= i < j < |s| ==> !lt(s[j], s[i])
  }

  /** No entry is strictly before, by rank and then name, an entry that precedes it. */
  predicate Sorted(catalog: seq<Card>, nameLe: (string, string) -> bool, s: seq<DeckEntry>)
  {
    SortedBy(DeckOrder(catalog, nameLe), s)
  }

  /** Putting in front of a sorted list an entry strictly before its head keeps it sorted. */
  lemma {:induction false} ConsSorted(lt: (DeckEntry, DeckEntry) -> bool, ys: seq<DeckEntry>, x: DeckEntry)
    requires StrictOrder(lt) && SortedBy(lt, ys)
    requires ys != [] && lt(x, ys[0])
    ensures SortedBy(lt, [x] + ys)
  {
    var r := [x] + ys;
    forall i, j | 0 <= i < j < |r|
      ensures !lt(r[j], r[i])
    {
      assert r[j] == ys[j - 1];
      if i == 0 {
        assert !lt(ys[j - 1], ys[0]);
      } else {
        assert r[i] == ys[i - 1];
      }
    }
  }

  /** Inserting an entry that is not strictly before `b` into a list none of whose entries is
      strictly before `b` gives such a list again. */
  lemma {:induction false} InsertNotBefore(lt: (DeckEntry, DeckEntry) -> bool, ys: seq<DeckEntry>, x: DeckEntry, b: DeckEntry)
    requires forall k :: 0 <= k < |ys| ==> !lt(ys[k], b)
    requires !lt(x, b)
    ensures forall k :: 0 <= k < |Insert(lt, ys, x)| ==> !lt(Insert(lt, ys, x)[k], b)
  {
    var r := Insert(lt, ys, x);
    forall k | 0 <= k < |r|
      ensures !lt(r[k], b)
    {
      assert r[k] in multiset(r);
      if r[k] != x {
        assert r[k] in multiset(ys);
        var i :| 0 <= i < |ys| && ys[i] == r[k];
      }
    }
  }

  /** Putting the head of a sorted list back in front of its sorted tail, into which an entry
      not strictly before the head was inserted, keeps the result sorted. */
  lemma {:induction false} ConsInsertedSorted(lt: (DeckEntry, DeckEntry) -> bool, ys: seq<DeckEntry>, x: DeckEntry)
    requires SortedBy(lt, ys) && ys != [] && !lt(x, ys[0])
    requires SortedBy(lt, Insert(lt, ys[1..], x))
    ensures SortedBy(lt, [ys[0]] + Insert(lt, ys[1..], x))
  {
    var rest := Insert(lt, ys[1..], x);
    assert forall k :: 0 <= k < |ys[1..]| ==> ys[1..][k] == ys[k + 1];
    InsertNotBefore(lt, ys[1..], x, ys[0]);
    assert forall k :: 0 <= k < |rest| ==> !lt(rest[k], ys[0]);
    var r := [ys[0]] + rest;
    forall i, j | 0 <= i < j < |r|
      ensures !lt(r[j], r[i])
    {
      assert r[j] == rest[j - 1];
      if i == 0 {
        assert !lt(rest[j - 1], ys[0]);
      } else {
        assert r[i] == rest[i - 1];
      }
    }
  }

  lemma {:induction false} InsertSorted(lt: (DeckEntry, DeckEntry) -> bool, ys: seq<DeckEntry>, x: DeckEntry)
    requires StrictOrder(lt) && SortedBy(lt, ys)
    ensures SortedBy(lt, Insert(lt, ys, x))
  {
    if ys != [] {
      if lt(x, ys[0]) {
        ConsSorted(lt, ys, x);
      } else {
        assert SortedBy(lt, ys[1..]) by {
          assert forall k :: 0 <= k < |ys[1..]| ==> ys[1..][k] == ys[k + 1];
        }
        InsertSorted(lt, ys[1..], x);
        ConsInsertedSorted(lt, ys, x);
      }
    }
  }

  lemma {:induction false} SortBySorted(lt: (DeckEntry, DeckEntry) -> bool, cards: seq<DeckEntry>)
    requires StrictOrder(lt)
    ensures SortedBy(lt, SortBy(lt, cards))
  {
    if cards != [] {
      SortBySorted(lt, cards[..|cards| - 1]);
      InsertSorted(lt, SortBy(lt, cards[..|cards| - 1]), cards[|cards| - 1]);
    }
  }

  /** The sorted deck is ordered by rank, then by name. */
  lemma SortedDeck(catalog: seq<Card>, nameLe: (string, string) -> bool, cards: seq<DeckEntry>)
    requires TotalPreorder(nameLe)
    ensures Sorted(catalog, nameLe, SortDeckCards(catalog, nameLe, cards))
  {
    DeckOrderStrict(catalog, nameLe);
    SortBySorted(DeckOrder(catalog, nameLe), cards);
  }

  // ---------------------------------------------------------------- changing one card's count

  /** Some entry is for card `id`. */
  predicate HasId(cards: seq<DeckEntry>, id: string)
  {
    exists k :: 0 <= k < |cards| && cards[k].id == id
  }

  /** `deck.cards.find(card => card.id === id)`, as a position: the first entry for that card. */
  function EntryIndex(cards: seq<DeckEntry>, id: string): (r: Option<nat>)
    ensures r.Some? ==> r.value < |cards| && cards[r.value].id == id
    ensures r.Some? ==> forall j :: 0 <= j < r.value ==> cards[j].id != id
    ensures r.None? <==> !HasId(cards, id)
  {
    if cards == [] then None
    else if cards[0].id == id then Some(0)
    else
      match EntryIndex(cards[1..], id)
      case Some(k) => Some(k + 1)
      case None =>
        assert forall k :: 1 <= k < |cards| ==> cards[k] == cards[1..][k - 1];
        None
  }

  /** `deck.cards.filter(card => card.id !== id)`: every entry for that card removed, the others kept in order. */
  function Without(cards: seq<DeckEntry>, id: string): (r: seq<DeckEntry>)
    ensures forall e :: e in r ==> e in cards && e.id != id
    ensures forall e :: e in cards && e.id != id ==> e in r
  {
    if cards == [] then []
    else
      var last := cards[|cards| - 1];
      var init := cards[..|cards| - 1];
      assert forall e :: e in cards ==> e in init || e == last;
      Without(init, id) + (if last.id != id then [last] else [])
  }

  /**
   * The entries of a deck after the find / update / filter / push part of `updateCardQuantity`,
   * before the total is recomputed and the deck is sorted. An entry already there gets
   * `max(0, quantity + change)` and, at 0, every entry for the card is removed; a card not there
   * is added with `change` copies only when `change` is positive and the card is among the
   * loaded cards, whose name and image the new entry copies.
   */
  function ChangedCards(catalog: seq<Card>, cards: seq<DeckEntry>, id: string, change: int): seq<DeckEntry>
  {
    match EntryIndex(cards, id)
    case Some(k) =>
      var q := Clamp0(cards[k].quantity + change);
      if q == 0 then Without(cards, id) else cards[k := cards[k].(quantity := q)]
    case None =>
      if change > 0 then
        match FirstIndex(catalog, id)
        case Some(c) => cards + [DeckEntry(id, catalog[c].name, catalog[c].image, change)]
        case None => cards
      else cards
  }

  /** The deck after `updateCardQuantity(id, change)`: changed entries, the total recounted, then sorted. */
  function ApplyChange(catalog: seq<Card>, nameLe: (string, string) -> bool, d: Deck, id: string, change: int): (r: Deck)
    ensures r.totalCount == Sum(r.cards)
    ensures r.id == d.id && r.name == d.name && r.coverCardId == d.coverCardId
  {
    var cs := ChangedCards(catalog, d.cards, id, change);
    d.(cards := SortDeckCards(catalog, nameLe, cs), totalCount := Sum(cs))
  }

  /** The count of card `id` a deck is left with after `updateCardQuantity(id, change)`. */
  function NewCount(catalog: seq<Card>, cards: seq<DeckEntry>, id: string, change: int): int
  {
    if HasId(cards, id) then Clamp0(QuantityOf(cards, id) + change)
    else if change > 0 && FirstIndex(catalog, id).Some? then change
    else 0
  }

  lemma {:induction false} QuantityOfCons(x: DeckEntry, ys: seq<DeckEntry>, id: string)
    ensures QuantityOf([x] + ys, id) == (if x.id == id then x.quantity else 0) + QuantityOf(ys, id)
  {
    if ys != [] {
      assert ([x] + ys)[..|[x] + ys| - 1] == [x] + ys[..|ys| - 1];
      QuantityOfCons(x, ys[..|ys| - 1], id);
    }
  }

  lemma {:induction false} QuantityOfInsert(lt: (DeckEntry, DeckEntry) -> bool, ys: seq<DeckEntry>, x: DeckEntry, id: string)
    ensures QuantityOf(Insert(lt, ys, x), id) == QuantityOf(ys, id) + (if x.id == id then x.quantity else 0)
  {
    if ys == [] {
      assert [x] == [x] + [];
      QuantityOfCons(x, [], id);
    } else if lt(x, ys[0]) {
      QuantityOfCons(x, ys, id);
    } else {
      QuantityOfInsert(lt, ys[1..], x, id);
      QuantityOfCons(ys[0], Insert(lt, ys[1..], x), id);
      QuantityOfCons(ys[0], ys[1..], id);
      assert ys == [ys[0]] + ys[1..];
    }
  }

  /** Sorting moves entries without changing any card's count. */
  lemma {:induction false} QuantityOfSorted(lt: (DeckEntry, DeckEntry) -> bool, cards: seq<DeckEntry>, id: string)
    ensures QuantityOf(SortBy(lt, cards), id) == QuantityOf(cards, id)
  {
    if cards != [] {
      var init := cards[..|cards| - 1];
      QuantityOfSorted(lt, init, id);
      QuantityOfInsert(lt, SortBy(lt, init), cards[|cards| - 1], id);
    }
  }

  lemma {:induction false} QuantityOfAbsent(cards: seq<DeckEntry>, id: string)
    requires !HasId(cards, id)
    ensures QuantityOf(cards, id) == 0
  {
    if cards != [] {
      var init := cards[..|cards| - 1];
      assert forall k :: 0 <= k < |init| ==> init[k] == cards[k];
      QuantityOfAbsent(init, id);
    }
  }

  lemma {:induction false} QuantityOfWithout(cards: seq<DeckEntry>, id: string, x: string)
    ensures QuantityOf(Without(cards, id), x) == if x == id then 0 else QuantityOf(cards, x)
  {
    if cards != [] {
      var init := cards[..|cards| - 1];
      var last := cards[|cards| - 1];
      QuantityOfWithout(init, id, x);
      var w := Without(init, id);
      if last.id != id {
        assert (w + [last])[..|w + [last]| - 1] == w;
      } else {
        assert w + [] == w;
      }
    }
  }

  lemma {:induction false} QuantityOfUpdate(cards: seq<DeckEntry>, k: int, q: int, x: string)
    requires 0 <= k < |cards|
    ensures QuantityOf(cards[k := cards[k].(quantity := q)], x)
      == QuantityOf(cards, x) + (if cards[k].id == x then q - cards[k].quantity else 0)
  {
    var u := cards[k := cards[k].(quantity := q)];
    var n := |cards|;
    if k == n - 1 {
      assert u[..n - 1] == cards[..n - 1];
    } else {
      assert u[..n - 1] == cards[..n - 1][k := cards[k].(quantity := q)];
      QuantityOfUpdate(cards[..n - 1], k, q, x);
    }
  }

  lemma {:induction false} QuantityOfSnoc(cards: seq<DeckEntry>, e: DeckEntry, x: string)
    ensures QuantityOf(cards + [e], x) == QuantityOf(cards, x) + (if e.id == x then e.quantity else 0)
  {
    assert (cards + [e])[..|cards|] == cards;
  }

  /** With one entry per card, the count of a card is that entry's quantity. */
  lemma {:induction false} QuantityOfUnique(cards: seq<DeckEntry>, k: int)
    requires UniqueIds(cards) && 0 <= k < |cards|
    ensures QuantityOf(cards, cards[k].id) == cards[k].quantity
  {
    var n := |cards|;
    var init := cards[..n - 1];
    if k == n - 1 {
      assert forall j :: 0 <= j < |init| ==> init[j] == cards[j];
      QuantityOfAbsent(init, cards[k].id);
    } else {
      assert init[k] == cards[k];
      QuantityOfUnique(init, k);
    }
  }

  lemma {:induction false} ChangedCountsPresent(catalog: seq<Card>, cards: seq<DeckEntry>, id: string, change: int, x: string, k: nat)
    requires UniqueIds(cards) && EntryIndex(cards, id) == Some(k)
    ensures QuantityOf(ChangedCards(catalog, cards, id, change), x)
      == if x == id then Clamp0(QuantityOf(cards, id) + change) else QuantityOf(cards, x)
  {
    QuantityOfUnique(cards, k);
    var q := Clamp0(cards[k].quantity + change);
    if q == 0 {
      QuantityOfWithout(cards, id, x);
    } else {
      QuantityOfUpdate(cards, k, q, x);
    }
  }

  lemma {:induction false} ChangedCountsAbsent(catalog: seq<Card>, cards: seq<DeckEntry>, id: string, change: int, x: string)
    requires EntryIndex(cards, id).None?
    ensures QuantityOf(ChangedCards(catalog, cards, id, change), x)
      == if x == id then NewCount(catalog, cards, id, change) else QuantityOf(cards, x)
  {
    QuantityOfAbsent(cards, id);
    if change > 0 && FirstIndex(catalog, id).Some? {
      var c := FirstIndex(catalog, id).value;
      QuantityOfSnoc(cards, DeckEntry(id, catalog[c].name, catalog[c].image, change), x);
    }
  }

  /**
   * What `updateCardQuantity` does to a valid deck, card by card: card `id` ends with
   * `NewCount` copies (its count plus `change`, never below 0; a card not yet in the deck
   * enters only with a positive change and only if it is among the loaded cards), and
   * every other card keeps its count.
   */
  lemma {:induction false} ChangedCounts(catalog: seq<Card>, cards: seq<DeckEntry>, id: string, change: int, x: string)
    requires UniqueIds(cards)
    ensures QuantityOf(ChangedCards(catalog, cards, id, change), x)
      == if x == id then NewCount(catalog, cards, id, change) else QuantityOf(cards, x)
  {
    match EntryIndex(cards, id)
    case Some(k) =>
      ChangedCountsPresent(catalog, cards, id, change, x, k);
    case None =>
      ChangedCountsAbsent(catalog, cards, id, change, x);
  }

  lemma {:induction false} ApplyChangeCounts(catalog: seq<Card>, nameLe: (string, string) -> bool, d: Deck, id: string, change: int, x: string)
    requires DeckValid(d)
    ensures QuantityOf(ApplyChange(catalog, nameLe, d, id, change).cards, x)
      == if x == id then NewCount(catalog, d.cards, id, change) else QuantityOf(d.cards, x)
  {
    var cs := ChangedCards(catalog, d.cards, id, change);
    assert ApplyChange(catalog, nameLe, d, id, change).cards == SortBy(DeckOrder(catalog, nameLe), cs);
    QuantityOfSorted(DeckOrder(catalog, nameLe), cs, x);
    ChangedCounts(catalog, d.cards, id, change, x);
  }

  // ---------------------------------------------------------------- the deck invariant is kept

  lemma {:induction false} HasIdInsert(lt: (DeckEntry, DeckEntry) -> bool, ys: seq<DeckEntry>, x: DeckEntry, id: string)
    ensures HasId(Insert(lt, ys, x), id) <==> HasId(ys, id) || x.id == id
  {
    var r := Insert(lt, ys, x);
    if HasId(r, id) {
      var k :| 0 <= k < |r| && r[k].id == id;
      assert r[k] in multiset(r);
    }
    if HasId(ys, id) {
      var k :| 0 <= k < |ys| && ys[k].id == id;
      assert ys[k] in multiset(ys);
      assert ys[k] in multiset(r);
      var j :| 0 <= j < |r| && r[j] == ys[k];
    }
    if x.id == id {
      assert x in multiset(r);
    }
  }

  lemma {:induction false} UniqueCons(a: DeckEntry, s: seq<DeckEntry>)
    requires UniqueIds(s) && !HasId(s, a.id)
    ensures UniqueIds([a] + s)
  {
    forall j, k | 0 <= j < k < |[a] + s|
      ensures ([a] + s)[j].id != ([a] + s)[k].id
    {
      if j == 0 {
        assert ([a] + s)[k] == s[k - 1];
      }
    }
  }

  lemma {:induction false} InsertUnique(lt: (DeckEntry, DeckEntry) -> bool, ys: seq<DeckEntry>, x: DeckEntry)
    requires UniqueIds(ys) && !HasId(ys, x.id)
    ensures UniqueIds(Insert(lt, ys, x))
  {
    if ys == [] {
    } else if lt(x, ys[0]) {
      UniqueCons(x, ys);
    } else {
      var tail := ys[1..];
      assert UniqueIds(tail) by {
        forall j, k | 0 <= j < k < |tail| ensures tail[j].id != tail[k].id {
          assert tail[j] == ys[j + 1] && tail[k] == ys[k + 1];
        }
      }
      assert forall k :: 0 <= k < |tail| ==> tail[k] == ys[k + 1];
      InsertUnique(lt, tail, x);
      HasIdInsert(lt, tail, x, ys[0].id);
      UniqueCons(ys[0], Insert(lt, tail, x));
    }
  }

  lemma {:induction false} HasIdSorted(lt: (DeckEntry, DeckEntry) -> bool, cards: seq<DeckEntry>, id: string)
    ensures HasId(SortBy(lt, cards), id) <==> HasId(cards, id)
  {
    var r := SortBy(lt, cards);
    if HasId(r, id) {
      var k :| 0 <= k < |r| && r[k].id == id;
      assert r[k] in multiset(r);
      var j :| 0 <= j < |cards| && cards[j] == r[k];
    }
    if HasId(cards, id) {
      var k :| 0 <= k < |cards| && cards[k].id == id;
      assert cards[k] in multiset(cards);
      var j :| 0 <= j < |r| && r[j] == cards[k];
    }
  }

  lemma {:induction false} SortedUnique(lt: (DeckEntry, DeckEntry) -> bool, cards: seq<DeckEntry>)
    requires UniqueIds(cards)
    ensures UniqueIds(SortBy(lt, cards))
  {
    if cards != [] {
      var n := |cards|;
      var init := cards[..n - 1];
      var last := cards[n - 1];
      assert UniqueIds(init) by {
        forall j, k | 0 <= j < k < |init| ensures init[j].id != init[k].id {
          assert init[j] == cards[j] && init[k] == cards[k];
        }
      }
      SortedUnique(lt, init);
      HasIdSorted(lt, init, last.id);
      assert forall k :: 0 <= k < |init| ==> init[k] == cards[k];
      InsertUnique(lt, SortBy(lt, init), last);
    }
  }

  lemma SortedPositive(lt: (DeckEntry, DeckEntry) -> bool, cards: seq<DeckEntry>)
    requires AllPositive(cards)
    ensures AllPositive(SortBy(lt, cards))
  {
    var r := SortBy(lt, cards);
    forall k | 0 <= k < |r| ensures r[k].quantity > 0 {
      assert r[k] in multiset(r);
      var j :| 0 <= j < |cards| && cards[j] == r[k];
    }
  }

  lemma {:induction false} WithoutUnique(cards: seq<DeckEntry>, id: string)
    requires UniqueIds(cards)
    ensures UniqueIds(Without(cards, id))
  {
    if cards != [] {
      var n := |cards|;
      var init := cards[..n - 1];
      var last := cards[n - 1];
      assert UniqueIds(init) by {
        forall j, k | 0 <= j < k < |init| ensures init[j].id != init[k].id {
          assert init[j] == cards[j] && init[k] == cards[k];
        }
      }
      WithoutUnique(init, id);
      var w := Without(init, id);
      if last.id != id {
        forall j, k | 0 <= j < k < |w + [last]| ensures (w + [last])[j].id != (w + [last])[k].id {
          if k == |w| {
            assert w[j] in init;
            var i :| 0 <= i < |init| && init[i] == w[j];
            assert cards[i].id != cards[n - 1].id;
          }
        }
      } else {
        assert w + [] == w;
      }
    }
  }

  /** `updateCardQuantity` keeps a valid deck valid: positive entries, one per card, correct
      total; and when names compare as a total preorder the entries are in deck order. */
  lemma {:induction false} ApplyChangeKeepsValid(catalog: seq<Card>, nameLe: (string, string) -> bool, d: Deck, id: string, change: int)
    requires DeckValid(d)
    ensures DeckValid(ApplyChange(catalog, nameLe, d, id, change))
    ensures TotalPreorder(nameLe) ==> Sorted(catalog, nameLe, ApplyChange(catalog, nameLe, d, id, change).cards)
  {
    var cs := ChangedCards(catalog, d.cards, id, change);
    assert AllPositive(cs) && UniqueIds(cs) by {
      match EntryIndex(d.cards, id)
      case Some(k) =>
        var q := Clamp0(d.cards[k].quantity + change);
        if q == 0 {
          WithoutUnique(d.cards, id);
          forall j | 0 <= j < |cs| ensures cs[j].quantity > 0 {
            assert cs[j] in Without(d.cards, id);
          }
        }
      case None =>
        if change > 0 && FirstIndex(catalog, id).Some? {
          var c := FirstIndex(catalog, id).value;
          var e := DeckEntry(id, catalog[c].name, catalog[c].image, change);
          assert cs == d.cards + [e];
        }
    }
    SortedUnique(DeckOrder(catalog, nameLe), cs);
    SortedPositive(DeckOrder(catalog, nameLe), cs);
    if TotalPreorder(nameLe) {
      SortedDeck(catalog, nameLe, cs);
    }
  }

  /** The entry `updateCardQuantity` returns, looked up in the sorted deck: there is one exactly
      when the card is left with copies, and it holds all of them. */
  lemma {:induction false} ApplyChangeEntry(catalog: seq<Card>, nameLe: (string, string) -> bool, d: Deck, id: string, change: int)
    requires DeckValid(d)
    ensures var r := ApplyChange(catalog, nameLe, d, id, change);
      && (EntryIndex(r.cards, id).Some? <==> NewCount(catalog, d.cards, id, change) > 0)
      && (EntryIndex(r.cards, id).Some? ==> r.cards[EntryIndex(r.cards, id).value].quantity == NewCount(catalog, d.cards, id, change))
  {
    var r := ApplyChange(catalog, nameLe, d, id, change);
    ApplyChangeKeepsValid(catalog, nameLe, d, id, change);
    ApplyChangeCounts(catalog, nameLe, d, id, change, id);
    match EntryIndex(r.cards, id)
    case Some(k) =>
      QuantityOfUnique(r.cards, k);
    case None =>
      QuantityOfAbsent(r.cards, id);
  }
}
