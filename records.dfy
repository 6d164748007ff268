/**
 * The catalog's card records: the entries read from a category's JSON file and the
 * card objects built from them. A card's descriptive fields never change after it is
 * built; its owned quantity is updated in place, and the same card object can be held
 * both by the full list and by the filtered list of the catalog.
 */
module Records {
  import opened Wrappers
  import opened Categories
  import ImageFiles

  /** One attack: its name and effect text, `""` where the JSON has none. */
  datatype Skill = Skill(name: string, effect: string)

  /** The category-specific fields of a card. A Pokémon card carries its number, attribute,
      ability and the four skills; every other category carries an effect text. Card objects
      rebuilt from a deck entry carry neither. */
  datatype Details =
    | PokemonDetails(number: string, attribute: string, abilityName: string, abilityEffect: string, skills: seq<Skill>)
    | OtherDetails(effect: string)
    | NoDetails

  /**
   * One element of a category's JSON file. Absent, `null` and empty-string fields are all `""`;
   * `ids` lists the `卡牌ID` array (empty when absent), `""` standing for a falsy ID;
   * `owned` is the result of `parseInt` on the owned-count field, `None` when that is `NaN`;
   * `skills` are the fields `技能1` to `技能4` in order.
   */
  datatype SourceEntry = SourceEntry(
    ids: seq<string>,
    cardName: string,
    pokemonName: string,
    owned: Option<int>,
    number: string,
    attribute: string,
    abilityName: string,
    abilityEffect: string,
    skills: seq<Skill>,
    effect: string)

  /** The value held by a card object at one moment. */
  datatype CardData = CardData(id: string, name: string, category: string, image: string, details: Details, quantity: int)

  class Card {
    const id: string
    const name: string
    const category: string
    const image: string
    const details: Details
    var quantity: int

    constructor (d: CardData)
      ensures Data() == d
    {
      id := d.id;
      name := d.name;
      category := d.category;
      image := d.image;
      details := d.details;
      quantity := d.quantity;
    }

    function Data(): (d: CardData)
      reads this
      ensures d.id == id && d.quantity == quantity
    {
      CardData(id, name, category, image, details, quantity)
    }
  }

  /** `Math.max(0, x)`. */
  function Clamp0(x: int): (r: int)
    ensures r >= 0 && r >= x && (r == x || r == 0)
  {
    if x < 0 then 0 else x
  }

  /** The IDs of a list of cards, in order. */
  function Ids(cards: seq<Card>): (r: seq<string>)
    ensures |r| == |cards|
    ensures forall k :: 0 <= k < |cards| ==> r[k] == cards[k].id
  {
    if cards == [] then [] else Ids(cards[..|cards| - 1]) + [cards[|cards| - 1].id]
  }

  /** `cards.find(c => c.id === id)`, as a position: the first card with that ID. */
  function FirstIndex(cards: seq<Card>, id: string): (r: Option<nat>)
    ensures r.Some? ==> r.value < |cards| && cards[r.value].id == id
    ensures r.Some? ==> forall j :: 0 <= j < r.value ==> cards[j].id != id
    ensures r.None? ==> forall k :: 0 <= k < |cards| ==> cards[k].id != id
  {
    if cards == [] then None
    else if cards[0].id == id then Some(0)
    else
      match FirstIndex(cards[1..], id)
      case Some(k) => Some(k + 1)
      case None => None
  }

  /** The image path of a card: the category's image directory, which is `images/` for every
      category, followed by the generated file name. */
  function CardImage(id: string): (r: string)
    ensures |r| >= 7 && r[..7] == "images/" && r[7..] == ImageFiles.GenerateImageFilename(id)
  {
    "images/" + ImageFiles.GenerateImageFilename(id)
  }

  /** The name shown for an entry: the card name, else the Pokémon name, else `未知`. */
  function DisplayName(e: SourceEntry): (r: string)
    ensures r != ""
    ensures e.cardName != "" ==> r == e.cardName
    ensures e.cardName == "" && e.pokemonName != "" ==> r == e.pokemonName
    ensures e.cardName == "" && e.pokemonName == "" ==> r == Unknown
  {
    if e.cardName != "" then e.cardName
    else if e.pokemonName != "" then e.pokemonName
    else Unknown
  }

  /** The category-specific fields copied from an entry of category `category`. */
  function DetailsOf(e: SourceEntry, category: string): (r: Details)
    ensures category == Pokemon <==> r.PokemonDetails?
    ensures category != Pokemon ==> r == OtherDetails(e.effect)
    ensures r.PokemonDetails? ==> r.number != "" && r.attribute != ""
    ensures r.PokemonDetails? ==> (e.number != "" ==> r.number == e.number) && (e.number == "" ==> r.number == Unknown)
    ensures r.PokemonDetails? ==> (e.attribute != "" ==> r.attribute == e.attribute) && (e.attribute == "" ==> r.attribute == Unknown)
    ensures r.PokemonDetails? ==> r.abilityName == e.abilityName && r.abilityEffect == e.abilityEffect && r.skills == e.skills
  {
    if category == Pokemon then
      PokemonDetails(if e.number != "" then e.number else Unknown,
                     if e.attribute != "" then e.attribute else Unknown,
                     e.abilityName, e.abilityEffect, e.skills)
    else OtherDetails(e.effect)
  }

  /** The card built for one ID of an entry. */
  function MakeCard(e: SourceEntry, id: string, category: string): (r: CardData)
    ensures r.id == id && r.category == category && r.name == DisplayName(e) && r.image == CardImage(id)
    ensures r.quantity == e.owned.GetOr(0) && r.details == DetailsOf(e, category)
  {
    CardData(id, DisplayName(e), category, CardImage(id), DetailsOf(e, category), e.owned.GetOr(0))
  }

  /** The non-empty strings of `ids`, in order. */
  function Present(ids: seq<string>): (r: seq<string>)
    ensures |r| <= |ids|
    ensures forall k :: 0 <= k < |r| ==> r[k] != "" && r[k] in ids
    ensures forall x :: x in ids && x != "" ==> x in r
  {
    if ids == [] then []
    else
      var last := ids[|ids| - 1];
      Present(ids[..|ids| - 1]) + (if last != "" then [last] else [])
  }

  /** `Present` keeps order and repetitions: the truthy IDs of two lists one after the other
      are those of the first list followed by those of the second. */
  lemma {:induction false} PresentAppend(a: seq<string>, b: seq<string>)
    ensures Present(a + b) == Present(a) + Present(b)
    decreases |b|
  {
    if b == [] {
      assert a + b == a;
    } else {
      var init := b[..|b| - 1];
      assert a + b == (a + init) + [b[|b| - 1]];
      assert (a + b)[..|a + b| - 1] == a + init;
      PresentAppend(a, init);
    }
  }

  /** A single ID is kept exactly when it is non-empty. */
  lemma PresentSingle(x: string)
    ensures Present([x]) == if x != "" then [x] else []
  {
    assert [x][..0] == [];
  }

  /** The cards one entry contributes: one per non-empty ID, in the order of its IDs. */
  function EntryCards(e: SourceEntry, ids: seq<string>, category: string): (r: seq<CardData>)
    ensures |r| == |Present(ids)|
  {
    if ids == [] then []
    else
      var last := ids[|ids| - 1];
      EntryCards(e, ids[..|ids| - 1], category) + (if last != "" then [MakeCard(e, last, category)] else [])
  }

  /** All IDs of a list of entries that yield a card, in file order. */
  function PresentIds(entries: seq<SourceEntry>): seq<string>
  {
    if entries == [] then []
    else PresentIds(entries[..|entries| - 1]) + Present(entries[|entries| - 1].ids)
  }

  /**
   * The card list `processCardData` builds from a category's JSON entries: for each entry in
   * file order, one card per non-empty ID in that entry's order. Every card gets the category,
   * its image path and the entry's owned count (0 when that is not a number).
   */
  function ProcessedCards(entries: seq<SourceEntry>, category: string): (r: seq<CardData>)
    ensures |r| == |PresentIds(entries)|
  {
    if entries == [] then []
    else
      var e := entries[|entries| - 1];
      ProcessedCards(entries[..|entries| - 1], category) + EntryCards(e, e.ids, category)
  }

  /** The `k`-th card of an entry is built from its `k`-th non-empty ID. */
  lemma {:induction false} EntryCardsAt(e: SourceEntry, ids: seq<string>, category: string, k: int)
    requires 0 <= k < |EntryCards(e, ids, category)|
    ensures EntryCards(e, ids, category)[k] == MakeCard(e, Present(ids)[k], category)
  {
    var init := ids[..|ids| - 1];
    if k < |EntryCards(e, init, category)| {
      EntryCardsAt(e, init, category, k);
    }
  }

  /** The processed list has one card per non-empty ID, in file order, each carrying the
      category being loaded and the image path generated from its ID. */
  lemma {:induction false} ProcessedCardsShape(entries: seq<SourceEntry>, category: string, k: int)
    requires 0 <= k < |ProcessedCards(entries, category)|
    ensures var r := ProcessedCards(entries, category)[k];
      r.id == PresentIds(entries)[k] && r.id != "" && r.category == category && r.image == CardImage(r.id)
  {
    var init := entries[..|entries| - 1];
    var e := entries[|entries| - 1];
    var n := |ProcessedCards(init, category)|;
    if k < n {
      ProcessedCardsShape(init, category, k);
    } else {
      EntryCardsAt(e, e.ids, category, k - n);
    }
  }

  /** The values held by a list of card objects. */
  function Datas(cards: seq<Card>): (r: seq<CardData>)
    reads cards
    ensures |r| == |cards|
  {
    if cards == [] then [] else Datas(cards[..|cards| - 1]) + [cards[|cards| - 1].Data()]
  }

  lemma {:induction false} DatasAt(cards: seq<Card>, k: int)
    requires 0 <= k < |cards|
    ensures Datas(cards)[k] == cards[k].Data()
  {
    if k < |cards| - 1 {
      DatasAt(cards[..|cards| - 1], k);
    }
  }

  lemma DatasAppend(cards: seq<Card>, c: Card)
    ensures Datas(cards + [c]) == Datas(cards) + [c.Data()]
  {
    assert (cards + [c])[..|cards|] == cards;
  }

  /** No card object occurs twice. */
  predicate Distinct(cards: seq<Card>)
  {
    forall j, k :: 0 <= j < k < |cards| ==> cards[j] != cards[k]
  }

  lemma EntryCardsSnoc(e: SourceEntry, ids: seq<string>, id: string, category: string)
    ensures EntryCards(e, ids + [id], category)
      == EntryCards(e, ids, category) + (if id != "" then [MakeCard(e, id, category)] else [])
  {
    assert (ids + [id])[..|ids|] == ids;
  }

  lemma EntryCardsStep(e: SourceEntry, j: nat, category: string)
    requires j < |e.ids|
    ensures EntryCards(e, e.ids[..j + 1], category)
      == EntryCards(e, e.ids[..j], category) + (if e.ids[j] != "" then [MakeCard(e, e.ids[j], category)] else [])
  {
    assert e.ids[..j + 1] == e.ids[..j] + [e.ids[j]];
    EntryCardsSnoc(e, e.ids[..j], e.ids[j], category);
  }

  lemma ProcessedCardsStep(entries: seq<SourceEntry>, i: nat, category: string)
    requires i < |entries|
    ensures ProcessedCards(entries[..i + 1], category) == ProcessedCards(entries[..i], category) + EntryCards(entries[i], entries[i].ids, category)
  {
    assert entries[..i + 1] == entries[..i] + [entries[i]];
    ProcessedCardsSnoc(entries[..i], entries[i], category);
  }

  lemma ProcessedCardsSnoc(entries: seq<SourceEntry>, e: SourceEntry, category: string)
    ensures ProcessedCards(entries + [e], category) == ProcessedCards(entries, category) + EntryCards(e, e.ids, category)
  {
    assert (entries + [e])[..|entries|] == entries;
  }

  /**
   * `processCardData(jsonData, cardType)`: for each entry in file order and each of its
   * non-empty IDs in order, builds one fresh card object.
   */
  method ProcessCardData(entries: seq<SourceEntry>, category: string) returns (cards: seq<Card>)
    ensures Datas(cards) == ProcessedCards(entries, category)
    ensures forall c :: c in cards ==> fresh(c)
    ensures Distinct(cards)
  {
    var built: seq<CardData> := [];
    var i := 0;
    while i < |entries|
      invariant 0 <= i <= |entries|
      invariant built == ProcessedCards(entries[..i], category)
    {
      var more := EntryValues(entries[i], category);
      ProcessedCardsStep(entries, i, category);
      built := built + more;
      i := i + 1;
    }
    assert entries[..i] == entries;
    cards := Instantiate(built);
  }

  /** The inner loop of `processCardData`: the cards of one entry, one per non-empty ID. */
  method EntryValues(e: SourceEntry, category: string) returns (more: seq<CardData>)
    ensures more == EntryCards(e, e.ids, category)
  {
    more := [];
    var j := 0;
    while j < |e.ids|
      invariant 0 <= j <= |e.ids|
      invariant more == EntryCards(e, e.ids[..j], category)
    {
      var id := e.ids[j];
      EntryCardsStep(e, j, category);
      if id != "" {
        more := more + [MakeCard(e, id, category)];
      }
      j := j + 1;
    }
    assert e.ids[..j] == e.ids;
  }

  /** Creates one fresh card object holding each value, in order. */
  method Instantiate(ds: seq<CardData>) returns (cards: seq<Card>)
    ensures Datas(cards) == ds
    ensures forall c :: c in cards ==> fresh(c)
    ensures Distinct(cards)
  {
    cards := [];
    var j := 0;
    while j < |ds|
      invariant 0 <= j <= |ds|
      invariant Datas(cards) == ds[..j]
      invariant forall c :: c in cards ==> fresh(c)
      invariant Distinct(cards)
    {
      var c := new Card(ds[j]);
      DatasAppend(cards, c);
      cards := cards + [c];
      j := j + 1;
    }
  }
}
