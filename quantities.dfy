/**
 * Owned quantities in their two shapes. Stored, they are one flat list of records
 * (ID, category, quantity). In memory, they are grouped by category: an object whose keys
 * are the category names, in the order the keys were created, each holding the list of
 * (ID, quantity) items of that category. The grouped object is modelled as a list of
 * key/value pairs in key order.
 */
module Quantities {
  import opened Wrappers
  import opened Categories

  datatype Item = Item(id: string, quantity: int)
  datatype Record = Record(id: string, category: string, quantity: int)
  datatype Group = Group(category: string, items: seq<Item>)

  /** The seven category keys, in order, each present once. */
  predicate WellFormed(g: seq<Group>)
  {
    |g| == |CardTypes| && forall i :: 0 <= i < |g| ==> g[i].category == CardTypes[i]
  }

  /** `initializeEmptyQuantities()`: every category key, in order, with no items. */
  function InitializeEmptyQuantities(): (g: seq<Group>)
    ensures WellFormed(g)
    ensures forall i :: 0 <= i < |g| ==> g[i].items == []
  {
    seq(|CardTypes|, i requires 0 <= i < |CardTypes| => Group(CardTypes[i], []))
  }

  /** `grouped[key]`: the items under `key`, `None` for a key the object does not have. */
  function Lookup(g: seq<Group>, key: string): (r: Option<seq<Item>>)
    ensures r.None? <==> forall i :: 0 <= i < |g| ==> g[i].category != key
  {
    if g == [] then None
    else if g[0].category == key then Some(g[0].items)
    else Lookup(g[1..], key)
  }

  /** `grouped[key] = items`: replaces the items of an existing key in place, or adds the key last. */
  function Assign(g: seq<Group>, key: string, items: seq<Item>): (r: seq<Group>)
    ensures Lookup(r, key) == Some(items)
  {
    if g == [] then [Group(key, items)]
    else if g[0].category == key then [Group(key, items)] + g[1..]
    else [g[0]] + Assign(g[1..], key, items)
  }

  /** On the seven category keys, looking up the `i`-th category yields the `i`-th group. */
  lemma {:induction false} LookupWellFormed(g: seq<Group>, i: int)
    requires WellFormed(g) && 0 <= i < |g|
    ensures Lookup(g, CardTypes[i]) == Some(g[i].items)
  {
    CardTypesDistinct();
    LookupAt(g, i);
  }

  lemma {:induction false} LookupAt(g: seq<Group>, i: int)
    requires 0 <= i < |g|
    requires forall j :: 0 <= j < i ==> g[j].category != g[i].category
    ensures Lookup(g, g[i].category) == Some(g[i].items)
  {
    if i > 0 {
      LookupAt(g[1..], i - 1);
    }
  }

  /** On the seven category keys, assigning the `i`-th category replaces that group only. */
  lemma {:induction false} AssignWellFormed(g: seq<Group>, i: int, items: seq<Item>)
    requires WellFormed(g) && 0 <= i < |g|
    ensures Assign(g, CardTypes[i], items) == g[i := Group(CardTypes[i], items)]
  {
    CardTypesDistinct();
    AssignAt(g, i, items);
  }

  lemma {:induction false} AssignAt(g: seq<Group>, i: int, items: seq<Item>)
    requires 0 <= i < |g|
    requires forall j :: 0 <= j < i ==> g[j].category != g[i].category
    ensures Assign(g, g[i].category, items) == g[i := Group(g[i].category, items)]
  {
    if i > 0 {
      AssignAt(g[1..], i - 1, items);
    }
  }

  /** One step of `groupQuantitiesByType`: a record with a known category is appended to
      that category's items; any other record is dropped. */
  function Push(g: seq<Group>, r: Record): seq<Group>
  {
    match Lookup(g, r.category)
    case Some(items) => if r.category != "" then Assign(g, r.category, items + [Item(r.id, r.quantity)]) else g
    case None => g
  }

  /** `groupQuantitiesByType(flat)`: starts from the empty grouping and pushes each record in order. */
  function GroupQuantitiesByType(flat: seq<Record>): (g: seq<Group>)
    ensures WellFormed(g)
  {
    if flat == [] then InitializeEmptyQuantities()
    else
      var g0 := GroupQuantitiesByType(flat[..|flat| - 1]);
      var r := flat[|flat| - 1];
      PushKeepsShape(g0, r);
      Push(g0, r)
  }

  lemma PushKeepsShape(g: seq<Group>, r: Record)
    requires WellFormed(g)
    ensures WellFormed(Push(g, r))
  {
    if Lookup(g, r.category).Some? && r.category != "" {
      var i :| 0 <= i < |g| && g[i].category == r.category;
      AssignWellFormed(g, i, Lookup(g, r.category).value + [Item(r.id, r.quantity)]);
    }
  }

  /** The items of the records of category `t`, in their order. */
  function ItemsOf(flat: seq<Record>, t: string): seq<Item>
  {
    if flat == [] then []
    else
      var r := flat[|flat| - 1];
      ItemsOf(flat[..|flat| - 1], t) + (if r.category == t then [Item(r.id, r.quantity)] else [])
  }

  /**
   * What grouping means: the `i`-th group holds, in their original order, exactly the items
   * of the records whose category is the `i`-th category. Records of any other category are
   * dropped.
   */
  lemma {:induction false} GroupedItems(flat: seq<Record>, i: int)
    requires 0 <= i < |CardTypes|
    ensures GroupQuantitiesByType(flat)[i] == Group(CardTypes[i], ItemsOf(flat, CardTypes[i]))
  {
    if flat != [] {
      var init := flat[..|flat| - 1];
      var r := flat[|flat| - 1];
      var g0 := GroupQuantitiesByType(init);
      assert GroupQuantitiesByType(flat) == Push(g0, r);
      assert ItemsOf(flat, CardTypes[i]) == ItemsOf(init, CardTypes[i])
        + (if r.category == CardTypes[i] then [Item(r.id, r.quantity)] else []);
      GroupedItems(init, i);
      if Lookup(g0, r.category).Some? && r.category != "" {
        var j :| 0 <= j < |g0| && g0[j].category == r.category;
        LookupWellFormed(g0, j);
        AssignWellFormed(g0, j, Lookup(g0, r.category).value + [Item(r.id, r.quantity)]);
        if i != j {
          CardTypesDiffer(i, j);
        }
      } else {
        assert g0[i].category == CardTypes[i];
      }
    }
  }

  /** The records one group contributes when flattened, each tagged with the group's key. */
  function RecordsOf(category: string, items: seq<Item>): (r: seq<Record>)
    ensures |r| == |items|
  {
    if items == [] then []
    else
      var it := items[|items| - 1];
      RecordsOf(category, items[..|items| - 1]) + [Record(it.id, category, it.quantity)]
  }

  /** `flattenQuantities(grouped)`: the records of every key in key order, each group's items in order. */
  function FlattenQuantities(g: seq<Group>): (flat: seq<Record>)
  {
    if g == [] then []
    else FlattenQuantities(g[..|g| - 1]) + RecordsOf(g[|g| - 1].category, g[|g| - 1].items)
  }

  /** `countTotalCards(grouped)`: the number of items over all keys. */
  function CountTotalCards(g: seq<Group>): (n: nat)
  {
    if g == [] then 0 else CountTotalCards(g[..|g| - 1]) + |g[|g| - 1].items|
  }

  /** Counting the grouped items is counting the flattened records (entries, not copies owned). */
  lemma {:induction false} CountTotalCardsIsFlatLength(g: seq<Group>)
    ensures CountTotalCards(g) == |FlattenQuantities(g)|
  {
    if g != [] {
      CountTotalCardsIsFlatLength(g[..|g| - 1]);
    }
  }

  lemma {:induction false} ItemsOfConcat(a: seq<Record>, b: seq<Record>, t: string)
    ensures ItemsOf(a + b, t) == ItemsOf(a, t) + ItemsOf(b, t)
  {
    if b == [] {
      assert a + b == a;
    } else {
      assert (a + b)[..|a + b| - 1] == a + b[..|b| - 1];
      ItemsOfConcat(a, b[..|b| - 1], t);
    }
  }

  lemma {:induction false} ItemsOfRecords(category: string, items: seq<Item>, t: string)
    ensures ItemsOf(RecordsOf(category, items), t) == if category == t then items else []
  {
    if items != [] {
      var init := items[..|items| - 1];
      var it := items[|items| - 1];
      assert items == init + [it];
      var rec := Record(it.id, category, it.quantity);
      assert RecordsOf(category, items) == RecordsOf(category, init) + [rec];
      ItemsOfConcat(RecordsOf(category, init), [rec], t);
      ItemsOfRecords(category, init, t);
      ItemsOfSingle(rec, t);
    }
  }

  lemma ItemsOfSingle(r: Record, t: string)
    ensures ItemsOf([r], t) == if r.category == t then [Item(r.id, r.quantity)] else []
  {
    assert [r][..0] == [];
  }

  /** Every record appears, as an item, among the items of its own category. */
  lemma {:induction false} ItemsOfHas(flat: seq<Record>, k: int)
    requires 0 <= k < |flat|
    ensures Item(flat[k].id, flat[k].quantity) in ItemsOf(flat, flat[k].category)
  {
    var n := |flat| - 1;
    if k < n {
      assert flat[..n][k] == flat[k];
      ItemsOfHas(flat[..n], k);
    }
  }

  /** A key that no group has gets no items from the flattened records. */
  lemma {:induction false} ItemsOfFlattenOther(g: seq<Group>, t: string)
    requires forall j :: 0 <= j < |g| ==> g[j].category != t
    ensures ItemsOf(FlattenQuantities(g), t) == []
  {
    if g != [] {
      var n := |g| - 1;
      ItemsOfFlattenOther(g[..n], t);
      ItemsOfConcat(FlattenQuantities(g[..n]), RecordsOf(g[n].category, g[n].items), t);
      ItemsOfRecords(g[n].category, g[n].items, t);
    }
  }

  lemma {:induction false} ItemsOfFlattenPrefix(g: seq<Group>, m: nat, i: int)
    requires WellFormed(g) && m <= |g| && 0 <= i < |g|
    ensures ItemsOf(FlattenQuantities(g[..m]), CardTypes[i]) == if i < m then g[i].items else []
  {
    if m > 0 {
      var t := CardTypes[i];
      var last := g[m - 1];
      var front := FlattenQuantities(g[..m - 1]);
      assert g[..m][..m - 1] == g[..m - 1];
      assert FlattenQuantities(g[..m]) == front + RecordsOf(last.category, last.items);
      ItemsOfFlattenPrefix(g, m - 1, i);
      ItemsOfConcat(front, RecordsOf(last.category, last.items), t);
      ItemsOfRecords(last.category, last.items, t);
      if i != m - 1 {
        CardTypesDiffer(i, m - 1);
      }
    }
  }

  /** Grouping what was flattened gives back the grouping: saving then reloading loses nothing. */
  lemma {:induction false} GroupFlattenRoundTrip(g: seq<Group>)
    requires WellFormed(g)
    ensures GroupQuantitiesByType(FlattenQuantities(g)) == g
  {
    var h := GroupQuantitiesByType(FlattenQuantities(g));
    forall i | 0 <= i < |g|
      ensures h[i] == g[i]
    {
      GroupedItems(FlattenQuantities(g), i);
      assert g[..|g|] == g;
      ItemsOfFlattenPrefix(g, |g|, i);
    }
  }

  /** Grouping an empty list gives every category with no items. */
  lemma GroupNothing()
    ensures GroupQuantitiesByType([]) == InitializeEmptyQuantities()
  {
  }
}
