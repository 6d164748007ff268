/** The card categories and the fixed labels the program uses for them. */
module Categories {

  const Pokemon: string := "宝可梦"
  const Supporter: string := "支援者"
  const Item: string := "物品"
  const PokemonTool: string := "宝可梦道具"
  const Stadium: string := "竞技场"
  const BasicEnergy: string := "基本能量"
  const SpecialEnergy: string := "特殊能量"

  /** The seven categories, in the order the category table declares them. */
  const CardTypes: seq<string> := [Pokemon, Supporter, Item, PokemonTool, Stadium, BasicEnergy, SpecialEnergy]

  /** The label used for a card whose category cannot be found. */
  const Unknown: string := "未知"

  predicate IsCardType(t: string)
  {
    t in CardTypes
  }

  /** No category is listed twice. */
  lemma CardTypesDistinct()
    ensures forall i, j :: 0 <= i < j < |CardTypes| ==> CardTypes[i] != CardTypes[j]
  {
  }

  /** No category name contains `_`, the separator of storage keys. */
  lemma CardTypeHasNoUnderscore(t: string)
    requires t in CardTypes
    ensures '_' !in t
  {
  }

  /** Two different positions of the category list hold different categories. */
  lemma CardTypesDiffer(i: int, j: int)
    requires 0 <= i < |CardTypes| && 0 <= j < |CardTypes| && i != j
    ensures CardTypes[i] != CardTypes[j]
  {
    CardTypesDistinct();
  }
}
