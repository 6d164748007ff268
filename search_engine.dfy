/**
 * The search box of the older card app: it runs the catalog search and chooses the status
 * line shown above the results, and it chooses the hint shown in the empty search field.
 */
module SearchEngine {
  import opened Text
  import opened Categories
  import opened Records
  import opened Catalog
  import LegacyCatalog

  /** What `performSearch` returns: the cards found and the status line. */
  datatype SearchResult = SearchResult(cards: seq<Card>, message: string)

  const PokemonHint: string := "搜索宝可梦名字、特性、技能效果..."
  const CardHint: string := "搜索卡牌名字、效果..."

  /** The text typed, in the straight double quotes the status line puts around it. */
  function Quoted(text: string): string
  {
    "\"" + text + "\""
  }

  /**
   * The status line for a search of `text` that found `count` cards on tab `tab`: "show all n"
   * for blank text, "nothing matches" for a search that found nothing, otherwise "found n".
   * Each kind begins with its own character, and every one names the tab.
   */
  function SearchMessage(text: string, count: nat, tab: string): (m: string)
    ensures m != []
    ensures m[0] == '显' <==> AllSpace(text)
    ensures m[0] == '没' <==> !AllSpace(text) && count == 0
    ensures m[0] == '找' <==> !AllSpace(text) && count > 0
    ensures |m| >= |tab| + 2 && m[|m| - |tab| - 2..] == tab + "卡牌"
    ensures !AllSpace(text) ==> Contains(m, Quoted(text))
    ensures AllSpace(text) || count > 0 ==> Contains(m, NatToString(count) + " 张")
  {
    var n := NatToString(count);
    if AllSpace(text) then ShowAllMessage(n, tab)
    else if count == 0 then NoMatchMessage(Quoted(text), tab)
    else FoundMessage(n, Quoted(text), tab)
  }

  /** "显示全部 n 张<tab>卡牌". */
  function ShowAllMessage(n: string, tab: string): (m: string)
    ensures m != [] && m[0] == '显'
    ensures |m| >= |tab| + 2 && m[|m| - |tab| - 2..] == tab + "卡牌"
    ensures Contains(m, n + " 张")
  {
    OccursBetween("显示全部 ", n + " 张", tab + "卡牌");
    EndsWith("显示全部 " + (n + " 张"), tab + "卡牌");
    "显示全部 " + (n + " 张") + (tab + "卡牌")
  }

  /** "的<tab>卡牌": the ending of a message that quotes the search text. */
  function TabEnding(tab: string): (m: string)
    ensures |m| >= |tab| + 2 && m[|m| - |tab| - 2..] == tab + "卡牌"
  {
    EndsWith("的", tab + "卡牌");
    "的" + (tab + "卡牌")
  }

  /** "没有找到匹配<quoted>的<tab>卡牌". */
  function NoMatchMessage(q: string, tab: string): (m: string)
    ensures m != [] && m[0] == '没'
    ensures |m| >= |tab| + 2 && m[|m| - |tab| - 2..] == tab + "卡牌"
    ensures Contains(m, q)
  {
    OccursBetween("没有找到匹配", q, TabEnding(tab));
    EndsAfter("没有找到匹配" + q, TabEnding(tab), tab + "卡牌");
    "没有找到匹配" + q + TabEnding(tab)
  }

  /** "匹配<quoted>的<tab>卡牌": the part of a "found" message after the count. */
  function MatchedPart(q: string, tab: string): (m: string)
    ensures |m| >= |tab| + 2 && m[|m| - |tab| - 2..] == tab + "卡牌"
    ensures Contains(m, q)
  {
    OccursBetween("匹配", q, TabEnding(tab));
    EndsAfter("匹配" + q, TabEnding(tab), tab + "卡牌");
    "匹配" + q + TabEnding(tab)
  }

  /** "找到 n 张匹配<quoted>的<tab>卡牌". */
  function FoundMessage(n: string, q: string, tab: string): (m: string)
    ensures m != [] && m[0] == '找'
    ensures |m| >= |tab| + 2 && m[|m| - |tab| - 2..] == tab + "卡牌"
    ensures Contains(m, n + " 张") && Contains(m, q)
  {
    var front := "找到 " + (n + " 张");
    var rest := MatchedPart(q, tab);
    OccursBetween("找到 ", n + " 张", rest);
    ContainsAfter(front, rest, q);
    EndsAfter(front, rest, tab + "卡牌");
    front + rest
  }

  /** A string built as `before + needle + after` contains `needle` right after `before`. */
  lemma OccursBetween(before: string, needle: string, after: string)
    ensures OccursAt(before + needle + after, needle, |before|)
  {
    var m := before + needle + after;
    assert m[|before|..|before| + |needle|] == needle;
  }

  /** What `rest` contains, `front + rest` contains too. */
  lemma ContainsAfter(front: string, rest: string, needle: string)
    requires Contains(rest, needle)
    ensures Contains(front + rest, needle)
  {
    var i :| 0 <= i <= |rest| && OccursAt(rest, needle, i);
    assert (front + rest)[|front| + i..|front| + i + |needle|] == rest[i..i + |needle|];
    assert OccursAt(front + rest, needle, |front| + i);
  }

  /** `front + suffix` ends with `suffix`. */
  lemma EndsWith(front: string, suffix: string)
    ensures (front + suffix)[|front + suffix| - |suffix|..] == suffix
  {
  }

  /** What `rest` ends with, `front + rest` ends with too. */
  lemma EndsAfter(front: string, rest: string, suffix: string)
    requires |suffix| <= |rest| && rest[|rest| - |suffix|..] == suffix
    ensures (front + rest)[|front + rest| - |suffix|..] == suffix
  {
    assert (front + rest)[|front + rest| - |suffix|..] == rest[|rest| - |suffix|..];
  }

  /** The search field's hint: one for the Pokémon tab and one shared by every other tab. */
  function Placeholder(tab: string): (r: string)
    ensures r == PokemonHint <==> tab == Pokemon
    ensures r == PokemonHint || r == CardHint
  {
    if tab == Pokemon then PokemonHint else CardHint
  }

  /** The hint tells the Pokémon tab from the others and nothing more: two tabs on the same
      side of that test get the same hint, two on different sides different hints. */
  lemma PlaceholderDependsOnlyOnPokemonTab(a: string, b: string)
    ensures Placeholder(a) == Placeholder(b) <==> (a == Pokemon <==> b == Pokemon)
  {
  }

  class SearchEngine {
    const cardManager: LegacyCatalog.LegacyCardManager

    constructor (cardManager: LegacyCatalog.LegacyCardManager)
      ensures this.cardManager == cardManager
    {
      this.cardManager := cardManager;
    }

    /**
     * `performSearch(searchText)`: the cards are exactly what the catalog search returns, and
     * the message is chosen by whether the text is blank and whether anything was found.
     */
    method PerformSearch(text: string, lower: string -> string) returns (res: SearchResult)
      modifies cardManager
      ensures res.cards == cardManager.filteredCards
      ensures AllSpace(text) ==> res.cards == cardManager.cards
      ensures !AllSpace(text) ==> res.cards == FilterCards(cardManager.cards, cardManager.currentTab, lower, Trim(lower(text)))
      ensures res.message == SearchMessage(text, |res.cards|, cardManager.currentTab)
      ensures cardManager.cards == old(cardManager.cards) && cardManager.currentTab == old(cardManager.currentTab)
    {
      var found := cardManager.SearchCards(text, lower);
      res := SearchResult(found, SearchMessage(text, |found|, cardManager.currentTab));
    }

    /** `getSearchPlaceholder()`. */
    function GetSearchPlaceholder(): (r: string)
      reads this, cardManager
      ensures r == PokemonHint <==> cardManager.currentTab == Pokemon
      ensures r == Placeholder(cardManager.currentTab)
    {
      Placeholder(cardManager.currentTab)
    }
  }
}
