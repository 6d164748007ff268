# Card collection and deck builder: a verified model

This project models the data layer of a browser-based trading-card collection tracker. A
second part models the character sheet of a small tabletop-game app that lives in the same
repository.

The trading-card app (`ptcg/`) does four things:

- It loads a catalog of cards for one category at a time (Pokémon, Supporter, Item,
  Pokémon Tool, Stadium, Basic Energy, Special Energy).
- It keeps an owned quantity per card.
- It stores those quantities in `localStorage`, grouped by category.
- It lets the user build decks, which are kept sorted by category and then by name.

The deck editor routes each card click by mode: cover selection, stats, add, edit, and
otherwise the detail view. The card grid draws the displayed cards in batches of 50 and
shows a quantity badge. The detail view navigates cyclically through the displayed cards.

The older root version (`js/`) has its own catalog, storage (overwrite on save, export and
import of quantities), search engine and stats manager. Both versions share the
zero-padded image file name `hk<id padded to 8>.webp`.

The character sheet (`coc/js/character.js`) splits a status text into indicator tokens. It
also formats action-button labels and assigns length classes. Lengths are counted in UTF-16
code units, as JavaScript's `length` counts them, so an emoji counts twice.

## How the model is organised

| file | module | models |
|---|---|---|
| `categories.dfy` | `Categories` | the category list, taken from `js/utils/constants.js` |
| `text.dfy` | `Text` | `String.prototype.trim` and substring search |
| `image_files.dfy` | `ImageFiles` | `generateImageFilename` |
| `records.dfy` | `Records` | card records (a `Card` class, because `quantity` is mutated in place and shared between `cards` and `filteredCards`) and `processCardData` |
| `quantities.dfy` | `Quantities` | grouping and flattening of stored quantities |
| `storage_service.dfy` | `Persistence` | the ptcg `StorageService` |
| `legacy_storage.dfy` | `LegacyPersistence` | the root `StorageService` |
| `card_manager.dfy` | `Catalog` | the ptcg `CardManager` |
| `legacy_card_manager.dfy` | `LegacyCatalog` | the root `CardManager` |
| `decks.dfy` | `Decks` | deck values, the deck sort and the quantity update as functions |
| `deck_manager.dfy` | `DeckStore` | `DeckManager` |
| `deck_editor.dfy` | `Editor` | `DeckEditor` |
| `card_grid.dfy` | `Grid` | `CardGrid` |
| `modal_view.dfy` | `Viewer` | `ModalView` |
| `stats_manager.dfy` | `Stats` | both `StatsManager` classes |
| `search_engine.dfy` | `SearchEngine` | `SearchEngine` |
| `character.dfy` | `Sheet` | the character sheet |

### Modelling choices

- **Storage.** `localStorage` is a field of each storage class. A key holds
  `Missing | Unparsable | Parsed(value)`, and `writesFail` says whether `setItem` throws.
  `JSON.parse` failure is `Unparsable`, or `None` where a method receives parsed input.
- **Abstract operations.** `localeCompare` is a parameter `nameLe` (taken to be a total
  preorder where sortedness is proved). `toLowerCase` is a parameter `lower`.
- **DOM queries.** Queries that decide a mode (`.deck-tabs-container`,
  `.deck-complete-button`, `.search-header` visibility, and so on) are explicit booleans.
- **Display override.** The deck editor reassigns `cardManager.getDisplayCards` at run time.
  The model records this as a `DisplayView` field: the catalog's own rule, the filtered
  list only, or the current deck's entries.
- **Time.** `Date.now()` and event timestamps are parameters.

### Behaviour worth knowing

The model follows the code in each case.

- `setDeckCover` sets the cover to any card ID. It does not check that the card is in the
  deck (ptcg/js/core/DeckManager.js:170-178).
- The deck sort compares category rank and then name. There is no catalog-number key.
- The rank is looked up only among the cards of the currently loaded category. A deck card
  from any other category ranks 999, after every category (ptcg/js/core/DeckManager.js:85-88).
- `ModalView.show(index)` does not range-check `index`. The model treats this as follows:
  - A non-empty list with an out-of-range index reads `card.image` of `undefined`, which
    throws. By then the drag and animation flags have been reset, but before `currentIndex`
    is assigned. The model returns the outcome `Threw`.
  - A valid index opens the view at that index.

## Model

| member | source | states |
|---|---|---|
| Categories.CardTypesDistinct | js/utils/constants.js:2-37 | the seven category names are pairwise distinct, so a category has one rank and one storage group |
| ImageFiles.GenerateImageFilename | ptcg/js/utils/helpers.js:127-130 | the file name starts with `hk` and ends with `.webp`; the padded part has length max(8, \|id\|) (longer IDs are not truncated); it ends with the ID and is preceded only by `0` characters |
| ImageFiles.PadStart | ptcg/js/utils/helpers.js:128 | `padStart(n, c)` leaves a string of length ≥ n unchanged, else returns length n with the string as suffix and `c` in front |
| ImageFiles.FilenameRoundTrip | js/utils/helpers.js:127-130 | for an ID without a leading `0`, stripping `hk`, `.webp` and the leading zeros gives the ID back |
| ImageFiles.FilenameInjective | js/utils/helpers.js:128-129 | two IDs without leading zeros that get the same file name are equal |
| ImageFiles.LeadingZeroCollides | js/utils/helpers.js:128 | the IDs `01` and `1` get the same file name, so injectivity needs the leading-zero condition |
| Text.Trim | js/core/SearchEngine.js:10 | `trim()` neither starts nor ends with whitespace, and is empty exactly when the input is all whitespace |
| Text.TrimIsSlice | js/core/SearchEngine.js:10 | `trim()` returns a contiguous slice of the input with only whitespace cut off at both ends |
| Text.TrimBlank | ptcg/js/core/CardManager.js:205 | `!text.trim()` holds exactly when the text is all whitespace |
| Text.NatToString | js/core/SearchEngine.js:13 | a count is printed as decimal digits with no leading zero |
| Text.NatToStringValue | js/core/SearchEngine.js:13 | the printed digits denote the count |
| Text.NatToStringInjective | js/core/SearchEngine.js:13 | different counts print differently |
| Records.Clamp0 | ptcg/js/core/CardManager.js:197 | `Math.max(0, x)`: the result is ≥ 0, ≥ x, and equals x or 0 |
| Records.FirstIndex | ptcg/js/core/CardManager.js:195 | `find` by ID: the index of the first card with the ID, or none when no card has it |
| Records.CardImage | ptcg/js/core/CardManager.js:166 | a card's image is `images/` followed by the generated file name |
| Records.DisplayName | ptcg/js/core/CardManager.js:163 | the name is the card name if non-empty, else the Pokémon name if non-empty, else `未知` when both are empty; never empty |
| Records.DetailsOf | ptcg/js/core/CardManager.js:169-186 | Pokémon cards, and only they, carry details: the entry's number and attribute when non-empty, else `未知`, and its ability name, ability effect and skills unchanged; other cards carry the entry's effect |
| Records.MakeCard | ptcg/js/core/CardManager.js:160-187 | a record has the given ID and category, the display name, the generated image, the category's details, and the parsed owned count or 0 |
| Records.Present | ptcg/js/core/CardManager.js:158-159 | the truthy IDs of an entry: each is non-empty and from the list, and every non-empty ID of the list is kept |
| Records.PresentAppend | ptcg/js/core/CardManager.js:158-159 | filtering a concatenation filters each part and concatenates, so order and repetitions are kept |
| Records.PresentSingle | ptcg/js/core/CardManager.js:158-159 | a one-ID list keeps its ID exactly when the ID is non-empty |
| Records.EntryCardsAt | ptcg/js/core/CardManager.js:158-188 | the k-th record of an entry is built from the entry and its k-th truthy ID |
| Records.ProcessedCardsShape | ptcg/js/core/CardManager.js:155-188 | every processed record has a truthy ID from the source in source order, the requested category and the generated image path |
| Records.ProcessCardData | ptcg/js/core/CardManager.js:152-191 | the push loop creates fresh, distinct card objects whose values are exactly `ProcessedCards(entries, category)` |
| Records.Instantiate | js/core/CardManager.js:46-85 | the records become fresh, distinct card objects carrying exactly those values |
| Quantities.InitializeEmptyQuantities | ptcg/js/core/CardManager.js:447-454 | one group per category, in category order, each empty |
| Quantities.Lookup | ptcg/js/core/StorageService.js:260 | `grouped[type]`: none exactly when no group has that category |
| Quantities.Assign | ptcg/js/core/StorageService.js:21 | `all[type] = items`: afterwards the category's lookup yields exactly `items` |
| Quantities.LookupWellFormed | ptcg/js/core/StorageService.js:247-253 | in a well-formed map, the i-th category's lookup yields the i-th group |
| Quantities.AssignWellFormed | ptcg/js/core/StorageService.js:21 | in a well-formed map, assigning a known category replaces that group in place |
| Quantities.GroupQuantitiesByType | ptcg/js/core/StorageService.js:256-269 | grouping always yields every category key, in category order |
| Quantities.PushKeepsShape | ptcg/js/core/CardManager.js:435-441 | adding one record keeps the map well-formed |
| Quantities.GroupedItems | ptcg/js/core/CardManager.js:431-444 | the i-th group holds exactly the flat records of the i-th category, in their order, as {id, quantity}; records of unknown categories are dropped |
| Quantities.GroupNothing | ptcg/js/core/StorageService.js:233-253 | grouping no records gives the empty map |
| Quantities.RecordsOf | ptcg/js/core/StorageService.js:275-281 | one flat record per item of a group |
| Quantities.CountTotalCardsIsFlatLength | ptcg/js/core/StorageService.js:287-293 | `countTotalCards` counts entries across categories (the flat length), not the sum of quantities |
| Quantities.GroupFlattenRoundTrip | ptcg/js/core/StorageService.js:256-284 | for a map keyed by the known categories, grouping the flattened records gives the same map |
| Persistence.LastMember | ptcg/js/core/StorageService.js:162-169 | a parsed object member is the last one with that key, or absent when no member has it |
| Persistence.ValidateImportData | ptcg/js/core/StorageService.js:162-169 | accepted iff the data is an object, `version` is the string `"1.0"`, `cards` is an object (arrays count, as `typeof` says) and `decks` is an array |
| Persistence.ValidateAcceptsArrayCards | ptcg/js/core/StorageService.js:166 | a file whose `cards` is an array is accepted |
| Persistence.ValidateRefusesNumericVersion | ptcg/js/core/StorageService.js:164 | the number 1 is not the version `"1.0"` |
| Persistence.QuantityKey | ptcg/js/core/StorageService.js:51 | the key is the category, `_`, then the ID |
| Persistence.StoredQuantityIsLast | ptcg/js/core/StorageService.js:48-53 | the quantity stored under a key is that of the last record with the key |
| Persistence.StoredQuantityNone | ptcg/js/core/StorageService.js:48-53 | no quantity is stored under a key exactly when no record has the key |
| Persistence.Overlaid | ptcg/js/core/StorageService.js:55-59 | a stored quantity replaces the card's; otherwise the card keeps its own |
| Persistence.OverlayStoredQuantities | ptcg/js/core/StorageService.js:55-60 | every card, in place, gets the stored quantity for (category, ID) when there is one, and keeps its own otherwise |
| Persistence.QuantityItems | ptcg/js/core/StorageService.js:14-17 | one {id, quantity} item per card, in order |
| Persistence.Positive | ptcg/js/core/StorageService.js:18 | the items with quantity > 0, and all of them |
| Persistence.AllCardQuantities | ptcg/js/core/StorageService.js:233-244 | the stored records grouped by category; every category empty when storage is missing or unparsable |
| Persistence.GroupedAll | ptcg/js/core/StorageService.js:256-269 | each category's group holds the stored records of that category |
| Persistence.MergedKnownCategory | ptcg/js/core/StorageService.js:13-28 | saving one category replaces that category's group by its positive items and leaves every other category unchanged |
| Persistence.MergedUnknownCategory | ptcg/js/core/StorageService.js:20-24 | saving under a tab that is not a category stores extra records that every later read ignores |
| Persistence.SavedGroupKept | ptcg/js/core/StorageService.js:20-24 | after such a save, each known category still reads back its old group |
| Persistence.ExtraRecordsIgnored | ptcg/js/core/StorageService.js:260-266 | records of an unknown category never reach any group |
| Persistence.ClearedReadsEmpty | ptcg/js/core/StorageService.js:327-330 | after clearing, and equally when storage is missing or unparsable, every category reads empty |
| Persistence.SavedZeroIsNotRestored | ptcg/js/core/StorageService.js:18 | in any well-formed store, saving a category whose items hold no positive count for a card leaves no record for that card, so a later load keeps whatever quantity it had in memory |
| Persistence.KeysDiffer | ptcg/js/core/StorageService.js:51-55 | storage keys `category_id` built from categories without `_` differ when the category or the ID differs |
| Persistence.StorageService.constructor | ptcg/js/core/StorageService.js:5-7 | the stores start as given |
| Persistence.StorageService.SaveCardQuantities | ptcg/js/core/StorageService.js:10-39 | on success (true) the store becomes the merge of the old groups with the current category's positive quantities; when the write throws, false and nothing changes |
| Persistence.StorageService.LoadCardQuantities | ptcg/js/core/StorageService.js:42-66 | each card takes its stored (category, ID) quantity; other cards, and all cards when storage is missing or unparsable, keep theirs |
| Persistence.StorageService.SaveCardQuantitiesForImport | ptcg/js/core/StorageService.js:333-358 | stores only the positive items of one category, returns their count, and leaves the other categories as they were; a failed write returns 0 |
| Persistence.StorageService.ClearAllQuantities | ptcg/js/core/StorageService.js:327-330 | the quantity store becomes empty, the deck store is unchanged |
| Persistence.StorageService.SaveDecks | ptcg/js/core/StorageService.js:304-313 | on success the deck store holds exactly the decks; a failed write changes nothing |
| Persistence.StorageService.LoadDecks | ptcg/js/core/StorageService.js:316-324 | the stored decks when parsable, otherwise null |
| LegacyPersistence.AllRecords | js/core/StorageService.js:12-17 | one record per card, tagged with the current tab, zero quantities included |
| LegacyPersistence.ExportPayload | js/core/StorageService.js:61-67 | the export holds only positive quantities, all tagged with the current tab, and no more records than cards |
| LegacyPersistence.PositiveIndices | js/core/StorageService.js:62 | the positions of the cards with a positive quantity, increasing, and every such position |
| LegacyPersistence.ExportPayloadIndices | js/core/StorageService.js:61-67 | the k-th exported record is (ID, tab, quantity) of the k-th card with a positive quantity, so every owned card is exported once, in order |
| LegacyPersistence.ImportedQuantity | js/core/StorageService.js:100-104 | a card's imported quantity comes from an item with a truthy ID and a numeric quantity |
| LegacyPersistence.ImportedQuantityIsLast | js/core/StorageService.js:100-104 | the imported quantity is that of the last valid item for the ID |
| LegacyPersistence.ImportedQuantityNone | js/core/StorageService.js:100-104 | nothing is imported for an ID exactly when it is empty or no valid item names it |
| LegacyPersistence.Matched | js/core/StorageService.js:106-111 | the matched count never exceeds the number of cards |
| LegacyPersistence.AsImportItems | js/core/StorageService.js:97-102 | an exported file read back is one item per exported record, with its numeric quantity |
| LegacyPersistence.SaveLoadRoundTrip | js/core/StorageService.js:10-57 | saving the cards of a tab and loading that tab restores every card's quantity, when card IDs are distinct |
| LegacyPersistence.NotExported | js/core/StorageService.js:61-67 | a card ID not among the exported cards is absent from the import map |
| LegacyPersistence.LastExported | js/core/StorageService.js:61-67 | the last card, with an ID not repeated, is imported with its quantity if positive, else absent |
| LegacyPersistence.ExportedQuantity | js/core/StorageService.js:61-67 | a card with a unique truthy ID re-imports as its quantity when positive and as absent otherwise |
| LegacyPersistence.ExportImportRoundTrip | js/core/StorageService.js:60-117 | exporting and importing restores every card's non-negative quantity: positive ones are imported, zero ones fall back to 0 |
| LegacyPersistence.LegacyStorageService.constructor | js/core/StorageService.js:5-7 | the store starts as given |
| LegacyPersistence.LegacyStorageService.SaveCardQuantities | js/core/StorageService.js:10-30 | on success the whole store is replaced by one record per card of the current tab; a failed write returns false and changes nothing |
| LegacyPersistence.LegacyStorageService.LoadCardQuantities | js/core/StorageService.js:33-57 | a card takes the stored quantity of its (type, ID) key; all others, and every card when storage is missing or unparsable, keep theirs |
| LegacyPersistence.LegacyStorageService.ImportData | js/core/StorageService.js:85-117 | each card whose ID appears gets the imported quantity, unclamped; every other card gets 0; the matched count is reported; unparsable input changes nothing |
| Catalog.GenerateDefaultImage | ptcg/js/core/CardManager.js:113-116 | the default image is the card's generated image path |
| Catalog.BaseCardsOf | ptcg/js/core/CardManager.js:62-69 | one {name, image, type} entry per record, keyed by its ID |
| Catalog.ExtractBaseCardInfo | ptcg/js/core/CardManager.js:55-75 | the loop yields the base info of exactly the records `processCardData` would create, in the same order |
| Catalog.EntryBaseCards | ptcg/js/core/CardManager.js:58-72 | the inner loop yields the base info of one entry's records |
| Catalog.ExtractedShape | ptcg/js/core/CardManager.js:55-75 | each extracted entry has a truthy source ID, the category and the default image |
| Catalog.CacheIndex | ptcg/js/core/CardManager.js:88 | `find` in the cache: the first entry with the ID, or none |
| Catalog.BaseInfoPrecedence | ptcg/js/core/CardManager.js:77-110 | the first loaded card with the ID answers; failing that the first cached entry; failing both the default `卡牌 <id>` of type `未知` |
| Catalog.BaseInfoImage | ptcg/js/core/CardManager.js:77-116 | whichever source answers, the image is the padded default path |
| Catalog.CacheAgreesWithCards | ptcg/js/core/CardManager.js:20-110 | a cache built from the same entries answers exactly as the loaded cards would |
| Catalog.Loaded | ptcg/js/core/CardManager.js:135-136 | loading keeps order and count; each record takes its stored quantity when storage parses and has one |
| Catalog.SkillTexts | ptcg/js/core/CardManager.js:217-228 | each skill contributes its name followed by its effect, skill by skill in order |
| Catalog.SearchFields | ptcg/js/core/CardManager.js:213-231 | the card name is always searched first |
| Catalog.FilterCards | ptcg/js/core/CardManager.js:211-240 | the filter never adds cards |
| Catalog.KeptPositions | ptcg/js/core/CardManager.js:212 | the filtered cards sit at increasing positions of the input |
| Catalog.SearchKeepsOrder | ptcg/js/core/CardManager.js:211-240 | the search result is an order-preserving subsequence of the cards |
| Catalog.SearchMembers | ptcg/js/core/CardManager.js:211-240 | a card is in the result iff it is in the list and one of its fields, lower-cased, contains the query |
| Catalog.SearchIdempotent | ptcg/js/core/CardManager.js:211-240 | filtering an already filtered list with the same query changes nothing |
| Catalog.DeckItem | ptcg/js/features/DeckEditor.js:1060-1068 | a deck entry shown as a card keeps its ID and deck quantity; name and image come from the first loaded card with that ID when non-empty, else from the entry; the category comes from that card when non-empty, else `未知` |
| Catalog.DeckItems | ptcg/js/features/DeckEditor.js:289-299 | one displayed card per deck entry, in order, each with its ID and deck quantity |
| Catalog.DeckItemsTotal | ptcg/js/features/DeckEditor.js:289-301 | the displayed deck shows as many copies in all as the deck's entries count |
| Catalog.CardManager.constructor | ptcg/js/core/CardManager.js:8-17 | no cards, no filter, the Pokémon tab, the all-cards flag set, no cache |
| Catalog.CardManager.PreloadAllCardBaseInfo | ptcg/js/core/CardManager.js:20-52 | a cache once built is returned unchanged; otherwise it is built from every category's fetched entries; the card lists are untouched |
| Catalog.CardManager.GetCardBaseInfo | ptcg/js/core/CardManager.js:77-110 | answers by the loaded-cards, cache, default precedence |
| Catalog.CardManager.UpdateCardQuantity | ptcg/js/core/CardManager.js:194-201 | the first card with the ID gets and returns max(0, old + change); an unknown ID returns 0; no other card changes |
| Catalog.CardManager.SearchCards | ptcg/js/core/CardManager.js:204-241 | blank text shows all cards and sets the all-cards flag; other text filters by the trimmed, lower-cased query and clears it |
| Catalog.CardManager.ShowAllCards | ptcg/js/core/CardManager.js:244-248 | the filter becomes all cards and the all-cards flag is set |
| Catalog.CardManager.GetDisplayCards | ptcg/js/core/CardManager.js:251-253 | the filtered cards if non-empty, else all cards; under the editor's overrides, the filtered list, or in the deck view exactly the deck entries mapped through `DeckItem` |
| Catalog.CardManager.LoadCardData | ptcg/js/core/CardManager.js:119-149 | fails for an unknown category or a failed fetch and changes nothing; otherwise cards and filter become the processed records with stored quantities, and the tab is set |
| Catalog.CardManager.SaveData | ptcg/js/core/CardManager.js:266-268 | the store becomes the merge of the current tab's card quantities |
| Catalog.LoadQuantitiesInto | ptcg/js/core/CardManager.js:135-136 | the fresh cards take their stored quantities in place |
| Catalog.Preloaded | ptcg/js/core/CardManager.js:26-45 | the cache holds the base info of every category with a fetched list, in category order |
| LegacyCatalog.LegacyCardManager.constructor | js/core/CardManager.js:5-10 | no cards, no filter, the Pokémon tab |
| LegacyCatalog.LegacyCardManager.LoadCardData | js/core/CardManager.js:13-43 | an unknown type fails before any load and changes nothing; otherwise cards and filter hold the processed list with stored quantities, and the tab is set |
| LegacyCatalog.LegacyCardManager.UpdateCardQuantity | js/core/CardManager.js:88-95 | the first card with the ID gets max(0, old + change), returned; an unknown ID returns 0 and changes nothing |
| LegacyCatalog.LegacyCardManager.SearchCards | js/core/CardManager.js:98-133 | blank text shows all cards; other text gives the order-preserving case-insensitive substring filter |
| LegacyCatalog.LegacyCardManager.GetDisplayCards | js/core/CardManager.js:136-138 | the filtered cards if non-empty, else all cards |
| LegacyCatalog.LegacyCardManager.SaveData | js/core/CardManager.js:151-153 | the store becomes one record per card of the current tab |
| LegacyCatalog.LegacyLoadInto | js/core/CardManager.js:29-30 | the fresh cards take their stored quantities in place |
| Decks.NewDeck | ptcg/js/core/DeckManager.js:29-54 | a new deck is named `新卡组`, has no cards, total 0 and no cover |
| Decks.TypeOrder | ptcg/js/core/DeckManager.js:72-82 | a category ranks by its position in the category list, from 1; anything else ranks 999 |
| Decks.CardTypeOf | ptcg/js/core/DeckManager.js:85-88 | a card's category comes from a loaded card with that ID; otherwise it is `未知` |
| Decks.BeforeTransitive | ptcg/js/core/DeckManager.js:96-111 | the comparator (rank, then name) is transitive when name comparison is a total preorder |
| Decks.DeckOrderStrict | ptcg/js/core/DeckManager.js:96-111 | the comparator is a strict order |
| Decks.Insert | ptcg/js/core/DeckManager.js:95-112 | inserting keeps the entries as a multiset plus the new one, and adds its quantity to the sum |
| Decks.SortBy | ptcg/js/core/DeckManager.js:95-112 | sorting is a permutation and keeps the quantity sum |
| Decks.SortDeckCards | ptcg/js/core/DeckManager.js:91-112 | the deck sort is a permutation with the same total |
| Decks.InsertSorted | ptcg/js/core/DeckManager.js:95 | inserting into a sorted list keeps it sorted |
| Decks.SortBySorted | ptcg/js/core/DeckManager.js:95 | the result of the sort is sorted under any strict order |
| Decks.SortedDeck | ptcg/js/core/DeckManager.js:91-112 | after sorting, entries are ordered by category rank (unknown 999) and then by name |
| Decks.EntryIndex | ptcg/js/core/DeckManager.js:128 | the index of the first entry with the ID, or none exactly when no entry has it |
| Decks.Without | ptcg/js/core/DeckManager.js:135-137 | removal keeps exactly the other entries |
| Decks.ApplyChange | ptcg/js/core/DeckManager.js:116-167 | the total is the sum of the resulting entries; ID, name and cover are unchanged |
| Decks.QuantityOfInsert | ptcg/js/core/DeckManager.js:160 | insertion adds the inserted entry's count for its ID |
| Decks.QuantityOfSorted | ptcg/js/core/DeckManager.js:160 | sorting leaves each card's count unchanged |
| Decks.QuantityOfAbsent | ptcg/js/core/DeckManager.js:128 | a card with no entry counts 0 |
| Decks.QuantityOfWithout | ptcg/js/core/DeckManager.js:135-137 | removing an ID's entries zeroes its count and keeps the others |
| Decks.QuantityOfUnique | ptcg/js/core/DeckManager.js:128-133 | with unique IDs, an entry's count is the card's count |
| Decks.ChangedCountsPresent | ptcg/js/core/DeckManager.js:130-138 | an existing entry's count becomes max(0, old + change) (removed at 0); others unchanged |
| Decks.ChangedCountsAbsent | ptcg/js/core/DeckManager.js:139-154 | an absent card is appended with count `change` only when change > 0 and it is a loaded card; otherwise nothing changes |
| Decks.ChangedCounts | ptcg/js/core/DeckManager.js:127-154 | after the change, the card's count is `NewCount`, every other card's count is unchanged |
| Decks.ApplyChangeCounts | ptcg/js/core/DeckManager.js:116-167 | the same holds for the recounted and sorted deck |
| Decks.HasIdInsert | ptcg/js/core/DeckManager.js:160 | insertion keeps the IDs present and adds the new one |
| Decks.InsertUnique | ptcg/js/core/DeckManager.js:160 | inserting a new ID keeps IDs unique |
| Decks.HasIdSorted | ptcg/js/core/DeckManager.js:160 | sorting keeps the set of IDs |
| Decks.SortedUnique | ptcg/js/core/DeckManager.js:160 | sorting keeps IDs unique |
| Decks.SortedPositive | ptcg/js/core/DeckManager.js:160 | sorting keeps all counts positive |
| Decks.WithoutUnique | ptcg/js/core/DeckManager.js:135-137 | removal keeps IDs unique |
| Decks.ApplyChangeKeepsValid | ptcg/js/core/DeckManager.js:116-167 | after an update no entry has count ≤ 0, IDs stay unique, the total is the sum of counts, and, when the name order is a total preorder, the entries are sorted |
| Decks.ApplyChangeEntry | ptcg/js/core/DeckManager.js:128-154 | the card has an entry afterwards iff its new count is positive, and that entry carries the new count |
| DeckStore.NameOrDefault | ptcg/js/core/DeckManager.js:185 | an empty name becomes `新卡组`; any other name is kept |
| DeckStore.ResultOf | ptcg/js/core/DeckManager.js:164-166 | the result is the card's entry, found in the deck, or absent exactly when the card has no entry |
| DeckStore.UpdateOutcome | ptcg/js/core/DeckManager.js:116-167 | the updated deck is valid, and the result is an entry iff the new count is positive, carrying that count |
| DeckStore.DeckManager.constructor | ptcg/js/core/DeckManager.js:3-10 | no decks, index 0, both flags false |
| DeckStore.DeckManager.SaveDecks | ptcg/js/core/DeckManager.js:192-194 | the deck store holds the current decks unless the write fails |
| DeckStore.DeckManager.Init | ptcg/js/core/DeckManager.js:13-26 | afterwards the decks are non-empty: non-empty saved decks are used, otherwise a default deck is created and saved |
| DeckStore.DeckManager.CreateDefaultDeck | ptcg/js/core/DeckManager.js:29-39 | the decks become one new default deck, which is saved |
| DeckStore.DeckManager.CreateNewDeck | ptcg/js/core/DeckManager.js:42-54 | a valid empty deck is prepended before the old decks in order, becomes current (index 0) and is saved |
| DeckStore.DeckManager.CurrentDeck | ptcg/js/core/DeckManager.js:57-59 | the deck at the current index, or null when the index is out of range |
| DeckStore.DeckManager.SwitchDeck | ptcg/js/core/DeckManager.js:62-68 | true and the index set iff 0 ≤ i < \|decks\|; otherwise false and nothing changes |
| DeckStore.DeckManager.UpdateCardQuantity | ptcg/js/core/DeckManager.js:116-167 | with no current deck, null and nothing changes; otherwise only the current deck is replaced by `ApplyChange`, it is saved, and the card's entry or absent is returned |
| DeckStore.DeckManager.SetDeckCover | ptcg/js/core/DeckManager.js:170-178 | false only without a current deck; otherwise the cover becomes the ID, unchecked, and the decks are saved |
| DeckStore.DeckManager.UpdateDeckName | ptcg/js/core/DeckManager.js:181-189 | false only without a current deck; otherwise the name becomes the given name or `新卡组`, and the decks are saved |
| DeckStore.DeckManager.ImportDecks | ptcg/js/core/DeckManager.js:202-215 | parsed decks replace all decks, the index resets to 0 and they are saved; a parse failure returns false and changes nothing |
| DeckStore.DeckManager.GetDeckDisplayCards | ptcg/js/core/DeckManager.js:218-221 | the current deck's entries, or none without a current deck |
| DeckStore.DeckManager.SetEditingMode | ptcg/js/core/DeckManager.js:224-229 | sets the editing flag; leaving editing also clears cover selection |
| DeckStore.DeckManager.SetSelectingCoverMode | ptcg/js/core/DeckManager.js:232-234 | sets the cover-selection flag only |
| Editor.Delta | ptcg/js/features/DeckEditor.js:396-402 | a left click adds one, a right click removes one |
| Editor.RouteClick | ptcg/js/features/DeckEditor.js:311-431 | routing priority: cover selection, then stats (only outside deck mode), then add, then edit, then the detail view; each route is taken exactly under its condition |
| Editor.StatsIgnoredInDeckMode | ptcg/js/features/DeckEditor.js:363 | in deck mode the stats flag never affects routing |
| Editor.ShouldRerender | ptcg/js/features/DeckEditor.js:573-591 | re-render exactly when 0 becomes 1 or a positive count becomes 0 |
| Editor.NoRerenderBetweenPositiveCounts | ptcg/js/features/DeckEditor.js:573-591 | changes between positive counts never re-render |
| Editor.ButtonsFor | ptcg/js/features/DeckEditor.js:911-918 | add-mode buttons when in add mode, else edit-mode buttons when editing, else deck-mode buttons |
| Editor.AddBadgeShowsCount | ptcg/js/features/DeckEditor.js:451-463 | after adding, the badge shows the card's new deck count; when the card was not added the badge shows 1 for a positive change and nothing otherwise |
| Editor.RerenderExactlyOnRemoval | ptcg/js/features/DeckEditor.js:537-570 | for a displayed deck entry, the edit view re-renders exactly when the change removes the card |
| Editor.DeckEditor.constructor | ptcg/js/features/DeckEditor.js:3-22 | not in add mode, nothing saved, no buttons |
| Editor.DeckEditor.RenderCurrentDeck | ptcg/js/features/DeckEditor.js:281-307 | outside add mode the display is overridden to the current deck's entries, keeping the catalog's own rule for later restore |
| Editor.DeckEditor.EnterDeckMode | ptcg/js/features/DeckEditor.js:89-125 | saves the catalog's filter, tab and display rule, puts up the deck-mode buttons (search and edit), then shows the current deck |
| Editor.DeckEditor.ForceRefreshButtons | ptcg/js/features/DeckEditor.js:905-926 | the button set follows the add-then-edit-then-deck rule |
| Editor.DeckEditor.EnterEditMode | ptcg/js/features/DeckEditor.js:615-629 | sets the editing flag and shows the matching buttons; decks are untouched |
| Editor.DeckEditor.EnterAddMode | ptcg/js/features/DeckEditor.js:880-902 | sets add mode, shows all cards through the filtered-only display, add-mode buttons |
| Editor.DeckEditor.EnterCoverSelectionMode | ptcg/js/features/DeckEditor.js:697-733 | sets cover selection and add mode, saves the filter and display rule, and shows all cards |
| Editor.DeckEditor.EnterAddModeForCover | ptcg/js/features/DeckEditor.js:770-777 | sets add mode and shows all cards |
| Editor.DeckEditor.CancelCoverSelection | ptcg/js/features/DeckEditor.js:746-767 | clears cover selection and add mode, restores the display rule, and shows the deck again; editing is kept |
| Editor.DeckEditor.ExitAddMode | ptcg/js/features/DeckEditor.js:988-1021 | clears add mode and cover selection but keeps editing; restores the saved filter; edit-mode buttons; shows the deck |
| Editor.DeckEditor.ExitEditMode | ptcg/js/features/DeckEditor.js:1024-1073 | clears all three flags, deck-mode buttons, and the filter becomes the deck's entries with their deck quantities |
| Editor.DeckEditor.ClickNewDeck | ptcg/js/features/DeckEditor.js:207-213 | ignored while editing; otherwise a new deck is prepended and shown |
| Editor.DeckEditor.ClickDeckTab | ptcg/js/features/DeckEditor.js:268-274 | ignored while editing; otherwise switches to an in-range deck and shows it |
| Editor.DeckEditor.SelectCover | ptcg/js/features/DeckEditor.js:333-360 | a valid index sets the cover to that displayed card and clears cover selection and add mode; an out-of-range index changes nothing |
| Editor.DeckEditor.AdjustOwned | ptcg/js/features/DeckEditor.js:363-390 | in stats mode a displayed card's owned quantity is clamped-adjusted; out of range nothing changes |
| Editor.DeckEditor.AddCardToDeck | ptcg/js/features/DeckEditor.js:435-471 | an out-of-range index is a no-op; otherwise the current deck gets the change and the badge follows the result |
| Editor.DeckEditor.RefreshAfterChange | ptcg/js/features/DeckEditor.js:550-569 | re-renders when the re-render rule says so or the entry is gone; otherwise the deck view keeps showing the deck's entries |
| Editor.DeckEditor.HandleQuantityChange | ptcg/js/features/DeckEditor.js:537-570 | an out-of-range index is a no-op; otherwise the deck gets the change and the view re-renders exactly per the rule |
| Editor.DeckEditor.ShowDetail | ptcg/js/features/DeckEditor.js:1284-1305 | the detail view is suppressed whenever add mode, editing or cover selection is set; otherwise the viewer's own guards apply |
| Editor.DeckEditor.HandleCardClick | ptcg/js/features/DeckEditor.js:311-431 | the click takes the route `RouteClick` gives and performs that route's action |
| Grid.DeckQuantity | ptcg/js/ui/CardGrid.js:140-142 | the deck entry's quantity for the card, or 0 when the deck has none |
| Grid.CardBadge | ptcg/js/ui/CardGrid.js:137-162 | in deck view the badge shows iff the deck count > 1; in add view iff the deck count > 0; otherwise iff the owned count > 0 |
| Grid.UpdatedBadge | ptcg/js/ui/CardGrid.js:444-450 | the update rule: shown iff count > 1 in deck view, else iff count > 0 |
| Grid.CardBadgeFollowsUpdateRule | ptcg/js/ui/CardGrid.js:137-162 | the badge drawn at creation equals the update rule applied to the displayed count |
| Grid.ButtonOf | ptcg/js/ui/CardGrid.js:197 | `contextmenu` maps to right, every other event to left |
| Grid.CardGrid.constructor | ptcg/js/ui/CardGrid.js:3-28 | no batches, nothing rendered, touch state cleared |
| Grid.CardGrid.AppendElements | ptcg/js/ui/CardGrid.js:80-88 | the loop appends the elements for the batch range, in order, keeping those already on the page |
| Grid.CardGrid.LoadNextBatch | ptcg/js/ui/CardGrid.js:67-107 | a no-op while loading or when batches·50 ≥ n; otherwise the next ≤ 50 cards are appended, the trigger exists iff cards remain, and the page stays consistent |
| Grid.CardGrid.Render | ptcg/js/ui/CardGrid.js:43-63 | the page restarts and holds the first batch; indices [0, min(50k, n)) are rendered once each |
| Grid.CardGrid.UpdateCardQuantityDisplay | ptcg/js/ui/CardGrid.js:426-466 | every element of the card gets the update-rule badge; all others are unchanged |
| Grid.CardGrid.TouchStart | ptcg/js/ui/CardGrid.js:372-391 | a touch within 300 ms of the last end is ignored; otherwise the touch is recorded and arms a two-finger decrement |
| Grid.CardGrid.TouchEnd | ptcg/js/ui/CardGrid.js:394-417 | a two-finger touch ending within 500 ms fires one −1 change, at most once |
| Grid.CardGrid.TouchCancel | ptcg/js/ui/CardGrid.js:420-423 | disarms the two-finger decrement |
| Viewer.Step | ptcg/js/ui/ModalView.js:278-282 | the next index always lies in [0, n) |
| Viewer.StepIsCyclic | ptcg/js/ui/ModalView.js:278-282 | a ±1 step is (i ± 1) mod n, wrapping n−1 to 0 and 0 to n−1 |
| Viewer.StepBackUndoesStep | ptcg/js/ui/ModalView.js:272-289 | stepping forward then back, or back then forward, returns to the start |
| Viewer.NeighboursAreSteps | ptcg/js/ui/ModalView.js:296-297 | the preloaded previous and next indices are the cyclic neighbours |
| Viewer.SwipeDirection | ptcg/js/ui/ModalView.js:205-209 | a swipe fires only when the real offset has \|dx\| > 80; a right drag gives −1, a left drag +1 |
| Viewer.FractionalDragTurns | ptcg/js/ui/ModalView.js:201-205 | a fractional drag of 80.5 px to the right turns to the previous card |
| Viewer.ModalView.constructor | ptcg/js/ui/ModalView.js:2-30 | index 0, no drag, no animation, closed |
| Viewer.ModalView.TriggerSwipe | ptcg/js/ui/ModalView.js:67-86 | nothing while animating or on an empty list; otherwise animation starts and a timer for the wrapped target index joins the queue of pending timers |
| Viewer.ModalView.CompleteSwipe | ptcg/js/ui/ModalView.js:99-138 | the oldest pending timer fires: the index becomes its target, the animating flag is cleared, and later timers stay queued |
| Viewer.ModalView.NavigateCard | ptcg/js/ui/ModalView.js:272-283 | nothing while animating or on an empty list; otherwise the index moves cyclically within [0, n) |
| Viewer.ModalView.TouchStart | ptcg/js/ui/ModalView.js:145-160 | starts a drag at the (fractional) x unless animating |
| Viewer.ModalView.TouchMove | ptcg/js/ui/ModalView.js:162-168 | while dragging and not animating, the real offset is x minus the start |
| Viewer.ModalView.TouchEnd | ptcg/js/ui/ModalView.js:193-218 | ends the drag and resets the offset to 0; a real offset beyond 80 either way queues a swipe in its direction |
| Viewer.ModalView.Show | ptcg/js/ui/ModalView.js:222-260 | prevented in deck add/edit views, returns on an empty list, throws on an out-of-range index, otherwise opens at the index |
| Viewer.ModalView.Close | ptcg/js/ui/ModalView.js:266-269 | closes the view; the index is kept |
| Viewer.ModalView.AdjacentIndices | ptcg/js/ui/ModalView.js:292-297 | none on an empty list; otherwise the cyclic previous and next of the current index |
| Stats.ButtonLabel | js/ui/StatsManager.js:26-31 | the button reads `完成` exactly in stats mode and `统计` otherwise |
| Stats.StatsManager.constructor | ptcg/js/ui/StatsManager.js:2-6 | stats mode starts off |
| Stats.StatsManager.ToggleStatMode | ptcg/js/ui/StatsManager.js:21-31 | the flag is negated; the data are saved exactly when turning stats mode off |
| Stats.StatsManager.UpdateCardQuantity | ptcg/js/ui/StatsManager.js:34-47 | out of range, nothing is returned or changed; otherwise the displayed card's ID and its clamped catalog quantity |
| Stats.StatsManager.IsStatModeActive | ptcg/js/ui/StatsManager.js:50-52 | reports the flag |
| Stats.LegacyStatsManager.constructor | js/ui/StatsManager.js:2-8 | stats mode starts off |
| Stats.LegacyStatsManager.ToggleStatMode | js/ui/StatsManager.js:22-43 | the flag is negated, the label follows it, and the data are saved exactly on the on-to-off transition |
| Stats.LegacyStatsManager.UpdateCardQuantity | js/ui/StatsManager.js:46-60 | out of range, nothing is returned or changed; otherwise {cardId, clamped quantity} |
| Stats.LegacyStatsManager.IsStatModeActive | js/ui/StatsManager.js:63-65 | reports the flag |
| SearchEngine.SearchMessage | js/core/SearchEngine.js:10-26 | blank text gives the show-all message with the count; otherwise no results give not-found and results give found-with-count; the quoted text and the tab appear |
| SearchEngine.Placeholder | js/core/SearchEngine.js:31-38 | the Pokémon hint exactly under the Pokémon tab, otherwise the card hint |
| SearchEngine.PlaceholderDependsOnlyOnPokemonTab | js/core/SearchEngine.js:31-38 | two tabs get the same hint iff both or neither are the Pokémon tab |
| SearchEngine.SearchEngine.constructor | js/core/SearchEngine.js:2-4 | holds the catalog |
| SearchEngine.SearchEngine.PerformSearch | js/core/SearchEngine.js:7-28 | the cards are exactly the catalog's search result; the message is chosen by blankness and result count |
| SearchEngine.SearchEngine.GetSearchPlaceholder | js/core/SearchEngine.js:31-38 | the hint for the catalog's current tab |
| Sheet.NameIsLong | coc/js/character.js:135-139 | the name gets class `long` iff its `length`, in UTF-16 code units, is over 6 |
| Sheet.FourEmojiNameIsLong | coc/js/character.js:135 | a name of four emoji is long, since each emoji is two code units |
| Sheet.RunLength | coc/js/character.js:171 | the first token runs up to the first separator |
| Sheet.Words | coc/js/character.js:171 | the split yields non-empty tokens free of separators |
| Sheet.WordsKeepLetters | coc/js/character.js:171 | the tokens, concatenated, are the text with the separators removed |
| Sheet.WordsOfClean | coc/js/character.js:171 | a text without separators is one token |
| Sheet.WordsSplitAtSeparator | coc/js/character.js:171 | a separator splits the tokens into those before and those after it |
| Sheet.DropNormal | coc/js/character.js:171 | exactly the tokens other than `正常` are kept |
| Sheet.StatusTokens | coc/js/character.js:171 | each status token is non-empty, not `正常`, and free of separators |
| Sheet.StatusTokensSplit | coc/js/character.js:171 | the status tokens of text around a separator are those of each side, in order |
| Sheet.Indicators | coc/js/character.js:162-184 | hidden iff the status is missing, empty, `正常` or yields no tokens; otherwise one indicator per token, in order |
| Sheet.HiddenIffNoStatuses | coc/js/character.js:162-176 | the container is hidden exactly when there are no status tokens |
| Sheet.ActionsDistinct | coc/js/character.js:336-343 | the six action buttons are distinct |
| Sheet.SkillList | coc/js/character.js:336-343 | one skill per action button |
| Sheet.LengthClassOf | coc/js/character.js:359-371 | exactly one class by `length` in UTF-16 code units: > 12 extremely long, > 9 very long, > 6 long, otherwise none |
| Sheet.LengthClassOfBmp | coc/js/character.js:364-370 | for text without characters above U+FFFF the thresholds apply to the number of characters |
| Sheet.LengthClassMonotone | coc/js/character.js:364-370 | a text with at least as many code units never gets a smaller class |
| Text.Utf16Length | coc/js/character.js:135 | `length` lies between the number of characters and twice that |
| Text.Utf16LengthAppend | coc/js/character.js:364 | `length` of a concatenation is the sum of the lengths |
| Text.Utf16LengthBmp | coc/js/character.js:364 | `length` counts characters when none lies above U+FFFF |
| Text.AstralCountsTwice | coc/js/character.js:135 | an emoji has `length` 2 |
| Sheet.ButtonText | coc/js/character.js:349 | `name：value` when there is a value, else the name |
| Sheet.ButtonFor | coc/js/character.js:349-353 | a button shows its text with the length class of that text |
| Sheet.UpdateActionButtons | coc/js/character.js:345-355 | buttons whose skill has a name get its text and class; buttons with an empty skill name and all other elements are untouched |

## Left out

- DOM construction, styling, event wiring, feedback toasts and hints: the `create*`,
  `render*` and `show*` helpers of the deck editor, the button manager, deck tabs and tab
  manager, and both card browsers. The model keeps only the state they read and change.
- `fetch` and asynchronous loading. Fetched JSON is an input value (`Option` for a failed
  fetch). This covers `loadAllCardData`, `getAllCardQuantities`/`getAllQuantitiesByLoading`
  and `updateAllCardQuantities`.
- `exportAllData` and `executeImport` of the ptcg storage service. They call deck
  minimization helpers that `DeckManager` does not define. Their validation step is modelled.
- File download (Blob, anchor) and `FileReader`. The root `exportData` is modelled as its
  payload, and the root `importData` as the application of an already parsed list.
- Timers: `debouncedSave`, `debounce`, the click guard, the animation timeouts of the detail
  view (a swipe is split into `TriggerSwipe`, which queues its timer, and `CompleteSwipe`,
  which fires the oldest one; timers fire in the order they were set), and the hint fade.
- Both image loaders (IntersectionObserver and load retries). Image preloading is kept only
  as its index computation.
- The `LAST_SAVED` timestamp write of the save functions.
- Floating point, layout and WebGL in the character sheet, and the service worker, server and
  app wiring.
- Records.SourceEntry: `parseInt` of the owned-count text is not modelled as text scanning.
  The entry carries the parsed value as an `Option<int>`.
- Records.Present: an ID that is not a string is not modelled. IDs are strings, and the
  empty string is the only falsy one.
- Catalog.DeckItem: the loaded card's number (`number: fullCard?.number`) is not carried.
  The displayed item has no details (`NoDetails`), and nothing in the model reads them.
- ImageFiles.PadStart: pads to 8 characters, while `padStart` counts UTF-16 code units. The two
  differ only for IDs holding characters above U+FFFF, and card IDs are digit strings.
- Decks.SortDeckCards: `Array.prototype.sort` is modelled as a stable insertion sort. The
  engine's sort may place entries with equal rank and equal names differently.
- Decks.Before: the `a.name \|\| ''` fallback is not modelled, because every deck entry has a
  name.
- Quantities.GroupQuantitiesByType: a record whose type names an inherited object property
  (such as `constructor`) would make the source throw. The model drops it like any unknown
  category.
- Persistence.Json: JSON numbers are integers. Fractional quantities are not modelled.
- Catalog.FilterCards: `toLowerCase` is an abstract parameter, so case-insensitivity is only
  as strong as that function.
- ImageFiles.GenerateImageFilename: `id.toString()` is applied to IDs that are already
  strings. Numeric IDs are not modelled.
