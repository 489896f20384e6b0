# LendIt lending store — a Dafny model

LendIt is a small neighbourhood lending service. Users list items they are willing to lend, and
others search for them. This project models two parts of its front end.

1. **The in-memory store `MockApiService`** (`src/services/mockApi.ts`). It holds two ordered
   collections, `users` and `items`, and two id counters, `nextUserId` and `nextItemId`, seeded
   with three users, six items and the counters 4 and 7. It offers these operations:
   - `getUsers`, `getUser`, `createUser`, `updateUser`, `deleteUser`;
   - `getItems`, `getItem`, `createItem`, `updateItem`, `deleteItem`;
   - `searchItems`.

   The model is the class `MockApi.MockApiService`. Its fields are `seq<User>`, `seq<Item>` and
   two `nat` counters. The mutating operations are methods whose `modifies` clauses name just the
   fields the operation assigns (`createItem`, for one, touches only `items` and `nextItemId`). The read
   operations are functions that read the fields. A thrown `Error` becomes a
   `Result<_, ApiError>` failure: `NotFound("User not found")`, `NotFound("Item not found")` or
   `Forbidden("Not your item")`. The store keeps an invariant (`Valid`): every id is below its
   counter, and ids are distinct. The constructor establishes it and every mutating method
   preserves it.
2. **The catalog page's pure logic** (`src/pages/Index.tsx`), in module `Catalog`:
   - the `filteredItems` search filter over the page's local `mockItems`;
   - the profile page's owner filter;
   - the home page's `slice(0, 3)`;
   - the singular/plural count label.

   `Catalog.FilteredItemsAgreesWithSearch` proves that the page's filter and the store's
   `searchItems` pick the same items from listings that agree, for every search text.
   `Catalog.SeedSearchAgrees` proves the same for the page's catalog and the store's seed.

The modules are:
- `Wrappers`: `Option` and `Result`.
- `Sequences`: `Array.prototype.filter` and `findIndex` as `Filter` and `FindIndex`, with an
  order-preserving subsequence predicate.
- `Text`: `toLowerCase` and `String.prototype.includes`. `Contains` is proved equal to the
  reference predicate "there is an index where the query occurs".
- `ApiTypes`: the records of `src/types/api.ts`.
- `MockApi`: the store.
- `StoreScenarios`: facts about the seeded data.
- `Catalog`: the page.

## Behaviour notes

- `deleteUser` on an id that no user has leaves the users as they are. It still removes every
  item with that `idUser`, and `createItem` never checks that its owner exists, so such items can
  be there (`StoreScenarios.DeleteAbsentOwnerRemovesItems`).
- `updateUser` and `updateItem` are declared to return `UserDtoUpdate` and `ItemDtoUpdate`. They
  return the whole updated record, and the model returns that record.
- The page's catalog names each owner (`owner: "Иван П."`), while the store records an owner id.
  The two disagree on items 4, 5 and 6. The page gives them to "Дмитрий В.", "Ольга М." and
  "Сергей Л.". The store gives them to users 1, 2 and 3, that is Иван Петров, Мария Смирнова and
  Алексей Козлов. So the profile page shows only item 1 (`Catalog.ProfileShowsFirstCard`), while
  `getItems(1)` returns items 1 and 4 (`StoreScenarios.SeedItemsOfFirstUser`).

## Model

| member | source | states |
|---|---|---|
| `MockApi.SeedUsers` | src/services/mockApi.ts:3-7 | three users whose ids are 1, 2 and 3, in that order |
| `MockApi.SeedItems` | src/services/mockApi.ts:9-16 | six items with ids 1 to 6 in order, owned in turn by users 1, 2, 3, 1, 2, 3; only item 3 is unavailable |
| `MockApi.MockApiService.constructor` | src/services/mockApi.ts:3-19 | the store starts with the three seeded users, the six seeded items and counters 4 and 7, and satisfies the id invariant |
| `MockApi.MockApiService.GetUsers` | src/services/mockApi.ts:24-27 | returns the users, element for element, in store order |
| `MockApi.MockApiService.GetUser` | src/services/mockApi.ts:29-34 | fails with NotFound "User not found" exactly when no user has the id; otherwise returns the first user with that id, which is in the store |
| `MockApi.MockApiService.CreateUser` | src/services/mockApi.ts:36-44 | the new user takes the old counter as id and is appended; the counter goes up by one; items are untouched; the invariant is kept; a lookup of the new id finds exactly the new user, the only one with that id |
| `MockApi.MockApiService.UpdateUser` | src/services/mockApi.ts:46-57 | absent id: NotFound and nothing changes; otherwise only the found user is replaced by the update rule, and it is returned; items and counters are untouched |
| `MockApi.MockApiService.DeleteUser` | src/services/mockApi.ts:59-63 | users become the users without the id and items become the items not owned by it; afterwards the lookup fails and no item has that owner; the invariant is kept |
| `MockApi.MockApiService.GetItems` | src/services/mockApi.ts:65-71 | with a truthy (present, non-zero) user id: exactly that owner's items, in store order; with none or 0: every item |
| `MockApi.MockApiService.GetItem` | src/services/mockApi.ts:73-78 | fails with NotFound "Item not found" exactly when no item has the id; otherwise returns the first item with that id |
| `MockApi.MockApiService.CreateItem` | src/services/mockApi.ts:80-89 | the new item takes the old counter as id and the given owner, and is appended; the counter goes up by one; the lookup finds it; it is the last of its owner's items and of all items; the invariant is kept |
| `MockApi.MockApiService.UpdateItem` | src/services/mockApi.ts:91-104 | absent id: NotFound; caller not the owner: Forbidden "Not your item"; both leave the store unchanged; otherwise only the found item is replaced by the update rule and returned |
| `MockApi.MockApiService.DeleteItem` | src/services/mockApi.ts:106-109 | items become the items without the id, in order; the lookup of the id then fails; users and counters are untouched |
| `MockApi.MockApiService.SearchItems` | src/services/mockApi.ts:111-119 | the items whose lowered name or description contains the lowered text, both ways, in store order |
| `MockApi.UserIndex` | src/services/mockApi.ts:48 | -1 exactly when no user has the id; otherwise the first index holding that id |
| `MockApi.ItemIndex` | src/services/mockApi.ts:93 | -1 exactly when no item has the id; otherwise the first index holding that id |
| `MockApi.UserIndexOfAppended` | src/services/mockApi.ts:39-42 | a user appended with an id above every existing id is found at the last index |
| `MockApi.ItemIndexOfAppended` | src/services/mockApi.ts:83-87 | an item appended with an id above every existing id is found at the last index |
| `MockApi.AppendFreshUser` | src/services/mockApi.ts:36-44 | appending a user whose id is the counter, then raising the counter, keeps the ids below the counter and distinct |
| `MockApi.AppendFreshItem` | src/services/mockApi.ts:80-89 | the same for items |
| `MockApi.SeedUsersValid` | src/services/mockApi.ts:3-7 | the seeded user ids are distinct and below 4 |
| `MockApi.SeedItemsValid` | src/services/mockApi.ts:9-16 | the seeded item ids are distinct and below 7 |
| `MockApi.ApplyUserUpdate` | src/services/mockApi.ts:51-55 | the id never changes; name and email are taken only when supplied and non-empty, so an empty string keeps the old value |
| `MockApi.ApplyUserUpdateTwice` | src/services/mockApi.ts:51-55 | applying a user update twice equals applying it once |
| `MockApi.ApplyItemUpdate` | src/services/mockApi.ts:97-102 | id and owner never change; name and description are taken only when non-empty; `available` is taken whenever supplied, `false` included |
| `MockApi.ReapplyUserUpdate` | src/services/mockApi.ts:46-56 | after a successful update the user is still found at the same index, and repeating the update changes nothing |
| `MockApi.UpdateUserTwice` | src/services/mockApi.ts:46-57 | two identical `updateUser` calls give the same answer, and the store ends as one call leaves it |
| `MockApi.UpdateItemTwice` | src/services/mockApi.ts:91-104 | two identical `updateItem` calls give the same answer, and the store ends as one call leaves it |
| `MockApi.ReapplyItemUpdate` | src/services/mockApi.ts:91-103 | after a successful update the item is still found at the same index with the same owner, and repeating the update changes nothing |
| `MockApi.UsersWithoutId` | src/services/mockApi.ts:61 | keeps exactly the users whose id differs, in order; is the identity when no user has the id |
| `MockApi.ItemsNotOwnedBy` | src/services/mockApi.ts:62 | keeps exactly the items of other owners, in order; is the identity when nobody owns an item under that id |
| `MockApi.ItemsWithoutId` | src/services/mockApi.ts:108 | keeps exactly the items whose id differs, in order; is the identity when no item has the id |
| `MockApi.ItemsOwnedBy` | src/services/mockApi.ts:68 | keeps exactly the items of that owner, in order |
| `MockApi.UsersWithoutIdCopies` | src/services/mockApi.ts:61 | every copy of a user whose id differs is kept, and no copy of the others |
| `MockApi.ItemsNotOwnedByCopies` | src/services/mockApi.ts:62 | every copy of an item of another owner is kept, and no copy of the others |
| `MockApi.ItemsWithoutIdCopies` | src/services/mockApi.ts:108 | every copy of an item whose id differs is kept, and no copy of the others |
| `MockApi.ItemsOwnedByCopies` | src/services/mockApi.ts:68 | every copy of an item of that owner is kept, and no copy of the others |
| `MockApi.UsersWithoutIdValid` | src/services/mockApi.ts:61 | the users `deleteUser` keeps have distinct ids below the counter, and none has the deleted id |
| `MockApi.ItemsNotOwnedByValid` | src/services/mockApi.ts:62 | the items `deleteUser` keeps have distinct ids below the counter |
| `MockApi.ItemsWithoutIdValid` | src/services/mockApi.ts:108 | the items `deleteItem` keeps have distinct ids below the counter, and none has the deleted id |
| `MockApi.ItemsOwnedByAppend` | src/services/mockApi.ts:68 | an appended item comes last among its owner's items and adds nothing to other owners |
| `MockApi.FilterKeepsUserInvariant` | src/services/mockApi.ts:61 | filtering users keeps their ids below the counter and distinct |
| `MockApi.FilterKeepsItemInvariant` | src/services/mockApi.ts:62 | filtering items keeps their ids below the counter and distinct |
| `MockApi.SearchResults` | src/services/mockApi.ts:113-118 | an item is kept exactly when its lowered name or description has an occurrence of the lowered text; order is kept; no match gives the empty list |
| `MockApi.SearchResultsCopies` | src/services/mockApi.ts:114-118 | every copy of a matching item is kept, and no copy of the others |
| `MockApi.SearchIgnoresTextCase` | src/services/mockApi.ts:113 | searching for the lowered text returns the same items as searching for the text itself |
| `MockApi.SearchResultsCons` | src/services/mockApi.ts:114-118 | the first item is kept exactly when it matches, and the rest is searched alike |
| `StoreScenarios.SeedItemsOfFirstUser` | src/services/mockApi.ts:65-71 | on the seed, the items of user 1 are items 1 and 4, in that order |
| `StoreScenarios.SeedGetItemsOfFirstUser` | src/services/mockApi.ts:65-71 | `getItems(1)` on the seeded store returns the ids 1 and 4 |
| `StoreScenarios.SeedSearchTent` | src/services/mockApi.ts:111-119 | `searchItems("палатка")` on the seed returns exactly the tent, item 2 |
| `StoreScenarios.OnlySecondHitsTent` | src/services/mockApi.ts:114-118 | searching six items of which only the second matches returns exactly that item |
| `StoreScenarios.TentHitsItem2` | src/services/mockApi.ts:11 | the lowered name of item 2 begins with "палатка" and so contains it |
| `StoreScenarios.DeleteAbsentOwnerRemovesItems` | src/services/mockApi.ts:59-63 | deleting an id with no user leaves the users as they are but removes an item owned by that id |
| `Sequences.Filter` | src/services/mockApi.ts:114 | the result holds only elements of the input that satisfy the predicate, holds every such element, keeps their order as a subsequence, and is the input when every element passes |
| `Sequences.FilterCount` | src/services/mockApi.ts:114 | for each value, the result holds as many copies as the input when the value passes and none when it fails |
| `Sequences.FilterMultiplicity` | src/services/mockApi.ts:114 | the same count for all values at once, so the result is exactly the passing elements, copies included |
| `Sequences.FilterAppend` | src/services/mockApi.ts:68 | filtering a concatenation concatenates the filtered parts |
| `Sequences.FilterExactlyOne` | src/services/mockApi.ts:114 | when only the element at index k satisfies the predicate, the result is that one element |
| `Sequences.FilterDistinct` | src/services/mockApi.ts:61 | filtering keeps keys distinct |
| `Sequences.FindIndex` | src/services/mockApi.ts:93 | -1 exactly when no element satisfies the predicate; otherwise the first index that does |
| `Text.ToLower` | src/services/mockApi.ts:113 | A-Z and А-Я move up by 32, Ё becomes ё, every other character is unchanged, and the result is never a capital |
| `Text.ToLowerIdempotent` | src/services/mockApi.ts:116 | lowering a character twice is lowering it once |
| `Text.ToLowerPreimage` | src/services/mockApi.ts:116 | only a small letter а-я and its capital lower to that small letter |
| `Text.Lower` | src/services/mockApi.ts:116-117 | same length, each character lowered in place |
| `Text.LowerIdempotent` | src/services/mockApi.ts:113-116 | lowering a lowered string changes nothing |
| `Text.Contains` | src/services/mockApi.ts:116-117 | the empty query is contained in every string; a query longer than the text is not |
| `Text.ContainsHasOccurrence` | src/services/mockApi.ts:116-117 | when `includes` says yes, there is an index where the query occurs |
| `Text.OccurrenceContained` | src/services/mockApi.ts:116-117 | when the query occurs at some index, `includes` says yes |
| `Text.ContainsIffOccurs` | src/services/mockApi.ts:116-117 | `includes` holds exactly when the query occurs at some index |
| `Text.MissingCharNotContained` | src/services/mockApi.ts:116-117 | a query with a character the text lacks is not contained |
| `Text.LoweredLacksLetter` | src/services/mockApi.ts:116-117 | a text with neither the small nor the capital form of a letter of the lowered query does not contain it when lowered |
| `Text.LoweredPrefixContained` | src/services/mockApi.ts:116 | a text whose prefix lowers to the lowered query contains it when lowered |
| `Catalog.MockItems` | src/pages/Index.tsx:23-30 | six cards with ids 1 to 6 in order; only the first is owned by "Иван П." |
| `Catalog.FilteredItems` | src/pages/Index.tsx:32-35 | the cards whose lowered name or description has an occurrence of the lowered text, both ways, in catalog order; an empty text keeps every card |
| `Catalog.FilteredItemsCons` | src/pages/Index.tsx:32-35 | the first card is kept exactly when it matches, and the rest is filtered alike |
| `Catalog.FilteredItemsCopies` | src/pages/Index.tsx:32-35 | every copy of a matching card is kept, and no copy of the others |
| `Catalog.ProfileItemsCopies` | src/pages/Index.tsx:134 | every copy of a card owned by "Иван П." is kept, and no copy of the others |
| `Catalog.ProfileItems` | src/pages/Index.tsx:134 | exactly the cards owned by "Иван П.", in catalog order |
| `Catalog.HomeItems` | src/pages/Index.tsx:63 | a prefix of the catalog of at most three cards, and of exactly three when there are that many |
| `Catalog.CountLabel` | src/pages/Index.tsx:161 | "вещь" exactly when the count is 1, "вещей" exactly when it is not |
| `Catalog.SearchResultsBlock` | src/pages/Index.tsx:158-167 | the results block is shown exactly when the text is non-empty; it shows the filtered cards, their count, and the noun `CountLabel` gives for that count: "вещь" for 1, "вещей" otherwise |
| `Catalog.SameListingAppend` | src/pages/Index.tsx:23-30 | listings that agree part by part agree when joined |
| `Catalog.FilteredItemsAgreesWithSearch` | src/pages/Index.tsx:32-35 | for every text, the page's filter and the store's `searchItems`, applied to listings that agree, return listings that agree |
| `Catalog.MockItemsMatchSeed` | src/pages/Index.tsx:23-30 | the page's cards list the store's seeded items: the same ids, names, descriptions and availability |
| `Catalog.SeedSearchAgrees` | src/pages/Index.tsx:32-35 | on the page's catalog and the store's seed, both searches agree for every text |
| `Catalog.TentSearchShowsOneCard` | src/pages/Index.tsx:158-164 | searching the page for "палатка" shows one card, id 2, under the singular noun |
| `Catalog.ProfileShowsFirstCard` | src/pages/Index.tsx:134 | the profile page lists only the first card |
| `Catalog.HomeShowsFirstThree` | src/pages/Index.tsx:63 | the home page shows the first three cards |

## Left out

- `delay` and `async`/`Promise` (src/services/mockApi.ts:21 and each `await delay`): artificial latency with no effect on results. Each operation is a synchronous method or function.
- Concurrency between overlapping calls: each operation changes the state in one synchronous step after its delay. Overlapping calls act as a sequence of these steps, in the order their delays end; the model is that sequence, and which order the timers produce is not modelled.
- The store's module-level `let` state and `export const mockApiService` singleton are modelled as one object of the class.
- The remote client `src/services/api.ts` and the HTTP proxy `backend/api-proxy/index.py` are not part of this model. They are network I/O and request plumbing.
- The dialogs `src/components/AddItemDialog.tsx` and `src/components/EditItemDialog.tsx` are not part of this model. They are React form state; their blank-field check is outside the store.
- Index.tsx: JSX rendering, styling, the `currentPage` navigation state and the React state setters are not modelled. Only the values the page computes are.
- Text.ToLower: lowers only A-Z, А-Я and Ё. Every other character is left as it is, because full Unicode case mapping is a platform function. Other scripts and special cases such as İ, which lowers to two characters, are not captured.
- JavaScript numbers are modelled as unbounded integers: no NaN, no fractions, no overflow of the counters. Truthiness of the `getItems` argument is modelled for integers: absent or 0 means "all items".
- Object spreads that could carry extra properties at run time (`...user`, `...itemData`, which the declared types exclude) could override `id`. The model follows the declared types, where they cannot.
- `available: null` or a non-boolean `available` in an update cannot occur under the declared types and is not modelled. `available` is either absent (`None`) or a boolean.
- `ItemDto` in src/types/api.ts is not used by the store or the page and has no counterpart here.
- Returning the same record object (aliasing between the stored record and the returned one) is not captured: records are values.
