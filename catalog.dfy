/** The catalog page's local data and its pure views: the search filter, the owner filter of the
 *  profile page, the first-three slice of the home page and the result count label. */
module Catalog {
  import opened Wrappers
  import opened Sequences
  import opened Text
  import opened ApiTypes
  import MockApi
  import StoreScenarios

  /** A catalog card: like a store item, but the owner is a display name. */
  datatype CatalogItem = CatalogItem(id: int, name: string, description: string, available: bool, owner: string)

  /** The owner whose items the profile page lists. */
  const PROFILE_OWNER: string := "Иван П."

  const LABEL_ONE: string := "вещь"
  const LABEL_MANY: string := "вещей"

  /** The catalog the page holds. */
  function MockItems(): (r: seq<CatalogItem>)
    ensures |r| == 6 && forall i :: 0 <= i < |r| ==> r[i].id == i + 1
    ensures r[0].owner == PROFILE_OWNER && forall i :: 1 <= i < |r| ==> r[i].owner != PROFILE_OWNER
  {
    [ CatalogItem(1, "Велосипед горный", "Отличное состояние, 21 скорость", true, "Иван П."),
      CatalogItem(2, "Палатка туристическая", "4-местная, водонепроницаемая", true, "Мария С."),
      CatalogItem(3, "Фотоаппарат Canon", "Зеркальная камера с объективом", false, "Алексей К."),
      CatalogItem(4, "Сноуборд", "Размер 156см, с креплениями", true, "Дмитрий В."),
      CatalogItem(5, "Швейная машинка", "Электрическая, многофункциональная", true, "Ольга М."),
      CatalogItem(6, "Дрель ударная", "Мощная, с набором сверл", true, "Сергей Л.") ]
  }

  /** The lowered search text occurs in the lowered name or the lowered description of the card. */
  ghost predicate CardMatches(item: CatalogItem, searchQuery: string)
  {
    Occurs(Lower(item.name), Lower(searchQuery)) || Occurs(Lower(item.description), Lower(searchQuery))
  }

  /** `filteredItems`: the cards whose lowered name or description contains the lowered search text,
   *  in catalog order; an empty search text keeps every card. */
  function FilteredItems(mockItems: seq<CatalogItem>, searchQuery: string): (r: seq<CatalogItem>)
    ensures forall i :: 0 <= i < |r| ==> r[i] in mockItems && CardMatches(r[i], searchQuery)
    ensures forall i :: 0 <= i < |mockItems| && CardMatches(mockItems[i], searchQuery) ==> mockItems[i] in r
    ensures IsSubsequence(r, mockItems)
    ensures searchQuery == "" ==> r == mockItems
  {
    ContainsIsOccurs();
    Filter(mockItems, (item: CatalogItem) =>
      Contains(Lower(item.name), Lower(searchQuery)) || Contains(Lower(item.description), Lower(searchQuery)))
  }

  /** The page's search keeps every copy of a matching card and none of the others. */
  lemma FilteredItemsCopies(mockItems: seq<CatalogItem>, searchQuery: string)
    ensures forall c :: multiset(FilteredItems(mockItems, searchQuery))[c] ==
                        (if CardMatches(c, searchQuery) then multiset(mockItems)[c] else 0)
  {
    ContainsIsOccurs();
    FilterMultiplicity(mockItems, (item: CatalogItem) =>
      Contains(Lower(item.name), Lower(searchQuery)) || Contains(Lower(item.description), Lower(searchQuery)));
  }

  /** The profile list: the cards owned by the profile's user, in catalog order. */
  function ProfileItems(mockItems: seq<CatalogItem>): (r: seq<CatalogItem>)
    ensures forall i :: 0 <= i < |r| ==> r[i] in mockItems && r[i].owner == PROFILE_OWNER
    ensures forall i :: 0 <= i < |mockItems| && mockItems[i].owner == PROFILE_OWNER ==> mockItems[i] in r
    ensures IsSubsequence(r, mockItems)
  {
    Filter(mockItems, (item: CatalogItem) => item.owner == PROFILE_OWNER)
  }

  /** The profile list keeps every copy of a card of that owner and none of the others. */
  lemma ProfileItemsCopies(mockItems: seq<CatalogItem>)
    ensures forall c :: multiset(ProfileItems(mockItems))[c] ==
                        (if c.owner == PROFILE_OWNER then multiset(mockItems)[c] else 0)
  {
    FilterMultiplicity(mockItems, (item: CatalogItem) => item.owner == PROFILE_OWNER);
  }

  /** The home list, `slice(0, 3)`: a prefix of the catalog of at most three cards, and of exactly three
   *  when the catalog has that many. */
  function HomeItems(mockItems: seq<CatalogItem>): (r: seq<CatalogItem>)
    ensures r <= mockItems
    ensures |r| <= 3
    ensures |mockItems| >= 3 ==> |r| == 3
    ensures |mockItems| < 3 ==> r == mockItems
  {
    if |mockItems| < 3 then mockItems else mockItems[..3]
  }

  /** The noun after the result count: singular for exactly one result, plural otherwise. */
  function CountLabel(count: nat): (r: string)
    ensures r == LABEL_ONE <==> count == 1
    ensures r == LABEL_MANY <==> count != 1
  {
    if count == 1 then LABEL_ONE else LABEL_MANY
  }

  /** What the search page shows under the input: a count, its noun and the cards. */
  datatype ResultsBlock = ResultsBlock(count: nat, noun: string, shown: seq<CatalogItem>)

  /** The results block, rendered only for a non-empty search text. */
  function SearchResultsBlock(mockItems: seq<CatalogItem>, searchQuery: string): (r: Option<ResultsBlock>)
    ensures r.Some? <==> searchQuery != ""
    ensures r.Some? ==> r.value.shown == FilteredItems(mockItems, searchQuery)
    ensures r.Some? ==> r.value.count == |r.value.shown|
    ensures r.Some? ==> (r.value.noun == LABEL_ONE <==> r.value.count == 1)
    ensures r.Some? ==> r.value.noun == CountLabel(r.value.count)
  {
    if searchQuery == "" then None
    else
      var filtered := FilteredItems(mockItems, searchQuery);
      Some(ResultsBlock(|filtered|, CountLabel(|filtered|), filtered))
  }

  // ---------------------------------------------------------------------------
  // The catalog filter and the store's search agree.

  /** Cards and store items that list the same things in the same order: equal ids, names,
   *  descriptions and availability; the owner is not compared, being a name on one side and an id on
   *  the other. */
  predicate SameListing(cards: seq<CatalogItem>, items: seq<Item>)
  {
    |cards| == |items| &&
    forall i :: 0 <= i < |cards| ==>
      cards[i].id == items[i].id && cards[i].name == items[i].name &&
      cards[i].description == items[i].description && cards[i].available == items[i].available
  }

  /** Listings that agree part by part agree as a whole. */
  lemma SameListingAppend(c1: seq<CatalogItem>, i1: seq<Item>, c2: seq<CatalogItem>, i2: seq<Item>)
    requires SameListing(c1, i1) && SameListing(c2, i2)
    ensures SameListing(c1 + c2, i1 + i2)
  {
    var c, it := c1 + c2, i1 + i2;
    forall k | 0 <= k < |c|
      ensures c[k].id == it[k].id && c[k].name == it[k].name &&
              c[k].description == it[k].description && c[k].available == it[k].available
    {
      if k < |c1| {
        assert c[k] == c1[k] && it[k] == i1[k];
      } else {
        assert c[k] == c2[k - |c1|] && it[k] == i2[k - |i1|];
      }
    }
  }

  /** The first card is kept exactly when it matches; the rest is filtered alike. */
  lemma FilteredItemsCons(cards: seq<CatalogItem>, searchQuery: string)
    requires cards != []
    ensures var query := Lower(searchQuery);
            var hit := Contains(Lower(cards[0].name), query) || Contains(Lower(cards[0].description), query);
            FilteredItems(cards, searchQuery) ==
              (if hit then [cards[0]] else []) + FilteredItems(cards[1..], searchQuery)
  {
  }

  /** On listings that agree, the catalog's `filteredItems` and the store's `searchItems` return
   *  listings that agree, for every search text. */
  lemma {:induction false} FilteredItemsAgreesWithSearch(cards: seq<CatalogItem>, items: seq<Item>, searchQuery: string)
    requires SameListing(cards, items)
    ensures SameListing(FilteredItems(cards, searchQuery), MockApi.SearchResults(items, searchQuery))
  {
    if cards != [] {
      var restCards, restItems := FilteredItems(cards[1..], searchQuery), MockApi.SearchResults(items[1..], searchQuery);
      FilteredItemsAgreesWithSearch(cards[1..], items[1..], searchQuery);
      FilteredItemsCons(cards, searchQuery);
      MockApi.SearchResultsCons(items, searchQuery);
      var query := Lower(searchQuery);
      var hit := Contains(Lower(cards[0].name), query) || Contains(Lower(cards[0].description), query);
      assert hit == MockApi.ContainsQuery(items[0], query);
      SameListingAppend(if hit then [cards[0]] else [], if hit then [items[0]] else [], restCards, restItems);
    }
  }

  /** The page's catalog lists the same items as the store's seed. */
  lemma MockItemsMatchSeed()
    ensures SameListing(MockItems(), MockApi.SeedItems())
  {
  }

  /** So on the seeded data the page's local search and the store's search agree for every text. */
  lemma SeedSearchAgrees(searchQuery: string)
    ensures SameListing(FilteredItems(MockItems(), searchQuery), MockApi.SearchResults(MockApi.SeedItems(), searchQuery))
  {
    MockItemsMatchSeed();
    FilteredItemsAgreesWithSearch(MockItems(), MockApi.SeedItems(), searchQuery);
  }

  /** A non-empty search whose hits agree with a single store item shows one card with that item's id,
   *  under count 1 and the singular noun. */
  lemma SingleHitShown(mockItems: seq<CatalogItem>, searchQuery: string, it: Item)
    requires searchQuery != "" && SameListing(FilteredItems(mockItems, searchQuery), [it])
    ensures |FilteredItems(mockItems, searchQuery)| == 1
    ensures FilteredItems(mockItems, searchQuery)[0].id == it.id
    ensures SearchResultsBlock(mockItems, searchQuery) ==
            Some(ResultsBlock(1, LABEL_ONE, FilteredItems(mockItems, searchQuery)))
  {
  }

  /** Searching the page for "палатка" shows one card, the tent, labelled with the singular noun. */
  lemma TentSearchShowsOneCard()
    ensures |FilteredItems(MockItems(), "палатка")| == 1
    ensures FilteredItems(MockItems(), "палатка")[0].id == 2
    ensures SearchResultsBlock(MockItems(), "палатка") ==
            Some(ResultsBlock(1, LABEL_ONE, FilteredItems(MockItems(), "палатка")))
  {
    SeedSearchAgrees("палатка");
    StoreScenarios.SeedSearchTent();
    SingleHitShown(MockItems(), "палатка", MockApi.SeedItems()[1]);
  }

  /** The profile page lists only the first card. */
  lemma ProfileShowsFirstCard()
    ensures ProfileItems(MockItems()) == [MockItems()[0]]
  {
    var m := MockItems();
    var p := (item: CatalogItem) => item.owner == PROFILE_OWNER;
    forall i | 0 <= i < |m| && i != 0
      ensures !p(m[i])
    {
      assert i == 1 || i == 2 || i == 3 || i == 4 || i == 5;
    }
    FilterExactlyOne(m, p, 0);
  }

  /** The home page shows the first three cards. */
  lemma HomeShowsFirstThree()
    ensures HomeItems(MockItems()) == MockItems()[..3]
    ensures |HomeItems(MockItems())| == 3
  {
  }
}
