/** What the store does on its seeded data. */
module StoreScenarios {
  import opened Wrappers
  import opened Sequences
  import opened Text
  import opened ApiTypes
  import opened MockApi

  /** `getItems(1)` on the seed: the items with ids 1 and 4, in that order. */
  lemma SeedItemsOfFirstUser()
    ensures ItemsOwnedBy(SeedItems(), 1) == [SeedItems()[0], SeedItems()[3]]
  {
    OwnedFirstAndFourth(SeedItems());
  }

  /** Of six items, when user 1 owns exactly the first and the fourth, those two are that user's items. */
  lemma OwnedFirstAndFourth(its: seq<Item>)
    requires |its| == 6 && its[0].idUser == 1 && its[3].idUser == 1
    requires its[1].idUser != 1 && its[2].idUser != 1 && its[4].idUser != 1 && its[5].idUser != 1
    ensures ItemsOwnedBy(its, 1) == [its[0], its[3]]
  {
    FilterKeepsFirstAndFourth(its, (it: Item) => it.idUser == 1);
  }

  /** Filtering six elements of which only the first and the fourth pass keeps those two. */
  lemma FilterKeepsFirstAndFourth<T>(s: seq<T>, p: T -> bool)
    requires |s| == 6 && p(s[0]) && p(s[3])
    requires !p(s[1]) && !p(s[2]) && !p(s[4]) && !p(s[5])
    ensures Filter(s, p) == [s[0], s[3]]
  {
    assert Filter(s[5..], p) == [];
    assert Filter(s[4..], p) == [];
    assert Filter(s[3..], p) == [s[3]];
    assert Filter(s[1..], p) == [s[3]];
  }

  /** A store whose items owned by user 1 are its first and fourth answers `getItems(1)` with those two. */
  lemma GetItemsOfOwnerFirstAndFourth(svc: MockApiService, its: seq<Item>)
    requires svc.items == its && |its| >= 4
    requires ItemsOwnedBy(its, 1) == [its[0], its[3]]
    ensures svc.GetItems(Some(1)) == [its[0], its[3]]
  {
  }

  /** The same, asked of a store in its seeded state. */
  lemma SeedGetItemsOfFirstUser(svc: MockApiService)
    requires svc.items == SeedItems()
    ensures |svc.GetItems(Some(1))| == 2
    ensures svc.GetItems(Some(1))[0].id == 1 && svc.GetItems(Some(1))[1].id == 4
  {
    SeedItemsOfFirstUser();
    GetItemsOfOwnerFirstAndFourth(svc, SeedItems());
  }

  /** An item whose name and description both miss the lowered query misses it. */
  lemma MissesBoth(it: Item, name: string, description: string, q: string)
    requires it.name == name && it.description == description
    requires !Contains(Lower(name), q) && !Contains(Lower(description), q)
    ensures !ContainsQuery(it, q)
  {
  }

  /** "Палатка" and "палатка" both lower to "палатка". */
  lemma TentWordLowered()
    ensures Lower("Палатка") == "палатка" && Lower("палатка") == "палатка"
  {
  }

  /** The lowered query "палатка" hits the second seeded item, whose name begins with "Палатка". */
  lemma TentHitsItem2()
    ensures ContainsQuery(SeedItems()[1], "палатка")
  {
    var name := "Палатка туристическая";
    assert SeedItems()[1].name == name;
    assert name[..7] == "Палатка";
    TentWordLowered();
    LoweredPrefixContained(name, "палатка");
  }

  /** Item 1 lacks 'т' in its name and 'а' in its description, both letters of "палатка". */
  lemma TentMissesItem1()
    ensures !ContainsQuery(SeedItems()[0], "палатка")
  {
    assert SeedItems()[0].name == "Велосипед горный";
    assert SeedItems()[0].description == "Отличное состояние, 21 скорость";
    TentMissesName1();
    TentMissesDescription1();
    MissesBoth(SeedItems()[0], "Велосипед горный", "Отличное состояние, 21 скорость", "палатка");
  }

  lemma TentMissesName1()
    ensures !Contains(Lower("Велосипед горный"), "палатка")
  {
    LoweredLacksLetter("Велосипед горный", "палатка", 'т', 'Т');
  }

  lemma TentMissesDescription1()
    ensures !Contains(Lower("Отличное состояние, 21 скорость"), "палатка")
  {
    LoweredLacksLetter("Отличное состояние, 21 скорость", "палатка", 'а', 'А');
  }

  /** Item 3 lacks 'к' in its name and 'п' in its description, both letters of "палатка". */
  lemma TentMissesItem3()
    ensures !ContainsQuery(SeedItems()[2], "палатка")
  {
    assert SeedItems()[2].name == "Фотоаппарат Canon";
    assert SeedItems()[2].description == "Зеркальная камера с объективом";
    TentMissesName3();
    TentMissesDescription3();
    MissesBoth(SeedItems()[2], "Фотоаппарат Canon", "Зеркальная камера с объективом", "палатка");
  }

  lemma TentMissesName3()
    ensures !Contains(Lower("Фотоаппарат Canon"), "палатка")
  {
    LoweredLacksLetter("Фотоаппарат Canon", "палатка", 'к', 'К');
  }

  lemma TentMissesDescription3()
    ensures !Contains(Lower("Зеркальная камера с объективом"), "палатка")
  {
    LoweredLacksLetter("Зеркальная камера с объективом", "палатка", 'п', 'П');
  }

  /** Item 4 lacks 'а' in its name and 'т' in its description, both letters of "палатка". */
  lemma TentMissesItem4()
    ensures !ContainsQuery(SeedItems()[3], "палатка")
  {
    assert SeedItems()[3].name == "Сноуборд";
    assert SeedItems()[3].description == "Размер 156см, с креплениями";
    TentMissesName4();
    TentMissesDescription4();
    MissesBoth(SeedItems()[3], "Сноуборд", "Размер 156см, с креплениями", "палатка");
  }

  lemma TentMissesName4()
    ensures !Contains(Lower("Сноуборд"), "палатка")
  {
    LoweredLacksLetter("Сноуборд", "палатка", 'а', 'А');
  }

  lemma TentMissesDescription4()
    ensures !Contains(Lower("Размер 156см, с креплениями"), "палатка")
  {
    LoweredLacksLetter("Размер 156см, с креплениями", "палатка", 'т', 'Т');
  }

  /** Item 5 lacks 'т' in its name and 'п' in its description, both letters of "палатка". */
  lemma TentMissesItem5()
    ensures !ContainsQuery(SeedItems()[4], "палатка")
  {
    assert SeedItems()[4].name == "Швейная машинка";
    assert SeedItems()[4].description == "Электрическая, многофункциональная";
    TentMissesName5();
    TentMissesDescription5();
    MissesBoth(SeedItems()[4], "Швейная машинка", "Электрическая, многофункциональная", "палатка");
  }

  lemma TentMissesName5()
    ensures !Contains(Lower("Швейная машинка"), "палатка")
  {
    LoweredLacksLetter("Швейная машинка", "палатка", 'т', 'Т');
  }

  lemma TentMissesDescription5()
    ensures !Contains(Lower("Электрическая, многофункциональная"), "палатка")
  {
    LoweredLacksLetter("Электрическая, многофункциональная", "палатка", 'п', 'П');
  }

  /** Item 6 lacks 'т' in its name and 'т' in its description, both letters of "палатка". */
  lemma TentMissesItem6()
    ensures !ContainsQuery(SeedItems()[5], "палатка")
  {
    assert SeedItems()[5].name == "Дрель ударная";
    assert SeedItems()[5].description == "Мощная, с набором сверл";
    TentMissesName6();
    TentMissesDescription6();
    MissesBoth(SeedItems()[5], "Дрель ударная", "Мощная, с набором сверл", "палатка");
  }

  lemma TentMissesName6()
    ensures !Contains(Lower("Дрель ударная"), "палатка")
  {
    LoweredLacksLetter("Дрель ударная", "палатка", 'т', 'Т');
  }

  lemma TentMissesDescription6()
    ensures !Contains(Lower("Мощная, с набором сверл"), "палатка")
  {
    LoweredLacksLetter("Мощная, с набором сверл", "палатка", 'т', 'Т');
  }

  /** Six items of which only the second hits the lowered query "палатка". */
  lemma OnlySecondHitsTent(its: seq<Item>)
    requires |its| == 6 && ContainsQuery(its[1], "палатка")
    requires !ContainsQuery(its[0], "палатка") && !ContainsQuery(its[2], "палатка")
    requires !ContainsQuery(its[3], "палатка") && !ContainsQuery(its[4], "палатка")
    requires !ContainsQuery(its[5], "палатка")
    ensures SearchResults(its, "палатка") == [its[1]]
  {
    assert Lower("палатка") == "палатка";
    var p := (item: Item) => ContainsQuery(item, "палатка");
    forall i | 0 <= i < |its| && i != 1
      ensures !p(its[i])
    {
      assert i == 0 || i == 2 || i == 3 || i == 4 || i == 5;
    }
    FilterExactlyOne(its, p, 1);
  }

  /** `searchItems("палатка")` on the seed: exactly the tent, item 2. */
  lemma SeedSearchTent()
    ensures SearchResults(SeedItems(), "палатка") == [SeedItems()[1]]
  {
    TentMissesItem1();
    TentHitsItem2();
    TentMissesItem3();
    TentMissesItem4();
    TentMissesItem5();
    TentMissesItem6();
    OnlySecondHitsTent(SeedItems());
  }

  /** Deleting a user id that no user has is not a no-op: an item created for that id, which
   *  `createItem` allows, is removed with it. */
  lemma DeleteAbsentOwnerRemovesItems()
    ensures var us, its := [User(1, "Anna", "anna@example.com")], [Item(1, "Kayak", "Two seats", true, 9)];
            UserIndex(us, 9) == -1 && UsersWithoutId(us, 9) == us && ItemsNotOwnedBy(its, 9) == []
  {
  }
}
