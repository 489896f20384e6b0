/** The in-memory stand-in for the lending service: two ordered collections (users, items)
 *  and two id counters, changed by create, update and delete operations. */
module MockApi {
  import opened Wrappers
  import opened Sequences
  import opened Text
  import opened ApiTypes

  const USER_NOT_FOUND: string := "User not found"
  const ITEM_NOT_FOUND: string := "Item not found"
  const NOT_YOUR_ITEM: string := "Not your item"

  /** Why an operation was rejected: a missing record, or an item that belongs to someone else. */
  datatype ApiError = NotFound(message: string) | Forbidden(message: string)

  /** The users the store starts with. */
  function SeedUsers(): (r: seq<User>)
    ensures |r| == 3 && forall i :: 0 <= i < |r| ==> r[i].id == i + 1
  {
    [ User(1, "Иван Петров", "ivan@example.com"),
      User(2, "Мария Смирнова", "maria@example.com"),
      User(3, "Алексей Козлов", "alexey@example.com") ]
  }

  /** The items the store starts with. */
  function SeedItems(): (r: seq<Item>)
    ensures |r| == 6 && forall i :: 0 <= i < |r| ==> r[i].id == i + 1 && r[i].idUser == i % 3 + 1
    ensures !r[2].available && forall i :: 0 <= i < |r| && i != 2 ==> r[i].available
  {
    [ Item(1, "Велосипед горный", "Отличное состояние, 21 скорость", true, 1),
      Item(2, "Палатка туристическая", "4-местная, водонепроницаемая", true, 2),
      Item(3, "Фотоаппарат Canon", "Зеркальная камера с объективом", false, 3),
      Item(4, "Сноуборд", "Размер 156см, с креплениями", true, 1),
      Item(5, "Швейная машинка", "Электрическая, многофункциональная", true, 2),
      Item(6, "Дрель ударная", "Мощная, с набором сверл", true, 3) ]
  }

  // ---------------------------------------------------------------------------
  // The store's invariant: every id is below its counter, and ids are distinct.

  predicate UserIdsBelow(us: seq<User>, next: int)
  {
    forall i :: 0 <= i < |us| ==> us[i].id < next
  }

  predicate ItemIdsBelow(its: seq<Item>, next: int)
  {
    forall i :: 0 <= i < |its| ==> its[i].id < next
  }

  predicate DistinctUserIds(us: seq<User>)
  {
    DistinctBy(us, (u: User) => u.id)
  }

  predicate DistinctItemIds(its: seq<Item>)
  {
    DistinctBy(its, (it: Item) => it.id)
  }

  /** The state invariant of the store. */
  predicate StoreInvariant(us: seq<User>, its: seq<Item>, nextUserId: int, nextItemId: int)
  {
    UserIdsBelow(us, nextUserId) && ItemIdsBelow(its, nextItemId) &&
    DistinctUserIds(us) && DistinctItemIds(its)
  }

  /** The seeded users have the distinct ids 1 to 3, all below the initial counter 4. */
  lemma SeedUsersValid()
    ensures UserIdsBelow(SeedUsers(), 4) && DistinctUserIds(SeedUsers())
  {
  }

  /** The seeded items have the distinct ids 1 to 6, all below the initial counter 7. */
  lemma SeedItemsValid()
    ensures ItemIdsBelow(SeedItems(), 7) && DistinctItemIds(SeedItems())
  {
  }

  /** Appending a record whose id is the counter keeps ids distinct and below the next counter. */
  lemma AppendFreshUser(us: seq<User>, u: User, next: int)
    requires UserIdsBelow(us, next) && DistinctUserIds(us) && u.id == next
    ensures UserIdsBelow(us + [u], next + 1) && DistinctUserIds(us + [u])
  {
    var s := us + [u];
    forall i, j | 0 <= i < j < |s|
      ensures s[i].id != s[j].id
    {
      if j == |us| {
        assert s[i] == us[i];
      } else {
        assert s[i] == us[i] && s[j] == us[j];
      }
    }
  }

  lemma AppendFreshItem(its: seq<Item>, it: Item, next: int)
    requires ItemIdsBelow(its, next) && DistinctItemIds(its) && it.id == next
    ensures ItemIdsBelow(its + [it], next + 1) && DistinctItemIds(its + [it])
  {
    var s := its + [it];
    forall i, j | 0 <= i < j < |s|
      ensures s[i].id != s[j].id
    {
      if j == |its| {
        assert s[i] == its[i];
      } else {
        assert s[i] == its[i] && s[j] == its[j];
      }
    }
  }

  // ---------------------------------------------------------------------------
  // Lookups by id (`find` / `findIndex` with `id === ...`).

  /** The index of the first user with id `id`, or -1. */
  function UserIndex(us: seq<User>, id: int): (k: int)
    ensures -1 <= k < |us|
    ensures k == -1 <==> forall i :: 0 <= i < |us| ==> us[i].id != id
    ensures 0 <= k ==> us[k].id == id && forall i :: 0 <= i < k ==> us[i].id != id
  {
    FindIndex(us, (u: User) => u.id == id)
  }

  /** The index of the first item with id `id`, or -1. */
  function ItemIndex(its: seq<Item>, id: int): (k: int)
    ensures -1 <= k < |its|
    ensures k == -1 <==> forall i :: 0 <= i < |its| ==> its[i].id != id
    ensures 0 <= k ==> its[k].id == id && forall i :: 0 <= i < k ==> its[i].id != id
  {
    FindIndex(its, (it: Item) => it.id == id)
  }

  /** A record appended with an id above every existing one is the one its id finds. */
  lemma UserIndexOfAppended(us: seq<User>, u: User)
    requires UserIdsBelow(us, u.id)
    ensures UserIndex(us + [u], u.id) == |us|
  {
    var s := us + [u];
    var k := UserIndex(s, u.id);
    assert s[|us|] == u;
  }

  lemma ItemIndexOfAppended(its: seq<Item>, it: Item)
    requires ItemIdsBelow(its, it.id)
    ensures ItemIndex(its + [it], it.id) == |its|
  {
    var s := its + [it];
    var k := ItemIndex(s, it.id);
    assert s[|its|] == it;
  }

  // ---------------------------------------------------------------------------
  // Partial updates. A text field is taken from the update when it is truthy,
  // that is present and non-empty; `available` is taken whenever present.

  predicate Supplied(s: Option<string>)
  {
    s.Some? && s.value != ""
  }

  /** The user after `{...u, ...(d.name && {name}), ...(d.email && {email})}`. */
  function ApplyUserUpdate(u: User, d: UserDtoUpdate): (r: User)
    ensures r.id == u.id
    ensures r.name == (if Supplied(d.name) then d.name.value else u.name)
    ensures r.email == (if Supplied(d.email) then d.email.value else u.email)
    ensures d.name == Some("") ==> r.name == u.name
    ensures d.email == Some("") ==> r.email == u.email
  {
    u.(name := if Supplied(d.name) then d.name.value else u.name,
       email := if Supplied(d.email) then d.email.value else u.email)
  }

  /** The item after the spread of the supplied fields; `id` and `idUser` of the update are ignored. */
  function ApplyItemUpdate(it: Item, d: ItemDtoUpdate): (r: Item)
    ensures r.id == it.id && r.idUser == it.idUser
    ensures r.name == (if Supplied(d.name) then d.name.value else it.name)
    ensures r.description == (if Supplied(d.description) then d.description.value else it.description)
    ensures r.available == (if d.available.Some? then d.available.value else it.available)
    ensures d.available == Some(false) ==> !r.available
  {
    it.(name := if Supplied(d.name) then d.name.value else it.name,
        description := if Supplied(d.description) then d.description.value else it.description,
        available := if d.available.Some? then d.available.value else it.available)
  }

  /** Applying the same user update twice gives the same user as applying it once. */
  lemma ApplyUserUpdateTwice(u: User, d: UserDtoUpdate)
    ensures ApplyUserUpdate(ApplyUserUpdate(u, d), d) == ApplyUserUpdate(u, d)
  {
  }

  /** Applying a successful user update a second time leaves the collection as the first left it. */
  lemma ReapplyUserUpdate(us: seq<User>, userId: int, d: UserDtoUpdate)
    requires UserIndex(us, userId) != -1
    ensures var k := UserIndex(us, userId);
            var once := us[k := ApplyUserUpdate(us[k], d)];
            UserIndex(once, userId) == k && once[k := ApplyUserUpdate(once[k], d)] == once
  {
    var k := UserIndex(us, userId);
    var once := us[k := ApplyUserUpdate(us[k], d)];
    assert forall i :: 0 <= i < |once| ==> once[i].id == us[i].id;
    ApplyUserUpdateTwice(us[k], d);
  }

  /** Applying a successful item update a second time leaves the collection as the first left it. */
  lemma ReapplyItemUpdate(its: seq<Item>, userId: int, itemId: int, d: ItemDtoUpdate)
    requires ItemIndex(its, itemId) != -1 && its[ItemIndex(its, itemId)].idUser == userId
    ensures var k := ItemIndex(its, itemId);
            var once := its[k := ApplyItemUpdate(its[k], d)];
            ItemIndex(once, itemId) == k && once[k].idUser == userId &&
            once[k := ApplyItemUpdate(once[k], d)] == once
  {
    var k := ItemIndex(its, itemId);
    var once := its[k := ApplyItemUpdate(its[k], d)];
    assert forall i :: 0 <= i < |once| ==> once[i].id == its[i].id;
  }

  // ---------------------------------------------------------------------------
  // The filters of deleteUser, deleteItem and getItems.

  /** `users.filter(u => u.id !== id)`. */
  function UsersWithoutId(us: seq<User>, id: int): (r: seq<User>)
    ensures forall i :: 0 <= i < |r| ==> r[i] in us && r[i].id != id
    ensures forall i :: 0 <= i < |us| && us[i].id != id ==> us[i] in r
    ensures IsSubsequence(r, us)
    ensures UserIndex(us, id) == -1 ==> r == us
  {
    Filter(us, (u: User) => u.id != id)
  }

  /** `items.filter(i => i.idUser !== userId)`. */
  function ItemsNotOwnedBy(its: seq<Item>, userId: int): (r: seq<Item>)
    ensures forall i :: 0 <= i < |r| ==> r[i] in its && r[i].idUser != userId
    ensures forall i :: 0 <= i < |its| && its[i].idUser != userId ==> its[i] in r
    ensures IsSubsequence(r, its)
    ensures (forall i :: 0 <= i < |its| ==> its[i].idUser != userId) ==> r == its
  {
    Filter(its, (it: Item) => it.idUser != userId)
  }

  /** `items.filter(i => i.id !== itemId)`. */
  function ItemsWithoutId(its: seq<Item>, itemId: int): (r: seq<Item>)
    ensures forall i :: 0 <= i < |r| ==> r[i] in its && r[i].id != itemId
    ensures forall i :: 0 <= i < |its| && its[i].id != itemId ==> its[i] in r
    ensures IsSubsequence(r, its)
    ensures ItemIndex(its, itemId) == -1 ==> r == its
  {
    Filter(its, (it: Item) => it.id != itemId)
  }

  /** `items.filter(i => i.idUser === userId)`. */
  function ItemsOwnedBy(its: seq<Item>, userId: int): (r: seq<Item>)
    ensures forall i :: 0 <= i < |r| ==> r[i] in its && r[i].idUser == userId
    ensures forall i :: 0 <= i < |its| && its[i].idUser == userId ==> its[i] in r
    ensures IsSubsequence(r, its)
  {
    Filter(its, (it: Item) => it.idUser == userId)
  }

  /** An item appended with owner `userId` comes last among that owner's items. */
  lemma {:induction false} ItemsOwnedByAppend(its: seq<Item>, it: Item, userId: int)
    ensures ItemsOwnedBy(its + [it], userId) ==
            ItemsOwnedBy(its, userId) + (if it.idUser == userId then [it] else [])
  {
    var p := (x: Item) => x.idUser == userId;
    FilterAppend(its, [it], p);
    assert [it][1..] == [];
  }

  /** `UsersWithoutId` keeps every copy of a user whose id differs and none of the others. */
  lemma UsersWithoutIdCopies(us: seq<User>, id: int)
    ensures forall u :: multiset(UsersWithoutId(us, id))[u] == (if u.id != id then multiset(us)[u] else 0)
  {
    FilterMultiplicity(us, (u: User) => u.id != id);
  }

  /** `ItemsNotOwnedBy` keeps every copy of an item of another owner and none of the others. */
  lemma ItemsNotOwnedByCopies(its: seq<Item>, userId: int)
    ensures forall it :: multiset(ItemsNotOwnedBy(its, userId))[it] ==
                         (if it.idUser != userId then multiset(its)[it] else 0)
  {
    FilterMultiplicity(its, (it: Item) => it.idUser != userId);
  }

  /** `ItemsWithoutId` keeps every copy of an item whose id differs and none of the others. */
  lemma ItemsWithoutIdCopies(its: seq<Item>, itemId: int)
    ensures forall it :: multiset(ItemsWithoutId(its, itemId))[it] == (if it.id != itemId then multiset(its)[it] else 0)
  {
    FilterMultiplicity(its, (it: Item) => it.id != itemId);
  }

  /** `ItemsOwnedBy` keeps every copy of an item of that owner and none of the others. */
  lemma ItemsOwnedByCopies(its: seq<Item>, userId: int)
    ensures forall it :: multiset(ItemsOwnedBy(its, userId))[it] ==
                         (if it.idUser == userId then multiset(its)[it] else 0)
  {
    FilterMultiplicity(its, (it: Item) => it.idUser == userId);
  }

  /** Filtering keeps the invariant of the store. */
  lemma FilterKeepsUserInvariant(us: seq<User>, p: User -> bool, next: int)
    requires UserIdsBelow(us, next) && DistinctUserIds(us)
    ensures UserIdsBelow(Filter(us, p), next) && DistinctUserIds(Filter(us, p))
  {
    FilterDistinct(us, p, (u: User) => u.id);
  }

  lemma FilterKeepsItemInvariant(its: seq<Item>, p: Item -> bool, next: int)
    requires ItemIdsBelow(its, next) && DistinctItemIds(its)
    ensures ItemIdsBelow(Filter(its, p), next) && DistinctItemIds(Filter(its, p))
  {
    FilterDistinct(its, p, (it: Item) => it.id);
  }

  /** The users `deleteUser` keeps satisfy the invariant, and none of them has the deleted id. */
  lemma UsersWithoutIdValid(us: seq<User>, id: int, next: int)
    requires UserIdsBelow(us, next) && DistinctUserIds(us)
    ensures UserIdsBelow(UsersWithoutId(us, id), next) && DistinctUserIds(UsersWithoutId(us, id))
    ensures UserIndex(UsersWithoutId(us, id), id) == -1
  {
    FilterKeepsUserInvariant(us, (u: User) => u.id != id, next);
  }

  /** The items `deleteUser` keeps satisfy the invariant. */
  lemma ItemsNotOwnedByValid(its: seq<Item>, userId: int, next: int)
    requires ItemIdsBelow(its, next) && DistinctItemIds(its)
    ensures ItemIdsBelow(ItemsNotOwnedBy(its, userId), next) && DistinctItemIds(ItemsNotOwnedBy(its, userId))
  {
    FilterKeepsItemInvariant(its, (it: Item) => it.idUser != userId, next);
  }

  /** The items `deleteItem` keeps satisfy the invariant, and none of them has the deleted id. */
  lemma ItemsWithoutIdValid(its: seq<Item>, itemId: int, next: int)
    requires ItemIdsBelow(its, next) && DistinctItemIds(its)
    ensures ItemIdsBelow(ItemsWithoutId(its, itemId), next) && DistinctItemIds(ItemsWithoutId(its, itemId))
    ensures ItemIndex(ItemsWithoutId(its, itemId), itemId) == -1
  {
    FilterKeepsItemInvariant(its, (it: Item) => it.id != itemId, next);
  }

  // ---------------------------------------------------------------------------
  // Search.

  /** The lowered query occurs in the lowered name or the lowered description of the item. */
  ghost predicate MatchesText(item: Item, text: string)
  {
    Occurs(Lower(item.name), Lower(text)) || Occurs(Lower(item.description), Lower(text))
  }

  /** The search test with an already lowered query. */
  predicate ContainsQuery(item: Item, query: string)
  {
    Contains(Lower(item.name), query) || Contains(Lower(item.description), query)
  }

  /** `searchItems`: lower the query once, then keep the items whose lowered name or description contains it. */
  function SearchResults(its: seq<Item>, text: string): (r: seq<Item>)
    ensures forall i :: 0 <= i < |r| ==> r[i] in its && MatchesText(r[i], text)
    ensures forall i :: 0 <= i < |its| && MatchesText(its[i], text) ==> its[i] in r
    ensures IsSubsequence(r, its)
    ensures (forall i :: 0 <= i < |its| ==> !MatchesText(its[i], text)) ==> r == []
  {
    ContainsIsOccurs();
    var query := Lower(text);
    Filter(its, (item: Item) => ContainsQuery(item, query))
  }

  /** The search keeps every copy of a matching item and none of the others. */
  lemma SearchResultsCopies(its: seq<Item>, text: string)
    ensures forall it :: multiset(SearchResults(its, text))[it] ==
                         (if MatchesText(it, text) then multiset(its)[it] else 0)
  {
    ContainsIsOccurs();
    var query := Lower(text);
    FilterMultiplicity(its, (item: Item) => ContainsQuery(item, query));
  }

  /** The search ignores the case of its text: searching for the lowered text gives the same items. */
  lemma SearchIgnoresTextCase(its: seq<Item>, text: string)
    ensures SearchResults(its, Lower(text)) == SearchResults(its, text)
  {
    LowerIdempotent(text);
  }

  /** The first item is kept exactly when it matches; the rest is searched alike. */
  lemma SearchResultsCons(its: seq<Item>, text: string)
    requires its != []
    ensures SearchResults(its, text) ==
            (if ContainsQuery(its[0], Lower(text)) then [its[0]] else []) + SearchResults(its[1..], text)
  {
  }

  // ---------------------------------------------------------------------------
  // The store.

  class MockApiService {
    var users: seq<User>
    var items: seq<Item>
    var nextUserId: nat
    var nextItemId: nat

    ghost predicate Valid()
      reads this
    {
      StoreInvariant(users, items, nextUserId, nextItemId)
    }

    /** The seeded store: three users, six items, and counters 4 and 7. */
    constructor ()
      ensures Valid()
      ensures users == SeedUsers() && items == SeedItems()
      ensures nextUserId == 4 && nextItemId == 7
    {
      SeedUsersValid();
      SeedItemsValid();
      users := SeedUsers();
      items := SeedItems();
      nextUserId := 4;
      nextItemId := 7;
    }

    /** `getUsers`: a copy of every user, in store order. */
    function GetUsers(): (r: seq<User>)
      reads this
      ensures |r| == |users| && forall i :: 0 <= i < |r| ==> r[i] == users[i]
    {
      users
    }

    /** `getUser`: the first user with the id, or 'User not found'. */
    function GetUser(userId: int): (r: Result<User, ApiError>)
      reads this
      ensures r.Failure? <==> forall i :: 0 <= i < |users| ==> users[i].id != userId
      ensures r.Failure? ==> r.error == NotFound(USER_NOT_FOUND)
      ensures r.Success? ==> r.value.id == userId && r.value in users
      ensures r.Success? ==> r.value == users[UserIndex(users, userId)]
    {
      var index := UserIndex(users, userId);
      if index == -1 then Failure(NotFound(USER_NOT_FOUND)) else Success(users[index])
    }

    /** `createUser`: the new user gets the current counter as id and is appended. */
    method CreateUser(user: NewUser) returns (newUser: User)
      requires Valid()
      modifies this`users, this`nextUserId
      ensures Valid()
      ensures newUser == User(old(nextUserId), user.name, user.email)
      ensures users == old(users) + [newUser] && nextUserId == old(nextUserId) + 1
      ensures items == old(items) && nextItemId == old(nextItemId)
      ensures GetUser(newUser.id) == Success(newUser)
      ensures forall i :: 0 <= i < |users| && users[i].id == newUser.id ==> i == |users| - 1
    {
      newUser := User(nextUserId, user.name, user.email);
      AppendFreshUser(users, newUser, nextUserId);
      UserIndexOfAppended(users, newUser);
      nextUserId := nextUserId + 1;
      users := users + [newUser];
    }

    /** `updateUser`: 'User not found' and no change, or the user at the found index updated in place. */
    method UpdateUser(userId: int, userData: UserDtoUpdate) returns (r: Result<User, ApiError>)
      requires Valid()
      modifies this`users
      ensures Valid()
      ensures var k := UserIndex(old(users), userId);
              if k == -1 then
                r == Failure(NotFound(USER_NOT_FOUND)) && users == old(users)
              else
                users == old(users)[k := ApplyUserUpdate(old(users)[k], userData)] &&
                r == Success(users[k])
      ensures items == old(items) && nextUserId == old(nextUserId) && nextItemId == old(nextItemId)
    {
      var index := UserIndex(users, userId);
      if index == -1 {
        return Failure(NotFound(USER_NOT_FOUND));
      }
      users := users[index := ApplyUserUpdate(users[index], userData)];
      assert forall i :: 0 <= i < |users| ==> users[i].id == old(users)[i].id;
      r := Success(users[index]);
    }

    /** `deleteUser`: remove every user with the id, then every item that user owned. */
    method DeleteUser(userId: int)
      requires Valid()
      modifies this`users, this`items
      ensures Valid()
      ensures users == UsersWithoutId(old(users), userId)
      ensures items == ItemsNotOwnedBy(old(items), userId)
      ensures nextUserId == old(nextUserId) && nextItemId == old(nextItemId)
      ensures GetUser(userId).Failure?
      ensures forall i :: 0 <= i < |items| ==> items[i].idUser != userId
    {
      UsersWithoutIdValid(users, userId, nextUserId);
      ItemsNotOwnedByValid(items, userId, nextItemId);
      users := UsersWithoutId(users, userId);
      items := ItemsNotOwnedBy(items, userId);
    }

    /** `getItems`: with a truthy user id the items of that owner, otherwise every item, in store order. */
    function GetItems(userId: Option<int>): (r: seq<Item>)
      reads this
      ensures userId.Some? && userId.value != 0 ==>
        (forall i :: 0 <= i < |r| ==> r[i] in items && r[i].idUser == userId.value) &&
        (forall i :: 0 <= i < |items| && items[i].idUser == userId.value ==> items[i] in r) &&
        IsSubsequence(r, items)
      ensures userId.None? || userId.value == 0 ==> r == items
    {
      if userId.Some? && userId.value != 0 then ItemsOwnedBy(items, userId.value) else items
    }

    /** `getItem`: the first item with the id, or 'Item not found'. */
    function GetItem(itemId: int): (r: Result<Item, ApiError>)
      reads this
      ensures r.Failure? <==> forall i :: 0 <= i < |items| ==> items[i].id != itemId
      ensures r.Failure? ==> r.error == NotFound(ITEM_NOT_FOUND)
      ensures r.Success? ==> r.value.id == itemId && r.value in items
      ensures r.Success? ==> r.value == items[ItemIndex(items, itemId)]
    {
      var index := ItemIndex(items, itemId);
      if index == -1 then Failure(NotFound(ITEM_NOT_FOUND)) else Success(items[index])
    }

    /** `createItem`: the new item gets the current counter as id and the given owner, and is appended. */
    method CreateItem(userId: int, itemData: NewItem) returns (newItem: Item)
      requires Valid()
      modifies this`items, this`nextItemId
      ensures Valid()
      ensures newItem == Item(old(nextItemId), itemData.name, itemData.description, itemData.available, userId)
      ensures items == old(items) + [newItem] && nextItemId == old(nextItemId) + 1
      ensures users == old(users) && nextUserId == old(nextUserId)
      ensures GetItem(newItem.id) == Success(newItem)
      ensures userId != 0 ==> GetItems(Some(userId)) == old(GetItems(Some(userId))) + [newItem]
      ensures GetItems(None) == old(GetItems(None)) + [newItem]
    {
      newItem := Item(nextItemId, itemData.name, itemData.description, itemData.available, userId);
      AppendFreshItem(items, newItem, nextItemId);
      ItemIndexOfAppended(items, newItem);
      ItemsOwnedByAppend(items, newItem, userId);
      nextItemId := nextItemId + 1;
      items := items + [newItem];
    }

    /** `updateItem`: 'Item not found', then 'Not your item' when the caller is not the owner, both without
     *  change; otherwise the item at the found index updated in place. */
    method UpdateItem(userId: int, itemId: int, itemData: ItemDtoUpdate) returns (r: Result<Item, ApiError>)
      requires Valid()
      modifies this`items
      ensures Valid()
      ensures var k := ItemIndex(old(items), itemId);
              if k == -1 then
                r == Failure(NotFound(ITEM_NOT_FOUND)) && items == old(items)
              else if old(items)[k].idUser != userId then
                r == Failure(Forbidden(NOT_YOUR_ITEM)) && items == old(items)
              else
                items == old(items)[k := ApplyItemUpdate(old(items)[k], itemData)] &&
                r == Success(items[k])
      ensures users == old(users) && nextUserId == old(nextUserId) && nextItemId == old(nextItemId)
    {
      var index := ItemIndex(items, itemId);
      if index == -1 {
        return Failure(NotFound(ITEM_NOT_FOUND));
      }
      if items[index].idUser != userId {
        return Failure(Forbidden(NOT_YOUR_ITEM));
      }
      items := items[index := ApplyItemUpdate(items[index], itemData)];
      assert forall i :: 0 <= i < |items| ==> items[i].id == old(items)[i].id;
      r := Success(items[index]);
    }

    /** `deleteItem`: remove every item with the id. */
    method DeleteItem(itemId: int)
      requires Valid()
      modifies this`items
      ensures Valid()
      ensures items == ItemsWithoutId(old(items), itemId)
      ensures users == old(users) && nextUserId == old(nextUserId) && nextItemId == old(nextItemId)
      ensures GetItem(itemId).Failure?
    {
      ItemsWithoutIdValid(items, itemId, nextItemId);
      items := ItemsWithoutId(items, itemId);
    }

    /** `searchItems`: the items whose lowered name or description contains the lowered text, in store order. */
    function SearchItems(text: string): (r: seq<Item>)
      reads this
      ensures forall i :: 0 <= i < |r| ==> r[i] in items && MatchesText(r[i], text)
      ensures forall i :: 0 <= i < |items| && MatchesText(items[i], text) ==> items[i] in r
      ensures IsSubsequence(r, items)
    {
      SearchResults(items, text)
    }
  }

  // ---------------------------------------------------------------------------
  // Repeating an update.

  /** Sending the same `updateUser` twice: the second call gives the same answer and changes nothing. */
  method UpdateUserTwice(svc: MockApiService, userId: int, userData: UserDtoUpdate)
    returns (first: Result<User, ApiError>, second: Result<User, ApiError>)
    requires svc.Valid()
    modifies svc`users
    ensures svc.Valid()
    ensures second == first
    ensures var k := UserIndex(old(svc.users), userId);
            svc.users == if k == -1 then old(svc.users)
                         else old(svc.users)[k := ApplyUserUpdate(old(svc.users)[k], userData)]
  {
    ghost var before := svc.users;
    first := svc.UpdateUser(userId, userData);
    if UserIndex(before, userId) != -1 {
      ReapplyUserUpdate(before, userId, userData);
    }
    second := svc.UpdateUser(userId, userData);
  }

  /** Sending the same `updateItem` twice: the second call gives the same answer and changes nothing. */
  method UpdateItemTwice(svc: MockApiService, userId: int, itemId: int, itemData: ItemDtoUpdate)
    returns (first: Result<Item, ApiError>, second: Result<Item, ApiError>)
    requires svc.Valid()
    modifies svc`items
    ensures svc.Valid()
    ensures second == first
    ensures var k := ItemIndex(old(svc.items), itemId);
            svc.items == if k == -1 || old(svc.items)[k].idUser != userId then old(svc.items)
                         else old(svc.items)[k := ApplyItemUpdate(old(svc.items)[k], itemData)]
  {
    ghost var before := svc.items;
    first := svc.UpdateItem(userId, itemId, itemData);
    if ItemIndex(before, itemId) != -1 && before[ItemIndex(before, itemId)].idUser == userId {
      ReapplyItemUpdate(before, userId, itemId, itemData);
    }
    second := svc.UpdateItem(userId, itemId, itemData);
  }
}
