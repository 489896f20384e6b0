/** The record shapes the store exchanges with its callers. */
module ApiTypes {
  import opened Wrappers

  /** A registered user; `id` is assigned by the store. */
  datatype User = User(id: int, name: string, email: string)

  /** The argument of `createUser`: a user without its id. */
  datatype NewUser = NewUser(name: string, email: string)

  /** A partial user: every field may be left out. */
  datatype UserDtoUpdate = UserDtoUpdate(id: Option<int>, name: Option<string>, email: Option<string>)

  /** A lendable item; `idUser` is the id of its owner. */
  datatype Item = Item(id: int, name: string, description: string, available: bool, idUser: int)

  /** The argument of `createItem`: an item without its id and its owner. */
  datatype NewItem = NewItem(name: string, description: string, available: bool)

  /** A partial item: every field may be left out. */
  datatype ItemDtoUpdate = ItemDtoUpdate(
    id: Option<int>,
    name: Option<string>,
    description: Option<string>,
    available: Option<bool>,
    idUser: Option<int>)
}
