/**
 * The file-backed data store: one document holding the arrays `users`,
 * `lists` and `items`. Every operation reads the whole document, changes it
 * and writes it back; run one after another, that is an in-place update of
 * the one `Store` object below.
 */
module Db {
  import opened Wrappers
  import opened JsArray

  datatype User = User(id: string, username: string, passwordHash: string)

  datatype GiftList = GiftList(
    id: string,
    ownerId: string,
    title: string,
    description: Option<string>,
    theme: Option<string>)

  datatype GiftItem = GiftItem(
    id: string,
    listId: string,
    name: string,
    url: Option<string>,
    price: Option<string>,
    imageUrl: Option<string>,
    isBought: bool,
    boughtBy: Option<string>,
    createdAt: int)

  // The callbacks handed to `find`, `findIndex` and `filter`.
  function UserNamed(username: string): User -> bool { (u: User) => u.username == username }
  function ListWithId(id: string): GiftList -> bool { (l: GiftList) => l.id == id }
  function ListOwnedBy(ownerId: string): GiftList -> bool { (l: GiftList) => l.ownerId == ownerId }
  function ItemWithId(id: string): GiftItem -> bool { (i: GiftItem) => i.id == id }
  function ItemOfList(listId: string): GiftItem -> bool { (i: GiftItem) => i.listId == listId }

  /** `a` and `b` agree on every field except the bought status. */
  predicate SameExceptStatus(a: GiftItem, b: GiftItem) {
    && a.id == b.id
    && a.listId == b.listId
    && a.name == b.name
    && a.url == b.url
    && a.price == b.price
    && a.imageUrl == b.imageUrl
    && a.createdAt == b.createdAt
  }

  /**
   * The items array after `updateItemStatus`: the first item with the id, if
   * any, takes the new `isBought` and `boughtBy`; nothing else changes.
   */
  function MarkItem(items: seq<GiftItem>, itemId: string, isBought: bool, boughtBy: Option<string>): (r: seq<GiftItem>)
    ensures |r| == |items|
    ensures forall k :: 0 <= k < |items| ==> SameExceptStatus(r[k], items[k])
    ensures forall k :: 0 <= k < |items| && !IsFirst(items, ItemWithId(itemId), k) ==> r[k] == items[k]
    ensures forall k :: IsFirst(items, ItemWithId(itemId), k) ==> r[k].isBought == isBought && r[k].boughtBy == boughtBy
  {
    var i := FindIndex(items, ItemWithId(itemId));
    if i == -1 then items
    else items[i := items[i].(isBought := isBought, boughtBy := boughtBy)]
  }

  /** Ids do not move, so a later lookup by id finds the same position. */
  lemma MarkItemKeepsLookup(items: seq<GiftItem>, itemId: string, isBought: bool, boughtBy: Option<string>, id: string)
    ensures FindIndex(MarkItem(items, itemId, isBought, boughtBy), ItemWithId(id)) == FindIndex(items, ItemWithId(id))
  {
  }

  /** The second of two status updates of the same item is the one that stays. */
  lemma MarkItemLastWins(items: seq<GiftItem>, itemId: string, b1: bool, by1: Option<string>, b2: bool, by2: Option<string>)
    ensures MarkItem(MarkItem(items, itemId, b1, by1), itemId, b2, by2) == MarkItem(items, itemId, b2, by2)
  {
  }

  /**
   * Marking an item and then marking it back with the status it had before
   * (false then true then false, say) gives back exactly the stored items.
   */
  lemma MarkItemUndo(items: seq<GiftItem>, itemId: string, i: int, isBought: bool, boughtBy: Option<string>)
    requires IsFirst(items, ItemWithId(itemId), i)
    ensures MarkItem(MarkItem(items, itemId, isBought, boughtBy), itemId, items[i].isBought, items[i].boughtBy) == items
  {
  }

  class Store {
    var users: seq<User>
    var lists: seq<GiftList>
    var items: seq<GiftItem>

    /** The document written when no data file exists yet. */
    constructor ()
      ensures users == [] && lists == [] && items == []
    {
      users, lists, items := [], [], [];
    }

    /** `getUser`: the first user with that username, or none. */
    function GetUser(username: string): (r: Option<User>)
      reads this
      ensures r.None? <==> forall i :: 0 <= i < |users| ==> users[i].username != username
      ensures r.Some? ==> r.value.username == username
      ensures r.Some? ==> exists i :: IsFirst(users, UserNamed(username), i) && users[i] == r.value
    {
      Find(users, UserNamed(username))
    }

    /** `createUser`: appends the record and returns it. */
    method CreateUser(user: User) returns (r: User)
      modifies this
      ensures users == old(users) + [user]
      ensures lists == old(lists) && items == old(items)
      ensures r == user
    {
      users := users + [user];
      r := user;
    }

    /** `getLists`: exactly the lists with that owner, in stored order. */
    function GetLists(ownerId: string): (r: seq<GiftList>)
      reads this
      ensures forall l :: l in r <==> l in lists && l.ownerId == ownerId
    {
      Filter(lists, ListOwnedBy(ownerId))
    }

    /** `getListById`: the first list with that id, or none. */
    function GetListById(id: string): (r: Option<GiftList>)
      reads this
      ensures r.None? <==> forall i :: 0 <= i < |lists| ==> lists[i].id != id
      ensures r.Some? ==> r.value.id == id
      ensures r.Some? ==> exists i :: IsFirst(lists, ListWithId(id), i) && lists[i] == r.value
    {
      Find(lists, ListWithId(id))
    }

    /** `createList`: appends the record and returns it. */
    method CreateList(list: GiftList) returns (r: GiftList)
      modifies this
      ensures lists == old(lists) + [list]
      ensures users == old(users) && items == old(items)
      ensures r == list
    {
      lists := lists + [list];
      r := list;
    }

    /** `getItems`: exactly the items of that list, in stored order. */
    function GetItems(listId: string): (r: seq<GiftItem>)
      reads this
      ensures forall i :: i in r <==> i in items && i.listId == listId
    {
      Filter(items, ItemOfList(listId))
    }

    /** `createItem`: appends the record and returns it. */
    method CreateItem(item: GiftItem) returns (r: GiftItem)
      modifies this
      ensures items == old(items) + [item]
      ensures users == old(users) && lists == old(lists)
      ensures r == item
    {
      items := items + [item];
      r := item;
    }

    /**
     * `updateItemStatus`: sets `isBought` and `boughtBy` of the first item with
     * the id and returns it; returns null, changing nothing, when there is none.
     */
    method UpdateItemStatus(itemId: string, isBought: bool, boughtBy: Option<string>) returns (r: Option<GiftItem>)
      modifies this
      ensures r.None? <==> forall k :: 0 <= k < |old(items)| ==> old(items)[k].id != itemId
      ensures items == MarkItem(old(items), itemId, isBought, boughtBy)
      ensures r.Some? ==> exists i :: IsFirst(old(items), ItemWithId(itemId), i) && r.value == items[i]
      ensures users == old(users) && lists == old(lists)
    {
      var index := FindIndex(items, ItemWithId(itemId));
      if index != -1 {
        items := items[index := items[index].(isBought := isBought, boughtBy := boughtBy)];
        r := Some(items[index]);
      } else {
        r := None;
      }
    }

    /**
     * `deleteItem`: removes the first item with the id, keeping the others in
     * order, and answers whether anything was removed.
     */
    method DeleteItem(itemId: string) returns (removed: bool)
      modifies this
      ensures removed <==> exists k :: 0 <= k < |old(items)| && old(items)[k].id == itemId
      ensures !removed ==> items == old(items)
      ensures removed ==> |items| == |old(items)| - 1
      ensures removed ==> exists i :: IsFirst(old(items), ItemWithId(itemId), i) && items == old(items)[..i] + old(items)[i + 1..]
      ensures users == old(users) && lists == old(lists)
    {
      var index := FindIndex(items, ItemWithId(itemId));
      if index != -1 {
        items := items[..index] + items[index + 1..];
        removed := true;
      } else {
        removed := false;
      }
    }
  }
}
