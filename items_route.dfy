/**
 * `/api/items`: creating an item on one's own list, and reading a list's
 * items, with the bought status hidden from the list's owner.
 */
module ItemsRoute {
  import opened Wrappers
  import opened JsArray
  import opened Db
  import opened Http

  /** The item shows nothing about whether it was bought, or by whom. */
  predicate Concealed(item: GiftItem) { !item.isBought && item.boughtBy.None? }

  /** `{ ...item, isBought: false, boughtBy: undefined }` */
  function Conceal(item: GiftItem): (r: GiftItem)
    ensures Concealed(r) && SameExceptStatus(r, item)
  {
    item.(isBought := false, boughtBy := None)
  }

  /** The owner's view of a list's items: same items, same order, status hidden. */
  function Mask(items: seq<GiftItem>): (r: seq<GiftItem>)
    ensures |r| == |items|
    ensures forall k :: 0 <= k < |r| ==> Concealed(r[k]) && SameExceptStatus(r[k], items[k])
  {
    if |items| == 0 then [] else [Conceal(items[0])] + Mask(items[1..])
  }

  /** Two item sequences that agree position by position on everything but the bought status. */
  ghost predicate StatusVariants(a: seq<GiftItem>, b: seq<GiftItem>) {
    |a| == |b| && forall k :: 0 <= k < |a| ==> SameExceptStatus(a[k], b[k])
  }

  /** Items that differ only in their bought status have the same owner's view. */
  lemma MaskIgnoresStatus(a: seq<GiftItem>, b: seq<GiftItem>)
    requires StatusVariants(a, b)
    ensures Mask(a) == Mask(b)
  {
  }

  /** Masking an already masked view changes nothing. */
  lemma MaskIdempotent(items: seq<GiftItem>)
    ensures Mask(Mask(items)) == Mask(items)
  {
  }

  lemma StatusVariantsCons(x: GiftItem, y: GiftItem, a: seq<GiftItem>, b: seq<GiftItem>)
    requires SameExceptStatus(x, y) && StatusVariants(a, b)
    ensures StatusVariants([x] + a, [y] + b)
  {
  }

  /** Selecting by list id does not look at the bought status. */
  lemma {:induction false} FilterIgnoresStatus(a: seq<GiftItem>, b: seq<GiftItem>, listId: string)
    requires StatusVariants(a, b)
    ensures StatusVariants(Filter(a, ItemOfList(listId)), Filter(b, ItemOfList(listId)))
  {
    var p := ItemOfList(listId);
    if |a| > 0 {
      assert SameExceptStatus(a[0], b[0]);
      assert StatusVariants(a[1..], b[1..]) by {
        assert forall k :: 0 <= k < |a| - 1 ==> a[1..][k] == a[k + 1] && b[1..][k] == b[k + 1];
      }
      FilterIgnoresStatus(a[1..], b[1..], listId);
      if p(a[0]) {
        StatusVariantsCons(a[0], b[0], Filter(a[1..], p), Filter(b[1..], p));
      }
    }
  }

  /**
   * Whatever a visitor does to the bought status of any item, the owner's view
   * of any list stays exactly as it was: the surprise is kept.
   */
  lemma OwnerViewIgnoresPurchases(items: seq<GiftItem>, listId: string, itemId: string, isBought: bool, boughtBy: Option<string>)
    ensures Mask(Filter(MarkItem(items, itemId, isBought, boughtBy), ItemOfList(listId)))
         == Mask(Filter(items, ItemOfList(listId)))
  {
    var marked := MarkItem(items, itemId, isBought, boughtBy);
    FilterIgnoresStatus(marked, items, listId);
    MaskIgnoresStatus(Filter(marked, ItemOfList(listId)), Filter(items, ItemOfList(listId)));
  }

  /** The list exists and the session user is its owner (`list.ownerId === userId`). */
  predicate IsOwner(store: Store, session: Option<string>, listId: string)
    reads store
  {
    var list := store.GetListById(listId);
    list.Some? && session == Some(list.value.ownerId)
  }

  /** `GET /api/items?listId=…`: public; masked for the list's owner, raw for everyone else. */
  function Get(store: Store, session: Option<string>, listId: Option<string>): (resp: Response)
    reads store
    ensures !Truthy(listId) ==> resp == Fail(400, "List ID required")
    ensures Truthy(listId) ==> resp.status == 200 && resp.payload.ManyItems? && resp.cookie.None?
    ensures Truthy(listId) && IsOwner(store, session, listId.value) ==>
      var stored := store.GetItems(listId.value);
      && |resp.payload.items| == |stored|
      && forall k :: 0 <= k < |stored| ==>
           Concealed(resp.payload.items[k]) && SameExceptStatus(resp.payload.items[k], stored[k])
    ensures Truthy(listId) && !IsOwner(store, session, listId.value) ==>
      resp.payload.items == store.GetItems(listId.value)
  {
    if !Truthy(listId) then Fail(400, "List ID required")
    else
      var listItems := store.GetItems(listId.value);
      var list := store.GetListById(listId.value);
      if list.Some? && session == Some(list.value.ownerId) then Ok(ManyItems(Mask(listItems)))
      else Ok(ManyItems(listItems))
  }

  /**
   * `POST /api/items`: requires a session and a list the session user owns;
   * stores a new, not yet bought item with the given id and timestamp.
   */
  method Post(store: Store, session: Option<string>, listId: string, name: string,
              url: Option<string>, price: Option<string>, imageUrl: Option<string>,
              freshId: string, now: int) returns (resp: Response)
    modifies store
    ensures !Truthy(session) ==> resp == Fail(401, "Unauthorized") && unchanged(store)
    ensures Truthy(session) && !old(IsOwner(store, session, listId)) ==>
      resp == Fail(404, "List not found or unauthorized") && unchanged(store)
    ensures Truthy(session) && old(IsOwner(store, session, listId)) ==>
      var item := GiftItem(freshId, listId, name, url, price, imageUrl, false, None, now);
      && store.items == old(store.items) + [item]
      && store.users == old(store.users) && store.lists == old(store.lists)
      && resp == Ok(OneItem(item))
  {
    if !Truthy(session) {
      return Fail(401, "Unauthorized");
    }
    var list := store.GetListById(listId);
    if list.None? || list.value.ownerId != session.value {
      return Fail(404, "List not found or unauthorized");
    }
    var newItem := store.CreateItem(GiftItem(freshId, listId, name, url, price, imageUrl, false, None, now));
    resp := Ok(OneItem(newItem));
  }

  /**
   * A visitor marks an item (bought or not, by anyone): the owner's view of
   * the list is the same before and after.
   */
  method MarkUnseenByOwner(store: Store, owner: Option<string>, listId: string,
                           itemId: string, isBought: bool, boughtBy: Option<string>)
    returns (before: Response, after: Response)
    requires listId != "" && IsOwner(store, owner, listId)
    modifies store
    ensures before == old(Get(store, owner, Some(listId))) && before.status == 200
    ensures store.items == MarkItem(old(store.items), itemId, isBought, boughtBy)
    ensures store.users == old(store.users) && store.lists == old(store.lists)
    ensures after == Get(store, owner, Some(listId)) && after == before
  {
    before := Get(store, owner, Some(listId));
    ghost var stored := store.items;
    var _ := store.UpdateItemStatus(itemId, isBought, boughtBy);
    OwnerViewIgnoresPurchases(stored, listId, itemId, isBought, boughtBy);
    after := Get(store, owner, Some(listId));
  }
}
