/** `/api/lists`: the signed-in user's own lists, and creating a new one. */
module ListsRoute {
  import opened Wrappers
  import opened JsArray
  import opened Db
  import opened Http

  /** `GET /api/lists`: requires a session; exactly the session user's lists. */
  function Get(store: Store, session: Option<string>): (resp: Response)
    reads store
    ensures !Truthy(session) ==> resp == Fail(401, "Unauthorized")
    ensures Truthy(session) ==>
      && resp.status == 200 && resp.cookie.None? && resp.payload.ManyLists?
      && (forall l :: l in resp.payload.lists <==> l in store.lists && l.ownerId == session.value)
      && resp.payload.lists == store.GetLists(session.value)
  {
    if !Truthy(session) then Fail(401, "Unauthorized")
    else Ok(ManyLists(store.GetLists(session.value)))
  }

  /** `POST /api/lists`: requires a session; the new list belongs to the session user. */
  method Post(store: Store, session: Option<string>, title: string, description: Option<string>, freshId: string)
    returns (resp: Response)
    modifies store
    ensures !Truthy(session) ==> resp == Fail(401, "Unauthorized") && unchanged(store)
    ensures Truthy(session) ==>
      var list := GiftList(freshId, session.value, title, description, Some("default"));
      && store.lists == old(store.lists) + [list]
      && store.users == old(store.users) && store.items == old(store.items)
      && resp == Ok(OneList(list))
  {
    if !Truthy(session) {
      return Fail(401, "Unauthorized");
    }
    var newList := store.CreateList(GiftList(freshId, session.value, title, description, Some("default")));
    resp := Ok(OneList(newList));
  }

  /** After a list is appended, its owner's listing is the earlier one with the new list last. */
  lemma NewListComesLast(store: Store, before: seq<GiftList>, list: GiftList)
    requires list.ownerId != ""
    requires store.lists == before + [list]
    ensures Get(store, Some(list.ownerId)).payload.lists == Filter(before, ListOwnedBy(list.ownerId)) + [list]
  {
    FilterSnoc(before, list, ListOwnedBy(list.ownerId));
  }

  /** Creating a list and then listing one's lists shows the new list at the end. */
  method PostThenGet(store: Store, session: Option<string>, title: string, description: Option<string>, freshId: string)
    returns (created: Response, listed: Response)
    modifies store
    ensures Truthy(session) ==>
      && created.payload.OneList?
      && listed.status == 200 && listed.payload.ManyLists?
      && |listed.payload.lists| > 0
      && listed.payload.lists[|listed.payload.lists| - 1] == created.payload.list
      && listed.payload.lists[..|listed.payload.lists| - 1] == old(store.GetLists(session.value))
    ensures !Truthy(session) ==> created.status == 401 && listed.status == 401 && unchanged(store)
    ensures Truthy(session) ==>
      && created == Ok(OneList(GiftList(freshId, session.value, title, description, Some("default"))))
      && store.lists == old(store.lists) + [created.payload.list]
    ensures store.users == old(store.users) && store.items == old(store.items)
    ensures listed == Get(store, session)
  {
    ghost var before := store.lists;
    created := Post(store, session, title, description, freshId);
    if Truthy(session) {
      NewListComesLast(store, before, created.payload.list);
    }
    listed := Get(store, session);
  }
}
