/** `POST /api/auth/login`: check credentials and sign the user in. */
module LoginRoute {
  import opened Wrappers
  import opened JsArray
  import opened Db
  import opened Http
  import RegisterRoute

  /**
   * Succeeds exactly when the first user with the username stores the given
   * password; then the session cookie carries that user's id. Never writes.
   */
  function Post(store: Store, username: Option<string>, password: Option<string>): (resp: Response)
    reads store
    ensures resp.status == 200 || resp == Fail(401, "Invalid credentials")
    ensures resp.status == 200 <==>
      && username.Some? && password.Some?
      && exists i :: IsFirst(store.users, UserNamed(username.value), i) && store.users[i].passwordHash == password.value
    ensures resp.status == 200 ==>
      && username.Some?
      && exists i :: && IsFirst(store.users, UserNamed(username.value), i)
                     && resp == Response(200, Account(store.users[i].id, store.users[i].username), Some(store.users[i].id))
  {
    if username.None? || password.None? then Fail(401, "Invalid credentials")
    else
      match store.GetUser(username.value)
      case None => Fail(401, "Invalid credentials")
      case Some(user) =>
        if user.passwordHash != password.value then Fail(401, "Invalid credentials")
        else Response(200, Account(user.id, user.username), Some(user.id))
  }

  /**
   * Once a user was appended under a username nobody had, logging in with its
   * password yields its id, and logging in with any other password fails.
   */
  lemma LoginAfterRegister(store: Store, before: seq<User>, id: string, username: string, password: string)
    requires store.users == before + [User(id, username, password)]
    requires forall i :: 0 <= i < |before| ==> before[i].username != username
    ensures Post(store, Some(username), Some(password)) == Response(200, Account(id, username), Some(id))
    ensures forall other :: other != password ==> Post(store, Some(username), Some(other)) == Fail(401, "Invalid credentials")
  {
    FindIndexSnoc(before, User(id, username, password), UserNamed(username));
  }

  /** Registering and then logging in with the same credentials signs in the new user. */
  method RegisterThenLogin(store: Store, username: string, password: string, freshId: string)
    returns (registered: Response, loggedIn: Response)
    modifies store
    ensures registered.status == 200 ==>
      && store.users == old(store.users) + [User(freshId, username, password)]
      && registered == Response(200, Account(freshId, username), Some(freshId))
    ensures registered.status != 200 ==> store.users == old(store.users)
    ensures store.lists == old(store.lists) && store.items == old(store.items)
    ensures loggedIn == Post(store, Some(username), Some(password))
    ensures registered.status == 200 ==> loggedIn == registered
    ensures registered.status == 200 <==> username != "" && password != "" && old(store.GetUser(username)).None?
  {
    ghost var before := store.users;
    registered := RegisterRoute.Post(store, Some(username), Some(password), freshId);
    if registered.status == 200 {
      LoginAfterRegister(store, before, freshId, username, password);
    }
    loggedIn := Post(store, Some(username), Some(password));
  }
}
