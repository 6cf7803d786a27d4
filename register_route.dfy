/** `POST /api/auth/register`: create an account and sign it in. */
module RegisterRoute {
  import opened Wrappers
  import opened Db
  import opened Http

  /**
   * Both fields must be present and non-empty, and the username unused; the
   * new user gets the given id, the password as stored credential, and a
   * session cookie carrying that id.
   */
  method Post(store: Store, username: Option<string>, password: Option<string>, freshId: string)
    returns (resp: Response)
    modifies store
    ensures !Truthy(username) || !Truthy(password) ==>
      resp == Fail(400, "Missing fields") && unchanged(store)
    ensures Truthy(username) && Truthy(password) && old(store.GetUser(username.value)).Some? ==>
      resp == Fail(409, "Username already taken") && unchanged(store)
    ensures Truthy(username) && Truthy(password) && old(store.GetUser(username.value)).None? ==>
      && store.users == old(store.users) + [User(freshId, username.value, password.value)]
      && store.lists == old(store.lists) && store.items == old(store.items)
      && resp == Response(200, Account(freshId, username.value), Some(freshId))
  {
    if !Truthy(username) || !Truthy(password) {
      return Fail(400, "Missing fields");
    }
    var existingUser := store.GetUser(username.value);
    if existingUser.Some? {
      return Fail(409, "Username already taken");
    }
    var newUser := store.CreateUser(User(freshId, username.value, password.value));
    resp := Response(200, Account(newUser.id, newUser.username), Some(newUser.id));
  }
}
