# Gift-list store and request rules

This project models the core of a gift-wishlist web application. A user
registers, creates gift lists and adds items to them. Visitors mark items as
bought. The list's owner must never see which items were bought or by whom.

The model covers two parts:

- the file-backed data store. This is one document with three arrays, `users`,
  `lists` and `items`. In the model it is the class `Db.Store`, with one field
  per array. Its queries are functions and its writes are methods.
- the API route handlers built on the store: login, register, the lists
  endpoint and the items endpoint. Each handler takes three kinds of input:
  - the session cookie value, as an `Option<string>`;
  - the request's body fields, as parameters;
  - the fresh id and timestamp the source draws from `crypto.randomUUID()`
    and `Date.now()`, also as parameters.

  Each handler returns an `Http.Response`: a status code, a payload or error
  message, and the session cookie it sets, if any.

Modules:

- `Wrappers`: `Option`.
- `JsArray`: the array queries the store uses (`findIndex`, `find`, `filter`),
  with first-match and exact-filter contracts.
- `Db`:
  - the records `User`, `GiftList` and `GiftItem`;
  - the `Store` class;
  - `MarkItem`, the items array after a status update.
- `Http`: the response type and `Truthy`, which is JavaScript truthiness for
  an optional string.
- `ItemsRoute`, `RegisterRoute`, `LoginRoute`, `ListsRoute`: one module per
  route file.

Behaviour taken from the code:

- The guards `!userId`, `!username`, `!password` and `!listId` reject an empty
  string as well as an absent value (`Http.Truthy`).
- The items `GET` compares `list.ownerId === userId` without checking the
  session first. So the owner test is `session == Some(ownerId)`.
- Creating an item on a list that is missing, or that someone else owns,
  answers 404, not 401.
- Login compares the password only with the first user that has the username.

## Model

| member | source | states |
|---|---|---|
| JsArray.FindIndex | lib/db.ts:205 | -1 exactly when no element matches; otherwise the index of the first match |
| JsArray.Find | lib/db.ts:107 | none exactly when no element matches; otherwise the element at the first matching index |
| JsArray.Filter | lib/db.ts:131 | the result holds exactly the input elements that match, and is no longer than the input |
| JsArray.FilterCounts | lib/db.ts:171 | each matching element appears in the filter result as often as in the input; non-matching elements do not appear |
| JsArray.FilterAppend | lib/db.ts:131 | filtering a concatenation is the concatenation of the filtered parts, so stored order is kept |
| JsArray.FilterSnoc | lib/db.ts:158 | appending a record adds it at the end of the filtered view exactly when it matches |
| JsArray.FindIndexSnoc | lib/db.ts:118 | appending keeps an existing first match; otherwise the appended element is the first match if it matches |
| Db.MarkItem | lib/db.ts:205-210 | same length; every item keeps all fields except its status; only the first item with the id changes, and it takes the given isBought and boughtBy |
| Db.MarkItemKeepsLookup | lib/db.ts:205-210 | a status update moves no id, so a later lookup by any id finds the same position |
| Db.MarkItemLastWins | lib/db.ts:205-210 | of two status updates of the same item, the second one is what remains |
| Db.MarkItemUndo | lib/db.ts:205-210 | updating an item and then restoring its earlier status gives back exactly the stored items |
| Db.Store.constructor | lib/db.ts:85-88 | a new document has three empty arrays |
| Db.Store.GetUser | lib/db.ts:106-107 | none exactly when no user has the username; otherwise the first user with it |
| Db.Store.CreateUser | lib/db.ts:117-120 | appends exactly the given user to users, returns it, and leaves lists and items unchanged |
| Db.Store.GetLists | lib/db.ts:130-131 | exactly the stored lists with that ownerId; order and multiplicity follow from `JsArray.FilterAppend` and `JsArray.FilterCounts` about the `Filter` it returns |
| Db.Store.GetListById | lib/db.ts:146-147 | none exactly when no list has the id; otherwise the first list with it |
| Db.Store.CreateList | lib/db.ts:157-160 | appends exactly the given list to lists, returns it, and leaves users and items unchanged |
| Db.Store.GetItems | lib/db.ts:170-171 | exactly the stored items with that listId; order and multiplicity follow from `JsArray.FilterAppend` and `JsArray.FilterCounts` about the `Filter` it returns |
| Db.Store.CreateItem | lib/db.ts:181-184 | appends exactly the given item to items, returns it, and leaves users and lists unchanged |
| Db.Store.UpdateItemStatus | lib/db.ts:204-212 | null exactly when no item has the id, with items unchanged; otherwise items becomes MarkItem of the old items and the updated first match is returned; users and lists unchanged |
| Db.Store.DeleteItem | lib/db.ts:222-229 | true exactly when some item has the id; then the first such item is cut out, the rest keep their order and items is one shorter; otherwise nothing changes |
| ItemsRoute.Conceal | app/api/items/route.ts:51-55 | the item shows no bought status and keeps every other field |
| ItemsRoute.Mask | app/api/items/route.ts:51-55 | same length and order; every item has isBought false and no boughtBy; all other fields equal the stored ones |
| ItemsRoute.MaskIdempotent | app/api/items/route.ts:51-55 | masking a masked view changes nothing |
| ItemsRoute.MaskIgnoresStatus | app/api/items/route.ts:51-55 | item sequences that differ only in bought status have the same masked view |
| ItemsRoute.FilterIgnoresStatus | lib/db.ts:171 | selecting by listId from item sequences that differ only in bought status gives sequences that differ only in bought status |
| ItemsRoute.OwnerViewIgnoresPurchases | app/api/items/route.ts:43-56 | after any status update of any item, the owner's masked view of every list is unchanged |
| ItemsRoute.Get | app/api/items/route.ts:35-59 | 400 without a listId; otherwise 200 with the list's items, masked field by field when the requester owns the list and exactly as stored for anyone else |
| ItemsRoute.Post | app/api/items/route.ts:5-33 | 401 with no session and 404 when the list is missing or owned by someone else, both without a write; otherwise exactly one new item with the given fields, isBought false, no boughtBy, the fresh id and the timestamp is appended and returned |
| ItemsRoute.MarkUnseenByOwner | app/api/items/route.ts:43-56 | a status update between two owner reads of a list turns the items into `MarkItem` of the old ones, leaves users and lists unchanged, and leaves the owner's response identical |
| RegisterRoute.Post | app/api/auth/register/route.ts:5-27 | 400 for a missing or empty field and 409 for a taken username, both with the store unchanged; otherwise exactly one user with the fresh id, the username and the password as passwordHash is appended, and the response carries {id, username} and the session cookie with the new id |
| LoginRoute.Post | app/api/auth/login/route.ts:5-17 | 200 exactly when the first user with the username stores the given password; then the response carries that user's {id, username} and the session cookie with its id; otherwise 401 |
| LoginRoute.LoginAfterRegister | app/api/auth/login/route.ts:9-17 | after a user is appended under an unused username, login with its password yields its id, and login with any other password yields 401 |
| LoginRoute.RegisterThenLogin | app/api/auth/register/route.ts:13-27 | registration succeeds exactly for non-empty credentials with an unused username and then appends exactly the new user; otherwise users are unchanged; on success, the login response on the new store equals the registration response |
| ListsRoute.Get | app/api/lists/route.ts:5-14 | 401 with no session; otherwise 200 with exactly the session user's lists, as `getLists` returns them |
| ListsRoute.Post | app/api/lists/route.ts:17-35 | 401 with no session and the store unchanged; otherwise exactly one list is appended and returned, with the fresh id, the session user as ownerId, the given title and description, and theme "default" |
| ListsRoute.NewListComesLast | app/api/lists/route.ts:13-14 | after a list is appended, its owner's listing is the earlier listing followed by the new list |
| ListsRoute.PostThenGet | app/api/lists/route.ts:27-35 | with a session, creation answers 200 with the list holding the fresh id, the session user as owner, the given title and description and theme "default", appends that list, and the following listing on the new store shows the earlier lists, then the new list last; without a session nothing changes |

## Left out

- The MongoDB branch of every store function and `connectMongo`. These are calls into a database library that the model cannot see. The model stands for the JSON-file backend only, and the unused `query` variable of that branch is not modelled.
- `readJsonDb` and `writeJsonDb` with their JSON round trip to disk. This is file I/O. One `Store` object stands for the document.
- Lost updates between concurrent read-modify-write cycles of the file. Operations are modelled as atomic and sequential.
- Cookie transport, `NextResponse` and `req.json()` parsing. The session cookie value and the body fields are parameters. Body fields that the code uses without a check (`listId`, `name`, `title`) are strings, so an absent field, or one of a non-string type, is not modelled: without a `listId` the source answers 404, and without a `name` it stores an item that has no name. The optional fields and `username`/`password` are optional strings, so a non-string value there is not modelled either.
- `crypto.randomUUID()` and `Date.now()` are parameters. The model does not assume the id is fresh, because the code does not check it.
- The 500 responses of the register and login routes. They only catch exceptions from I/O and body parsing that are not modelled (a malformed or `null` body), so the login error log is left out too.
- app/api/items/[id]/route.ts (the PUT and DELETE item handlers) is not part of this model. The store operations they call, `UpdateItemStatus` and `DeleteItem`, are.
- The page renders and client forms (`app/page.tsx`, `app/login/page.tsx`, `app/dashboard/*`, `app/list/[id]/*`). These are markup and client state.
