/**
 * What a route handler hands back: a status code, a JSON payload or an
 * error message, and the value of the `userId` session cookie it sets.
 */
module Http {
  import opened Wrappers
  import opened Db

  datatype Payload =
    | Account(id: string, username: string)
    | OneList(list: GiftList)
    | ManyLists(lists: seq<GiftList>)
    | OneItem(item: GiftItem)
    | ManyItems(items: seq<GiftItem>)
    | Failure(error: string)

  datatype Response = Response(status: int, payload: Payload, cookie: Option<string>)

  function Ok(payload: Payload): Response { Response(200, payload, None) }

  function Fail(status: int, error: string): Response { Response(status, Failure(error), None) }

  /**
   * JavaScript truthiness of an optional string (a cookie value, a body field,
   * a query parameter): absent and "" are both falsy.
   */
  predicate Truthy(s: Option<string>) { s.Some? && s.value != "" }
}
