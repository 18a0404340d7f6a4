/**
  What the route handlers share: the JSON response they return and the
  identity of the caller. The session is given to each handler as the user
  id it carries, if any; a missing session, a missing user and an empty
  (falsy) id all mean "not signed in".
 */
module Http {
  import opened Wrappers

  /** `Ok` is a 200 response carrying its body; `Error` carries the status code and the `error` text. */
  datatype Response<T> = Ok(body: T) | Error(status: int, message: string)

  type UserId = string

  /** The signed-in user, or None when the handler must answer 401. */
  function Caller(session: Option<UserId>): (r: Option<UserId>)
    ensures r.Some? <==> session.Some? && session.value != ""
    ensures r.Some? ==> r == session
  {
    if session.Some? && session.value != "" then session else None
  }
}
