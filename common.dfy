/** Shared vocabulary of the storefront's server actions: optional values,
    thrown errors, and the `{success, message, redirectTo}` replies. */
module Common {

  datatype Option<+T> = None | Some(value: T)

  /** Identifiers are the database's string keys; timestamps come from an
      outside clock and are only compared. */
  type Id = string
  type Time = int

  /** What an action can throw. The source's own `throw new Error(message)`
      keeps its message; a Zod parse failure, a refused database write (a row
      that is missing, a key that is taken), a refused credentials sign-in and
      a JavaScript runtime error are kept apart, because `formatError` turns
      them into text that is not part of this model. */
  datatype Error =
    | Thrown(message: string)
    | SchemaRejected
    | StoreRejected
    | SignInRejected
    | RuntimeError

  /** The value or the error of a call that may throw. */
  datatype Result<+T> = Ok(value: T) | Err(error: Error)

  /** The reply of a server action. `Declined` is an explicit
      `{success: false, message}`, with a `redirectTo` when the action gives
      one, `Failed` is the catch block's
      `{success: false, message: formatError(error)}`, and `RedirectRethrown`
      is Next.js's redirect signal passed on unchanged. */
  datatype ActionResult =
    | Succeeded(message: string, redirectTo: Option<string>)
    | Declined(message: string, redirectPath: Option<string>)
    | Failed(error: Error)
    | RedirectRethrown
  {
    predicate Success() { Succeeded? }
  }

  /** What `auth()` hands a server action when someone is signed in; the
      user's id may be missing from it. */
  datatype Session = Session(userId: Option<Id>)

  /** `session?.user?.id`. */
  function SessionUserId(session: Option<Session>): (r: Option<Id>)
    ensures r.Some? ==> session.Some? && session.value.userId == r
  {
    if session.Some? then session.value.userId else None
  }

  /** JavaScript truthiness of an optional string: absent and "" are false. */
  predicate Truthy(s: Option<string>) {
    s.Some? && s.value != ""
  }

  /** `rows.find(p)` / Prisma's `findFirst`: the position of the first row
      that satisfies `p`, if any. */
  function FindFirst<T>(rows: seq<T>, p: T -> bool): (r: Option<nat>)
    ensures r.Some? ==> r.value < |rows| && p(rows[r.value])
    ensures r.Some? ==> forall j :: 0 <= j < r.value ==> !p(rows[j])
    ensures r.None? ==> forall j :: 0 <= j < |rows| ==> !p(rows[j])
  {
    if rows == [] then None
    else if p(rows[0]) then Some(0)
    else match FindFirst(rows[1..], p)
      case None => None
      case Some(k) => Some(k + 1)
  }
}
