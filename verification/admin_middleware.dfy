/** `AdminMiddleware`: the gate in front of the dashboard routes. */
module AdminMiddleware {
  import opened Wrappers
  import opened Models

  /** The middleware either answers 403 itself or hands over to the next handler. */
  datatype Gate<R> =
    | Denied(status: nat, error: string, message: string)
    | Passed(response: R)

  /** `handle`: only an authenticated admin reaches `next`; everyone else gets a 403 with the fixed
      body. `next` is the rest of the pipeline, given here as a function of the user. */
  function Handle<R>(authUser: Option<User>, next: User -> R): (g: Gate<R>)
    ensures g.Passed? <==> authUser.Some? && authUser.value.isAdmin
    ensures g.Passed? ==> g.response == next(authUser.value)
    ensures g.Denied? ==> g == Denied(403, "Unauthorized", "Admin access required")
  {
    if authUser.None? || !authUser.value.isAdmin then Denied(403, "Unauthorized", "Admin access required")
    else Passed(next(authUser.value))
  }
}
