/**
 * The two access-gate middlewares of index.js, as functions of the session
 * user. `Next` stands for calling `next()`; `Deny` for the response the gate
 * sends instead, which ends the request before the route's handler runs.
 */
module Gates {
  import opened Wrappers
  import opened Schema

  /** The path that renders the login form (the `GET /` route). */
  const LoginPage: string := "/"
  /** The path `requireLogin` redirects to as the code is written. */
  const LoginPathAsWritten: string := "/login"
  const AdminsOnly: string := "Access Denied: Admins Only"

  datatype Denial = RedirectTo(path: string) | Refuse(message: string)
  datatype Gate = Next | Deny(denial: Denial)

  /** `requireLogin` as written: an anonymous request is redirected to "/login". */
  function RequireLoginAsWritten(session: Option<User>): (g: Gate)
    ensures g.Next? <==> session.Some?
    ensures g.Deny? ==> g.denial == RedirectTo(LoginPathAsWritten)
  {
    if session.None? then Deny(RedirectTo(LoginPathAsWritten)) else Next
  }

  /** `requireLogin` as intended: an anonymous request is sent to the login form. */
  function RequireLogin(session: Option<User>): (g: Gate)
    ensures g.Next? <==> session.Some?
    ensures g.Deny? ==> g.denial == RedirectTo(LoginPage)
  {
    if session.None? then Deny(RedirectTo(LoginPage)) else Next
  }

  /** `requireAdmin`: only a session user whose role is exactly "admin" passes. */
  function RequireAdmin(session: Option<User>): (g: Gate)
    ensures g.Next? <==> session.Some? && session.value.role == AdminRole
    ensures g.Deny? ==> g.denial == Refuse(AdminsOnly)
  {
    if session.None? || session.value.role != AdminRole then Deny(Refuse(AdminsOnly)) else Next
  }

  /** Both gates read the same session user: whoever passes the admin gate passes the login gate. */
  lemma AdminPassesLogin(session: Option<User>)
    ensures RequireAdmin(session).Next? ==> RequireLogin(session).Next?
    ensures RequireLogin(session) == Next <==> RequireLoginAsWritten(session) == Next
  {
  }
}
