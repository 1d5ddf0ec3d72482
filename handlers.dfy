/**
 * The route handlers of index.js as functions from the database state (the
 * two collections plus the session store) to a tagged outcome and the new
 * state. Each request is one atomic step. The class in server.dfy performs
 * the same steps by updating its fields, and is proved equal to these.
 */
module Handlers {
  import opened Wrappers
  import opened Schema
  import opened Queries
  import opened Gates

  /** The cookie that selects a session in the session store. */
  type SessionId = string

  /**
   * The users and links collections, the session store (a session holds the
   * copy of the user document taken at login) and the next fresh `_id`.
   */
  datatype Db = Db(
    users: seq<User>,
    links: seq<Link>,
    sessions: map<SessionId, User>,
    nextId: UserId)

  /** The outcome of one request and the state it leaves behind. */
  datatype Step<O> = Step(out: O, db: Db)

  /** `req.session.user`. */
  function SessionUser(db: Db, sid: SessionId): (r: Option<User>)
    ensures r.Some? <==> sid in db.sessions
    ensures r.Some? ==> r.value == db.sessions[sid]
  {
    if sid in db.sessions then Some(db.sessions[sid]) else None
  }

  // ---------------------------------------------------------------- invariants

  /** Every `_id` in use is below the next one to be handed out. */
  ghost predicate IdsBelow(users: seq<User>, nextId: UserId)
  {
    forall i :: 0 <= i < |users| ==> users[i].id < nextId
  }

  ghost predicate Valid(db: Db)
  {
    UsernamesUnique(db.users) && IdsDistinct(db.users) && IdsBelow(db.users, db.nextId) && CodesUnique(db.links)
  }

  // ---------------------------------------------------------------- outcomes

  datatype RegisterOutcome = RequestSent | TakenOrError
  datatype LoginOutcome = BackToLogin | PendingApproval | ToAdmin | ToDashboard
  datatype ShortenOutcome = ShortenDenied(denial: Denial) | NameTaken | Shortened
  datatype DashboardOutcome = DashboardDenied(denial: Denial) | ShowDashboard(user: User, links: seq<Link>)
  datatype AdminPanelOutcome = PanelDenied(denial: Denial) | ShowUsers(users: seq<User>)
  datatype AdminOutcome = AdminDenied(denial: Denial) | ToAdminPanel
  datatype ResolveOutcome = OfferNotFound | DirectRedirect(url: string) | Interstitial(destination: string)

  // ---------------------------------------------------------------- handlers

  /**
   * `POST /register`. Saving fails, and the handler answers "taken or error",
   * when the username is already taken (unique index) or when a required
   * field is empty (`hashed` is the bcrypt hash of the password).
   */
  function Register(db: Db, username: string, hashed: string): (r: Step<RegisterOutcome>)
    ensures r.db.links == db.links && r.db.sessions == db.sessions
    ensures r.out == RequestSent <==> |r.db.users| == |db.users| + 1
    ensures r.out == TakenOrError ==> r.db == db
  {
    if !Present(username) || !Present(hashed) || FindUserNamed(db.users, username).Some? then
      Step(TakenOrError, db)
    else
      Step(RequestSent, db.(users := db.users + [NewUser(db.nextId, username, hashed)],
                            nextId := db.nextId + 1))
  }

  /**
   * `POST /login`. `matches` stands for `bcrypt.compare(plain, stored)`.
   * An unapproved account is answered before the password is looked at.
   */
  function Login(db: Db, sid: SessionId, username: string, password: string,
                 matches: (string, string) -> bool): (r: Step<LoginOutcome>)
    ensures r.db.users == db.users && r.db.links == db.links && r.db.nextId == db.nextId
    ensures r.out == BackToLogin || r.out == PendingApproval ==> r.db == db
    ensures r.out == ToAdmin || r.out == ToDashboard ==>
      sid in r.db.sessions && r.db.sessions[sid] in db.users && r.db.sessions[sid].isApproved
  {
    match FindUserNamed(db.users, username)
    case None => Step(BackToLogin, db)
    case Some(k) =>
      var user := db.users[k];
      if !user.isApproved then Step(PendingApproval, db)
      else if matches(password, user.password) then
        Step(if user.role == AdminRole then ToAdmin else ToDashboard,
             db.(sessions := db.sessions[sid := user]))
      else Step(BackToLogin, db)
  }

  /** `GET /logout`: the session is destroyed. */
  function Logout(db: Db, sid: SessionId): (r: Db)
    ensures r.users == db.users && r.links == db.links && r.nextId == db.nextId
    ensures r.sessions.Keys == db.sessions.Keys - {sid}
    ensures forall s :: s in r.sessions ==> r.sessions[s] == db.sessions[s]
  {
    db.(sessions := db.sessions - {sid})
  }

  /**
   * `GET /dashboard`: the session user and the links it owns. An anonymous
   * request gets the login gate's redirect, to "/login" as written.
   */
  function Dashboard(db: Db, sid: SessionId): (r: DashboardOutcome)
    ensures r.ShowDashboard? <==> sid in db.sessions
    ensures r.DashboardDenied? ==> r.denial == RedirectTo(LoginPathAsWritten)
    ensures r.ShowDashboard? ==>
      r.user == db.sessions[sid] && r.links == OwnedBy(db.links, r.user.username)
  {
    match RequireLoginAsWritten(SessionUser(db, sid))
    case Deny(d) => DashboardDenied(d)
    case Next =>
      var user := db.sessions[sid];
      ShowDashboard(user, OwnedBy(db.links, user.username))
  }

  /** `customAlias || shortid.generate()`: a missing alias is the empty string. */
  function ChooseCode(customAlias: string, generated: string): (r: string)
    ensures r == customAlias || r == generated
    ensures customAlias != "" ==> r == customAlias
    ensures r == "" ==> generated == ""
  {
    if customAlias != "" then customAlias else generated
  }

  /**
   * `POST /shorten`. An anonymous request gets the login gate's redirect, to
   * "/login" as written. The duplicate check looks at every link in the
   * store, not only the session user's.
   */
  function Shorten(db: Db, sid: SessionId, originalUrl: string, customAlias: string,
                   generated: string): (r: Step<ShortenOutcome>)
    ensures r.db.users == db.users && r.db.sessions == db.sessions && r.db.nextId == db.nextId
    ensures r.out == Shortened <==> |r.db.links| == |db.links| + 1
    ensures r.out != Shortened ==> r.db == db
  {
    match RequireLoginAsWritten(SessionUser(db, sid))
    case Deny(d) => Step(ShortenDenied(d), db)
    case Next =>
      var code := ChooseCode(customAlias, generated);
      if FindLink(db.links, code).Some? then Step(NameTaken, db)
      else Step(Shortened, db.(links := db.links + [NewLink(originalUrl, code, db.sessions[sid].username)]))
  }

  /** `GET /admin`: every user, for administrators only. */
  function AdminUsers(db: Db, sid: SessionId): (r: AdminPanelOutcome)
    ensures r.ShowUsers? <==> sid in db.sessions && db.sessions[sid].role == AdminRole
  {
    match RequireAdmin(SessionUser(db, sid))
    case Deny(d) => PanelDenied(d)
    case Next => ShowUsers(db.users)
  }

  /** `POST /admin/approve/:id`: an unknown id updates nothing and still redirects. */
  function Approve(db: Db, sid: SessionId, id: UserId): (r: Step<AdminOutcome>)
    ensures r.db.links == db.links && r.db.sessions == db.sessions && r.db.nextId == db.nextId
    ensures |r.db.users| == |db.users|
    ensures r.out.AdminDenied? ==> r.db == db
  {
    match RequireAdmin(SessionUser(db, sid))
    case Deny(d) => Step(AdminDenied(d), db)
    case Next =>
      match FindUserById(db.users, id)
      case None => Step(ToAdminPanel, db)
      case Some(k) => Step(ToAdminPanel, db.(users := db.users[k := db.users[k].(isApproved := true)]))
  }

  /** `POST /admin/delete/:id`: the user's links and sessions are left in place. */
  function Delete(db: Db, sid: SessionId, id: UserId): (r: Step<AdminOutcome>)
    ensures r.db.links == db.links && r.db.sessions == db.sessions && r.db.nextId == db.nextId
    ensures |r.db.users| <= |db.users| <= |r.db.users| + 1
    ensures r.out.AdminDenied? ==> r.db == db
  {
    match RequireAdmin(SessionUser(db, sid))
    case Deny(d) => Step(AdminDenied(d), db)
    case Next =>
      match FindUserById(db.users, id)
      case None => Step(ToAdminPanel, db)
      case Some(k) => Step(ToAdminPanel, db.(users := db.users[..k] + db.users[k + 1..]))
  }

  /** The plan check: only an owner that exists and is on the premium plan is redirected directly. */
  function PlanDecision(owner: Option<User>, url: string): (r: ResolveOutcome)
    ensures r == DirectRedirect(url) || r == Interstitial(url)
    ensures r.DirectRedirect? <==> owner.Some? && owner.value.plan == PremiumPlan
  {
    if owner.Some? && owner.value.plan == PremiumPlan then DirectRedirect(url) else Interstitial(url)
  }

  /**
   * `GET /:code`. The click is counted and saved before the owner is looked
   * up, so it is counted whatever the plan, and even when the owner is gone.
   */
  function Resolve(db: Db, code: string): (r: Step<ResolveOutcome>)
    ensures r.db.users == db.users && r.db.sessions == db.sessions && r.db.nextId == db.nextId
    ensures |r.db.links| == |db.links|
    ensures r.out == OfferNotFound <==> forall i :: 0 <= i < |db.links| ==> db.links[i].shortCode != code
    ensures r.out == OfferNotFound ==> r.db == db
  {
    match FindLink(db.links, code)
    case None => Step(OfferNotFound, db)
    case Some(i) =>
      var link := db.links[i].(clicks := db.links[i].clicks + 1);
      var owner := match FindUserNamed(db.users, link.owner)
                   case None => None
                   case Some(k) => Some(db.users[k]);
      Step(PlanDecision(owner, link.originalUrl), db.(links := db.links[i := link]))
  }
}
