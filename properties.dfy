/**
 * What the handlers of index.js promise, proved about the functions of
 * module Handlers: the outcome of each request, what it changes and what it
 * leaves alone, the invariants of the store, and a few request sequences.
 */
module Properties {
  import opened Wrappers
  import opened Schema
  import opened Queries
  import opened Gates
  import opened Handlers
  import Routes

  /** `links[i]` is the first link whose code is `code`: what `findOne` returns. */
  ghost predicate FirstWithCode(links: seq<Link>, code: string, i: nat)
  {
    i < |links| && links[i].shortCode == code && forall j :: 0 <= j < i ==> links[j].shortCode != code
  }

  // ---------------------------------------------------------------- resolution

  /** An unknown code is answered "not found" and nothing changes. */
  lemma ResolveUnknownCode(db: Db, code: string)
    requires forall i :: 0 <= i < |db.links| ==> db.links[i].shortCode != code
    ensures Resolve(db, code) == Step(OfferNotFound, db)
  {
  }

  /** A known code adds exactly one click to the first link with that code, and to nothing else. */
  lemma ResolveCountsOneClick(db: Db, code: string, i: nat)
    requires FirstWithCode(db.links, code, i)
    ensures |Resolve(db, code).db.links| == |db.links|
    ensures Resolve(db, code).db.links[i] == db.links[i].(clicks := db.links[i].clicks + 1)
    ensures forall j :: 0 <= j < |db.links| && j != i ==> Resolve(db, code).db.links[j] == db.links[j]
    ensures Resolve(db, code).db.(links := db.links) == db
  {
  }

  /**
   * The answer for a known code: a direct redirect when the owner exists and
   * is premium, otherwise the interstitial page; both carry the link's URL.
   */
  lemma ResolveByPlan(db: Db, code: string, i: nat)
    requires UsernamesUnique(db.users)
    requires FirstWithCode(db.links, code, i)
    ensures Resolve(db, code).out ==
      if exists k :: 0 <= k < |db.users| && db.users[k].username == db.links[i].owner && db.users[k].plan == PremiumPlan
      then DirectRedirect(db.links[i].originalUrl)
      else Interstitial(db.links[i].originalUrl)
  {
    var owner := db.links[i].owner;
    match FindUserNamed(db.users, owner)
    case None =>
    case Some(k) =>
      forall k' | 0 <= k' < |db.users| && db.users[k'].username == owner
        ensures k' == k
      {
      }
  }

  /** The click is counted whoever the owner is: the new links do not depend on the users at all. */
  lemma ResolveClickIgnoresOwner(db: Db, users: seq<User>, code: string)
    ensures Resolve(db, code).db.links == Resolve(db.(users := users), code).db.links
    ensures Resolve(db, code).out.OfferNotFound? == Resolve(db.(users := users), code).out.OfferNotFound?
  {
  }

  /** After an admin deletes a link's owner, the link still counts clicks but only shows the interstitial. */
  lemma DeletedOwnerGetsInterstitial(db: Db, admin: SessionId, k: nat, code: string, i: nat)
    requires Valid(db)
    requires RequireAdmin(SessionUser(db, admin)).Next?
    requires k < |db.users| && FirstWithCode(db.links, code, i) && db.links[i].owner == db.users[k].username
    ensures Delete(db, admin, db.users[k].id).out == ToAdminPanel
    ensures Resolve(Delete(db, admin, db.users[k].id).db, code).out == Interstitial(db.links[i].originalUrl)
    ensures Resolve(Delete(db, admin, db.users[k].id).db, code).db.links[i].clicks == db.links[i].clicks + 1
  {
    FindUniqueId(db.users, k);
    var db1 := Delete(db, admin, db.users[k].id).db;
    assert db1.users == db.users[..k] + db.users[k + 1..];
    assert db1.links == db.links;
    forall j | 0 <= j < |db1.users|
      ensures db1.users[j].username != db.links[i].owner
    {
      if j < k { assert db1.users[j] == db.users[j]; } else { assert db1.users[j] == db.users[j + 1]; }
    }
    ResolveByPlan(db1, code, i);
    ResolveCountsOneClick(db1, code, i);
  }

  /**
   * As written, the login gate's redirect lands on the resolver: when some
   * link is called "login", an anonymous visitor following it counts a click
   * on that link and is sent to its URL.
   */
  lemma LoginRedirectAsWrittenCountsClick(db: Db, i: nat)
    requires UsernamesUnique(db.users)
    requires FirstWithCode(db.links, "login", i)
    ensures Routes.Route(RequireLoginAsWritten(None).denial.path) == Routes.ResolveCode("login")
    ensures Resolve(db, "login").db.links[i].clicks == db.links[i].clicks + 1
    ensures Resolve(db, "login").out in {DirectRedirect(db.links[i].originalUrl), Interstitial(db.links[i].originalUrl)}
  {
    Routes.LoginRedirectAsWrittenMisses();
    ResolveCountsOneClick(db, "login", i);
    ResolveByPlan(db, "login", i);
  }

  // ---------------------------------------------------------------- shortening

  /** Without a session user the request is redirected to "/login" and nothing changes. */
  lemma ShortenNeedsLogin(db: Db, sid: SessionId, originalUrl: string, customAlias: string, generated: string)
    requires sid !in db.sessions
    ensures Shorten(db, sid, originalUrl, customAlias, generated) == Step(ShortenDenied(RedirectTo(LoginPathAsWritten)), db)
    ensures Dashboard(db, sid) == DashboardDenied(RedirectTo(LoginPathAsWritten))
  {
  }

  /**
   * The corrected login gate lets the same requests through as the one the
   * handlers use, so putting it in their place changes only where an
   * anonymous request is sent: to the login form.
   */
  lemma CorrectedGateOnlyMovesRedirect(db: Db, sid: SessionId)
    ensures RequireLogin(SessionUser(db, sid)).Next? <==> RequireLoginAsWritten(SessionUser(db, sid)).Next?
    ensures sid !in db.sessions ==>
      Routes.Route(RequireLogin(SessionUser(db, sid)).denial.path) == Routes.LoginForm &&
      Routes.Route(RequireLoginAsWritten(SessionUser(db, sid)).denial.path) == Routes.ResolveCode("login")
  {
    Routes.LoginRedirectAsWrittenMisses();
  }

  /** A code that any link in the store already has, whoever owns it, is refused and nothing changes. */
  lemma ShortenRejectsTakenCode(db: Db, sid: SessionId, originalUrl: string, customAlias: string,
                                generated: string, j: nat)
    requires sid in db.sessions
    requires j < |db.links| && db.links[j].shortCode == (if customAlias != "" then customAlias else generated)
    ensures Shorten(db, sid, originalUrl, customAlias, generated) == Step(NameTaken, db)
  {
  }

  /**
   * A fresh code appends exactly one link: the given URL, the alias (or the
   * generated code when there is no alias), the session user as owner, and
   * no clicks. The rest of the state is unchanged.
   */
  lemma ShortenAppends(db: Db, sid: SessionId, originalUrl: string, customAlias: string, generated: string)
    requires sid in db.sessions
    requires forall j :: 0 <= j < |db.links| ==>
      db.links[j].shortCode != (if customAlias != "" then customAlias else generated)
    ensures Shorten(db, sid, originalUrl, customAlias, generated) ==
      Step(Shortened, db.(links := db.links +
        [Link(originalUrl, if customAlias != "" then customAlias else generated, db.sessions[sid].username, 0)]))
  {
  }

  /** The link a successful shorten makes is the one its code resolves to; its first visit counts one click. */
  lemma ShortenThenResolve(db: Db, sid: SessionId, originalUrl: string, customAlias: string, generated: string)
    requires Shorten(db, sid, originalUrl, customAlias, generated).out == Shortened
    ensures var db1 := Shorten(db, sid, originalUrl, customAlias, generated).db;
      && Resolve(db1, ChooseCode(customAlias, generated)).db.links[|db.links|].clicks == 1
      && Resolve(db1, ChooseCode(customAlias, generated)).out in {DirectRedirect(originalUrl), Interstitial(originalUrl)}
  {
    var code := ChooseCode(customAlias, generated);
    var db1 := Shorten(db, sid, originalUrl, customAlias, generated).db;
    assert FindLink(db.links, code).None?;
    assert db1.links == db.links + [NewLink(originalUrl, code, db.sessions[sid].username)];
    assert forall j :: 0 <= j < |db.links| ==> db1.links[j] == db.links[j];
  }

  /** The dashboard shows the session user and exactly the links it owns. */
  lemma DashboardShowsOwnLinks(db: Db, sid: SessionId)
    requires sid in db.sessions
    ensures Dashboard(db, sid).ShowDashboard?
    ensures Dashboard(db, sid).user == db.sessions[sid]
    ensures forall l :: l in Dashboard(db, sid).links <==> l in db.links && l.owner == db.sessions[sid].username
  {
  }

  // ---------------------------------------------------------------- accounts

  /** A new, non-empty username adds one user with the defaults: role "user", plan "free", not approved. */
  lemma RegisterAddsUser(db: Db, username: string, hashed: string)
    requires username != "" && hashed != ""
    requires forall k :: 0 <= k < |db.users| ==> db.users[k].username != username
    ensures Register(db, username, hashed) ==
      Step(RequestSent, db.(users := db.users + [User(db.nextId, username, hashed, "user", "free", false)],
                            nextId := db.nextId + 1))
  {
  }

  /** A taken or empty username (or an empty hash) is refused and nothing changes. */
  lemma RegisterRefused(db: Db, username: string, hashed: string)
    requires username == "" || hashed == "" || exists k :: 0 <= k < |db.users| && db.users[k].username == username
    ensures Register(db, username, hashed) == Step(TakenOrError, db)
  {
  }

  /** Login with an unknown username goes back to the login form, nothing changes. */
  lemma LoginUnknownUser(db: Db, sid: SessionId, username: string, password: string,
                         matches: (string, string) -> bool)
    requires forall k :: 0 <= k < |db.users| ==> db.users[k].username != username
    ensures Login(db, sid, username, password, matches) == Step(BackToLogin, db)
  {
  }

  /** Login to an unapproved account is "pending" whatever the password and however it is checked. */
  lemma LoginPending(db: Db, sid: SessionId, password: string, matches: (string, string) -> bool, k: nat)
    requires UsernamesUnique(db.users)
    requires k < |db.users| && !db.users[k].isApproved
    ensures Login(db, sid, db.users[k].username, password, matches) == Step(PendingApproval, db)
  {
    FindUniqueName(db.users, k);
  }

  /**
   * Login to an approved account: a matching password stores the user in the
   * session and goes to the admin panel or the dashboard by role; a wrong one
   * goes back to the login form and leaves the session alone.
   */
  lemma LoginApproved(db: Db, sid: SessionId, password: string, matches: (string, string) -> bool, k: nat)
    requires UsernamesUnique(db.users)
    requires k < |db.users| && db.users[k].isApproved
    ensures matches(password, db.users[k].password) ==>
      Login(db, sid, db.users[k].username, password, matches) ==
        Step(if db.users[k].role == "admin" then ToAdmin else ToDashboard,
             db.(sessions := db.sessions[sid := db.users[k]]))
    ensures !matches(password, db.users[k].password) ==>
      Login(db, sid, db.users[k].username, password, matches) == Step(BackToLogin, db)
  {
    FindUniqueName(db.users, k);
  }

  /** A freshly registered user cannot log in: the answer is "pending" and no session is made. */
  lemma RegisteredUserIsPending(db: Db, sid: SessionId, username: string, hashed: string,
                                password: string, matches: (string, string) -> bool)
    requires Valid(db)
    requires Register(db, username, hashed).out == RequestSent
    ensures var db1 := Register(db, username, hashed).db;
      Login(db1, sid, username, password, matches) == Step(PendingApproval, db1)
  {
    var db1 := Register(db, username, hashed).db;
    RegisterKeepsValid(db, username, hashed);
    assert db1.users[|db.users|].username == username;
    LoginPending(db1, sid, password, matches, |db.users|);
  }

  /** Once an admin approves the new account, the right password logs it in to the dashboard. */
  lemma ApprovedUserLogsIn(db: Db, admin: SessionId, sid: SessionId, username: string, hashed: string,
                           password: string, matches: (string, string) -> bool)
    requires Valid(db)
    requires RequireAdmin(SessionUser(db, admin)).Next?
    requires Register(db, username, hashed).out == RequestSent
    requires matches(password, hashed)
    ensures var db2 := Approve(Register(db, username, hashed).db, admin, db.nextId).db;
      Login(db2, sid, username, password, matches) ==
        Step(ToDashboard, db2.(sessions := db2.sessions[sid := User(db.nextId, username, hashed, "user", "free", true)]))
  {
    var db1 := Register(db, username, hashed).db;
    RegisterKeepsValid(db, username, hashed);
    var k := |db.users|;
    assert db1.users[k] == NewUser(db.nextId, username, hashed);
    FindUniqueId(db1.users, k);
    var db2 := Approve(db1, admin, db.nextId).db;
    ApproveKeepsValid(db1, admin, db.nextId);
    assert db2.users[k].username == username;
    LoginApproved(db2, sid, password, matches, k);
  }

  /** Approve sets the flag on the identified user only; an unknown id changes nothing. */
  lemma ApproveSetsFlag(db: Db, sid: SessionId, id: UserId)
    requires IdsDistinct(db.users)
    requires RequireAdmin(SessionUser(db, sid)).Next?
    ensures forall k :: 0 <= k < |db.users| && db.users[k].id == id ==>
      Approve(db, sid, id) == Step(ToAdminPanel, db.(users := db.users[k := db.users[k].(isApproved := true)]))
    ensures (forall k :: 0 <= k < |db.users| ==> db.users[k].id != id) ==> Approve(db, sid, id) == Step(ToAdminPanel, db)
  {
    forall k | 0 <= k < |db.users| && db.users[k].id == id
      ensures Approve(db, sid, id) == Step(ToAdminPanel, db.(users := db.users[k := db.users[k].(isApproved := true)]))
    {
      FindUniqueId(db.users, k);
    }
  }

  /** Delete removes the identified user only, keeping the others in order; an unknown id changes nothing. */
  lemma DeleteRemovesUser(db: Db, sid: SessionId, id: UserId)
    requires IdsDistinct(db.users)
    requires RequireAdmin(SessionUser(db, sid)).Next?
    ensures forall k :: 0 <= k < |db.users| && db.users[k].id == id ==>
      Delete(db, sid, id) == Step(ToAdminPanel, db.(users := db.users[..k] + db.users[k + 1..]))
    ensures (forall k :: 0 <= k < |db.users| ==> db.users[k].id != id) ==> Delete(db, sid, id) == Step(ToAdminPanel, db)
  {
    forall k | 0 <= k < |db.users| && db.users[k].id == id
      ensures Delete(db, sid, id) == Step(ToAdminPanel, db.(users := db.users[..k] + db.users[k + 1..]))
    {
      FindUniqueId(db.users, k);
    }
  }

  /** Everyone but an admin session is refused the admin routes, and nothing changes. */
  lemma AdminRoutesNeedAdmin(db: Db, sid: SessionId, id: UserId)
    requires sid !in db.sessions || db.sessions[sid].role != "admin"
    ensures Approve(db, sid, id) == Step(AdminDenied(Refuse(AdminsOnly)), db)
    ensures Delete(db, sid, id) == Step(AdminDenied(Refuse(AdminsOnly)), db)
    ensures AdminUsers(db, sid) == PanelDenied(Refuse(AdminsOnly))
  {
  }

  /** A session keeps the user copy it took at login: deleting that user does not log it out. */
  lemma DeletedUserKeepsSession(db: Db, admin: SessionId, id: UserId, sid: SessionId)
    ensures SessionUser(Delete(db, admin, id).db, sid) == SessionUser(db, sid)
    ensures Approve(db, admin, id).db.sessions == db.sessions
  {
  }

  // ---------------------------------------------------------------- invariants

  lemma RegisterKeepsValid(db: Db, username: string, hashed: string)
    requires Valid(db)
    ensures Valid(Register(db, username, hashed).db)
  {
    var db1 := Register(db, username, hashed).db;
    if Register(db, username, hashed).out == RequestSent {
      assert FindUserNamed(db.users, username).None?;
      assert forall k :: 0 <= k < |db.users| ==> db1.users[k] == db.users[k];
    }
  }

  lemma ApproveKeepsValid(db: Db, sid: SessionId, id: UserId)
    requires Valid(db)
    ensures Valid(Approve(db, sid, id).db)
  {
  }

  /** Removing one user keeps names and ids unique and ids below the counter. */
  lemma RemoveKeepsUnique(us: seq<User>, k: nat, nextId: UserId)
    requires k < |us|
    requires UsernamesUnique(us) && IdsDistinct(us) && IdsBelow(us, nextId)
    ensures var rest := us[..k] + us[k + 1..];
      UsernamesUnique(rest) && IdsDistinct(rest) && IdsBelow(rest, nextId)
  {
    var rest := us[..k] + us[k + 1..];
    assert |rest| == |us| - 1;
    assert forall j :: 0 <= j < |rest| ==> rest[j] == us[if j < k then j else j + 1];
  }

  lemma DeleteKeepsValid(db: Db, sid: SessionId, id: UserId)
    requires Valid(db)
    ensures Valid(Delete(db, sid, id).db)
  {
    var s := Delete(db, sid, id);
    if s.db != db {
      var k := FindUserById(db.users, id).value;
      assert s.db.users == db.users[..k] + db.users[k + 1..];
      RemoveKeepsUnique(db.users, k, db.nextId);
    }
  }

  lemma ShortenKeepsValid(db: Db, sid: SessionId, originalUrl: string, customAlias: string, generated: string)
    requires Valid(db)
    ensures Valid(Shorten(db, sid, originalUrl, customAlias, generated).db)
  {
    var s := Shorten(db, sid, originalUrl, customAlias, generated);
    if s.out == Shortened {
      assert FindLink(db.links, ChooseCode(customAlias, generated)).None?;
      assert forall j :: 0 <= j < |db.links| ==> s.db.links[j] == db.links[j];
    }
  }

  lemma ResolveKeepsValid(db: Db, code: string)
    requires Valid(db)
    ensures Valid(Resolve(db, code).db)
  {
  }

  lemma LoginKeepsValid(db: Db, sid: SessionId, username: string, password: string,
                        matches: (string, string) -> bool)
    requires Valid(db)
    ensures Valid(Login(db, sid, username, password, matches).db)
  {
  }

  lemma LogoutKeepsValid(db: Db, sid: SessionId)
    requires Valid(db)
    ensures Valid(Logout(db, sid))
  {
  }
}
