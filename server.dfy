/**
 * The running app: the two collections and the session store as fields
 * that each route handler updates step by step, as the handlers in index.js
 * do through `save`, `findByIdAndUpdate`, `findByIdAndDelete` and
 * `req.session`. Every method is proved to take the step that module
 * Handlers defines, and to keep the store's invariant.
 */
module Server {
  import opened Wrappers
  import opened Schema
  import opened Queries
  import opened Gates
  import opened Handlers
  import Properties

  class App {
    var users: seq<User>
    var links: seq<Link>
    var sessions: map<SessionId, User>
    var nextId: UserId

    /** The whole state as a value. */
    function State(): Db
      reads this
    {
      Db(users, links, sessions, nextId)
    }

    ghost predicate Valid()
      reads this
    {
      Handlers.Valid(State())
    }

    /**
     * A database holding the given user documents (no route creates an
     * administrator, so one can only come from here) and link documents, with
     * no sessions: the session store is in memory and starts empty.
     */
    constructor (seedUsers: seq<User>, seedLinks: seq<Link>, firstFreeId: UserId)
      requires Handlers.Valid(Db(seedUsers, seedLinks, map[], firstFreeId))
      ensures Valid() && State() == Db(seedUsers, seedLinks, map[], firstFreeId)
    {
      users, links, sessions, nextId := seedUsers, seedLinks, map[], firstFreeId;
    }

    /** `POST /register`. */
    method Register(username: string, hashed: string) returns (r: RegisterOutcome)
      requires Valid()
      modifies this
      ensures Valid()
      ensures Step(r, State()) == Handlers.Register(old(State()), username, hashed)
    {
      Properties.RegisterKeepsValid(State(), username, hashed);
      // `newUser.save()` fails on a validation error or on a duplicate key.
      if !Present(username) || !Present(hashed) {
        return TakenOrError;
      }
      if FindUserNamed(users, username).Some? {
        return TakenOrError;
      }
      users := users + [NewUser(nextId, username, hashed)];
      nextId := nextId + 1;
      r := RequestSent;
    }

    /** `POST /login`; `matches` stands for `bcrypt.compare`. */
    method Login(sid: SessionId, username: string, password: string, matches: (string, string) -> bool)
      returns (r: LoginOutcome)
      requires Valid()
      modifies this
      ensures Valid()
      ensures Step(r, State()) == Handlers.Login(old(State()), sid, username, password, matches)
    {
      Properties.LoginKeepsValid(State(), sid, username, password, matches);
      var found := FindUserNamed(users, username);
      if found.None? {
        return BackToLogin;
      }
      var user := users[found.value];
      if !user.isApproved {
        return PendingApproval;
      }
      var isMatch := matches(password, user.password);
      if isMatch {
        sessions := sessions[sid := user];
        if user.role == AdminRole {
          return ToAdmin;
        }
        return ToDashboard;
      }
      r := BackToLogin;
    }

    /** `GET /logout`. */
    method Logout(sid: SessionId)
      requires Valid()
      modifies this
      ensures Valid()
      ensures State() == Handlers.Logout(old(State()), sid)
    {
      Properties.LogoutKeepsValid(State(), sid);
      sessions := sessions - {sid};
    }

    /** `GET /dashboard`: reads the links, changes nothing. */
    method Dashboard(sid: SessionId) returns (r: DashboardOutcome)
      ensures r == Handlers.Dashboard(State(), sid)
      ensures r.ShowDashboard? <==> sid in sessions
      ensures r.ShowDashboard? ==> forall l :: l in r.links <==> l in links && l.owner == sessions[sid].username
    {
      var gate := RequireLoginAsWritten(SessionUser(State(), sid));
      if gate.Deny? {
        return DashboardDenied(gate.denial);
      }
      var user := sessions[sid];
      r := ShowDashboard(user, OwnedBy(links, user.username));
    }

    /** `POST /shorten`. */
    method Shorten(sid: SessionId, originalUrl: string, customAlias: string, generated: string)
      returns (r: ShortenOutcome)
      requires Valid()
      modifies this
      ensures Valid()
      ensures Step(r, State()) == Handlers.Shorten(old(State()), sid, originalUrl, customAlias, generated)
    {
      Properties.ShortenKeepsValid(State(), sid, originalUrl, customAlias, generated);
      var gate := RequireLoginAsWritten(SessionUser(State(), sid));
      if gate.Deny? {
        return ShortenDenied(gate.denial);
      }
      var shortCode := ChooseCode(customAlias, generated);
      var exist := FindLink(links, shortCode);
      if exist.Some? {
        return NameTaken;
      }
      links := links + [NewLink(originalUrl, shortCode, sessions[sid].username)];
      r := Shortened;
    }

    /** `GET /admin`: reads the users, changes nothing. */
    method AdminUsers(sid: SessionId) returns (r: AdminPanelOutcome)
      ensures r == Handlers.AdminUsers(State(), sid)
      ensures r == (if sid in sessions && sessions[sid].role == AdminRole then ShowUsers(users)
                    else PanelDenied(Refuse(AdminsOnly)))
    {
      var gate := RequireAdmin(SessionUser(State(), sid));
      if gate.Deny? {
        return PanelDenied(gate.denial);
      }
      r := ShowUsers(users);
    }

    /** `POST /admin/approve/:id`. */
    method Approve(sid: SessionId, id: UserId) returns (r: AdminOutcome)
      requires Valid()
      modifies this
      ensures Valid()
      ensures Step(r, State()) == Handlers.Approve(old(State()), sid, id)
    {
      Properties.ApproveKeepsValid(State(), sid, id);
      var gate := RequireAdmin(SessionUser(State(), sid));
      if gate.Deny? {
        return AdminDenied(gate.denial);
      }
      var found := FindUserById(users, id);
      if found.Some? {
        var k := found.value;
        users := users[k := users[k].(isApproved := true)];
      }
      r := ToAdminPanel;
    }

    /** `POST /admin/delete/:id`. */
    method Delete(sid: SessionId, id: UserId) returns (r: AdminOutcome)
      requires Valid()
      modifies this
      ensures Valid()
      ensures Step(r, State()) == Handlers.Delete(old(State()), sid, id)
    {
      Properties.DeleteKeepsValid(State(), sid, id);
      var gate := RequireAdmin(SessionUser(State(), sid));
      if gate.Deny? {
        return AdminDenied(gate.denial);
      }
      var found := FindUserById(users, id);
      if found.Some? {
        var k := found.value;
        users := users[..k] + users[k + 1..];
      }
      r := ToAdminPanel;
    }

    /** `GET /:code`: count the click and save it, then look up the owner's plan. */
    method Resolve(code: string) returns (r: ResolveOutcome)
      requires Valid()
      modifies this
      ensures Valid()
      ensures Step(r, State()) == Handlers.Resolve(old(State()), code)
      ensures users == old(users) && sessions == old(sessions) && |links| == |old(links)|
    {
      Properties.ResolveKeepsValid(State(), code);
      var found := FindLink(links, code);
      if found.None? {
        return OfferNotFound;
      }
      var i := found.value;
      var link := links[i];
      link := link.(clicks := link.clicks + 1);
      links := links[i := link];
      var ownerAt := FindUserNamed(users, link.owner);
      var owner := if ownerAt.Some? then Some(users[ownerAt.value]) else None;
      r := PlanDecision(owner, link.originalUrl);
    }
  }
}
