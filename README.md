# cpa-link: a Dafny model of the link shortener's request handlers

The service is one Express app, `index.js`. Users register, wait for an
administrator to approve them, log in, and shorten URLs under a custom alias
or a generated code. Anyone can visit `/<code>`. Each visit adds one to the
link's `clicks`. A visitor is then redirected straight to the destination
when the link's owner is on the `premium` plan. Otherwise the visitor sees an
interstitial ad page that carries the destination.

The model keeps the two Mongo collections (`users`, `links`) and the session
store as state. Each route handler is one atomic step on that state.

- `schema.dfy` (module `Schema`): the `User` and `Link` documents with their schema defaults.
- `queries.dfy` (module `Queries`): the `findOne` / `findById` / `find` queries. An unsorted `findOne` is modelled as the first match in insertion order.
- `gates.dfy` (module `Gates`): the `requireLogin` and `requireAdmin` middlewares, as functions of the session user.
- `routes.dfy` (module `Routes`): the order in which `GET` paths reach the handlers. `/:code` is registered last.
- `handlers.dfy` (module `Handlers`): every handler as a function from the state to a tagged outcome and a new state (`Step`), with the store invariant `Valid`. The invariant says usernames, `_id`s and short codes are each unique.
- `properties.dfy` (module `Properties`): lemmas about those functions.
- `server.dfy` (module `Server`): class `App`. The collections and the session map are fields that each method updates step by step. Each method is proved to take the step `Handlers` defines and to keep `Valid`.

### Notes on the code
- Resolution looks a link up by `shortCode` alone.
- The duplicate check at `index.js:109` looks at every link, whoever owns it. With requests handled one at a time, codes stay unique across the whole store, and `Properties.ShortenKeepsValid` proves this invariant.
- The click is counted by a read-modify-write (`clicks++` then `save()`), not an atomic increment. Requests are modelled as sequential.
- A session keeps the copy of the user document made at login. Deleting that user does not end the session (`Properties.DeletedUserKeepsSession`).

### Replaced collaborators
- `bcrypt.hash` becomes the `hashed` parameter of `Register`.
- `bcrypt.compare` becomes the `matches: (string, string) -> bool` parameter of `Login`.
- `shortid.generate()` becomes the `generated` parameter of `Shorten`. Nothing assumes the generated code is fresh.
- A Mongo `_id` is a `nat`. Fresh ones come from the `nextId` counter.
- A request's session is the entry for its session id in a `map`.
- A missing `customAlias` is the empty string.

## Model

| member | source | states |
|---|---|---|
| `Schema.NewUser` | index.js:73 | a new user document keeps the given id, name and hash and takes the defaults: role `user`, plan `free`, not approved (so neither admin nor premium) |
| `Schema.NewLink` | index.js:112-116 | a new link keeps the given URL, code and owner, and starts at 0 clicks |
| `Schema.Present` | index.js:29-30 | the `required` validator passes exactly for a non-empty string |
| `Queries.FirstMatch` | index.js:145 | `findOne`: `None` exactly when no document matches; otherwise the index of a match with no match before it |
| `Queries.FindLink` | index.js:109 | the lookup by `shortCode` finds nothing exactly when no link has the code; otherwise the first link that has it |
| `Queries.FindUserNamed` | index.js:84 | the lookup by `username` finds nothing exactly when no user has the name; otherwise the first user that has it |
| `Queries.FindUserById` | index.js:128 | the lookup by `_id` finds nothing exactly when no user has the id; otherwise the first user that has it |
| `Queries.FindUniqueName` | index.js:29 | with the unique index on `username`, the lookup finds the one user with that name |
| `Queries.FindUniqueId` | index.js:128 | with distinct `_id`s, the lookup finds the one user with that id |
| `Queries.OwnedBy` | index.js:100 | `find({ owner })` holds each of the owner's links as many times as the store does, and no other link |
| `Gates.RequireLogin` | index.js:47-50 | the corrected gate (see Findings): passes exactly when a session user exists; otherwise redirects to the login form at `/` |
| `Gates.RequireLoginAsWritten` | index.js:47-50 | the gate as written, used by the handlers: passes exactly when a session user exists; otherwise redirects to `/login` |
| `Gates.RequireAdmin` | index.js:52-57 | passes exactly when a session user exists and its role is `admin`; otherwise answers "Access Denied: Admins Only" |
| `Gates.AdminPassesLogin` | index.js:47-57 | whoever passes the admin gate passes the login gate; the corrected and as-written login gates pass the same sessions |
| `Routes.Route` | index.js:62-144 | under exact matching, a path reaches the code resolver only when it is one non-empty segment, and the code is that segment |
| `Routes.CodeReachesResolver` | index.js:144 | under exact matching and with no static file of that name, `/<code>` reaches the resolver exactly when the code is not `register`, `dashboard`, `admin` or `logout` |
| `Routes.ReservedCodesUnreachable` | index.js:67-144 | under exact matching, no path takes the resolver to a link whose code is one of the four reserved names |
| `Routes.LoginRedirectAsWrittenMisses` | index.js:48 | the as-written login redirect goes to the resolver with code `login`, not to the login form |
| `Routes.LoginRedirectReachesForm` | index.js:62-64 | the corrected login redirect reaches the login form |
| `Handlers.SessionUser` | index.js:48 | `req.session.user` exists exactly when the request's session id has a stored user, and is that user |
| `Handlers.ChooseCode` | index.js:106 | the code is the alias or the generated one, and the alias whenever it is non-empty |
| `Handlers.Register` | index.js:69-79 | changes only the users; `RequestSent` exactly when one user was added; a refusal changes nothing |
| `Handlers.Login` | index.js:82-96 | never changes users or links; a refusal or "pending" changes nothing; a success stores an approved user from the store in the session |
| `Handlers.Logout` | index.js:138-141 | the session ids afterwards are exactly the old ones minus this one, every remaining session is unchanged, and both collections stay |
| `Handlers.Dashboard` | index.js:99-102 | shows a dashboard exactly when the request has a session user, with that user and exactly the links it owns; otherwise the as-written login gate's redirect to "/login" |
| `Handlers.Shorten` | index.js:104-119 | changes only the links; `Shortened` exactly when one link was added; every other outcome changes nothing |
| `Handlers.AdminUsers` | index.js:122-125 | lists the users exactly when the session user is an admin |
| `Handlers.Approve` | index.js:127-130 | changes only the users, keeping their number; a denied request changes nothing |
| `Handlers.Delete` | index.js:132-135 | changes only the users, removing at most one; links and sessions stay; a denied request changes nothing |
| `Handlers.PlanDecision` | index.js:156-161 | the outcome is a direct redirect or the interstitial, both to the given URL; a direct redirect exactly when the owner exists and its plan is `premium` |
| `Handlers.Resolve` | index.js:144-162 | users and sessions never change and no link is added or removed; "not found" exactly when no link has the code, and then nothing changes |
| `Properties.ResolveUnknownCode` | index.js:145-146 | an unknown code answers "not found" and nothing changes |
| `Properties.ResolveCountsOneClick` | index.js:145-150 | a known code adds exactly 1 to the clicks of the first link with it; every other link, every user and every session stays |
| `Properties.ResolveByPlan` | index.js:153-161 | a direct redirect to the link's URL when an owner of that name exists and is premium; in every other case the interstitial with the same URL |
| `Properties.ResolveClickIgnoresOwner` | index.js:149-153 | the click count after a visit, and whether the code was found, do not depend on the users at all |
| `Properties.DeletedOwnerGetsInterstitial` | index.js:133 | once an admin deletes a link's owner, visiting the link still counts a click and shows the interstitial |
| `Properties.LoginRedirectAsWrittenCountsClick` | index.js:48 | as written, the login redirect lands on the resolver; a link called `login` gets a click and its URL is served |
| `Properties.ShortenNeedsLogin` | index.js:47-50 | without a session user, shorten and dashboard redirect to `/login` and nothing changes |
| `Properties.CorrectedGateOnlyMovesRedirect` | index.js:48 | the corrected and as-written login gates let the same requests through; only the anonymous redirect differs: the login form versus the resolver with code `login` |
| `Properties.ShortenRejectsTakenCode` | index.js:106-110 | when any link, whoever owns it, already has the alias (or the generated code if there is no alias), the request is refused and nothing changes |
| `Properties.ShortenAppends` | index.js:112-117 | a fresh code appends exactly one link with the given URL, that code, the session user as owner and 0 clicks; nothing else changes |
| `Properties.ShortenThenResolve` | index.js:112-161 | the new link is the one its code resolves to: the first visit leaves it at 1 click and answers with its URL, directly or through the interstitial |
| `Properties.DashboardShowsOwnLinks` | index.js:99-101 | the dashboard shows the session user and exactly the links it owns |
| `Properties.RegisterAddsUser` | index.js:69-75 | a new non-empty username appends one user with role `user`, plan `free`, not approved, and a fresh id |
| `Properties.RegisterRefused` | index.js:72-77 | a taken or empty username, or an empty hash, is refused and nothing changes |
| `Properties.LoginUnknownUser` | index.js:84-86 | an unknown username goes back to `/` and nothing changes |
| `Properties.LoginPending` | index.js:87 | an unapproved account answers "pending": no session is made, whatever the password and however it is compared |
| `Properties.LoginApproved` | index.js:89-95 | for an approved account, a matching password stores the user in the session and goes to `/admin` for role `admin`, otherwise to `/dashboard`; a mismatch goes back to `/` and changes nothing |
| `Properties.RegisteredUserIsPending` | index.js:69-87 | a user who has just registered gets "pending" at login |
| `Properties.ApprovedUserLogsIn` | index.js:69-128 | after an admin approves the new account, the right password logs it in to the dashboard |
| `Properties.ApproveSetsFlag` | index.js:127-129 | approve sets `isApproved` on the identified user only; an unknown id changes nothing |
| `Properties.DeleteRemovesUser` | index.js:132-134 | delete removes the identified user only, keeping the others in order; an unknown id changes nothing |
| `Properties.AdminRoutesNeedAdmin` | index.js:52-57 | without an admin session user, approve, delete and the user list are refused with "Access Denied" and nothing changes |
| `Properties.DeletedUserKeepsSession` | index.js:91 | approve and delete never touch sessions: a deleted user who is logged in stays logged in |
| `Properties.RegisterKeepsValid` | index.js:29 | registration keeps usernames and ids unique, and ids below the next fresh one |
| `Properties.ApproveKeepsValid` | index.js:128 | approval keeps the store invariant |
| `Properties.DeleteKeepsValid` | index.js:133 | deletion keeps the store invariant |
| `Properties.ShortenKeepsValid` | index.js:109-117 | shortening keeps short codes unique across the whole store |
| `Properties.ResolveKeepsValid` | index.js:149-150 | counting a click keeps the store invariant |
| `Properties.LoginKeepsValid` | index.js:91 | logging in keeps the store invariant |
| `Properties.LogoutKeepsValid` | index.js:139 | logging out keeps the store invariant |
| `Server.App.constructor` | index.js:28-44 | the app starts from stored user and link documents that meet the invariant, with no sessions (the in-memory session store starts empty) |
| `Server.App.Register` | index.js:69-79 | updates the users as `Handlers.Register` says and keeps the invariant |
| `Server.App.Login` | index.js:82-96 | updates the session as `Handlers.Login` says and keeps the invariant |
| `Server.App.Logout` | index.js:138-141 | removes the session as `Handlers.Logout` says |
| `Server.App.Dashboard` | index.js:99-102 | changes nothing; shows exactly the session user's links, or is denied when there is no session user |
| `Server.App.Shorten` | index.js:104-119 | appends the link, or refuses, as `Handlers.Shorten` says, keeping codes unique |
| `Server.App.AdminUsers` | index.js:122-125 | changes nothing; lists all users for an admin session, otherwise answers "Access Denied" |
| `Server.App.Approve` | index.js:127-130 | updates the user in place as `Handlers.Approve` says |
| `Server.App.Delete` | index.js:132-135 | removes the user as `Handlers.Delete` says |
| `Server.App.Resolve` | index.js:144-162 | counts the click and saves it, then decides by plan, as `Handlers.Resolve` says; users and sessions are untouched |

## Left out
- The Mongo connection, the Express and session middleware setup, the static file server, EJS rendering and `app.listen` (index.js:1-25, 164) are framework plumbing. Outcomes are tags, not HTTP responses.
- bcrypt hashing and comparison are a foreign cryptographic library. The hash is an input string and the comparison is a function parameter.
- `shortid.generate()` is a random generator. Its code is an input.
- Each request is modelled as atomic and sequential, so two races are not modelled. The asynchronous read-modify-write on `clicks` (index.js:149-150) can lose updates under concurrent visits. And `shortCode` has no unique index, so two concurrent `POST /shorten` requests with the same code can both pass the check at index.js:109 and both save: code uniqueness (`Properties.ShortenKeepsValid`) holds only for requests handled one at a time.
- `clicks` is a JavaScript number. The model uses an unbounded `nat`, so the loss of precision above 2^53 is not modelled.
- `createdAt` timestamps and the session store's mechanics (cookies, expiry) are clock and transport details. `session.destroy` removes the session id from the map.
- Storage failures are not modelled, apart from the failed save at index.js:74 (a validation error or a duplicate key), which `Register` answers with "taken or error". A failed `newLink.save()` (index.js:117) or `link.save()` (index.js:150) makes the handler's promise reject, and nothing in index.js catches it. So does a connection loss, or a malformed `_id` string that Mongoose cannot cast. The outcome then depends on versions index.js does not pin: on Express 4 with Node 15 or later the unhandled rejection stops the server (and every in-memory session with it); on Express 4 with older Node the request gets no answer; on Express 5 the request gets a 500.
- Every body field is taken to be a string. The model does not cover bodies where that fails:
  - A body that lacks `username` or `originalUrl` altogether.
  - A body without `password`. `bcrypt.hash` at index.js:71 then throws outside the `try`, so the handler's promise rejects uncaught, with the version-dependent outcome described above. The same happens with `bcrypt.compare` at index.js:89 when an approved account logs in.
  - A body field that is an object. `express.urlencoded({ extended: true })` (index.js:14) parses `username[$ne]=x` into `{ $ne: "x" }`. `User.findOne({ username })` at index.js:84 then runs a query operator and can return a user whose name is not the input. The same applies to `customAlias` in the duplicate check at index.js:106-109.
- Routes.Route: matching is modelled as exact, lower-case and without trailing slashes. Express actually matches case-insensitively and tolerates a trailing slash by default. It matches the raw path but percent-decodes `:code`. So `GET /%61dmin` reaches the resolver with code `admin`, and `GET /abc/` reaches it with code `abc`. Also, `express.static('public')` (index.js:15) runs before every route, so a file under `public/` named like a code answers `GET /<code>` before the resolver sees it; the model assumes no such file. `Routes.ReservedCodesUnreachable` and `Routes.CodeReachesResolver` hold only under exact matching and with no such file.
- A Mongo `findOne` without a sort returns "the first document in natural order". The model takes that to be insertion order. Under the store invariant there is at most one match anyway.
- The `GET /` and `GET /register` pages only render forms and have no logic.
- Queries.OwnedBy: states which links the dashboard lists and how often each appears, not that they keep store order (the function keeps it, the contract does not say so).
- models/User.js and models/Link.js are not part of this model. index.js never requires them, and it declares its own schemas.

## Findings

| source | as written | input that shows it | evidently intended | confidence | as-written member | corrected member |
|---|---|---|---|---|---|---|
| index.js:48 | `requireLogin` redirects an anonymous request to `/login`. No `GET /login` route exists (the login form is `GET /`), so the redirect falls through to the `/:code` resolver with code `login` | an anonymous `POST /shorten` or `GET /dashboard`: the browser follows to `GET /login` and gets "404 - Offer Not Found". If any user has shortened under the alias `login`, that link gets a click and its URL is served | redirect to the login form at `/` | high (not executed) | `Gates.RequireLoginAsWritten` (used by `Handlers.Shorten`, `Handlers.Dashboard`), `Routes.LoginRedirectAsWrittenMisses`, `Properties.LoginRedirectAsWrittenCountsClick`, `Properties.ShortenNeedsLogin` | `Gates.RequireLogin`, `Routes.LoginRedirectReachesForm`, `Properties.CorrectedGateOnlyMovesRedirect` |

The handlers keep the gate as written, so that they model the program as it is. `Properties.CorrectedGateOnlyMovesRedirect` proves that the corrected gate lets the same requests through and sends anonymous ones to the login form.
