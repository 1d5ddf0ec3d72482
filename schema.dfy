/**
 * The two Mongo collections of the link shortener as values: the `User` and
 * `Link` schemas declared in index.js, with their defaults.
 */
module Schema {
  /** Stands for a user document's `_id`. */
  type UserId = nat

  const DefaultRole: string := "user"
  const AdminRole: string := "admin"
  const DefaultPlan: string := "free"
  const PremiumPlan: string := "premium"

  /**
   * A user document. `password` holds the stored bcrypt hash; `role` and
   * `plan` are free strings, as in the schema ("user"/"admin", "free"/"premium").
   */
  datatype User = User(
    id: UserId,
    username: string,
    password: string,
    role: string,
    plan: string,
    isApproved: bool)

  /** A link document: `owner` is a username, by convention only. */
  datatype Link = Link(
    originalUrl: string,
    shortCode: string,
    owner: string,
    clicks: nat)

  /** `new User({ username, password })`: every other field takes its schema default. */
  function NewUser(id: UserId, username: string, hashed: string): (u: User)
    ensures u.id == id && u.username == username && u.password == hashed
    ensures u.role == DefaultRole && u.plan == DefaultPlan && !u.isApproved
    ensures u.role != AdminRole && u.plan != PremiumPlan
  {
    User(id, username, hashed, DefaultRole, DefaultPlan, false)
  }

  /** `new Link({ originalUrl, shortCode, owner })`: `clicks` defaults to zero. */
  function NewLink(originalUrl: string, shortCode: string, owner: string): (l: Link)
    ensures l.originalUrl == originalUrl && l.shortCode == shortCode && l.owner == owner
    ensures l.clicks == 0
  {
    Link(originalUrl, shortCode, owner, 0)
  }

  /** Mongoose's `required` validator on a string path: a missing or empty string fails. */
  predicate Present(s: string): (ok: bool)
    ensures ok <==> |s| > 0
  {
    s != ""
  }
}
