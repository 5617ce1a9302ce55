/**
 * The two tables the handlers work on (`User` and `VerificationToken`), the
 * replies they send, and the unique-column lookups (`findUnique`) they make.
 */
module Records {

  import opened Wrappers
  import opened Seqs

  /** Milliseconds in a day: a reset link requested by its owner lives this long. */
  const DAY_MS: int := 24 * 60 * 60 * 1000
  /** Milliseconds in a week: an invitation link sent on account creation lives this long. */
  const WEEK_MS: int := 7 * DAY_MS
  /** The shortest password the reset route accepts, in characters. */
  const MIN_PASSWORD_LENGTH: int := 8
  /** The role that the member API and the user list require. */
  const ADMIN: string := "ADMIN"

  /**
   * A row of the user table. `password` is the stored hash; None means the account
   * was created by an administrator and has no password yet. Times are milliseconds.
   */
  datatype User = User(
    id: string,
    email: string,
    name: Option<string>,
    password: Option<string>,
    role: string,
    isActive: bool,
    createdAt: int)

  /** A row of the token table: a reset or invitation link for the account whose email is `identifier`. */
  datatype VerificationToken = VerificationToken(identifier: string, token: string, expires: int)

  /** The persisted state: both tables, each in the order the ORM returns them. */
  datatype Tables = Tables(users: seq<User>, tokens: seq<VerificationToken>)

  /** The public fields of a user, as the member API lists them and the user page holds them. */
  datatype UserSummary = UserSummary(
    id: string,
    email: string,
    name: Option<string>,
    role: string,
    isActive: bool,
    createdAt: int)

  /** The JSON body of a reply: a fixed message, or the data the route returns. */
  datatype Body =
    | EmailRequired
    | ResetLinkSent
    | TokenAndPasswordRequired
    | PasswordTooShort
    | InvalidOrExpiredToken
    | UserNotFound
    | PasswordResetDone
    | AdminRequired
    | EmailAndRoleRequired
    | EmailInUse
    | UserCreated(user: User)
    | UserList(users: seq<UserSummary>)
    | ServerError

  datatype Reply = Reply(status: int, body: Body)

  /** What a handler leaves behind: the tables afterwards and the reply it sent. */
  datatype Step = Step(tables: Tables, reply: Reply)

  /** JavaScript truthiness of an optional string: sent, and not the empty string. */
  predicate Present(v: Option<string>)
  {
    v.Some? && v.value != ""
  }

  // Column selectors, for the unique constraints.
  function UserId(u: User): string { u.id }
  function UserEmail(u: User): string { u.email }
  function TokenValue(t: VerificationToken): string { t.token }

  /** The unique constraints of the schema: user ids, user emails and token values. */
  ghost predicate WellFormed(db: Tables)
  {
    && UniqueBy(db.users, UserId)
    && UniqueBy(db.users, UserEmail)
    && UniqueBy(db.tokens, TokenValue)
  }

  // The `where` clauses of the queries.
  function HasEmail(e: string): User -> bool { (u: User) => u.email == e }
  function HasId(id: string): User -> bool { (u: User) => u.id == id }
  function HasToken(v: string): VerificationToken -> bool { (t: VerificationToken) => t.token == v }
  function NotToken(v: string): VerificationToken -> bool { (t: VerificationToken) => t.token != v }
  function ForIdentifier(e: string): VerificationToken -> bool { (t: VerificationToken) => t.identifier == e }
  function NotForIdentifier(e: string): VerificationToken -> bool { (t: VerificationToken) => t.identifier != e }

  /** `findUnique({ where: { email } })` on the user table. */
  function FindUserByEmail(users: seq<User>, e: string): Option<User>
  {
    Find(users, HasEmail(e))
  }

  /** `findUnique({ where: { token } })` on the token table. */
  function FindToken(tokens: seq<VerificationToken>, v: string): Option<VerificationToken>
  {
    Find(tokens, HasToken(v))
  }

  /** The tokens that belong to the account with email `e`. */
  function TokensFor(tokens: seq<VerificationToken>, e: string): seq<VerificationToken>
  {
    Filter(tokens, ForIdentifier(e))
  }

  /** The projection of the member API's `select`: every column but the password. */
  function Summary(u: User): UserSummary
  {
    UserSummary(u.id, u.email, u.name, u.role, u.isActive, u.createdAt)
  }

  /** With unique emails, the lookup by email finds the one user that has it. */
  lemma FindUserByEmailFinds(users: seq<User>, u: User)
    requires UniqueBy(users, UserEmail)
    requires u in users
    ensures FindUserByEmail(users, u.email) == Some(u)
  {
    var r := FindUserByEmail(users, u.email);
    assert HasEmail(u.email)(u);
    UniqueKeyDetermines(users, UserEmail, r.value, u);
  }

  /** With unique token values, the lookup by value finds the one row that has it. */
  lemma FindTokenFinds(tokens: seq<VerificationToken>, t: VerificationToken)
    requires UniqueBy(tokens, TokenValue)
    requires t in tokens
    ensures FindToken(tokens, t.token) == Some(t)
  {
    var r := FindToken(tokens, t.token);
    assert HasToken(t.token)(t);
    UniqueKeyDetermines(tokens, TokenValue, r.value, t);
  }
}
