/**
 * The credentials provider and the session callbacks of the authentication
 * options: who may sign in, and how the role claim travels from the user row
 * into the JWT and from the JWT into every later session.
 */
module Auth {

  import opened Wrappers
  import opened Records

  /** The outcome of an awaited call that may throw (a database query, a hash comparison). */
  datatype Fetch<T> = Fetched(value: T) | Threw

  /** The submitted sign-in form; either field may be missing. */
  datatype Credentials = Credentials(email: Option<string>, password: Option<string>)

  /** What a successful sign-in hands to the session library. */
  datatype Claims = Claims(id: string, email: string, name: Option<string>, role: string)

  function ClaimsOf(u: User): Claims
  {
    Claims(u.id, u.email, u.name, u.role)
  }

  /** Both fields were sent and neither is empty. */
  predicate Complete(credentials: Option<Credentials>)
  {
    credentials.Some? && Present(credentials.value.email) && Present(credentials.value.password)
  }

  /**
   * The `authorize` guard chain. `lookup` is the user query by email and
   * `compare` the hash comparison; either may throw, and a throw is caught and
   * refused like any other failed guard, so the result is always a value.
   */
  function Authorize(
    credentials: Option<Credentials>,
    lookup: string -> Fetch<Option<User>>,
    compare: (string, string) -> Fetch<bool>): (r: Option<Claims>)
    // Incomplete credentials are refused before anything is looked up.
    ensures !Complete(credentials) ==> r == None
    ensures Complete(credentials) ==>
      var found := lookup(credentials.value.email.value);
      var password := credentials.value.password.value;
      // A failed lookup, an unknown email, a missing or empty hash: refused.
      && (found.Threw? ==> r == None)
      && (found == Fetched(None) ==> r == None)
      && (found.Fetched? && found.value.Some? ==>
            var u := found.value.value;
            && (!Present(u.password) ==> r == None)
            // A comparison that fails or throws: refused.
            && (Present(u.password) && compare(password, u.password.value) != Fetched(true) ==> r == None)
            // An inactive user: refused even with the right password.
            && (!u.isActive ==> r == None)
            // Every guard passed: that user's id, email, name and role, nothing else.
            && ((Present(u.password) && compare(password, u.password.value) == Fetched(true) && u.isActive)
                  ==> r == Some(ClaimsOf(u))))
  {
    if !Complete(credentials) then None
    else
      match lookup(credentials.value.email.value)
      case Threw => None
      case Fetched(None) => None
      case Fetched(Some(u)) =>
        if !Present(u.password) then None
        else
          match compare(credentials.value.password.value, u.password.value)
          case Threw => None
          case Fetched(valid) =>
            if !valid then None
            else if !u.isActive then None
            else Some(ClaimsOf(u))
  }

  /** The user query of `authorize` run against the tables, without a failure. */
  function LookupIn(db: Tables): string -> Fetch<Option<User>>
  {
    (e: string) => Fetched(FindUserByEmail(db.users, e))
  }

  /** `hashed` is a stored hash that the comparison accepts for `password`. */
  predicate Verifies(compare: (string, string) -> Fetch<bool>, password: string, hashed: string)
  {
    hashed != "" && compare(password, hashed) == Fetched(true)
  }

  /** A user without a password, or a deactivated one, never signs in, whatever is typed. */
  lemma InactiveOrPasswordlessNeverSignsIn(
    db: Tables, u: User, password: Option<string>, compare: (string, string) -> Fetch<bool>)
    requires WellFormed(db)
    requires u in db.users
    requires !Present(u.password) || !u.isActive
    ensures Authorize(Some(Credentials(Some(u.email), password)), LookupIn(db), compare) == None
  {
    FindUserByEmailFinds(db.users, u);
  }

  /** An active user whose stored hash verifies the typed password signs in as that user. */
  lemma ActiveUserSignsIn(
    db: Tables, u: User, password: string, compare: (string, string) -> Fetch<bool>)
    requires WellFormed(db)
    requires u in db.users && u.email != "" && password != ""
    requires u.password.Some? && Verifies(compare, password, u.password.value)
    requires u.isActive
    ensures Authorize(Some(Credentials(Some(u.email), Some(password))), LookupIn(db), compare)
            == Some(ClaimsOf(u))
  {
    FindUserByEmailFinds(db.users, u);
  }

  /** The JWT as the callbacks see it: its subject (the user id) and its role claim. */
  class Jwt {
    var sub: Option<string>
    var role: Option<string>

    constructor (sub: Option<string>)
      ensures this.sub == sub && role == None
    {
      this.sub := sub;
      role := None;
    }
  }

  /** The `jwt` callback: on sign-in (a user is supplied) copy the role into the token. */
  method JwtCallback(token: Jwt, user: Option<Claims>) returns (r: Jwt)
    modifies token
    ensures r == token
    ensures token.sub == old(token.sub)
    ensures token.role == if user.Some? then Some(user.value.role) else old(token.role)
  {
    if user.Some? {
      token.role := Some(user.value.role);
    }
    r := token;
  }

  /** The `user` part of a session. */
  class SessionUser {
    var id: Option<string>
    var name: Option<string>
    var email: Option<string>
    var role: Option<string>

    constructor (name: Option<string>, email: Option<string>)
      ensures this.name == name && this.email == email && id == None && role == None
    {
      this.name := name;
      this.email := email;
      id := None;
      role := None;
    }
  }

  class Session {
    var user: SessionUser

    constructor (user: SessionUser)
      ensures this.user == user
    {
      this.user := user;
    }
  }

  /**
   * The `session` callback: when there is a token, copy its subject into the
   * session's user id and its role claim into the session's role, unchecked.
   */
  method SessionCallback(session: Session, token: Jwt?) returns (r: Session)
    modifies session.user
    ensures r == session
    ensures token != null ==> session.user.id == token.sub && session.user.role == token.role
    ensures token == null ==> session.user.id == old(session.user.id) && session.user.role == old(session.user.role)
    ensures session.user.name == old(session.user.name) && session.user.email == old(session.user.email)
  {
    if token != null {
      session.user.id := token.sub;
      session.user.role := token.role;
    }
    r := session;
  }

  /** What a route handler learns from the session: the user id and the role. */
  datatype Viewer = Viewer(id: Option<string>, role: Option<string>)

  function ViewOf(session: Session): Viewer
    reads session, session.user
  {
    Viewer(session.user.id, session.user.role)
  }

  /** The role gate of the member API: a session exists and its role is exactly "ADMIN". */
  predicate IsAdmin(session: Option<Viewer>)
  {
    session.Some? && session.value.role == Some(ADMIN)
  }

  /**
   * Sign-in as the session library runs it: a token whose subject is the user id,
   * the `jwt` callback with the signed-in user, then the `session` callback. The
   * role the member API checks is the role the user row had at sign-in.
   */
  method SignInSession(user: Claims) returns (view: Viewer)
    ensures view == Viewer(Some(user.id), Some(user.role))
    ensures IsAdmin(Some(view)) <==> user.role == ADMIN
  {
    var token := new Jwt(Some(user.id));
    token := JwtCallback(token, Some(user));
    var sessionUser := new SessionUser(user.name, Some(user.email));
    var session := new Session(sessionUser);
    session := SessionCallback(session, token);
    view := ViewOf(session);
  }
}
