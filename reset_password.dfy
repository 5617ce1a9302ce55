/**
 * POST /api/auth/reset-password: check the form, the token and its account, then
 * store the new password hash and consume the token.
 */
module ResetPasswordApi {

  import opened Wrappers
  import opened Seqs
  import opened Records

  const Done := Reply(200, PasswordResetDone)
  const BadToken := Reply(400, InvalidOrExpiredToken)

  /** The `update` of the reset: store a new password hash, nothing else. */
  function SetPassword(hashed: string): User -> User
  {
    (u: User) => u.(password := Some(hashed))
  }

  /**
   * The route as a step over the tables. `hashed` is what the salted hash of the
   * submitted password came out as, `now` the clock. Every refusal leaves both
   * tables as they were.
   */
  function Post(db: Tables, token: Option<string>, password: Option<string>, hashed: string, now: int): (r: Step)
    ensures r.reply.status != 200 ==> r.tables == db
    ensures r.reply.status == 200 <==> r.reply == Done
    ensures !Present(token) || !Present(password) ==> r.reply == Reply(400, TokenAndPasswordRequired)
    // The length rule: fewer than eight characters is refused, exactly eight passes.
    ensures Present(token) && Present(password) ==>
      (r.reply == Reply(400, PasswordTooShort) <==> |password.value| < MIN_PASSWORD_LENGTH)
    // The token rule: unknown, or expired strictly before `now`; a token expiring at `now` passes.
    ensures Present(token) && Present(password) && |password.value| >= MIN_PASSWORD_LENGTH ==>
      (r.reply == BadToken <==>
         FindToken(db.tokens, token.value).None? || FindToken(db.tokens, token.value).value.expires < now)
  {
    if !Present(token) || !Present(password) then Step(db, Reply(400, TokenAndPasswordRequired))
    else if |password.value| < MIN_PASSWORD_LENGTH then Step(db, Reply(400, PasswordTooShort))
    else
      match FindToken(db.tokens, token.value)
      case None => Step(db, BadToken)
      case Some(vt) =>
        if vt.expires < now then Step(db, BadToken)
        else
          match FindUserByEmail(db.users, vt.identifier)
          case None => Step(db, Reply(404, UserNotFound))
          case Some(u) =>
            Step(Tables(Update(db.users, HasId(u.id), SetPassword(hashed)), Filter(db.tokens, NotToken(token.value))),
                 Done)
  }

  /** A live token whose account is gone is refused with 404, and the token stays in the table. */
  lemma AccountGoneKeepsToken(db: Tables, t: VerificationToken, password: string, hashed: string, now: int)
    requires WellFormed(db)
    requires t in db.tokens && t.token != "" && t.expires >= now
    requires |password| >= MIN_PASSWORD_LENGTH
    requires FindUserByEmail(db.users, t.identifier).None?
    ensures Post(db, Some(t.token), Some(password), hashed, now) == Step(db, Reply(404, UserNotFound))
  {
    FindTokenFinds(db.tokens, t);
  }

  /**
   * A successful reset changes the password of the token's account and of no one
   * else, and removes the token it used.
   */
  lemma ResetEffect(db: Tables, t: VerificationToken, u: User, password: string, hashed: string, now: int)
    requires WellFormed(db)
    requires t in db.tokens && t.token != "" && t.expires >= now
    requires |password| >= MIN_PASSWORD_LENGTH
    requires u in db.users && u.email == t.identifier
    ensures var r := Post(db, Some(t.token), Some(password), hashed, now);
      && r.reply == Done
      && |r.tables.users| == |db.users|
      && (forall i :: 0 <= i < |db.users| ==>
            r.tables.users[i] == if db.users[i].id == u.id then db.users[i].(password := Some(hashed)) else db.users[i])
      && u.(password := Some(hashed)) in r.tables.users
      && r.tables.tokens == Filter(db.tokens, NotToken(t.token))
      && FindToken(r.tables.tokens, t.token).None?
  {
    FindTokenFinds(db.tokens, t);
    FindUserByEmailFinds(db.users, u);
    var users := Update(db.users, HasId(u.id), SetPassword(hashed));
    var i :| 0 <= i < |db.users| && db.users[i] == u;
    assert users[i] == u.(password := Some(hashed));
  }

  /**
   * A consumed token cannot be used again: the first completion with a live
   * token succeeds, and any second completion with it is refused with 400.
   */
  lemma TokenSingleUse(
    db: Tables, t: VerificationToken, u: User, password: string, hashed: string, now: int,
    password2: Option<string>, hashed2: string, now2: int)
    requires WellFormed(db)
    requires t in db.tokens && t.token != "" && t.expires >= now
    requires |password| >= MIN_PASSWORD_LENGTH
    requires u in db.users && u.email == t.identifier
    ensures var first := Post(db, Some(t.token), Some(password), hashed, now);
      && first.reply == Done
      && Post(first.tables, Some(t.token), password2, hashed2, now2).reply.status == 400
  {
    ResetEffect(db, t, u, password, hashed, now);
  }

  /** The reset keeps the unique constraints of both tables. */
  lemma PostKeepsWellFormed(db: Tables, token: Option<string>, password: Option<string>, hashed: string, now: int)
    requires WellFormed(db)
    ensures WellFormed(Post(db, token, password, hashed, now).tables)
  {
    var r := Post(db, token, password, hashed, now);
    if r.reply == Done {
      var u := FindUserByEmail(db.users, FindToken(db.tokens, token.value).value.identifier).value;
      UpdateKeepsUnique(db.users, HasId(u.id), SetPassword(hashed), UserId);
      UpdateKeepsUnique(db.users, HasId(u.id), SetPassword(hashed), UserEmail);
      FilterKeepsUnique(db.tokens, NotToken(token.value), TokenValue);
    }
  }
}
