/**
 * Properties that span several routes: how the reset and invitation tokens move
 * through their lifecycle, and what that means for signing in.
 */
module Lifecycle {

  import opened Wrappers
  import opened Seqs
  import opened Records
  import opened Auth
  import ForgotPasswordApi
  import ResetPasswordApi
  import MemberUsersApi

  /** An account just created by an administrator cannot sign in, whatever password is tried. */
  lemma InvitedUserCannotSignIn(
    db: Tables, session: Option<Viewer>, email: Option<string>, name: Option<string>, role: Option<string>,
    newId: string, drawn: string, now: int, password: Option<string>, compare: (string, string) -> Fetch<bool>)
    requires WellFormed(db)
    requires MemberUsersApi.Post(db, session, email, name, role, newId, drawn, now).reply.status == 201
    ensures var after := MemberUsersApi.Post(db, session, email, name, role, newId, drawn, now).tables;
      Authorize(Some(Credentials(email, password)), LookupIn(after), compare) == None
  {
    var after := MemberUsersApi.Post(db, session, email, name, role, newId, drawn, now).tables;
    var invited := MemberUsersApi.Invited(newId, email.value, name, role.value, now);
    MemberUsersApi.PostKeepsWellFormed(db, session, email, name, role, newId, drawn, now);
    assert after.users == db.users + [invited];
    assert invited in after.users;
    InactiveOrPasswordlessNeverSignsIn(after, invited, password, compare);
  }

  /**
   * After a reset with a live token, the token's account signs in with the new
   * password (when it is active), as the same id, email, name and role.
   */
  lemma ResetThenSignIn(
    db: Tables, t: VerificationToken, u: User, password: string, hashed: string, now: int,
    compare: (string, string) -> Fetch<bool>)
    requires WellFormed(db)
    requires t in db.tokens && t.token != "" && t.expires >= now
    requires |password| >= MIN_PASSWORD_LENGTH
    requires u in db.users && u.email == t.identifier && u.email != "" && u.isActive
    requires Verifies(compare, password, hashed)
    ensures var after := ResetPasswordApi.Post(db, Some(t.token), Some(password), hashed, now).tables;
      Authorize(Some(Credentials(Some(u.email), Some(password))), LookupIn(after), compare) == Some(ClaimsOf(u))
  {
    var after := ResetPasswordApi.Post(db, Some(t.token), Some(password), hashed, now).tables;
    ResetPasswordApi.ResetEffect(db, t, u, password, hashed, now);
    ResetPasswordApi.PostKeepsWellFormed(db, Some(t.token), Some(password), hashed, now);
    ActiveUserSignsIn(after, u.(password := Some(hashed)), password, compare);
  }

  /** After a reset, a password that the new hash does not verify no longer signs in. */
  lemma ResetRetiresOldPassword(
    db: Tables, t: VerificationToken, u: User, password: string, hashed: string, now: int,
    tried: Option<string>, compare: (string, string) -> Fetch<bool>)
    requires WellFormed(db)
    requires t in db.tokens && t.token != "" && t.expires >= now
    requires |password| >= MIN_PASSWORD_LENGTH
    requires u in db.users && u.email == t.identifier
    requires tried.Some? ==> compare(tried.value, hashed) != Fetched(true)
    ensures var after := ResetPasswordApi.Post(db, Some(t.token), Some(password), hashed, now).tables;
      Authorize(Some(Credentials(Some(u.email), tried)), LookupIn(after), compare) == None
  {
    var after := ResetPasswordApi.Post(db, Some(t.token), Some(password), hashed, now).tables;
    ResetPasswordApi.ResetEffect(db, t, u, password, hashed, now);
    ResetPasswordApi.PostKeepsWellFormed(db, Some(t.token), Some(password), hashed, now);
    FindUserByEmailFinds(after.users, u.(password := Some(hashed)));
  }

  /**
   * The link a reset request mails out completes a reset for 24 hours (its expiry
   * instant included) and is refused afterwards.
   */
  lemma RequestedLinkWorksForADay(
    db: Tables, email: Option<string>, drawn: string, now: int, password: string, hashed: string, later: int)
    requires WellFormed(db)
    requires Present(email) && FindUserByEmail(db.users, email.value).Some?
    requires drawn != ""
    requires ForgotPasswordApi.Post(db, email, drawn, now).reply == ForgotPasswordApi.Sent
    requires |password| >= MIN_PASSWORD_LENGTH
    ensures var after := ForgotPasswordApi.Post(db, email, drawn, now).tables;
      ResetPasswordApi.Post(after, Some(drawn), Some(password), hashed, later).reply
      == if later <= now + DAY_MS then ResetPasswordApi.Done else ResetPasswordApi.BadToken
  {
    var after := ForgotPasswordApi.Post(db, email, drawn, now).tables;
    var issued := VerificationToken(email.value, drawn, now + DAY_MS);
    ForgotPasswordApi.PostKeepsWellFormed(db, email, drawn, now);
    assert issued in after.tokens;
    FindTokenFinds(after.tokens, issued);
  }

  /** Once a new link is requested, every earlier link of that account is refused with 400. */
  lemma SupersededLinkIsDead(
    db: Tables, email: Option<string>, drawn: string, now: int, earlier: VerificationToken,
    password: Option<string>, hashed: string, later: int)
    requires WellFormed(db)
    requires Present(email) && FindUserByEmail(db.users, email.value).Some?
    requires earlier in db.tokens && earlier.identifier == email.value && earlier.token != drawn
    requires ForgotPasswordApi.Post(db, email, drawn, now).reply == ForgotPasswordApi.Sent
    ensures var after := ForgotPasswordApi.Post(db, email, drawn, now).tables;
      ResetPasswordApi.Post(after, Some(earlier.token), password, hashed, later).reply.status == 400
  {
    var after := ForgotPasswordApi.Post(db, email, drawn, now).tables;
    var kept := Filter(db.tokens, NotForIdentifier(email.value));
    assert after.tokens == kept + [VerificationToken(email.value, drawn, now + DAY_MS)];
    forall t | t in after.tokens ensures !HasToken(earlier.token)(t) {
      if t in kept {
        assert NotForIdentifier(email.value)(t);
        UniqueKeyDetermines(db.tokens, TokenValue, t, earlier);
      }
    }
  }

  /**
   * The whole invitation: an administrator creates the account, the invitee sets
   * a password with the seven-day link within the week, and can then sign in.
   */
  lemma InvitationThenSignIn(
    db: Tables, session: Option<Viewer>, email: Option<string>, name: Option<string>, role: Option<string>,
    newId: string, drawn: string, now: int, password: string, hashed: string, later: int,
    compare: (string, string) -> Fetch<bool>)
    requires WellFormed(db)
    requires MemberUsersApi.Post(db, session, email, name, role, newId, drawn, now).reply.status == 201
    requires drawn != "" && FindToken(db.tokens, drawn).None?
    requires later <= now + WEEK_MS
    requires |password| >= MIN_PASSWORD_LENGTH && Verifies(compare, password, hashed)
    ensures var invited := MemberUsersApi.Post(db, session, email, name, role, newId, drawn, now).tables;
      var done := ResetPasswordApi.Post(invited, Some(drawn), Some(password), hashed, later);
      && done.reply == ResetPasswordApi.Done
      && Authorize(Some(Credentials(email, Some(password))), LookupIn(done.tables), compare)
         == Some(Claims(newId, email.value, if Present(name) then name else None, role.value))
  {
    var invited := MemberUsersApi.Post(db, session, email, name, role, newId, drawn, now).tables;
    var user := MemberUsersApi.Invited(newId, email.value, name, role.value, now);
    var issued := VerificationToken(email.value, drawn, now + WEEK_MS);
    MemberUsersApi.CreationEffect(db, session, email, name, role, newId, drawn, now);
    MemberUsersApi.PostKeepsWellFormed(db, session, email, name, role, newId, drawn, now);
    assert issued in invited.tokens && user in invited.users;
    ResetPasswordApi.ResetEffect(invited, issued, user, password, hashed, later);
    ResetThenSignIn(invited, issued, user, password, hashed, later, compare);
  }
}
