/**
 * The database as the route handlers use it: one object holding both tables,
 * and one method per state-changing handler that queries and updates the tables
 * statement by statement, in the order the handler does.
 */
module Persistence {

  import opened Wrappers
  import opened Seqs
  import opened Records
  import opened Auth
  import ForgotPasswordApi
  import ResetPasswordApi
  import MemberUsersApi

  class Store {
    var users: seq<User>
    var tokens: seq<VerificationToken>

    function Snapshot(): Tables
      reads this
    {
      Tables(users, tokens)
    }

    /** The unique constraints the schema enforces. */
    ghost predicate Valid()
      reads this
    {
      WellFormed(Snapshot())
    }

    constructor ()
      ensures Valid() && Snapshot() == Tables([], [])
    {
      users := [];
      tokens := [];
    }

    /** POST /api/auth/forgot-password. */
    method ForgotPassword(email: Option<string>, drawn: string, now: int) returns (reply: Reply)
      requires Valid()
      modifies this
      ensures Valid()
      ensures Step(Snapshot(), reply) == ForgotPasswordApi.Post(old(Snapshot()), email, drawn, now)
    {
      ForgotPasswordApi.PostKeepsWellFormed(Snapshot(), email, drawn, now);
      if !Present(email) {
        return Reply(400, EmailRequired);
      }
      var e := email.value;
      var user := FindUserByEmail(users, e);
      if user.None? {
        return ForgotPasswordApi.Sent;
      }
      // deleteMany({ where: { identifier: email } })
      tokens := Filter(tokens, NotForIdentifier(e));
      // create: the unique token column refuses a value already in use
      var clash := FindToken(tokens, drawn);
      if clash.Some? {
        return Reply(500, ServerError);
      }
      tokens := tokens + [VerificationToken(e, drawn, now + DAY_MS)];
      reply := ForgotPasswordApi.Sent;
    }

    /** POST /api/auth/reset-password. */
    method ResetPassword(token: Option<string>, password: Option<string>, hashed: string, now: int)
      returns (reply: Reply)
      requires Valid()
      modifies this
      ensures Valid()
      ensures Step(Snapshot(), reply) == ResetPasswordApi.Post(old(Snapshot()), token, password, hashed, now)
    {
      ResetPasswordApi.PostKeepsWellFormed(Snapshot(), token, password, hashed, now);
      if !Present(token) || !Present(password) {
        return Reply(400, TokenAndPasswordRequired);
      }
      if |password.value| < MIN_PASSWORD_LENGTH {
        return Reply(400, PasswordTooShort);
      }
      var found := FindToken(tokens, token.value);
      if found.None? || found.value.expires < now {
        return ResetPasswordApi.BadToken;
      }
      var user := FindUserByEmail(users, found.value.identifier);
      if user.None? {
        return Reply(404, UserNotFound);
      }
      // update({ where: { id }, data: { password } })
      users := Update(users, HasId(user.value.id), ResetPasswordApi.SetPassword(hashed));
      // delete({ where: { token } })
      tokens := Filter(tokens, NotToken(token.value));
      reply := ResetPasswordApi.Done;
    }

    /** POST /api/member/users. */
    method CreateUser(
      session: Option<Viewer>, email: Option<string>, name: Option<string>, role: Option<string>,
      newId: string, drawn: string, now: int)
      returns (reply: Reply)
      requires Valid()
      modifies this
      ensures Valid()
      ensures Step(Snapshot(), reply)
              == MemberUsersApi.Post(old(Snapshot()), session, email, name, role, newId, drawn, now)
    {
      MemberUsersApi.PostKeepsWellFormed(Snapshot(), session, email, name, role, newId, drawn, now);
      if !IsAdmin(session) {
        return MemberUsersApi.Forbidden;
      }
      if !Present(email) || !Present(role) {
        return Reply(400, EmailAndRoleRequired);
      }
      var existing := FindUserByEmail(users, email.value);
      if existing.Some? {
        return Reply(400, EmailInUse);
      }
      // create: the primary key refuses an id already in use
      var taken := Find(users, HasId(newId));
      if taken.Some? {
        return Reply(500, ServerError);
      }
      var user := MemberUsersApi.Invited(newId, email.value, name, role.value, now);
      users := users + [user];
      // The invitation token; a refused insert is caught and the user stays.
      var clash := FindToken(tokens, drawn);
      if clash.None? {
        tokens := tokens + [VerificationToken(email.value, drawn, now + WEEK_MS)];
      }
      reply := Reply(201, UserCreated(user));
    }
  }
}
