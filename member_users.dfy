/**
 * GET and POST /api/member/users: the administrator's user list, and the
 * creation of an invited account with a seven-day link to set its password.
 */
module MemberUsersApi {

  import opened Wrappers
  import opened Seqs
  import opened Records
  import opened Auth

  const Forbidden := Reply(403, AdminRequired)

  /** Non-increasing `createdAt`: the newest account first. */
  ghost predicate NewestFirst(s: seq<UserSummary>)
  {
    forall i, j :: 0 <= i < j < |s| ==> s[i].createdAt >= s[j].createdAt
  }

  /** Every user, projected to the listed columns, in table order. */
  function Project(users: seq<User>): seq<UserSummary>
  {
    seq(|users|, i requires 0 <= i < |users| => Summary(users[i]))
  }

  /** Put `x` into a newest-first list at a place where the order still holds. */
  function InsertByAge(x: UserSummary, s: seq<UserSummary>): (r: seq<UserSummary>)
    requires NewestFirst(s)
    ensures NewestFirst(r)
    ensures multiset(r) == multiset(s) + multiset{x}
    ensures r[0] == x || (|s| > 0 && r[0] == s[0])
  {
    if s == [] || x.createdAt >= s[0].createdAt then [x] + s
    else
      assert s == [s[0]] + s[1..];
      [s[0]] + InsertByAge(x, s[1..])
  }

  /** The `orderBy: { createdAt: "desc" }` of the query, as an insertion sort. */
  function SortNewestFirst(s: seq<UserSummary>): (r: seq<UserSummary>)
    ensures NewestFirst(r)
    ensures multiset(r) == multiset(s)
  {
    if s == [] then []
    else
      assert s == [s[0]] + s[1..];
      InsertByAge(s[0], SortNewestFirst(s[1..]))
  }

  /**
   * GET: refused with 403 unless the session's role is "ADMIN"; otherwise every
   * user, each exactly once and without its password, newest account first.
   */
  function Get(db: Tables, session: Option<Viewer>): (r: Reply)
    ensures !IsAdmin(session) ==> r == Forbidden
    ensures IsAdmin(session) ==>
      && r.status == 200 && r.body.UserList?
      && NewestFirst(r.body.users)
      && multiset(r.body.users) == multiset(Project(db.users))
  {
    if !IsAdmin(session) then Forbidden
    else Reply(200, UserList(SortNewestFirst(Project(db.users))))
  }

  /** The row POST inserts: no password yet, active, `name` only when one was given. */
  function Invited(id: string, email: string, name: Option<string>, role: string, now: int): User
  {
    User(id, email, if Present(name) then name else None, None, role, true, now)
  }

  /**
   * POST as a step over the tables. `newId` is the id the database assigns,
   * `drawn` the random token, `now` the clock. The role is required but its
   * value is not checked. The invitation token is inserted without deleting
   * earlier ones; if that insert fails (its value is taken) the failure is
   * swallowed and the user is still created with 201. If the id is taken the
   * insert of the user fails and the route answers 500.
   */
  function Post(
    db: Tables, session: Option<Viewer>, email: Option<string>, name: Option<string>, role: Option<string>,
    newId: string, drawn: string, now: int): (r: Step)
    ensures r.reply.status != 201 ==> r.tables == db
    ensures !IsAdmin(session) ==> r.reply == Forbidden
    ensures IsAdmin(session) && (!Present(email) || !Present(role)) ==> r.reply == Reply(400, EmailAndRoleRequired)
    ensures r.reply.status == 201 <==>
      && IsAdmin(session) && Present(email) && Present(role)
      && FindUserByEmail(db.users, email.value).None?
      && Find(db.users, HasId(newId)).None?
    ensures r.reply.status == 201 ==> r.reply.body == UserCreated(Invited(newId, email.value, name, role.value, now))
    ensures r.reply.status == 500 <==>
      && IsAdmin(session) && Present(email) && Present(role)
      && FindUserByEmail(db.users, email.value).None?
      && Find(db.users, HasId(newId)).Some?
  {
    if !IsAdmin(session) then Step(db, Forbidden)
    else if !Present(email) || !Present(role) then Step(db, Reply(400, EmailAndRoleRequired))
    else if FindUserByEmail(db.users, email.value).Some? then Step(db, Reply(400, EmailInUse))
    else if Find(db.users, HasId(newId)).Some? then Step(db, Reply(500, ServerError))
    else
      var user := Invited(newId, email.value, name, role.value, now);
      var tokens :=
        if FindToken(db.tokens, drawn).Some? then db.tokens
        else db.tokens + [VerificationToken(email.value, drawn, now + WEEK_MS)];
      Step(Tables(db.users + [user], tokens), Reply(201, UserCreated(user)))
  }

  /** An email that is already in use is refused with 400 and nothing changes. */
  lemma EmailInUseRefused(
    db: Tables, session: Option<Viewer>, u: User, name: Option<string>, role: Option<string>,
    newId: string, drawn: string, now: int)
    requires IsAdmin(session) && Present(role)
    requires u in db.users && u.email != ""
    ensures Post(db, session, Some(u.email), name, role, newId, drawn, now) == Step(db, Reply(400, EmailInUse))
  {
    assert HasEmail(u.email)(u);
  }

  /**
   * A successful POST appends exactly one user, the invited one. When the drawn
   * token value is unused it appends one seven-day token for that email after the
   * earlier ones, which all stay; when the value is taken, the refused insert is
   * swallowed and the token table is unchanged.
   */
  lemma {:induction false} CreationEffect(
    db: Tables, session: Option<Viewer>, email: Option<string>, name: Option<string>, role: Option<string>,
    newId: string, drawn: string, now: int)
    requires Post(db, session, email, name, role, newId, drawn, now).reply.status == 201
    ensures var r := Post(db, session, email, name, role, newId, drawn, now);
      var issued := VerificationToken(email.value, drawn, now + WEEK_MS);
      && r.tables.users == db.users + [Invited(newId, email.value, name, role.value, now)]
      && (FindToken(db.tokens, drawn).None? ==>
            && r.tables.tokens == db.tokens + [issued]
            && TokensFor(r.tables.tokens, email.value) == TokensFor(db.tokens, email.value) + [issued])
      && (FindToken(db.tokens, drawn).Some? ==> r.tables.tokens == db.tokens)
  {
    var issued := VerificationToken(email.value, drawn, now + WEEK_MS);
    FilterConcat(db.tokens, [issued], ForIdentifier(email.value));
    assert Filter([issued], ForIdentifier(email.value)) == [issued] by {
      assert ForIdentifier(email.value)(issued);
      assert [issued][1..] == [];
    }
  }

  /** POST keeps the unique constraints: in particular no two users ever share an email. */
  lemma PostKeepsWellFormed(
    db: Tables, session: Option<Viewer>, email: Option<string>, name: Option<string>, role: Option<string>,
    newId: string, drawn: string, now: int)
    requires WellFormed(db)
    ensures WellFormed(Post(db, session, email, name, role, newId, drawn, now).tables)
  {
    var r := Post(db, session, email, name, role, newId, drawn, now);
    if r.reply.status == 201 {
      var user := Invited(newId, email.value, name, role.value, now);
      forall v | v in db.users ensures UserId(v) != UserId(user) && UserEmail(v) != UserEmail(user) {
        assert !HasId(newId)(v) && !HasEmail(email.value)(v);
      }
      AppendKeepsUnique(db.users, user, UserId);
      AppendKeepsUnique(db.users, user, UserEmail);
      if FindToken(db.tokens, drawn).None? {
        var issued := VerificationToken(email.value, drawn, now + WEEK_MS);
        forall t | t in db.tokens ensures TokenValue(t) != TokenValue(issued) {
          assert !HasToken(drawn)(t);
        }
        AppendKeepsUnique(db.tokens, issued, TokenValue);
      }
    }
  }
}
