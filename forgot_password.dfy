/**
 * POST /api/auth/forgot-password: replace every reset token of an account with
 * one drawn 24-hour token, and answer the same way whether or not the account exists.
 */
module ForgotPasswordApi {

  import opened Wrappers
  import opened Seqs
  import opened Records

  /** The one reply a well-formed request gets, whether or not the email belongs to an account. */
  const Sent := Reply(200, ResetLinkSent)

  /**
   * The route as a step over the tables. `drawn` is the random token the route
   * draws and `now` the clock. The earlier tokens are deleted before the new one
   * is inserted; if the insert hits the unique token column, the route answers 500
   * with the deletion already done.
   */
  function Post(db: Tables, email: Option<string>, drawn: string, now: int): (r: Step)
    ensures r.tables.users == db.users
    ensures !Present(email) ==> r == Step(db, Reply(400, EmailRequired))
    ensures Present(email) && FindUserByEmail(db.users, email.value).None? ==> r == Step(db, Sent)
    ensures r.reply == Sent || r.reply == Reply(400, EmailRequired) || r.reply == Reply(500, ServerError)
  {
    if !Present(email) then Step(db, Reply(400, EmailRequired))
    else if FindUserByEmail(db.users, email.value).None? then Step(db, Sent)
    else
      var kept := Filter(db.tokens, NotForIdentifier(email.value));
      if FindToken(kept, drawn).Some? then Step(Tables(db.users, kept), Reply(500, ServerError))
      else Step(Tables(db.users, kept + [VerificationToken(email.value, drawn, now + DAY_MS)]), Sent)
  }

  /** A token value not yet in the table gets the generic success reply, account or no account. */
  lemma FreshTokenAlwaysSent(db: Tables, email: Option<string>, drawn: string, now: int)
    requires Present(email)
    requires FindToken(db.tokens, drawn).None?
    ensures Post(db, email, drawn, now).reply == Sent
  {
    var kept := Filter(db.tokens, NotForIdentifier(email.value));
    assert FindToken(kept, drawn).None? by {
      forall t | t in kept ensures !HasToken(drawn)(t) {
        assert t in db.tokens;
      }
    }
  }

  /** After a successful request for a known email, that account has exactly one token: the new 24-hour one. */
  lemma {:induction false} OneTokenAfterRequest(db: Tables, email: Option<string>, drawn: string, now: int)
    requires Present(email) && FindUserByEmail(db.users, email.value).Some?
    requires Post(db, email, drawn, now).reply == Sent
    ensures TokensFor(Post(db, email, drawn, now).tables.tokens, email.value)
            == [VerificationToken(email.value, drawn, now + DAY_MS)]
  {
    var e := email.value;
    var kept := Filter(db.tokens, NotForIdentifier(e));
    var issued := VerificationToken(e, drawn, now + DAY_MS);
    FilterConcat(kept, [issued], ForIdentifier(e));
    forall t | t in kept ensures !ForIdentifier(e)(t) {
      assert NotForIdentifier(e)(t);
    }
    FilterDropsAll(kept, ForIdentifier(e));
    assert Filter([issued], ForIdentifier(e)) == [issued] by {
      assert ForIdentifier(e)(issued);
      assert [issued][1..] == [];
    }
  }

  /** Tokens of every other account are left exactly as they were, in the same order. */
  lemma {:induction false} OtherTokensUntouched(db: Tables, email: Option<string>, drawn: string, now: int)
    requires Present(email)
    ensures Filter(Post(db, email, drawn, now).tables.tokens, NotForIdentifier(email.value))
            == Filter(db.tokens, NotForIdentifier(email.value))
  {
    var e := email.value;
    var kept := Filter(db.tokens, NotForIdentifier(e));
    if FindUserByEmail(db.users, e).Some? {
      FilterKeepsAll(kept, NotForIdentifier(e));
      if FindToken(kept, drawn).None? {
        var issued := VerificationToken(e, drawn, now + DAY_MS);
        FilterConcat(kept, [issued], NotForIdentifier(e));
        assert !NotForIdentifier(e)(issued);
        assert Filter([issued], NotForIdentifier(e)) == [] by {
          assert [issued][1..] == [];
        }
        assert kept + [] == kept;
      }
    }
  }

  /** The request keeps the unique constraints of both tables. */
  lemma PostKeepsWellFormed(db: Tables, email: Option<string>, drawn: string, now: int)
    requires WellFormed(db)
    ensures WellFormed(Post(db, email, drawn, now).tables)
  {
    if Present(email) && FindUserByEmail(db.users, email.value).Some? {
      var kept := Filter(db.tokens, NotForIdentifier(email.value));
      FilterKeepsUnique(db.tokens, NotForIdentifier(email.value), TokenValue);
      if FindToken(kept, drawn).None? {
        var issued := VerificationToken(email.value, drawn, now + DAY_MS);
        forall t | t in kept ensures TokenValue(t) != TokenValue(issued) {
          assert !HasToken(drawn)(t);
        }
        AppendKeepsUnique(kept, issued, TokenValue);
      }
    }
  }
}
