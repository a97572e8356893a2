/**
 * `PasswordResetService`: one-time codes for resetting a password.  A code
 * is six random decimal digits with an expiry time; requesting a code adds a
 * token and keeps the older ones; a reset uses the e-mail's token that
 * expires last.  Times are milliseconds, passed in by the caller, and the
 * random digits arrive as a parameter.
 */
module PasswordResetService {
  import opened Wrappers
  import opened Text
  import opened Entities
  import opened Store
  import UserService

  const OtpLength: nat := 6

  /** A value of `SecureRandom.nextInt(10)`. */
  type Digit = d: int | 0 <= d < 10

  // ----- generateOtp ------------------------------------------------------------

  /** `generateOtp`: the digits drawn, in order, as decimal characters. */
  method GenerateOtp(draws: seq<Digit>) returns (otp: string)
    requires |draws| == OtpLength
    ensures |otp| == OtpLength && AllDigits(otp)
    ensures forall i :: 0 <= i < OtpLength ==> otp[i] == DigitChar(draws[i])
  {
    otp := "";
    var i := 0;
    while i < OtpLength
      invariant 0 <= i <= OtpLength
      invariant |otp| == i
      invariant forall k :: 0 <= k < i ==> otp[k] == DigitChar(draws[k])
    {
      otp := otp + [DigitChar(draws[i])];
      i := i + 1;
    }
  }

  // ----- createPasswordResetOtp -----------------------------------------------------

  /** `LocalDateTime.now().plusMinutes(m)`, in milliseconds. */
  function ExpiryAfter(now: int, expiryMinutes: int): int {
    now + expiryMinutes * 60000
  }

  /**
   * `createPasswordResetOtp`: stores a fresh token for `email` and returns
   * its code.  It does not check that the address belongs to an account, and
   * it keeps the e-mail's earlier tokens.
   */
  method CreatePasswordResetOtp(db: Database, email: string, draws: seq<Digit>, now: int, expiryMinutes: int)
    returns (otp: string)
    requires |draws| == OtpLength
    modifies db
    ensures |otp| == OtpLength && AllDigits(otp)
    ensures exists id :: id > 0 && id !in old(db.tokens) &&
              db.State() == old(db.State()).(tokens := old(db.tokens)[id := ResetToken(email, otp, ExpiryAfter(now, expiryMinutes))])
  {
    otp := GenerateOtp(draws);
    var id := NewId(db.tokens.Keys);
    db.tokens := db.tokens[id := ResetToken(email, otp, ExpiryAfter(now, expiryMinutes))];
  }

  /** A new code is the e-mail's latest token whenever no other token of that e-mail expires later. */
  lemma NewTokenIsLatest(tokens: map<int, ResetToken>, id: int, nt: ResetToken)
    requires id !in tokens && (forall k :: k in tokens ==> k < id)
    requires forall k :: k in tokens && tokens[k].email == nt.email ==> tokens[k].expiryDate <= nt.expiryDate
    ensures Latest(tokens[id := nt], nt.email) == Some(id)
  {
    var m := tokens[id := nt];
    assert IsLatest(m, nt.email, id);
    LatestUnique(m, nt.email, id);
  }

  // ----- findFirstByEmailOrderByExpiryDateDesc --------------------------------------------

  /**
   * Token `a` comes before token `b` when it expires later; of two with the
   * same expiry the later-created, larger id comes first.
   */
  predicate Before(tokens: map<int, ResetToken>, a: int, b: int)
    requires a in tokens && b in tokens
  {
    tokens[a].expiryDate > tokens[b].expiryDate ||
    (tokens[a].expiryDate == tokens[b].expiryDate && a >= b)
  }

  /** `id` is the e-mail's first token in the query's order. */
  predicate IsLatest(tokens: map<int, ResetToken>, email: string, id: int) {
    id in tokens && tokens[id].email == email &&
    forall k :: k in tokens && tokens[k].email == email ==> Before(tokens, id, k)
  }

  lemma LatestUnique(tokens: map<int, ResetToken>, email: string, id: int)
    requires IsLatest(tokens, email, id)
    ensures forall j :: IsLatest(tokens, email, j) ==> j == id
  {
  }

  /** The token the query returns, if the e-mail has any. */
  ghost function Latest(tokens: map<int, ResetToken>, email: string): Option<int> {
    if exists id :: IsLatest(tokens, email, id) then
      var id :| IsLatest(tokens, email, id);
      Some(id)
    else None
  }

  /** `findFirstByEmailOrderByExpiryDateDesc`: a scan for the e-mail's first token. */
  method FindLatest(db: Database, email: string) returns (r: Option<int>)
    ensures r == Latest(db.tokens, email)
    ensures r.None? <==> forall k :: k in db.tokens ==> db.tokens[k].email != email
  {
    var tokens := db.tokens;
    var rest := tokens.Keys;
    r := None;
    while rest != {}
      invariant rest <= tokens.Keys
      invariant r.Some? ==> r.value in tokens && tokens[r.value].email == email
      invariant forall k :: k in tokens && k !in rest && tokens[k].email == email ==> r.Some? && Before(tokens, r.value, k)
      decreases |rest|
    {
      HasMember(rest);
      var k :| k in rest;
      if tokens[k].email == email && (r.None? || Before(tokens, k, r.value)) {
        r := Some(k);
      }
      rest := rest - {k};
    }
    if r.Some? {
      LatestUnique(tokens, email, r.value);
    }
  }

  // ----- resetPasswordWithOtp -------------------------------------------------------------

  /** `expiryDate.before(now)`: the expiry instant is already past. */
  predicate Expired(token: ResetToken, now: int) {
    token.expiryDate < now
  }

  /**
   * `resetPasswordWithOtp` as written: an expired token is deleted and then
   * BadRequestException is thrown.  BadRequestException is unchecked (the
   * service declares no `throws`), so the transaction rolls back and the
   * deletion with it: an expired token stays in the table.
   */
  ghost function ResetOutcome(t: Tables, email: string, otp: string, encodedPassword: string, now: int): Outcome<()>
    requires UsersUnique(t.users)
  {
    match Latest(t.tokens, email)
    case None => Outcome(t, Err(BadRequest("no otp")))
    case Some(id) =>
      if Expired(t.tokens[id], now) then Outcome(t, Err(BadRequest("expired")))
      else if t.tokens[id].token != otp then Outcome(t, Err(BadRequest("invalid otp")))
      else
        var updated := UserService.UpdatePasswordOutcome(t, email, encodedPassword);
        if updated.result.Err? then Outcome(t, updated.result)
        else Outcome(updated.state.(tokens := t.tokens - {id}), Ok(()))
  }

  method ResetPasswordWithOtp(db: Database, email: string, otp: string, encodedPassword: string, now: int)
    returns (r: Result<()>)
    requires UsersUnique(db.users)
    modifies db
    ensures db.State() == ResetOutcome(old(db.State()), email, otp, encodedPassword, now).state
    ensures r == ResetOutcome(old(db.State()), email, otp, encodedPassword, now).result
  {
    var t0 := db.State();
    var latest := FindLatest(db, email);
    if latest.None? {
      return Err(BadRequest("no otp"));
    }
    var id := latest.value;
    var token := db.tokens[id];
    if token.expiryDate < now {
      db.tokens := db.tokens - {id};
      db.Restore(t0);
      return Err(BadRequest("expired"));
    }
    if token.token != otp {
      return Err(BadRequest("invalid otp"));
    }
    var updated := UserService.UpdatePassword(db, email, encodedPassword);
    if updated.Err? {
      db.Restore(t0);
      return updated;
    }
    db.tokens := db.tokens - {id};
    return Ok(());
  }

  /**
   * A reset succeeds exactly when the e-mail's latest token is unexpired,
   * carries the code given, and the e-mail belongs to an account.  Then that
   * account's password is the new hash, that token is gone, and nothing else
   * changes; a failure changes nothing.
   */
  lemma ResetSpec(t: Tables, email: string, otp: string, encodedPassword: string, now: int)
    requires Consistent(t)
    ensures var o := ResetOutcome(t, email, otp, encodedPassword, now);
            o.result.Ok? <==>
              Latest(t.tokens, email).Some? &&
              !Expired(t.tokens[Latest(t.tokens, email).value], now) &&
              t.tokens[Latest(t.tokens, email).value].token == otp &&
              UserService.EmailTaken(t.users, email)
    ensures var o := ResetOutcome(t, email, otp, encodedPassword, now);
            o.result.Err? ==> o.state == t
    ensures var o := ResetOutcome(t, email, otp, encodedPassword, now);
            o.result.Ok? ==>
              var u := UserService.UserByEmail(t.users, email).value;
              o.state == t.(users := t.users[u := t.users[u].(password := encodedPassword)],
                            tokens := t.tokens - {Latest(t.tokens, email).value}) &&
              Consistent(o.state)
  {
    var o := ResetOutcome(t, email, otp, encodedPassword, now);
    if o.result.Ok? {
      var u := UserService.UserByEmail(t.users, email).value;
      UserService.RewriteKeepsUnique(t.users, u, t.users[u].(password := encodedPassword));
    }
  }

  /**
   * A code works once per token: if the same code succeeds a second time,
   * the e-mail had another token, not the one just used, with that very
   * code that had not yet expired.
   */
  lemma CodeNeedsAnotherTokenToWorkAgain(t: Tables, email: string, otp: string, p1: string, p2: string, now: int)
    requires Consistent(t)
    requires ResetOutcome(t, email, otp, p1, now).result.Ok?
    requires ResetOutcome(ResetOutcome(t, email, otp, p1, now).state, email, otp, p2, now).result.Ok?
    ensures exists k :: k in t.tokens && k != Latest(t.tokens, email).value &&
                        t.tokens[k].email == email && t.tokens[k].token == otp && !Expired(t.tokens[k], now)
  {
    ResetSpec(t, email, otp, p1, now);
    var s := ResetOutcome(t, email, otp, p1, now).state;
    ResetSpec(s, email, otp, p2, now);
    var k := Latest(s.tokens, email).value;
    assert k in s.tokens && s.tokens[k] == t.tokens[k];
  }

  /** With the e-mail's only token used, a second reset is refused. */
  lemma SingleTokenIsSingleUse(t: Tables, email: string, otp: string, p1: string, p2: string, now: int)
    requires Consistent(t)
    requires forall a, b :: a in t.tokens && b in t.tokens && t.tokens[a].email == email && t.tokens[b].email == email ==> a == b
    requires ResetOutcome(t, email, otp, p1, now).result.Ok?
    ensures ResetOutcome(ResetOutcome(t, email, otp, p1, now).state, email, otp, p2, now).result == Err(BadRequest("no otp"))
  {
    ResetSpec(t, email, otp, p1, now);
    var used := Latest(t.tokens, email).value;
    var s := ResetOutcome(t, email, otp, p1, now).state;
    forall k | k in s.tokens
      ensures s.tokens[k].email != email
    {
      assert k in t.tokens && k != used;
    }
  }

  /** As written, an attempt with an expired latest token leaves the token table, and every other table, as it was. */
  lemma ExpiredTokenSurvives(t: Tables, email: string, otp: string, encodedPassword: string, now: int)
    requires UsersUnique(t.users)
    requires Latest(t.tokens, email).Some? && Expired(t.tokens[Latest(t.tokens, email).value], now)
    ensures ResetOutcome(t, email, otp, encodedPassword, now) == Outcome(t, Err(BadRequest("expired")))
  {
  }

  /** One expired token, presented twice: as written it is still there after the first refusal. */
  lemma ExpiredTokenKeptExample()
    ensures var t := Tables({}, map[], map[], map[], map[], map[], map[], map[], map[1 := ResetToken("a@b", "123456", 100)]);
            ResetOutcome(t, "a@b", "123456", "h", 200).state.tokens == map[1 := ResetToken("a@b", "123456", 100)]
  {
    var tokens := map[1 := ResetToken("a@b", "123456", 100)];
    assert IsLatest(tokens, "a@b", 1);
    LatestUnique(tokens, "a@b", 1);
  }

  /** The evidently intended reset: the expired token is deleted whatever happens to the rest of the call. */
  ghost function ResetOutcomeCorrected(t: Tables, email: string, otp: string, encodedPassword: string, now: int): Outcome<()>
    requires UsersUnique(t.users)
  {
    match Latest(t.tokens, email)
    case Some(id) =>
      if Expired(t.tokens[id], now) then Outcome(t.(tokens := t.tokens - {id}), Err(BadRequest("expired")))
      else ResetOutcome(t, email, otp, encodedPassword, now)
    case None => ResetOutcome(t, email, otp, encodedPassword, now)
  }

  /** The corrected reset commits the deletion of an expired token before refusing. */
  method ResetPasswordWithOtpCorrected(db: Database, email: string, otp: string, encodedPassword: string, now: int)
    returns (r: Result<()>)
    requires UsersUnique(db.users)
    modifies db
    ensures db.State() == ResetOutcomeCorrected(old(db.State()), email, otp, encodedPassword, now).state
    ensures r == ResetOutcomeCorrected(old(db.State()), email, otp, encodedPassword, now).result
  {
    var latest := FindLatest(db, email);
    if latest.Some? && db.tokens[latest.value].expiryDate < now {
      db.tokens := db.tokens - {latest.value};
      return Err(BadRequest("expired"));
    }
    r := ResetPasswordWithOtp(db, email, otp, encodedPassword, now);
  }

  /**
   * With the correction an expired token is removed, the password and every
   * other table stay, and the e-mail's remaining tokens are the others.
   */
  lemma CorrectedRemovesExpired(t: Tables, email: string, otp: string, encodedPassword: string, now: int)
    requires UsersUnique(t.users)
    requires Latest(t.tokens, email).Some? && Expired(t.tokens[Latest(t.tokens, email).value], now)
    ensures var id := Latest(t.tokens, email).value;
            var o := ResetOutcomeCorrected(t, email, otp, encodedPassword, now);
            o.result == Err(BadRequest("expired")) &&
            id !in o.state.tokens && o.state == t.(tokens := t.tokens - {id})
  {
  }

  /** Apart from expired tokens, the correction changes nothing. */
  lemma CorrectedAgreesOtherwise(t: Tables, email: string, otp: string, encodedPassword: string, now: int)
    requires UsersUnique(t.users)
    ensures ResetOutcomeCorrected(t, email, otp, encodedPassword, now) != ResetOutcome(t, email, otp, encodedPassword, now) <==>
              Latest(t.tokens, email).Some? && Expired(t.tokens[Latest(t.tokens, email).value], now)
  {
    if Latest(t.tokens, email).Some? && Expired(t.tokens[Latest(t.tokens, email).value], now) {
      var id := Latest(t.tokens, email).value;
      assert id in t.tokens && id !in (t.tokens - {id});
      assert ResetOutcomeCorrected(t, email, otp, encodedPassword, now).state.tokens != t.tokens;
    }
  }
}
