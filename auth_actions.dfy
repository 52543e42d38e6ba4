/**
 * Passwordless login with one-time codes (app/actions/authActions.ts). The SHA-256 code
 * hash is an arbitrary function `hash`, `Math.random()` is the draw `r` in [0, 1) and
 * `Date.now()` is `now` in milliseconds.
 */
module AuthActions {
  import opened Wrappers
  import opened Text
  import opened Store
  import opened Auth

  /** Ten minutes, in milliseconds. */
  const CodeLifetimeMs: int := 10 * 60 * 1000

  /**
   * The normalisation of an e-mail address on both paths: trim, then lower-case. The
   * result is no longer than the input and has no capitals left to lower.
   */
  function NormaliseEmail(emailRaw: string): (email: string)
    ensures |email| <= |emailRaw|
    ensures ToLower(email) == email
  {
    ToLowerIdempotent(Trim(emailRaw));
    ToLower(Trim(emailRaw))
  }

  /** A normalised address has no whitespace at either end. */
  lemma NormaliseEmailIsTrimmed(emailRaw: string)
    ensures IsTrimmed(NormaliseEmail(emailRaw))
  {
    ToLowerKeepsTrimmed(Trim(emailRaw));
  }

  /** Normalising twice is normalising once, so a stored e-mail is found again by its own text. */
  lemma NormaliseEmailIdempotent(emailRaw: string)
    ensures NormaliseEmail(NormaliseEmail(emailRaw)) == NormaliseEmail(emailRaw)
  {
    var email := NormaliseEmail(emailRaw);
    ToLowerKeepsTrimmed(Trim(emailRaw));
    TrimOfTrimmed(email);
    ToLowerIdempotent(Trim(emailRaw));
  }

  /** `Math.floor(100000 + r * 900000)`: a six-digit number for every draw in [0, 1). */
  function CodeNumber(r: real): (n: int)
    requires 0.0 <= r < 1.0
    ensures 100000 <= n <= 999999
  {
    (100000.0 + r * 900000.0).Floor
  }

  /** `randomCode`: six decimal digits denoting the drawn number. */
  function RandomCode(r: real): (code: string)
    requires 0.0 <= r < 1.0
    ensures |code| == 6 && IsDigits(code)
    ensures 100000 <= DecimalValue(code) <= 999999
  {
    var n := CodeNumber(r);
    DecimalLength(n, 5);
    DecimalRoundTrip(n);
    DecimalString(n)
  }

  /** A code has no surrounding whitespace, so trimming what the user types back leaves it intact. */
  lemma RandomCodeIsTrimmed(r: real)
    requires 0.0 <= r < 1.0
    ensures Trim(RandomCode(r)) == RandomCode(r)
  {
    TrimOfTrimmed(RandomCode(r));
  }

  /**
   * `requestLoginCode`: makes sure a user exists for the normalised e-mail, leaving an
   * existing one untouched, and appends exactly one code record that expires ten minutes
   * from `now`. The code itself is returned (the development shortcut for e-mail delivery).
   */
  method RequestLoginCode(db: Database, hash: string -> string, emailRaw: string, r: real, now: nat)
    returns (devCode: string)
    requires db.Valid() && 0.0 <= r < 1.0
    modifies db`users, db`loginCodes
    ensures db.Valid()
    ensures devCode == RandomCode(r)
    ensures db.users == UpsertUserByEmail(old(db.users), NormaliseEmail(emailRaw))
    ensures db.loginCodes
         == old(db.loginCodes) + [LoginCode(NormaliseEmail(emailRaw), hash(devCode), now + CodeLifetimeMs, now)]
  {
    var email := NormaliseEmail(emailRaw);
    var code := RandomCode(r);
    var codeHash := hash(code);
    var expiresAt := now + CodeLifetimeMs;
    db.users := UpsertUserByEmail(db.users, email);
    db.loginCodes := db.loginCodes + [LoginCode(email, codeHash, expiresAt, now)];
    devCode := code;
  }

  /**
   * The decision `verifyLoginCode` makes: the user to sign in, or none for `false`. Only the
   * latest code for the normalised e-mail is consulted; it must not have expired before
   * `now` and must carry the hash of the trimmed code, and the user must exist.
   * Success always names the owner of the e-mail and rests on a stored, unexpired code
   * with the submitted code's hash.
   */
  function LoginCodeUser(users: seq<User>, codes: seq<LoginCode>, hash: string -> string,
                         emailRaw: string, codeRaw: string, now: int): (user: Option<User>)
    ensures user.Some? ==> user.value in users && user.value.email == NormaliseEmail(emailRaw)
    ensures user.Some? ==> exists c :: c in codes && c.email == NormaliseEmail(emailRaw) &&
                                       now <= c.expiresAt && c.codeHash == hash(Trim(codeRaw))
  {
    var email := NormaliseEmail(emailRaw);
    var latest := LatestCode(codes, email);
    if latest.None? then None
    else if latest.value.expiresAt < now then None
    else if latest.value.codeHash != hash(Trim(codeRaw)) then None
    else FindUserByEmail(users, email)
  }

  /** No code was ever issued for the e-mail: verification fails. */
  lemma NoCodeFails(users: seq<User>, codes: seq<LoginCode>, hash: string -> string,
                    emailRaw: string, codeRaw: string, now: int)
    requires forall i :: 0 <= i < |codes| ==> codes[i].email != NormaliseEmail(emailRaw)
    ensures LoginCodeUser(users, codes, hash, emailRaw, codeRaw, now) == None
  {
  }

  /** The latest code has expired (`expiresAt < now`): verification fails even with the right code. */
  lemma ExpiredCodeFails(users: seq<User>, codes: seq<LoginCode>, hash: string -> string,
                         emailRaw: string, codeRaw: string, now: int)
    requires var latest := LatestCode(codes, NormaliseEmail(emailRaw));
             latest.Some? && latest.value.expiresAt < now
    ensures LoginCodeUser(users, codes, hash, emailRaw, codeRaw, now) == None
  {
  }

  /**
   * Only the latest code counts: when its hash differs from that of the submitted code,
   * verification fails, however many older unexpired codes match.
   */
  lemma OnlyLatestCodeCounts(users: seq<User>, codes: seq<LoginCode>, hash: string -> string,
                             emailRaw: string, codeRaw: string, now: int)
    requires var latest := LatestCode(codes, NormaliseEmail(emailRaw));
             latest.Some? && latest.value.codeHash != hash(Trim(codeRaw))
    ensures LoginCodeUser(users, codes, hash, emailRaw, codeRaw, now) == None
  {
  }

  /**
   * Request, then verify with the returned code no later than the expiry: the owner of the
   * e-mail is signed in. The assumption is that every earlier code for that e-mail was
   * created strictly before `now`, so the new code is the latest whatever order the
   * database gives codes created in the same millisecond. At exactly `expiresAt` the code
   * is still accepted.
   */
  lemma RequestThenVerify(users: seq<User>, codes: seq<LoginCode>, hash: string -> string,
                          emailRaw: string, r: real, now: nat, later: int)
    requires UsersWellFormed(users) && 0.0 <= r < 1.0
    requires forall i :: 0 <= i < |codes| && codes[i].email == NormaliseEmail(emailRaw) ==> codes[i].createdAt < now
    requires later <= now + CodeLifetimeMs
    ensures var email := NormaliseEmail(emailRaw);
            var users' := UpsertUserByEmail(users, email);
            var codes' := codes + [LoginCode(email, hash(RandomCode(r)), now + CodeLifetimeMs, now)];
            var user := LoginCodeUser(users', codes', hash, emailRaw, RandomCode(r), later);
            user.Some? && user == FindUserByEmail(users', email)
  {
    var email := NormaliseEmail(emailRaw);
    var code := RandomCode(r);
    var c := LoginCode(email, hash(code), now + CodeLifetimeMs, now);
    var users' := UpsertUserByEmail(users, email);
    LatestCodeAfterAppend(codes, c);
    assert LatestCode(codes + [c], email) == Some(c);
    RandomCodeIsTrimmed(r);
    assert Trim(code) == code;
    assert FindUserByEmail(users', email).Some?;
  }

  /**
   * `verifyLoginCode`: `true` exactly when `LoginCodeUser` names a user, in which case the
   * session cookie now carries that user's token, which reads back as that user's id; on
   * `false` the cookie is untouched. Nothing in the database changes, so the code is not
   * consumed.
   */
  method VerifyLoginCode(db: Database, session: SessionCookie, hash: string -> string,
                         emailRaw: string, codeRaw: string, now: nat)
    returns (ok: bool)
    requires db.Valid()
    modifies session
    ensures var user := LoginCodeUser(db.users, db.loginCodes, hash, emailRaw, codeRaw, now);
            && ok == user.Some?
            && (ok ==> session.cookie == Some(SessionToken(session.hmac, user.value.id, now)))
            && (ok ==> session.GetSessionUserId() == Some(user.value.id))
            && (!ok ==> session.cookie == old(session.cookie))
  {
    var user := LoginCodeUser(db.users, db.loginCodes, hash, emailRaw, codeRaw, now);
    if user.None? { return false; }
    var k :| 0 <= k < |db.users| && db.users[k] == user.value;
    assert user.value.id == NewUserId(k);
    session.SetSession(user.value.id, now);
    return true;
  }
}
