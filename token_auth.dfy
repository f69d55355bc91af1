/**
 * Access and refresh tokens, refresh-token rotation, and the one-time codes of the
 * development sign-in flow.
 *
 * JSON Web Tokens (RFC 7519) are abstracted: signing is an oracle from claims and an
 * expiry time to a token string, decoding an oracle from a token string to the claims
 * and expiry it was signed with (None when the signature is wrong). Verification
 * is decoding plus the expiry test, made against the request's clock. Only the
 * claims the server reads are kept: `sub` (section 4.1.2 of RFC 7519), `jti`
 * (section 4.1.7 of RFC 7519), `exp` (section 4.1.4 of RFC 7519, in whole seconds)
 * and the private `role` claim. SHA-256 is the injective constructor `Sha256`, and
 * the random part of every generated id is a parameter.
 */
module TokenAuth {
  import opened Common
  import opened Store
  import opened Validation
  import Config

  datatype Claims = Claims(sub: Option<string>, role: Option<string>, jti: Option<string>)

  /** `sign(claims, exp)` and `decode(token)`; times are in seconds, as in the `exp` claim. */
  datatype Jwt = Jwt(sign: (Claims, int) -> string, decode: string -> Option<(Claims, int)>)

  /** The configured lifetimes. */
  datatype TokenTtl = TokenTtl(accessMinutes: int, refreshDays: int)

  datatype Tokens = Tokens(accessToken: string, refreshToken: string)

  const DayMillis: int := 24 * 60 * 60 * 1000
  const DevCodeMillis: int := 5 * 60 * 1000

  /** A claim the server accepts: present and not the empty string (JavaScript truthiness). */
  predicate Present(claim: Option<string>) {
    claim.Some? && claim.value != ""
  }

  function AccessClaims(user: User): Claims {
    Claims(Some(user.id), Some(user.globalRole), None)
  }

  function RefreshClaims(user: User, tokenId: string): Claims {
    Claims(Some(user.id), None, Some(tokenId))
  }

  /** A decoder that gives back the claims and expiry of every token its signer issued. */
  ghost predicate VerifiesSigned(jwt: Jwt) {
    forall c: Claims, exp: int :: jwt.decode(jwt.sign(c, exp)) == Some((c, exp))
  }

  /** The whole second of a millisecond clock reading, as the `exp` claim counts it. */
  function Seconds(millis: int): int {
    millis / 1000
  }

  /**
   * `jwt.verify`: the claims of a correctly signed token, refused once the clock's
   * whole second has reached its `exp`.
   */
  function Verify(jwt: Jwt, token: string, now: int): (r: Option<Claims>)
    ensures r.Some? <==> jwt.decode(token).Some? && Seconds(now) < jwt.decode(token).value.1
    ensures r.Some? ==> r.value == jwt.decode(token).value.0
  {
    match jwt.decode(token)
    case None => None
    case Some((claims, exp)) => if Seconds(now) < exp then Some(claims) else None
  }

  /** Verification never changes a token's claims, and a token once expired stays expired. */
  lemma ExpiredStaysExpired(jwt: Jwt, token: string, now: int, later: int)
    requires now <= later
    ensures Verify(jwt, token, later).Some? ==> Verify(jwt, token, now) == Verify(jwt, token, later)
  {
    assert Seconds(now) <= Seconds(later);
  }

  /** An access token names the user and their global role, and carries no token id. */
  /** An access token names the user and their global role, carries no token id, and lives the access lifetime. */
  function AccessToken(jwt: Jwt, ttl: TokenTtl, user: User, now: int): (token: string)
    ensures VerifiesSigned(jwt) ==>
      var claims := Verify(jwt, token, now);
      (claims.Some? <==> ttl.accessMinutes > 0) &&
      (claims.Some? ==> claims.value.sub == Some(user.id) && claims.value.role == Some(user.globalRole) &&
                        !Present(claims.value.jti))
    ensures VerifiesSigned(jwt) ==>
      jwt.decode(token).Some? && jwt.decode(token).value.1 - Seconds(now) == ttl.accessMinutes * 60
  {
    jwt.sign(AccessClaims(user), Seconds(now) + ttl.accessMinutes * 60)
  }

  /** A refresh token names the user and its token id, and carries no role. */
  /** A refresh token names the user and its token id, carries no role, and lives the refresh lifetime. */
  function RefreshToken(jwt: Jwt, ttl: TokenTtl, user: User, tokenId: string, now: int): (token: string)
    ensures VerifiesSigned(jwt) ==>
      var claims := Verify(jwt, token, now);
      (claims.Some? <==> ttl.refreshDays > 0) &&
      (claims.Some? ==> claims.value.sub == Some(user.id) && claims.value.jti == Some(tokenId) &&
                        !Present(claims.value.role))
    ensures VerifiesSigned(jwt) ==>
      jwt.decode(token).Some? && jwt.decode(token).value.1 - Seconds(now) == ttl.refreshDays * 24 * 60 * 60
  {
    jwt.sign(RefreshClaims(user, tokenId), Seconds(now) + ttl.refreshDays * 24 * 60 * 60)
  }

  /** The row `issueTokens` stores: the token's digest, never the token itself. */
  function IssuedRecord(jwt: Jwt, ttl: TokenTtl, user: User, tokenId: string, now: int): (rec: RefreshRecord)
    ensures rec.id == tokenId && rec.userId == user.id && rec.revokedAt.None?
    ensures rec.tokenHash == Sha256(RefreshToken(jwt, ttl, user, tokenId, now))
    ensures rec.expiresAt - now == ttl.refreshDays * DayMillis
  {
    RefreshRecord(tokenId, user.id, Sha256(RefreshToken(jwt, ttl, user, tokenId, now)), now + ttl.refreshDays * DayMillis, None)
  }

  /**
   * What issuing tokens for `user` answers, with the tables it leaves: both tokens
   * are signed and the refresh token is recorded under the id `"rt_" + nonce`; an id
   * already taken is a unique-key violation, answered as an internal error.
   */
  function Issued(t: Tables, jwt: Jwt, ttl: TokenTtl, user: User, nonce: string, now: int)
    : (r: (Result<Tokens, ApiError>, Tables))
    ensures r.0.Ok? <==> "rt_" + nonce !in t.refreshTokens
    ensures r.0.Err? ==> r.0.error == InternalError && r.1 == t
    ensures Integrity(t) && user.id in t.users ==> Integrity(r.1)
  {
    var tokenId := "rt_" + nonce;
    if tokenId in t.refreshTokens then (Err(InternalError), t)
    else
      (Ok(Tokens(AccessToken(jwt, ttl, user, now), RefreshToken(jwt, ttl, user, tokenId, now))),
       t.(refreshTokens := t.refreshTokens[tokenId := IssuedRecord(jwt, ttl, user, tokenId, now)]))
  }

  method IssueTokens(db: Database, jwt: Jwt, ttl: TokenTtl, user: User, nonce: string, now: int)
    returns (r: Result<Tokens, ApiError>)
    requires db.Valid() && user.id in db.users
    modifies db
    ensures (r, db.Snapshot()) == Issued(old(db.Snapshot()), jwt, ttl, user, nonce, now)
    ensures db.Valid()
  {
    var tokenId := "rt_" + nonce;
    var refreshToken := RefreshToken(jwt, ttl, user, tokenId, now);
    var accessToken := AccessToken(jwt, ttl, user, now);
    if tokenId in db.refreshTokens {
      return Err(InternalError);
    }
    db.refreshTokens := db.refreshTokens[tokenId := RefreshRecord(tokenId, user.id, Sha256(refreshToken),
                                                                  now + ttl.refreshDays * DayMillis, None)];
    r := Ok(Tokens(accessToken, refreshToken));
  }

  /**
   * A freshly issued refresh token passes the rotation checks until its own `exp`,
   * which falls no later than its record's expiry, and is refused as invalid from
   * then on; the decoder is taken to give back what was signed, and the user's id
   * is not empty.
   */
  lemma IssuedTokenRotates(t: Tables, jwt: Jwt, ttl: TokenTtl, user: User, nonce: string, now: int, later: int)
    requires "rt_" + nonce !in t.refreshTokens && user.id != ""
    requires VerifiesSigned(jwt)
    ensures var token := RefreshToken(jwt, ttl, user, "rt_" + nonce, now);
      RotationCheck(Issued(t, jwt, ttl, user, nonce, now).1.refreshTokens, jwt, token, later) ==
        if Seconds(later) < Seconds(now) + ttl.refreshDays * 24 * 60 * 60
        then Ok(IssuedRecord(jwt, ttl, user, "rt_" + nonce, now))
        else Err(InvalidRefresh)
  {
    var tokenId := "rt_" + nonce;
    assert tokenId[..3] == "rt_";
    assert tokenId != "";
    var token := RefreshToken(jwt, ttl, user, tokenId, now);
    var after := Issued(t, jwt, ttl, user, nonce, now).1.refreshTokens;
    assert after[tokenId] == IssuedRecord(jwt, ttl, user, tokenId, now);
    assert jwt.decode(token) == Some((RefreshClaims(user, tokenId), Seconds(now) + ttl.refreshDays * 24 * 60 * 60));
    if Seconds(later) < Seconds(now) + ttl.refreshDays * 24 * 60 * 60 {
      JwtExpiresFirst(now, later, ttl.refreshDays);
    }
  }

  /** A time before the refresh token's `exp` second is also before its record's expiry. */
  lemma JwtExpiresFirst(now: int, later: int, days: int)
    requires Seconds(later) < Seconds(now) + days * 24 * 60 * 60
    ensures later <= now + days * DayMillis
  {
    assert later < 1000 * Seconds(later) + 1000;
    assert 1000 * Seconds(now) <= now;
    assert days * DayMillis == 1000 * (days * 24 * 60 * 60);
  }

  const InvalidRefresh: ApiError := ApiError(401, "INVALID_REFRESH")
  const RefreshRevoked: ApiError := ApiError(401, "REFRESH_REVOKED")
  const RefreshExpired: ApiError := ApiError(401, "REFRESH_EXPIRED")
  const RefreshMismatch: ApiError := ApiError(401, "REFRESH_MISMATCH")
  const UserNotFound: ApiError := ApiError(401, "USER_NOT_FOUND")

  /**
   * The checks a presented refresh token must pass, in the order they are made; the
   * result is the stored record it names.
   */
  function RotationCheck(tokens: map<string, RefreshRecord>, jwt: Jwt, token: string, now: int)
    : (r: Result<RefreshRecord, ApiError>)
    ensures r.Ok? <==>
      var c := Verify(jwt, token, now);
      c.Some? && Present(c.value.jti) && Present(c.value.sub) && c.value.jti.value in tokens &&
      tokens[c.value.jti.value].revokedAt.None? && tokens[c.value.jti.value].expiresAt >= now &&
      tokens[c.value.jti.value].tokenHash == Sha256(token)
    ensures r.Ok? ==> r.value == tokens[Verify(jwt, token, now).value.jti.value]
    ensures Verify(jwt, token, now).None? ==> r == Err(InvalidRefresh)
    ensures Verify(jwt, token, now).Some? && !(Present(Verify(jwt, token, now).value.jti) && Present(Verify(jwt, token, now).value.sub)) ==>
      r == Err(InvalidRefresh)
    ensures r.Err? ==> r.error in {InvalidRefresh, RefreshRevoked, RefreshExpired, RefreshMismatch}
  {
    match Verify(jwt, token, now)
    case None => Err(InvalidRefresh)
    case Some(c) =>
      if !Present(c.jti) || !Present(c.sub) then Err(InvalidRefresh)
      else if c.jti.value !in tokens || tokens[c.jti.value].revokedAt.Some? then Err(RefreshRevoked)
      else if tokens[c.jti.value].expiresAt < now then Err(RefreshExpired)
      else if tokens[c.jti.value].tokenHash != Sha256(token) then Err(RefreshMismatch)
      else Ok(tokens[c.jti.value])
  }

  /** A well-formed token whose record is missing or revoked is reported as revoked, before expiry or hash. */
  lemma RevokedBeforeExpired(tokens: map<string, RefreshRecord>, jwt: Jwt, token: string, now: int)
    requires Verify(jwt, token, now).Some?
    requires var c := Verify(jwt, token, now).value; Present(c.jti) && Present(c.sub)
    requires var id := Verify(jwt, token, now).value.jti.value; id !in tokens || tokens[id].revokedAt.Some?
    ensures RotationCheck(tokens, jwt, token, now) == Err(RefreshRevoked)
  {
  }

  /**
   * What rotating a refresh token answers, with the tables it leaves: a token that
   * fails the checks changes nothing; otherwise its record is revoked, then the user
   * its `sub` claim names is looked up (a missing user keeps the revocation), then
   * new tokens are issued for that user.
   */
  function Rotation(t: Tables, jwt: Jwt, ttl: TokenTtl, token: string, nonce: string, now: int)
    : (r: (Result<Tokens, ApiError>, Tables))
    ensures var check := RotationCheck(t.refreshTokens, jwt, token, now);
      check.Err? ==> r == (Err(check.error), t)
    ensures r.0.Ok? <==>
      RotationCheck(t.refreshTokens, jwt, token, now).Ok? &&
      Verify(jwt, token, now).value.sub.value in t.users && "rt_" + nonce !in t.refreshTokens
    ensures r.0.Ok? ==>
      var user := t.users[Verify(jwt, token, now).value.sub.value];
      r.0.value == Tokens(AccessToken(jwt, ttl, user, now), RefreshToken(jwt, ttl, user, "rt_" + nonce, now)) &&
      r.1.refreshTokens ==
        Revoked(t.refreshTokens, jwt, token, now)["rt_" + nonce := IssuedRecord(jwt, ttl, user, "rt_" + nonce, now)]
    ensures RotationCheck(t.refreshTokens, jwt, token, now).Ok? && Verify(jwt, token, now).value.sub.value !in t.users ==>
      r == (Err(UserNotFound), t.(refreshTokens := Revoked(t.refreshTokens, jwt, token, now)))
    ensures (RotationCheck(t.refreshTokens, jwt, token, now).Ok? && Verify(jwt, token, now).value.sub.value in t.users &&
             "rt_" + nonce in t.refreshTokens) ==>
      r == (Err(InternalError), t.(refreshTokens := Revoked(t.refreshTokens, jwt, token, now)))
    ensures r.1 == t.(refreshTokens := r.1.refreshTokens)
  {
    var check := RotationCheck(t.refreshTokens, jwt, token, now);
    if check.Err? then (Err(check.error), t)
    else
      var revoked := t.(refreshTokens := Revoked(t.refreshTokens, jwt, token, now));
      var userId := Verify(jwt, token, now).value.sub.value;
      if userId !in t.users then (Err(UserNotFound), revoked)
      else Issued(revoked, jwt, ttl, t.users[userId], nonce, now)
  }

  /** Rotation keeps the tables consistent: the revoked record stays, the new one names an existing user. */
  lemma RotationKeepsIntegrity(t: Tables, jwt: Jwt, ttl: TokenTtl, token: string, nonce: string, now: int)
    requires Integrity(t)
    ensures Integrity(Rotation(t, jwt, ttl, token, nonce, now).1)
  {
    if RotationCheck(t.refreshTokens, jwt, token, now).Ok? {
      var revoked := t.(refreshTokens := Revoked(t.refreshTokens, jwt, token, now));
      assert Integrity(revoked);
    }
  }

  method RotateRefreshToken(db: Database, jwt: Jwt, ttl: TokenTtl, token: string, nonce: string, now: int)
    returns (r: Result<Tokens, ApiError>)
    requires db.Valid()
    modifies db
    ensures (r, db.Snapshot()) == Rotation(old(db.Snapshot()), jwt, ttl, token, nonce, now)
    ensures db.Valid()
  {
    var check := RotationCheck(db.refreshTokens, jwt, token, now);
    if check.Err? {
      return Err(check.error);
    }
    var record := check.value;
    var claims := Verify(jwt, token, now).value;
    var tokenId := claims.jti.value;
    db.refreshTokens := db.refreshTokens[tokenId := record.(revokedAt := Some(now))];
    var userId := claims.sub.value;
    if userId !in db.users {
      return Err(UserNotFound);
    }
    r := IssueTokens(db, jwt, ttl, db.users[userId], nonce, now);
  }

  /** The table after a successful check revokes the record the token's `jti` names. */
  function Revoked(tokens: map<string, RefreshRecord>, jwt: Jwt, token: string, now: int): (after: map<string, RefreshRecord>)
    requires RotationCheck(tokens, jwt, token, now).Ok?
    ensures after.Keys == tokens.Keys
    ensures var id := Verify(jwt, token, now).value.jti.value;
      after[id].revokedAt == Some(now) && forall k :: k in tokens && k != id ==> after[k] == tokens[k]
  {
    var id := Verify(jwt, token, now).value.jti.value;
    tokens[id := tokens[id].(revokedAt := Some(now))]
  }

  /**
   * A refresh token is good for one rotation: once its record is revoked (and any
   * other record added), presenting the same token again fails, as revoked while
   * the token itself still verifies and as invalid after its `exp`.
   */
  lemma {:induction false} RotatesAtMostOnce(tokens: map<string, RefreshRecord>, jwt: Jwt, token: string,
                                            now: int, later: int, newRecord: RefreshRecord)
    requires RotationCheck(tokens, jwt, token, now).Ok?
    requires newRecord.id !in tokens
    ensures RotationCheck(Revoked(tokens, jwt, token, now)[newRecord.id := newRecord], jwt, token, later)
      == if Verify(jwt, token, later).Some? then Err(RefreshRevoked) else Err(InvalidRefresh)
  {
    var id := Verify(jwt, token, now).value.jti.value;
    var after := Revoked(tokens, jwt, token, now)[newRecord.id := newRecord];
    assert after[id] == Revoked(tokens, jwt, token, now)[id];
    if Verify(jwt, token, later).Some? {
      assert Verify(jwt, token, later) == Verify(jwt, token, now);
      RevokedBeforeExpired(after, jwt, token, later);
    }
  }

  // ---------------------------------------------------------------------------
  // Development sign-in codes
  // ---------------------------------------------------------------------------

  datatype DevCode = DevCode(userId: string, expiresAt: int)

  /** The process-wide table of outstanding one-time codes. */
  class DevCodes {
    var codes: map<string, DevCode>

    constructor ()
      ensures codes == map[]
    {
      codes := map[];
    }

    /** Issues `"dev_" + nonce` for `userId`, valid for five minutes. */
    method Issue(userId: string, nonce: string, now: int) returns (code: string)
      modifies this
      ensures code == "dev_" + nonce
      ensures codes == old(codes)[code := DevCode(userId, now + DevCodeMillis)]
    {
      code := "dev_" + nonce;
      codes := codes[code := DevCode(userId, now + 5 * 60 * 1000)];
    }

    /**
     * Looks a code up and removes it whatever the outcome, so a code is usable at
     * most once; an unknown or expired code yields None.
     */
    method Consume(code: string, now: int) returns (userId: Option<string>)
      modifies this
      ensures codes == old(codes) - {code}
      ensures code !in codes
      ensures userId.Some? <==> code in old(codes) && old(codes)[code].expiresAt >= now
      ensures userId.Some? ==> userId.value == old(codes)[code].userId
    {
      if code !in codes {
        return None;
      }
      var record := codes[code];
      codes := codes - {code};
      if record.expiresAt < now {
        return None;
      }
      userId := Some(record.userId);
    }
  }

  const DevCourseId: string := "COURSE_101"
  const DevCourseTitle: string := "Piano Technique 101"

  function DevUserId(role: string): (id: string)
    ensures id == "dev-teacher" <==> role == "teacher"
    ensures id == "dev-teacher" || id == "dev-student"
  {
    if role == "teacher" then "dev-teacher" else "dev-student"
  }

  function DevDisplayName(role: string, displayName: Option<string>): (name: string)
    ensures displayName.Some? ==> name == displayName.value
    ensures displayName.None? ==> name == (if role == "teacher" then "Dev Teacher" else "Dev Student")
  {
    displayName.GetOr(if role == "teacher" then "Dev Teacher" else "Dev Student")
  }

  /**
   * Creates or updates the fixed development user for `role`, the development course,
   * and that user's membership in it with the same role. The role is taken as given:
   * any role other than teacher is stored under the student's id.
   */
  method UpsertDevUser(db: Database, role: string, displayName: Option<string>) returns (user: User)
    requires db.Valid()
    modifies db
    ensures user == User(DevUserId(role), DevDisplayName(role, displayName), role)
    ensures db.Snapshot() == old(db.Snapshot()).(
      users := old(db.users)[user.id := user],
      courses := old(db.courses)[DevCourseId := DevCourseTitle],
      memberships := old(db.memberships)[(user.id, DevCourseId) := role])
    ensures db.Valid()
  {
    var id := DevUserId(role);
    user := User(id, DevDisplayName(role, displayName), role);
    db.users := db.users[id := user];
    db.courses := db.courses[DevCourseId := DevCourseTitle];
    db.memberships := db.memberships[(id, DevCourseId) := role];
  }

  // ---------------------------------------------------------------------------
  // The two token routes
  // ---------------------------------------------------------------------------

  datatype SessionResponse = SessionResponse(tokens: Tokens, user: User)

  const MissingCode: ApiError := ApiError(400, "VALIDATION_ERROR")
  const AuthNotConfigured: ApiError := ApiError(501, "AUTH_NOT_CONFIGURED")
  const InvalidCode: ApiError := ApiError(401, "INVALID_CODE")

  /**
   * What `POST /auth/session` answers, with the tables and the code table it leaves:
   * a present code is required, then development mode; a string code is consumed
   * whatever follows; an unknown or expired code, or one naming the empty user id,
   * is invalid; then the user must exist and tokens are issued for them.
   */
  function SessionExchange(t: Tables, codes: map<string, DevCode>, jwt: Jwt, ttl: TokenTtl,
                           mode: Config.AuthMode, body: JsValue, nonce: string, now: int)
    : (r: (Result<SessionResponse, ApiError>, Tables, map<string, DevCode>))
    ensures Nullish(Get(body, "code")) ==> r == (Err(MissingCode), t, codes)
    ensures !Nullish(Get(body, "code")) && mode == Config.Prod ==> r == (Err(AuthNotConfigured), t, codes)
    ensures r.2 == if Get(body, "code").Str? && mode == Config.Dev then codes - {Get(body, "code").s} else codes
    ensures r.0.Err? ==> r.1 == t
    ensures Get(body, "code").Str? && mode == Config.Dev ==>
      var code := Get(body, "code").s;
      code !in codes || codes[code].expiresAt < now || codes[code].userId == "" ==> r.0 == Err(InvalidCode)
    ensures Get(body, "code").Str? && mode == Config.Dev ==>
      var code := Get(body, "code").s;
      code in codes && codes[code].expiresAt >= now && codes[code].userId != "" && codes[code].userId !in t.users ==>
      r.0 == Err(UserNotFound)
    ensures r.0.Ok? <==>
      Get(body, "code").Str? && mode == Config.Dev &&
      var code := Get(body, "code").s;
      code in codes && codes[code].expiresAt >= now && codes[code].userId != "" &&
      codes[code].userId in t.users && "rt_" + nonce !in t.refreshTokens
    ensures r.0.Ok? ==>
      var user := t.users[codes[Get(body, "code").s].userId];
      var tokenId := "rt_" + nonce;
      r.0.value == SessionResponse(Tokens(AccessToken(jwt, ttl, user, now), RefreshToken(jwt, ttl, user, tokenId, now)), user) &&
      r.1 == t.(refreshTokens := t.refreshTokens[tokenId := IssuedRecord(jwt, ttl, user, tokenId, now)])
    ensures Integrity(t) ==> Integrity(r.1)
  {
    var code := Get(body, "code");
    if Nullish(code) then (Err(MissingCode), t, codes)
    else if mode != Config.Dev then (Err(AuthNotConfigured), t, codes)
    else if !code.Str? then (Err(InvalidCode), t, codes)   // a code that is not a string is never a key
    else
      var left := codes - {code.s};
      if code.s !in codes || codes[code.s].expiresAt < now || codes[code.s].userId == "" then
        (Err(InvalidCode), t, left)
      else if codes[code.s].userId !in t.users then (Err(UserNotFound), t, left)
      else
        var user := t.users[codes[code.s].userId];
        var (issued, after) := Issued(t, jwt, ttl, user, nonce, now);
        match issued
        case Err(e) => (Err(e), after, left)
        case Ok(tokens) => (Ok(SessionResponse(tokens, user)), after, left)
  }

  /** A code issued for an existing user is exchanged, within five minutes, for that user's tokens. */
  lemma IssuedCodeSignsIn(t: Tables, codes: map<string, DevCode>, jwt: Jwt, ttl: TokenTtl, userId: string,
                          codeNonce: string, issuedAt: int, nonce: string, now: int)
    requires userId in t.users && userId != "" && "rt_" + nonce !in t.refreshTokens
    requires issuedAt <= now <= issuedAt + DevCodeMillis
    ensures var code := "dev_" + codeNonce;
      var r := SessionExchange(t, codes[code := DevCode(userId, issuedAt + DevCodeMillis)], jwt, ttl,
                               Config.Dev, Obj(map["code" := Str(code)]), nonce, now);
      r.0.Ok? && r.0.value.user == t.users[userId] && code !in r.2
  {
  }

  /** A code works once: presenting it again after an exchange is refused as invalid. */
  lemma CodeIsSingleUse(t: Tables, codes: map<string, DevCode>, jwt: Jwt, ttl: TokenTtl, body: JsValue,
                        nonce: string, now: int, nonce2: string, later: int)
    requires SessionExchange(t, codes, jwt, ttl, Config.Dev, body, nonce, now).0.Ok?
    ensures var r := SessionExchange(t, codes, jwt, ttl, Config.Dev, body, nonce, now);
      SessionExchange(r.1, r.2, jwt, ttl, Config.Dev, body, nonce2, later).0 == Err(InvalidCode)
  {
  }

  method CreateSession(db: Database, codes: DevCodes, jwt: Jwt, ttl: TokenTtl, mode: Config.AuthMode,
                       body: JsValue, nonce: string, now: int)
    returns (r: Result<SessionResponse, ApiError>)
    requires db.Valid()
    modifies db, codes
    ensures (r, db.Snapshot(), codes.codes) ==
      SessionExchange(old(db.Snapshot()), old(codes.codes), jwt, ttl, mode, body, nonce, now)
    ensures db.Valid()
  {
    var code := Get(body, "code");
    if Nullish(code) {
      return Err(MissingCode);
    }
    if mode != Config.Dev {
      return Err(AuthNotConfigured);
    }
    if !code.Str? {
      return Err(InvalidCode);
    }
    var userId := codes.Consume(code.s, now);
    if userId.None? || userId.value == "" {
      return Err(InvalidCode);
    }
    if userId.value !in db.users {
      return Err(UserNotFound);
    }
    var user := db.users[userId.value];
    var tokens := IssueTokens(db, jwt, ttl, user, nonce, now);
    if tokens.Err? {
      return Err(tokens.error);
    }
    r := Ok(SessionResponse(tokens.value, user));
  }

  /**
   * What `POST /auth/refresh` answers, with the tables it leaves: a present token is
   * required; one that is not a string, or that does not verify, is invalid and
   * changes nothing; a string token is rotated.
   */
  function Refreshing(t: Tables, jwt: Jwt, ttl: TokenTtl, body: JsValue, nonce: string, now: int)
    : (r: (Result<Tokens, ApiError>, Tables))
    ensures Nullish(Get(body, "refreshToken")) ==> r == (Err(ValidationError), t)
    ensures !Nullish(Get(body, "refreshToken")) && !Get(body, "refreshToken").Str? ==> r == (Err(InvalidRefresh), t)
    ensures Get(body, "refreshToken").Str? && Verify(jwt, Get(body, "refreshToken").s, now).None? ==>
      r == (Err(InvalidRefresh), t)
    ensures r.0.Ok? ==>
      Get(body, "refreshToken").Str? &&
      RotationCheck(t.refreshTokens, jwt, Get(body, "refreshToken").s, now).Ok?
  {
    var token := Get(body, "refreshToken");
    if Nullish(token) then (Err(ValidationError), t)
    else if !token.Str? then (Err(InvalidRefresh), t)   // verification rejects anything but a string
    else Rotation(t, jwt, ttl, token.s, nonce, now)
  }

  /**
   * A refresh that succeeded cannot be replayed: the same body presented again, with
   * any new id, is refused as revoked while the token still verifies and as invalid
   * once it has expired.
   */
  lemma {:induction false} RefreshReplayIsRevoked(t: Tables, jwt: Jwt, ttl: TokenTtl, body: JsValue,
                                                 nonce: string, now: int, nonce2: string, later: int)
    requires Refreshing(t, jwt, ttl, body, nonce, now).0.Ok?
    ensures var after := Refreshing(t, jwt, ttl, body, nonce, now).1;
      Refreshing(after, jwt, ttl, body, nonce2, later).0 ==
        if Verify(jwt, Get(body, "refreshToken").s, later).Some? then Err(RefreshRevoked) else Err(InvalidRefresh)
  {
    var token := Get(body, "refreshToken").s;
    var user := t.users[Verify(jwt, token, now).value.sub.value];
    var tokenId := "rt_" + nonce;
    RotatesAtMostOnce(t.refreshTokens, jwt, token, now, later, IssuedRecord(jwt, ttl, user, tokenId, now));
  }

  method RefreshSession(db: Database, jwt: Jwt, ttl: TokenTtl, body: JsValue, nonce: string, now: int)
    returns (r: Result<Tokens, ApiError>)
    requires db.Valid()
    modifies db
    ensures (r, db.Snapshot()) == Refreshing(old(db.Snapshot()), jwt, ttl, body, nonce, now)
    ensures db.Valid()
  {
    var token := Get(body, "refreshToken");
    if Nullish(token) {
      return Err(ValidationError);
    }
    if !token.Str? {
      return Err(InvalidRefresh);
    }
    r := RotateRefreshToken(db, jwt, ttl, token.s, nonce, now);
  }
}
