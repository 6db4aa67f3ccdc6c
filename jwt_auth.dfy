/**
 * Bearer tokens for the multi-user mode (`auth.JWTManager`): reading the
 * token from an `Authorization` header, the defaults of a manager, the
 * claims a new token carries, the checks `Validate` makes on a presented
 * token, and the user a request context carries.
 *
 * The signature and its check are outside the model: `Generate` takes the
 * outcome of signing, and `Validate` the outcome of parsing and verifying a
 * token, as parameters. Redis is a map from keys to values.
 */
module JwtAuth {
  import opened Wrappers
  import opened Text

  const Second: int := 1_000_000_000
  const Hour: int := 3600 * Second
  const DefaultExpiry: int := 24 * Hour
  const ErrUnauthorized: string := "unauthorized"

  /**
   * `ExtractToken` on the value of the `Authorization` header: the second
   * of exactly two white-space separated fields whose first is "Bearer" in
   * any case, and "" otherwise.
   */
  function ExtractToken(header: string): (r: string)
    ensures r != "" <==> |Fields(header)| == 2 && EqualFold(Fields(header)[0], "Bearer")
    ensures r != "" ==> |Fields(header)| == 2 && r == Fields(header)[1] && NoSpace(r)
  {
    if header == "" then
      FieldsOfEmpty(header);
      ""
    else
      var parts := Fields(header);
      if |parts| != 2 || !EqualFold(parts[0], "Bearer") then "" else parts[1]
  }

  /** The header a client sends, `Bearer <token>`, gives back the token, whatever the case of the scheme. */
  lemma ExtractTokenRoundTrip(scheme: string, token: string)
    requires EqualFold(scheme, "Bearer") && NoSpace(scheme)
    requires token != [] && NoSpace(token)
    ensures ExtractToken(scheme + " " + token) == token
  {
    assert scheme != [] by {
      assert |ToLower(scheme)| == |ToLower("Bearer")|;
    }
    FieldsOfTwoWords(scheme, token);
  }

  /** The settings of a `JWTManager`; the Redis client is only present or absent here. */
  datatype JwtConfig = JwtConfig(secret: string, expiry: int)

  /**
   * `NewJWTManager`: the trimmed secret must not be empty, a non-positive
   * expiry becomes 24 hours, and a Redis client is required, in that order.
   */
  function NewJwtManager(secret: string, expiry: int, hasRedis: bool): (r: Result<JwtConfig, string>)
    ensures TrimSpace(secret) == "" ==> r == Err("JWT secret cannot be empty")
    ensures TrimSpace(secret) != "" && !hasRedis ==> r == Err("redis client is required")
    ensures r.Ok? <==> TrimSpace(secret) != "" && hasRedis
    ensures r.Ok? ==> r.value.secret == TrimSpace(secret) && r.value.expiry > 0
    ensures r.Ok? ==> r.value.expiry == if expiry <= 0 then DefaultExpiry else expiry
  {
    var s := TrimSpace(secret);
    if s == "" then Err("JWT secret cannot be empty")
    else
      var e := if expiry <= 0 then DefaultExpiry else expiry;
      if !hasRedis then Err("redis client is required")
      else Ok(JwtConfig(s, e))
  }

  /** The role `Generate` puts in a token: lower-cased and trimmed, "user" when that leaves nothing. */
  function TokenRole(role: string): string {
    var lowered := TrimSpace(ToLower(role));
    if lowered == "" then "user" else lowered
  }

  /** A token's role is never empty, has no surrounding white space and no upper-case letter. */
  lemma TokenRoleNormalised(role: string)
    ensures var r := TokenRole(role); r != "" && TrimSpace(r) == r && IsLower(r)
  {
    if TrimSpace(ToLower(role)) == "" {
      UserIsLower(TokenRole(role));
    } else {
      TrimSpaceIdempotent(ToLower(role));
      ToLowerIsLower(role);
      TrimSpaceKeepsLower(ToLower(role));
    }
  }

  /** The default role is already normalised. */
  lemma UserIsLower(user: string)
    requires user == "user"
    ensures TrimSpace(user) == user && IsLower(user)
  {
    assert NoSpace(user);
    TrimSpaceOfWord(user);
  }

  /** Normalising a role that is already normalised changes nothing. */
  lemma TokenRoleIdempotent(role: string)
    ensures TokenRole(TokenRole(role)) == TokenRole(role)
  {
    var r := TokenRole(role);
    TokenRoleNormalised(role);
    ToLowerIsLower(r);
  }

  /**
   * The claims of a token: the role, the subject and the two instants in
   * whole seconds since the Unix epoch, as a `jwt.NumericDate` holds them.
   */
  datatype Claims = Claims(role: string, subject: string, expiresAt: int, issuedAt: int)

  /**
   * `jwt.NewNumericDate`: a clock reading in nanoseconds since the Unix
   * epoch, rounded down to the second.
   */
  function NumericDate(t: int): (secs: int)
    ensures secs * Second <= t < (secs + 1) * Second
  {
    t / Second
  }

  /**
   * The claims `Generate` signs for `userID`. The source reads the clock
   * twice: `expiryNow` for the expiry, one expiry period later, and then
   * `issueNow` for the issue instant; both are cut to whole seconds. An
   * empty user ID is an error.
   */
  function GenerateClaims(config: JwtConfig, userID: string, role: string,
                          expiryNow: int, issueNow: int): (r: Result<Claims, string>)
    ensures userID == "" <==> r == Err("userID cannot be empty")
    ensures r.Ok? ==> r.value.subject == userID && r.value.role == TokenRole(role)
    ensures r.Ok? ==> r.value.issuedAt * Second <= issueNow < (r.value.issuedAt + 1) * Second
    ensures r.Ok? ==> r.value.expiresAt * Second <= expiryNow + config.expiry < (r.value.expiresAt + 1) * Second
  {
    if userID == "" then Err("userID cannot be empty")
    else Ok(Claims(TokenRole(role), userID, NumericDate(expiryNow + config.expiry), NumericDate(issueNow)))
  }

  /**
   * Read at one instant, the lifetime a token carries, `exp - iat` in
   * seconds, is within a second of the expiry period, and exactly the
   * period when that is a whole number of seconds.
   */
  lemma TokenLifetime(config: JwtConfig, userID: string, role: string, now: int)
    requires userID != ""
    ensures var c := GenerateClaims(config, userID, role, now, now).value;
      (c.expiresAt - c.issuedAt - 1) * Second < config.expiry < (c.expiresAt - c.issuedAt + 1) * Second &&
      (config.expiry % Second == 0 ==> c.expiresAt - c.issuedAt == config.expiry / Second)
  {
    var c := GenerateClaims(config, userID, role, now, now).value;
    if config.expiry % Second == 0 {
      var k := config.expiry / Second;
      assert config.expiry == k * Second;
      assert (now + k * Second) / Second == now / Second + k;
    }
  }

  /**
   * A sub-second expiry is not what the token carries: issued at 1.9 s with
   * an expiry of 200 ms, the token says it was issued at 1 s and expires at
   * 2 s, a lifetime of a whole second.
   */
  lemma SubSecondExpiryExample(userID: string)
    requires userID != ""
    ensures var c := GenerateClaims(JwtConfig("k", 200_000_000), userID, "", 1_900_000_000, 1_900_000_000).value;
      c.issuedAt == 1 && c.expiresAt == 2
  {
  }

  /** The prefix `Generate` puts before the error of a failed Redis write. */
  const ErrPersist: string := "failed to persist session: "

  /**
   * `Generate`: the claims of `GenerateClaims`, signed, and the signed token
   * written to Redis with the user ID as its value. Redis is the map
   * `redis` from keys to values; `signed` is the outcome of signing, whose
   * error is passed on as it is, and `writeError` the error of the Redis
   * write, if any. Returns the token and the new Redis contents.
   */
  function Generate(config: JwtConfig, userID: string, role: string, expiryNow: int, issueNow: int,
                    signed: Result<string, string>, writeError: Option<string>,
                    redis: map<string, string>): (r: Result<(string, map<string, string>), string>)
    ensures userID == "" ==> r == Err("userID cannot be empty")
    ensures userID != "" && signed.Err? ==> r == Err(signed.error)
    ensures userID != "" && signed.Ok? && writeError.Some? ==> r == Err(ErrPersist + writeError.value)
    ensures r.Ok? <==> userID != "" && signed.Ok? && writeError.None?
    ensures r.Ok? ==> r.value.0 == signed.value
    ensures r.Ok? ==> r.value.1.Keys == redis.Keys + {signed.value} && r.value.1[signed.value] == userID
    ensures r.Ok? ==> forall key :: key in redis && key != signed.value ==> r.value.1[key] == redis[key]
  {
    if GenerateClaims(config, userID, role, expiryNow, issueNow).Err? then Err("userID cannot be empty")
    else if signed.Err? then Err(signed.error)
    else if writeError.Some? then Err(ErrPersist + writeError.value)
    else Ok((signed.value, redis[signed.value := userID]))
  }

  /** What Redis holds for `token`, as `Validate` reads it. */
  function Lookup(redis: map<string, string>, token: string): (v: Option<string>)
    ensures v.Some? <==> token in redis
    ensures v.Some? ==> v.value == redis[token]
  {
    if token in redis then Some(redis[token]) else None
  }

  /**
   * A token `Generate` issued and stored, presented back while its
   * signature verifies to the claims `Generate` signed, validates against
   * the Redis contents `Generate` left to the user and the normalised role.
   */
  lemma GenerateStoresSession(config: JwtConfig, userID: string, role: string, expiryNow: int, issueNow: int,
                              signed: Result<string, string>, redis: map<string, string>)
    requires signed.Ok? ==> signed.value != ""
    ensures var r := Generate(config, userID, role, expiryNow, issueNow, signed, None, redis);
      r.Ok? ==>
        var claims := GenerateClaims(config, userID, role, expiryNow, issueNow);
        claims.Ok? &&
        Validate(r.value.0, Some(claims.value), Lookup(r.value.1, r.value.0)) ==
          Ok(UserContext(userID, TokenRole(role)))
  {
    var r := Generate(config, userID, role, expiryNow, issueNow, signed, None, redis);
    if r.Ok? {
      assert Lookup(r.value.1, r.value.0) == Some(userID);
    }
  }

  /** The authenticated user handlers read from the request context. */
  datatype UserContext = UserContext(id: string, role: string)

  /**
   * `Validate`: an empty token is unauthorized; so is a token that does not
   * parse and verify (`parsed` is `None`), one Redis holds nothing for, and
   * one whose Redis value is not its subject.
   */
  function Validate(token: string, parsed: Option<Claims>, stored: Option<string>): (r: Result<UserContext, string>)
    ensures token == "" ==> r == Err(ErrUnauthorized)
    ensures r.Ok? <==> token != "" && parsed.Some? && stored.Some? && stored.value != "" &&
                       stored.value == parsed.value.subject
    ensures r.Ok? ==> r.value == UserContext(parsed.value.subject, parsed.value.role)
    ensures r.Err? ==> r.error == ErrUnauthorized
  {
    if token == "" then Err(ErrUnauthorized)
    else if parsed.None? then Err(ErrUnauthorized)
    else if stored.None? || stored.value == "" then Err(ErrUnauthorized)
    else if stored.value != parsed.value.subject then Err(ErrUnauthorized)
    else Ok(UserContext(parsed.value.subject, parsed.value.role))
  }

  /**
   * A token `Generate` issued, presented back while Redis still maps it to
   * its user and its signature verifies, validates to that user and the
   * normalised role.
   */
  lemma GenerateThenValidate(config: JwtConfig, userID: string, role: string, expiryNow: int, issueNow: int,
                             token: string)
    requires userID != "" && token != ""
    ensures var claims := GenerateClaims(config, userID, role, expiryNow, issueNow);
      claims.Ok? &&
      Validate(token, Some(claims.value), Some(userID)) == Ok(UserContext(userID, TokenRole(role)))
  {
  }

  /** Any Redis value other than the subject is refused: a token cannot be replayed for another user. */
  lemma ValidateRejectsOtherUser(token: string, claims: Claims, stored: string)
    requires stored != claims.subject
    ensures Validate(token, Some(claims), Some(stored)) == Err(ErrUnauthorized)
  {
  }

  /** What a request context holds under the user key. */
  datatype ContextValue = Missing | OtherValue | User(user: UserContext)

  /** `WithUser`: the context value that carries the user. */
  function WithUser(user: UserContext): (v: ContextValue)
    ensures v.User? && v.user == user
  {
    User(user)
  }

  /**
   * `UserFromContext`: the user and whether it is usable. A missing value or
   * one of another type gives the zero user and false; a user with an empty
   * ID is returned but reported as not usable.
   */
  function UserFromContext(value: ContextValue): (r: (UserContext, bool))
    ensures r.1 <==> value.User? && value.user.id != ""
    ensures value.User? ==> r.0 == value.user
    ensures !value.User? ==> r.0 == UserContext("", "")
  {
    match value
    case Missing => (UserContext("", ""), false)
    case OtherValue => (UserContext("", ""), false)
    case User(user) => (user, user.id != "")
  }

  /** The user a middleware stores is the user handlers read back. */
  lemma UserRoundTrip(user: UserContext)
    ensures UserFromContext(WithUser(user)) == (user, user.id != "")
  {
  }
}
