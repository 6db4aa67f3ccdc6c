/**
 * The single-account session manager (`auth.Manager`): one configured user
 * name and password, and a table of session tokens with their expiry.
 *
 * Time is a parameter `now`, in nanoseconds on one clock, and a duration is
 * a Go `time.Duration`, a 64-bit count of nanoseconds. The random session
 * token `generateToken` draws is a parameter too: `None` when reading the
 * random source fails. Go lets a method run on a nil `*Manager`; the
 * operations are therefore written on a `Manager?` and handle `null` as the
 * source handles nil.
 */
module AuthSessions {
  import opened Wrappers
  import opened Text
  import opened Numbers

  const Hour: int := 3_600_000_000_000
  const DefaultCookieName: string := "expenseowl_session"
  const DefaultSessionDuration: int := 24 * Hour

  const ErrInvalidCredentials: string := "invalid username or password"
  const ErrUnauthorized: string := "unauthorized"
  /** The text of a failure of the random source, passed on unwrapped. */
  const ErrRandom: string := "random source failure"

  datatype Session = Session(username: string, expires: int)

  datatype Options = Options(cookieName: string, cookieDomain: string, cookieSecure: bool, sessionDuration: int)

  class Manager {
    const username: string
    const password: string
    const sessionDuration: int
    const cookieName: string
    const cookieDomain: string
    const cookieSecure: bool
    /** The live and not yet collected session tokens. */
    var sessions: map<string, Session>

    /** What `NewManager` guarantees of every manager it builds. */
    predicate Valid()
      reads this
    {
      username != "" && username == TrimSpace(username) && password != "" &&
      sessionDuration > 0 && cookieName != ""
    }

    /** The struct literal of `NewManager`, with an empty session table. */
    constructor (username: string, password: string, opts: Options)
      ensures this.username == username && this.password == password
      ensures this.sessionDuration == opts.sessionDuration && this.cookieName == opts.cookieName
      ensures this.cookieDomain == opts.cookieDomain && this.cookieSecure == opts.cookieSecure
      ensures sessions == map[]
    {
      this.username := username;
      this.password := password;
      this.sessionDuration := opts.sessionDuration;
      this.cookieName := opts.cookieName;
      this.cookieDomain := opts.cookieDomain;
      this.cookieSecure := opts.cookieSecure;
      sessions := map[];
    }

    /** Stores a session for the configured user under `token`, expiring one session duration from `now`. */
    method StartSession(token: string, now: int)
      modifies this
      ensures sessions == old(sessions)[token := Session(username, now + sessionDuration)]
    {
      sessions := sessions[token := Session(username, now + sessionDuration)];
    }
  }

  /**
   * The options `NewManager` settles on: the default cookie name when none
   * is given and 24 hours when the duration is not positive.
   */
  function WithDefaults(opts: Options): (r: Options)
    ensures r.cookieName != "" && r.sessionDuration > 0
    ensures opts.cookieName != "" ==> r.cookieName == opts.cookieName
    ensures opts.cookieName == "" ==> r.cookieName == DefaultCookieName
    ensures opts.sessionDuration > 0 ==> r.sessionDuration == opts.sessionDuration
    ensures opts.sessionDuration <= 0 ==> r.sessionDuration == DefaultSessionDuration
    ensures r.cookieDomain == opts.cookieDomain && r.cookieSecure == opts.cookieSecure
  {
    opts.(cookieName := if opts.cookieName == "" then DefaultCookieName else opts.cookieName,
          sessionDuration := if opts.sessionDuration <= 0 then DefaultSessionDuration else opts.sessionDuration)
  }

  /** Settling the options twice is settling them once. */
  lemma WithDefaultsIdempotent(opts: Options)
    ensures WithDefaults(WithDefaults(opts)) == WithDefaults(opts)
  {
  }

  /**
   * `NewManager`: the user name is trimmed and must not be empty, then the
   * password must not be empty; the options are settled by `WithDefaults`.
   */
  method NewManager(username: string, password: string, opts: Options) returns (r: Result<Manager, string>)
    ensures TrimSpace(username) == "" ==> r == Err("username cannot be empty")
    ensures TrimSpace(username) != "" && password == "" ==> r == Err("password cannot be empty")
    ensures r.Ok? <==> TrimSpace(username) != "" && password != ""
    ensures r.Ok? ==> fresh(r.value) && r.value.Valid() && r.value.sessions == map[]
    ensures r.Ok? ==> r.value.username == TrimSpace(username) && r.value.password == password
    ensures r.Ok? ==> var o := WithDefaults(opts);
      r.value.cookieName == o.cookieName && r.value.sessionDuration == o.sessionDuration &&
      r.value.cookieDomain == o.cookieDomain && r.value.cookieSecure == o.cookieSecure
  {
    var name := TrimSpace(username);
    if name == "" {
      return Err("username cannot be empty");
    }
    if password == "" {
      return Err("password cannot be empty");
    }
    var o := opts;
    if o.cookieName == "" {
      o := o.(cookieName := DefaultCookieName);
    }
    if o.sessionDuration <= 0 {
      o := o.(sessionDuration := DefaultSessionDuration);
    }
    TrimSpaceIdempotent(username);
    var m := new Manager(name, password, o);
    r := Ok(m);
  }

  /**
   * `Authenticate`: the trimmed user name and the password must both match;
   * then a session for the configured user, expiring one session duration
   * from now, is stored under the new token.
   */
  method Authenticate(m: Manager?, username: string, password: string, now: int, token: Option<string>)
    returns (r: Result<string, string>)
    modifies m
    ensures m == null ==> r == Err(ErrUnauthorized)
    ensures m != null && (TrimSpace(username) != m.username || password != m.password) ==>
      r == Err(ErrInvalidCredentials)
    ensures m != null && TrimSpace(username) == m.username && password == m.password ==>
      r == (if token.Some? then Ok(token.value) else Err(ErrRandom))
    ensures m != null ==> (m.sessions ==
      if r.Ok? then old(m.sessions)[r.value := Session(m.username, now + m.sessionDuration)] else old(m.sessions))
  {
    if m == null {
      return Err(ErrUnauthorized);
    }
    var matches := TrimSpace(username) == m.username && password == m.password;
    if !matches {
      return Err(ErrInvalidCredentials);
    }
    if token.None? {
      return Err(ErrRandom);
    }
    m.StartSession(token.value, now);
    r := Ok(token.value);
  }

  /** A session is past its expiry when `now` is strictly after it (`time.Now().After`). */
  predicate Expired(s: Session, now: int) {
    now > s.expires
  }

  /**
   * `ValidateToken`: an unknown token is unauthorized; an expired one is
   * deleted and unauthorized; a live one gives its user name and changes nothing.
   */
  method ValidateToken(m: Manager?, token: string, now: int) returns (r: Result<string, string>)
    modifies m
    ensures m == null ==> r == Err(ErrUnauthorized)
    ensures m != null ==>
      r == (if token in old(m.sessions) && !Expired(old(m.sessions)[token], now)
            then Ok(old(m.sessions)[token].username) else Err(ErrUnauthorized))
    ensures m != null ==> (m.sessions ==
      if token in old(m.sessions) && Expired(old(m.sessions)[token], now)
      then old(m.sessions) - {token} else old(m.sessions))
  {
    if m == null {
      return Err(ErrUnauthorized);
    }
    if token !in m.sessions {
      return Err(ErrUnauthorized);
    }
    var session := m.sessions[token];
    if now > session.expires {
      m.sessions := m.sessions - {token};
      return Err(ErrUnauthorized);
    }
    r := Ok(session.username);
  }

  /**
   * `Renew`: a live session now expires one session duration from now; an
   * expired one is deleted; both an expired and an unknown token are unauthorized.
   */
  method Renew(m: Manager?, token: string, now: int) returns (r: Outcome<string>)
    modifies m
    ensures m == null ==> r == Fail(ErrUnauthorized)
    ensures m != null ==>
      (r.Pass? <==> token in old(m.sessions) && !Expired(old(m.sessions)[token], now))
    ensures m != null && r.Fail? ==> r.error == ErrUnauthorized
    ensures m != null ==> (m.sessions ==
      if token !in old(m.sessions) then old(m.sessions)
      else if Expired(old(m.sessions)[token], now) then old(m.sessions) - {token}
      else old(m.sessions)[token := old(m.sessions)[token].(expires := now + m.sessionDuration)])
  {
    if m == null {
      return Fail(ErrUnauthorized);
    }
    if token !in m.sessions {
      return Fail(ErrUnauthorized);
    }
    var session := m.sessions[token];
    if now > session.expires {
      m.sessions := m.sessions - {token};
      return Fail(ErrUnauthorized);
    }
    session := session.(expires := now + m.sessionDuration);
    m.sessions := m.sessions[token := session];
    r := Pass;
  }

  /** `Logout`: forgets the token; nothing happens on a nil manager. */
  method Logout(m: Manager?, token: string)
    modifies m
    ensures m != null ==> m.sessions == old(m.sessions) - {token}
  {
    if m == null {
      return;
    }
    m.sessions := m.sessions - {token};
  }

  /**
   * The session `Authenticate` or `Renew` stores at `now` is live exactly
   * until one session duration later, and no session of another token changes.
   */
  lemma StoredSessionLifetime(sessions: map<string, Session>, token: string, user: string,
                              now: int, duration: int, later: int)
    requires duration > 0
    ensures var s := sessions[token := Session(user, now + duration)];
      token in s && (Expired(s[token], later) <==> later > now + duration) &&
      !Expired(s[token], now) &&
      forall t :: t in sessions && t != token ==> t in s && s[t] == sessions[t]
  {
  }

  /** Logging out twice is logging out once, and logging out one token leaves every other session. */
  lemma LogoutIdempotent(sessions: map<string, Session>, token: string)
    ensures (sessions - {token}) - {token} == sessions - {token}
    ensures token !in sessions - {token}
    ensures forall t :: t in sessions && t != token ==> t in sessions - {token} && (sessions - {token})[t] == sessions[t]
  {
  }

  /** `parseBoolEnv`: true exactly for "1", "true", "yes" and "on", ignoring case and surrounding space. */
  function ParseBoolEnv(val: string): (r: bool)
    ensures r <==> EqualFold(TrimSpace(val), "1") || EqualFold(TrimSpace(val), "true") ||
                   EqualFold(TrimSpace(val), "yes") || EqualFold(TrimSpace(val), "on")
  {
    TruthyWordsAreLowerCase();
    var word := ToLower(TrimSpace(val));
    word == "1" || word == "true" || word == "yes" || word == "on"
  }

  lemma TruthyWordsAreLowerCase()
    ensures ToLower("1") == "1" && ToLower("true") == "true"
    ensures ToLower("yes") == "yes" && ToLower("on") == "on"
  {
    assert ToLower("1") == "1" && ToLower("true") == "true";
    assert ToLower("yes") == "yes" && ToLower("on") == "on";
  }

  /** A truthy word in any case, such as "TRUE", reads as true. */
  lemma ParseBoolEnvUpperCase(val: string)
    requires val == "TRUE"
    ensures ParseBoolEnv(val)
  {
    TrimSpaceOfWord(val);
    assert ToLower(val) == "true";
  }

  /** Any other word, such as "false", reads as false. */
  lemma ParseBoolEnvFalse(val: string)
    requires val == "false"
    ensures !ParseBoolEnv(val)
  {
    TrimSpaceOfWord(val);
    assert ToLower(val) == "false";
  }

  /**
   * `parseDurationHours` as written: empty, non-numeric and non-positive
   * input gives 24 hours; otherwise the hour count times one hour, computed
   * in 64-bit `time.Duration` arithmetic, which wraps around.
   */
  function ParseDurationHours(val: string): (r: int)
    ensures IsInt64(r)
    ensures Atoi(val).None? || Atoi(val).value <= 0 ==> r == DefaultSessionDuration
    ensures Atoi(val).Some? && Atoi(val).value > 0 ==> r == Wrap64(Atoi(val).value * Hour)
  {
    if val == "" then DefaultSessionDuration
    else
      match Atoi(val)
      case None => DefaultSessionDuration
      case Some(hours) => if hours <= 0 then DefaultSessionDuration else Wrap64(hours * Hour)
  }

  /** A session length of 5124096 hours wraps around to about 25 minutes. */
  lemma ParseDurationHoursWrapsShort(hours: int)
    requires hours == 5124096
    ensures ParseDurationHours(Decimal(hours)) == 1_526_290_448_384 < Hour
  {
    AtoiDecimal(hours);
    assert Atoi(Decimal(hours)) == Some(5124096);
    WrapExamples();
    assert 5124096 * Hour == 18_446_745_600_000_000_000;
  }

  /** A session length of 2562048 hours wraps around to a negative duration. */
  lemma ParseDurationHoursWrapsNegative(hours: int)
    requires hours == 2562048
    ensures ParseDurationHours(Decimal(hours)) < 0
  {
    AtoiDecimal(hours);
    assert Atoi(Decimal(hours)) == Some(2562048);
    WrapExamples();
    assert 2562048 * Hour == 9_223_372_800_000_000_000;
  }

  /**
   * The session length a manager ends up with once `NewManager` settles a
   * wrapped duration: 5124096 hours stays at about 25 minutes, while the
   * negative duration of 2562048 hours is replaced by the 24-hour default.
   */
  lemma EffectiveDurationOfWrapped(opts: Options)
    ensures WithDefaults(opts.(sessionDuration := ParseDurationHours(Decimal(5124096)))).sessionDuration
            == 1_526_290_448_384 < Hour
    ensures WithDefaults(opts.(sessionDuration := ParseDurationHours(Decimal(2562048)))).sessionDuration
            == DefaultSessionDuration
  {
    ParseDurationHoursWrapsShort(5124096);
    ParseDurationHoursWrapsNegative(2562048);
  }

  lemma WrapExamples()
    ensures Wrap64(18_446_745_600_000_000_000) == 1_526_290_448_384
    ensures Wrap64(9_223_372_800_000_000_000) == -9_223_371_273_709_551_616
  {
    assert Wrap64(18_446_745_600_000_000_000) == 1_526_290_448_384;
    assert Wrap64(9_223_372_800_000_000_000) == -9_223_371_273_709_551_616;
  }

  /** The longest session, in whole hours, a `time.Duration` can hold. */
  const MaxHours: int := MaxInt64 / Hour

  /**
   * `parseDurationHours` as evidently intended: an hour count too large for
   * a `time.Duration` is held at the largest one instead of wrapping around.
   */
  function ParseDurationHoursSaturating(val: string): (r: int)
    ensures IsInt64(r) && r > 0
    ensures Atoi(val).None? || Atoi(val).value <= 0 ==> r == DefaultSessionDuration
    ensures Atoi(val).Some? && 0 < Atoi(val).value <= MaxHours ==> r == Atoi(val).value * Hour
    ensures Atoi(val).Some? && Atoi(val).value > MaxHours ==> r == MaxInt64
  {
    if val == "" then DefaultSessionDuration
    else
      match Atoi(val)
      case None => DefaultSessionDuration
      case Some(hours) =>
        if hours <= 0 then DefaultSessionDuration
        else if hours > MaxHours then MaxInt64
        else hours * Hour
  }

  /** With the saturating reading, a larger hour count never gives a shorter session. */
  lemma SaturatingIsMonotone(a: int, b: int)
    requires IsInt64(a) && IsInt64(b) && 0 < a <= b
    ensures ParseDurationHoursSaturating(Decimal(a)) <= ParseDurationHoursSaturating(Decimal(b))
    ensures ParseDurationHoursSaturating(Decimal(a)) >= (if a <= MaxHours then a * Hour else MaxInt64)
  {
    AtoiDecimal(a);
    AtoiDecimal(b);
    if b <= MaxHours {
      assert a * Hour <= b * Hour;
    }
  }
}
