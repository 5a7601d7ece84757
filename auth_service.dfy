/**
 * `AuthService`: a token is issued only together with a session entry
 * `session:jwt:<token>` in Redis whose time-to-live is the token's lifetime;
 * a token is accepted only while its signature and expiry check out and its
 * session entry exists; revoking a token deletes the entry.
 */
module AuthService {
  import opened Wrappers
  import opened Text
  import opened CommonErrors
  import opened JwtCodec
  import RedisStore
  import RedisKeys
  import opened RedisService

  /** `JWT_TTL_SECONDS` as `Number(...)` sees it. */
  datatype TtlSetting = Unset | NotFinite | Setting(value: int)

  /** The configuration and the signature function of `JwtService`. */
  datatype AuthConfig = AuthConfig(jwtSecret: Option<string>, ttl: TtlSetting, mac: (string, string) -> string)

  /** `signUser`'s reply. */
  datatype LoginToken = LoginToken(token: string, expiresIn: nat)

  const DefaultSecret := "dev-secret"
  const DefaultTtlSeconds := 7200
  const InvalidSession := "无效的登录状态"
  const SessionExpired := "登录状态已过期，请重新登录"

  /** `getSecret()`. */
  function Secret(cfg: AuthConfig): (secret: string)
    ensures secret != ""
    ensures cfg.jwtSecret.Some? && cfg.jwtSecret.value != "" ==> secret == cfg.jwtSecret.value
    ensures cfg.jwtSecret.None? || cfg.jwtSecret.value == "" ==> secret == DefaultSecret
  {
    match cfg.jwtSecret
    case Some(s) => if s != "" then s else DefaultSecret
    case None => DefaultSecret
  }

  /** `getTtlSeconds()`: a finite positive setting, else 7200. */
  function TtlSeconds(cfg: AuthConfig): (ttl: nat)
    ensures ttl > 0
    ensures cfg.ttl.Setting? && cfg.ttl.value > 0 ==> ttl == cfg.ttl.value
    ensures !(cfg.ttl.Setting? && cfg.ttl.value > 0) ==> ttl == DefaultTtlSeconds
  {
    match cfg.ttl
    case Setting(v) => if v > 0 then v else DefaultTtlSeconds
    case _ => DefaultTtlSeconds
  }

  /** `getSessionKey(token)`: a key in the `session` namespace from which
      the token is recovered by dropping the 12 characters of `session:jwt:`. */
  function SessionKey(token: string): (key: string)
    ensures RedisKeys.KeyNamespace(key) == "session"
    ensures |key| == |token| + 12 && key[12..] == token
  {
    var key := RedisKeys.SessionPrefix + "jwt:" + token;
    assert key == "session" + ":" + ("jwt:" + token);
    RedisKeys.KeyNamespaceIsTextBeforeFirstColon("session", "jwt:" + token);
    key
  }

  // ---------------------------------------------------------- session value

  function HexDigit(d: nat): (c: char)
    requires d < 16
  {
    if d < 10 then DigitChar(d) else ('a' as int + d - 10) as char
  }

  /** How `JSON.stringify` writes one character inside a string literal. */
  function JsonEscape(c: char): string
  {
    if c == '"' then "\\\""
    else if c == '\\' then "\\\\"
    else if c as int == 8 then "\\b"
    else if c as int == 12 then "\\f"
    else if c == '\n' then "\\n"
    else if c == '\r' then "\\r"
    else if c == '\t' then "\\t"
    else if c as int < 0x20 then "\\u00" + [HexDigit(c as int / 16), HexDigit(c as int % 16)]
    else [c]
  }

  function JsonEscapeAll(s: string): string
  {
    if |s| == 0 then "" else JsonEscape(s[0]) + JsonEscapeAll(s[1..])
  }

  /** `JSON.stringify(s)` for a string. */
  function JsonQuote(s: string): string
  {
    "\"" + JsonEscapeAll(s) + "\""
  }

  /** `JSON.stringify({ userId: payload.sub, username: payload.username })`. */
  function SessionValue(p: Payload): string
  {
    "{\"userId\":" + NatToString(p.sub) + ",\"username\":" + JsonQuote(p.username) + "}"
  }

  /** A name without quotes, backslashes or control characters is written as it is. */
  lemma {:induction false} PlainNameQuotedAsIs(s: string)
    requires forall i :: 0 <= i < |s| ==> s[i] != '"' && s[i] != '\\' && s[i] as int >= 0x20
    ensures JsonEscapeAll(s) == s
    decreases |s|
  {
    if |s| > 0 {
      PlainNameQuotedAsIs(s[1..]);
      assert [s[0]] + s[1..] == s;
    }
  }

  // ------------------------------------------------------- session lifecycle

  /** `cacheToken(token, payload, ttl)`: any failure is rethrown with the prefix
      `Failed to cache token: `, and a reply other than `OK` is a failure. */
  function Cache(s: RedisStore.Store, token: string, p: Payload, ttl: nat): (r: RedisStore.Step<()>)
    ensures r.reply.Ok? <==> s.reachable && s.writeAck == "OK"
    ensures r.reply.Ok? ==> RedisStore.Get(r.store, SessionKey(token)) == Ok(Some(SessionValue(p)))
    ensures r.reply.Err? ==> r.reply.error.OtherError? && StartsWith(r.reply.error.message, "Failed to cache token: ")
    ensures !s.reachable ==> r.store == s
  {
    var w := RedisStore.ServiceSet(s, SessionKey(token), SessionValue(p), Some(ttl));
    if w.reply.Err? then RedisStore.Step(w.store, Err(OtherError("Failed to cache token: " + w.reply.error.message)))
    else if w.reply.value != "OK" then
      RedisStore.Step(w.store, Err(OtherError("Failed to cache token: Failed to cache token in Redis")))
    else RedisStore.Step(w.store, Ok(()))
  }

  /** `signUser(payload)` at time `now` (seconds): a token is handed out
      exactly when its session entry was written, and then with the token's
      lifetime as `expiresIn`. */
  function Issue(s: RedisStore.Store, cfg: AuthConfig, p: Payload, now: nat): (r: RedisStore.Step<LoginToken>)
    ensures r.reply.Ok? <==> s.reachable && s.writeAck == "OK"
    ensures r.reply.Ok? ==>
      r.reply.value.expiresIn == TtlSeconds(cfg) &&
      r.reply.value.token == Sign(p, Secret(cfg), now, TtlSeconds(cfg), cfg.mac) &&
      RedisStore.Get(r.store, SessionKey(r.reply.value.token)) == Ok(Some(SessionValue(p)))
    ensures r.reply.Err? ==> r.reply.error.OtherError? && StartsWith(r.reply.error.message, "Failed to cache token: ")
  {
    var expiresIn := TtlSeconds(cfg);
    var token := Sign(p, Secret(cfg), now, expiresIn, cfg.mac);
    var c := Cache(s, token, p, expiresIn);
    if c.reply.Err? then RedisStore.Step(c.store, Err(c.reply.error))
    else RedisStore.Step(c.store, Ok(LoginToken(token, expiresIn)))
  }

  /** `validateToken(token)` at time `now`: a bad token or a failing lookup is
      `无效的登录状态`, a missing session entry is `登录状态已过期，请重新登录`. */
  function Validate(s: RedisStore.Store, cfg: AuthConfig, token: string, now: nat): (r: Result<Decoded>)
    ensures r.Ok? <==> Verify(token, Secret(cfg), now, cfg.mac).Verified? && s.reachable && SessionKey(token) in s.data
    ensures r.Ok? ==> r.value == Verify(token, Secret(cfg), now, cfg.mac).decoded
    ensures r.Err? ==> r.error == UnauthorizedException(InvalidSession) || r.error == UnauthorizedException(SessionExpired)
  {
    match Verify(token, Secret(cfg), now, cfg.mac)
    case Rejected(_) => Err(UnauthorizedException(InvalidSession))
    case Verified(p) =>
      match RedisStore.Exists(s, SessionKey(token))
      case Err(_) => Err(UnauthorizedException(InvalidSession))
      case Ok(n) => if n == 0 then Err(UnauthorizedException(SessionExpired)) else Ok(p)
  }

  /** `revokeToken(token)`: a failing delete is not caught; a successful one
      leaves no session entry for the token. */
  function Revoke(s: RedisStore.Store, token: string): (r: RedisStore.Step<()>)
    ensures r.reply.Ok? <==> s.reachable
    ensures r.reply.Ok? ==> RedisStore.Get(r.store, SessionKey(token)) == Ok(None)
    ensures r.reply.Err? ==> r.store == s && r.reply.error == OtherError(s.failure)
  {
    var d := RedisStore.Del(s, SessionKey(token));
    if d.reply.Err? then RedisStore.Step(d.store, Err(d.reply.error)) else RedisStore.Step(d.store, Ok(()))
  }

  class AuthServiceImpl {
    const redis: RedisServiceImpl
    const config: AuthConfig

    constructor(redis: RedisServiceImpl, config: AuthConfig)
      ensures this.redis == redis && this.config == config
    {
      this.redis := redis;
      this.config := config;
    }

    method SignUser(p: Payload, now: nat) returns (r: Result<LoginToken>)
      modifies redis
      ensures RedisStore.Step(redis.store, r) == Issue(old(redis.store), config, p, now)
      ensures redis.Health() == old(redis.Health())
    {
      var expiresIn := TtlSeconds(config);
      var token := Sign(p, Secret(config), now, expiresIn, config.mac);
      var cached := CacheToken(token, p, expiresIn);
      if cached.Err? {
        return Err(cached.error);
      }
      r := Ok(LoginToken(token, expiresIn));
    }

    method CacheToken(token: string, p: Payload, ttl: nat) returns (r: Result<()>)
      modifies redis
      ensures RedisStore.Step(redis.store, r) == Cache(old(redis.store), token, p, ttl)
      ensures redis.Health() == old(redis.Health())
    {
      var result := redis.Set(SessionKey(token), SessionValue(p), Some(ttl));
      if result.Err? {
        return Err(OtherError("Failed to cache token: " + result.error.message));
      }
      if result.value != "OK" {
        return Err(OtherError("Failed to cache token: Failed to cache token in Redis"));
      }
      r := Ok(());
    }

    method ValidateToken(token: string, now: nat) returns (r: Result<Decoded>)
      ensures r == Validate(redis.store, config, token, now)
    {
      var v := Verify(token, Secret(config), now, config.mac);
      if v.Rejected? {
        return Err(UnauthorizedException(InvalidSession));
      }
      var n := redis.Exists(SessionKey(token));
      if n.Err? {
        return Err(UnauthorizedException(InvalidSession));
      }
      if n.value == 0 {
        return Err(UnauthorizedException(SessionExpired));
      }
      r := Ok(v.decoded);
    }

    method RevokeToken(token: string) returns (r: Result<()>)
      modifies redis
      ensures RedisStore.Step(redis.store, r) == Revoke(old(redis.store), token)
      ensures redis.Health() == old(redis.Health())
    {
      var n := redis.Del(SessionKey(token));
      if n.Err? {
        return Err(n.error);
      }
      r := Ok(());
    }
  }

  // Properties.

  /** The session key is `session:jwt:` and the token, so distinct tokens have distinct keys. */
  lemma SessionKeysDistinct(t: string, u: string)
    ensures SessionKey(t) == "session:jwt:" + t
    ensures t != u ==> SessionKey(t) != SessionKey(u)
  {
    var head := "session:jwt:";
    assert SessionKey(t) == head + t && SessionKey(u) == head + u;
    if t != u {
      assert (head + t)[|head|..] == t && (head + u)[|head|..] == u;
    }
  }

  /** Session keys lie in the `session` namespace but never collide with a
      user session key `session:<id>` of an id without ':'. */
  lemma SessionKeyNamespace(t: string, id: string)
    ensures RedisKeys.KeyNamespace(SessionKey(t)) == "session"
    ensures ':' !in id ==> SessionKey(t) != RedisKeys.UserSessionKey(id)
  {
    var rest := "jwt:" + t;
    assert SessionKey(t) == "session" + ":" + rest;
    RedisKeys.KeyNamespaceIsTextBeforeFirstColon("session", rest);
    assert SessionKey(t)[8..] == rest;
    assert RedisKeys.UserSessionKey(id)[8..] == id;
    assert rest[3] == ':';
  }

  /** A successful issue leaves the session entry `SessionValue(p)` with the
      token's lifetime as time-to-live, replies with that lifetime, and touches
      no other key. */
  lemma IssueStoresSession(s: RedisStore.Store, cfg: AuthConfig, p: Payload, now: nat, other: string)
    requires s.reachable && s.writeAck == "OK"
    ensures var r := Issue(s, cfg, p, now); var token := Sign(p, Secret(cfg), now, TtlSeconds(cfg), cfg.mac);
      r.reply == Ok(LoginToken(token, TtlSeconds(cfg))) &&
      RedisStore.Get(r.store, SessionKey(token)) == Ok(Some(SessionValue(p))) &&
      RedisStore.Ttl(r.store, SessionKey(token)) == Ok(TtlSeconds(cfg)) &&
      (other != SessionKey(token) ==> RedisStore.Get(r.store, other) == RedisStore.Get(s, other))
  {
    var token := Sign(p, Secret(cfg), now, TtlSeconds(cfg), cfg.mac);
    if other == SessionKey(token) {
      RedisStore.SetThenRead(s, SessionKey(token), SessionValue(p), Some(TtlSeconds(cfg)), SessionKey(token) + "'");
      assert |SessionKey(token) + "'"| != |SessionKey(token)|;
    } else {
      RedisStore.SetThenRead(s, SessionKey(token), SessionValue(p), Some(TtlSeconds(cfg)), other);
    }
  }

  /** No token is handed out when the session entry could not be written. */
  lemma IssueFailsWithoutSession(s: RedisStore.Store, cfg: AuthConfig, p: Payload, now: nat)
    ensures !s.reachable ==>
      Issue(s, cfg, p, now) == RedisStore.Step(s, Err(OtherError("Failed to cache token: " + s.failure)))
    ensures s.reachable && s.writeAck != "OK" ==>
      Issue(s, cfg, p, now).reply == Err(OtherError("Failed to cache token: Failed to cache token in Redis"))
  {
  }

  /** An issued token is accepted for as long as its lifetime runs, on a server
      that only had that much time pass; validation hands back the payload with
      the issue time as `iat` and the end of the lifetime as `exp`. */
  lemma IssueThenValidate(s: RedisStore.Store, cfg: AuthConfig, p: Payload, now: nat, elapsed: nat)
    requires s.reachable && s.writeAck == "OK"
    requires elapsed < TtlSeconds(cfg)
    ensures var r := Issue(s, cfg, p, now);
      r.reply.Ok? &&
      var v := Validate(RedisStore.Elapse(r.store, elapsed), cfg, r.reply.value.token, now + elapsed);
      v.Ok? && v.value.payload == p && v.value.iat == now && v.value.exp == now + TtlSeconds(cfg)
  {
    var ttl := TtlSeconds(cfg);
    var token := Sign(p, Secret(cfg), now, ttl, cfg.mac);
    var r := Issue(s, cfg, p, now);
    assert r == RedisStore.Step(RedisStore.SetEx(s, SessionKey(token), ttl, SessionValue(p)).store,
                                Ok(LoginToken(token, ttl))) by {
      IssueWrites(s, cfg, p, now);
    }
    var later := RedisStore.Elapse(r.store, elapsed);
    assert RedisStore.Get(later, SessionKey(token)) == Ok(Some(SessionValue(p))) by {
      RedisStore.ExpiryRunsOut(s, SessionKey(token), SessionValue(p), ttl, elapsed);
    }
    assert Verify(token, Secret(cfg), now + elapsed, cfg.mac) == Verified(Decoded(p, now, now + ttl)) by {
      SignThenVerify(p, Secret(cfg), now, ttl, now + elapsed, cfg.mac);
    }
    AcceptedWithSession(later, cfg, token, now + elapsed);
  }

  /** On a server that acknowledges writes, issuing is one `SETEX` of the
      session entry and replies with the signed token. */
  lemma IssueWrites(s: RedisStore.Store, cfg: AuthConfig, p: Payload, now: nat)
    requires s.reachable && s.writeAck == "OK"
    ensures var token := Sign(p, Secret(cfg), now, TtlSeconds(cfg), cfg.mac);
      Issue(s, cfg, p, now) ==
        RedisStore.Step(RedisStore.SetEx(s, SessionKey(token), TtlSeconds(cfg), SessionValue(p)).store,
                        Ok(LoginToken(token, TtlSeconds(cfg))))
  {
  }

  /** A verified token whose session entry is present is accepted with its claims. */
  lemma AcceptedWithSession(s: RedisStore.Store, cfg: AuthConfig, token: string, now: nat)
    requires Verify(token, Secret(cfg), now, cfg.mac).Verified?
    requires RedisStore.Get(s, SessionKey(token)).Ok? && RedisStore.Get(s, SessionKey(token)).value.Some?
    ensures Validate(s, cfg, token, now) == Ok(Verify(token, Secret(cfg), now, cfg.mac).decoded)
  {
  }

  /** Once the lifetime is over the token is refused, and so is its session entry gone. */
  lemma IssuedTokenLapses(s: RedisStore.Store, cfg: AuthConfig, p: Payload, now: nat, elapsed: nat)
    requires s.reachable && s.writeAck == "OK"
    requires elapsed >= TtlSeconds(cfg)
    ensures var r := Issue(s, cfg, p, now); var later := RedisStore.Elapse(r.store, elapsed);
      r.reply.Ok? &&
      Validate(later, cfg, r.reply.value.token, now + elapsed) == Err(UnauthorizedException(InvalidSession)) &&
      RedisStore.Exists(later, SessionKey(r.reply.value.token)) == Ok(0)
  {
    var ttl := TtlSeconds(cfg);
    var token := Sign(p, Secret(cfg), now, ttl, cfg.mac);
    SignedTokenExpires(p, Secret(cfg), now, ttl, now + elapsed, cfg.mac);
    RedisStore.ExpiryRunsOut(s, SessionKey(token), SessionValue(p), ttl, elapsed);
  }

  /** A revoked token is refused from then on, however valid its signature. */
  lemma RevokeThenValidate(s: RedisStore.Store, cfg: AuthConfig, token: string, now: nat)
    requires s.reachable
    ensures var r := Revoke(s, token);
      r.reply == Ok(()) &&
      Validate(r.store, cfg, token, now) ==
        (if Verify(token, Secret(cfg), now, cfg.mac).Verified? then Err(UnauthorizedException(SessionExpired))
         else Err(UnauthorizedException(InvalidSession)))
  {
  }
}
