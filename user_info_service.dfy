/**
 * `UserInfoServiceImpl`: WeChat sign-in and registration. The `code2Session`
 * reply of the WeChat API for the given code is a parameter, as are the two
 * clock readings (`Date.now()` in milliseconds for the generated user name,
 * seconds for the token). A WeChat user is signed in only when registered
 * and enabled; registering an unknown openid saves exactly one new user.
 */
module UserInfoService {
  import opened Wrappers
  import opened Text
  import opened CommonErrors
  import opened JwtCodec
  import RedisStore
  import opened AuthService
  import opened UserDirectory

  /** `WECHAT_APPID` and `WECHAT_SECRET` as `ConfigService.get` returns them. */
  datatype WechatConfig = WechatConfig(appId: Option<string>, secret: Option<string>)

  /** The `data` of a `jscode2session` reply. */
  datatype Code2SessionData = Code2SessionData(openid: Option<string>, sessionKey: Option<string>,
                                               errcode: Option<int>, errmsg: Option<string>)

  /** What the HTTP call gives: a reply body, or a failure (network, timeout,
      non-2xx status). */
  datatype WechatCall = Answered(data: Code2SessionData) | CallFailed

  const ConfigMissing := "微信配置未设置，请联系管理员"
  const LoginFailedPrefix := "微信登录失败: "
  const UnknownError := "未知错误"
  const NoOpenId := "微信登录失败: 未获取到openid"
  const CallFailedMessage := "调用微信接口失败，请稍后重试"
  const NotRegistered := "用户未注册，请先完成注册"
  const Disabled := "账号已被禁用，请联系管理员"

  /** The status of an enabled account. */
  const Enabled := 1

  /** The message for a reply carrying a (truthy) error code. */
  function WechatErrorMessage(errmsg: Option<string>, errcode: int): string
  {
    LoginFailedPrefix + errmsg.GetOr(UnknownError) + " (错误码: " + IntToString(errcode) + ")"
  }

  /** `code2Session(code)`: the openid of the reply, or the `BadRequest` it throws. */
  function Code2Session(cfg: WechatConfig, call: WechatCall): (r: Result<string>)
    ensures r.Ok? ==> r.value != ""
    ensures r.Err? ==> r.error.HttpException? && r.error.status == BAD_REQUEST
  {
    if cfg.appId.GetOr("") == "" || cfg.secret.GetOr("") == "" then Err(BadRequestException(ConfigMissing))
    else
      match call
      case CallFailed => Err(BadRequestException(CallFailedMessage))
      case Answered(data) =>
        if data.errcode.Some? && data.errcode.value != 0 then
          Err(BadRequestException(WechatErrorMessage(data.errmsg, data.errcode.value)))
        else if data.openid.GetOr("") == "" then Err(BadRequestException(NoOpenId))
        else Ok(data.openid.value)
  }

  /** `user.username ?? user.wechatOpenId` for a user found by `openid`. */
  function SignInName(u: User, openid: string): string
  {
    u.username.GetOr(openid)
  }

  /** The account check of `wechatLogin`: the payload to sign, or the
      `Unauthorized` it throws. */
  function SignInPayload(users: seq<User>, openid: string): (r: Result<Payload>)
  {
    match FindByOpenId(users, openid)
    case None => Err(UnauthorizedException(NotRegistered))
    case Some(u) =>
      if u.status != Enabled then Err(UnauthorizedException(Disabled))
      else Ok(Payload(u.id, SignInName(u, openid)))
  }

  /** `wechatLogin(code)`: against the session store `s` at `now` seconds. A
      token is handed out only to a registered, enabled user of the openid
      WeChat returned; a failure before signing writes nothing. */
  function Login(s: RedisStore.Store, users: seq<User>, cfg: AuthConfig, wx: WechatConfig, call: WechatCall,
                 now: nat): (r: RedisStore.Step<LoginToken>)
    ensures Code2Session(wx, call).Err? ==> r == RedisStore.Step(s, Err(Code2Session(wx, call).error))
    ensures r.reply.Ok? ==>
      Code2Session(wx, call).Ok? && FindByOpenId(users, Code2Session(wx, call).value).Some? &&
      FindByOpenId(users, Code2Session(wx, call).value).value.status == Enabled
    ensures r.reply.Ok? <==>
      Code2Session(wx, call).Ok? && SignInPayload(users, Code2Session(wx, call).value).Ok? &&
      s.reachable && s.writeAck == "OK"
  {
    match Code2Session(wx, call)
    case Err(e) => RedisStore.Step(s, Err(e))
    case Ok(openid) =>
      match SignInPayload(users, openid)
      case Err(e) => RedisStore.Step(s, Err(e))
      case Ok(p) => Issue(s, cfg, p, now)
  }

  /** `wx_` + the first ten characters of the openid + `_` + the time in
      milliseconds, which reads back from the text after that `_`. */
  function GeneratedUsername(openid: string, nowMs: nat): (name: string)
    ensures var k := if |openid| < 10 then |openid| else 10;
      |name| > 4 + k && name[..3] == "wx_" && name[3..3 + k] == openid[..k] && name[3 + k] == '_' &&
      ParseInt10(name[4 + k..]) == Some(nowMs)
  {
    ParseIntOfRendered(nowMs);
    "wx_" + openid[..if |openid| < 10 then |openid| else 10] + "_" + NatToString(nowMs)
  }

  /** The row `wechatRegister` creates for a new openid: enabled, without a
      password, bound to the openid under the generated name. */
  function NewWechatUser(openid: string, nickName: Option<string>, avatarUrl: Option<string>, nowMs: nat): (u: User)
    ensures u.wechatOpenId == Some(openid) && u.username == Some(GeneratedUsername(openid, nowMs))
    ensures u.status == Enabled && u.password == ""
    ensures u.wechatNickName == nickName && u.wechatAvatarUrl == avatarUrl
  {
    User(0, Some(GeneratedUsername(openid, nowMs)), None, "", None, None, Some(openid), nickName, avatarUrl, Enabled)
  }

  /** The state after a registration, and its reply. */
  datatype Registration = Registration(dir: Directory, step: RedisStore.Step<LoginToken>)

  /** `wechatRegister(code, nickName, avatarUrl)`: it adds at most one user,
      keeping the rows already there, and hands out a token only to an
      enabled user bound to the openid WeChat returned. */
  function Register(d: Directory, s: RedisStore.Store, cfg: AuthConfig, wx: WechatConfig, call: WechatCall,
                    nickName: Option<string>, avatarUrl: Option<string>, nowMs: nat, now: nat): (r: Registration)
    ensures Code2Session(wx, call).Err? ==> r == Registration(d, RedisStore.Step(s, Err(Code2Session(wx, call).error)))
    ensures r.dir == d || (|r.dir.users| == |d.users| + 1 && r.dir.users[..|d.users|] == d.users)
    ensures r.step.reply.Ok? ==>
      Code2Session(wx, call).Ok? && FindByOpenId(r.dir.users, Code2Session(wx, call).value).Some? &&
      FindByOpenId(r.dir.users, Code2Session(wx, call).value).value.status == Enabled
  {
    match Code2Session(wx, call)
    case Err(e) => Registration(d, RedisStore.Step(s, Err(e)))
    case Ok(openid) =>
      match FindByOpenId(d.users, openid)
      case Some(u) =>
        if u.status != Enabled then Registration(d, RedisStore.Step(s, Err(UnauthorizedException(Disabled))))
        else Registration(d, Issue(s, cfg, Payload(u.id, SignInName(u, openid)), now))
      case None =>
        var (d2, saved) := Insert(d, NewWechatUser(openid, nickName, avatarUrl, nowMs));
        match saved
        case Err(e) => Registration(d2, RedisStore.Step(s, Err(e)))
        case Ok(u) =>
          FirstMatchAppended(d.users, u, (v: User) => v.wechatOpenId == Some(openid));
          Registration(d2, Issue(s, cfg, Payload(u.id, GeneratedUsername(openid, nowMs)), now))
  }

  class UserInfoServiceImpl {
    const repo: UserRepository
    const auth: AuthServiceImpl
    const wechat: WechatConfig

    constructor(repo: UserRepository, auth: AuthServiceImpl, wechat: WechatConfig)
      ensures this.repo == repo && this.auth == auth && this.wechat == wechat
    {
      this.repo := repo;
      this.auth := auth;
      this.wechat := wechat;
    }

    method WechatLogin(call: WechatCall, now: nat) returns (r: Result<LoginToken>)
      modifies auth.redis
      ensures RedisStore.Step(auth.redis.store, r) ==
        Login(old(auth.redis.store), repo.users, auth.config, wechat, call, now)
      ensures auth.redis.Health() == old(auth.redis.Health())
    {
      var session := Code2Session(wechat, call);
      if session.Err? {
        return Err(session.error);
      }
      var openid := session.value;
      var user := FindByOpenId(repo.users, openid);
      if user.None? {
        return Err(UnauthorizedException(NotRegistered));
      }
      if user.value.status != Enabled {
        return Err(UnauthorizedException(Disabled));
      }
      r := auth.SignUser(Payload(user.value.id, SignInName(user.value, openid)), now);
    }

    method WechatRegister(call: WechatCall, nickName: Option<string>, avatarUrl: Option<string>,
                          nowMs: nat, now: nat) returns (r: Result<LoginToken>)
      modifies repo, auth.redis
      ensures Registration(repo.Contents(), RedisStore.Step(auth.redis.store, r)) ==
        Register(old(repo.Contents()), old(auth.redis.store), auth.config, wechat, call, nickName, avatarUrl, nowMs, now)
      ensures auth.redis.Health() == old(auth.redis.Health())
    {
      var session := Code2Session(wechat, call);
      if session.Err? {
        return Err(session.error);
      }
      var openid := session.value;
      var existing := FindByOpenId(repo.users, openid);
      if existing.Some? {
        if existing.value.status != Enabled {
          return Err(UnauthorizedException(Disabled));
        }
        r := auth.SignUser(Payload(existing.value.id, SignInName(existing.value, openid)), now);
        return;
      }
      var saved := repo.Save(NewWechatUser(openid, nickName, avatarUrl, nowMs));
      if saved.Err? {
        return Err(saved.error);
      }
      r := auth.SignUser(Payload(saved.value.id, GeneratedUsername(openid, nowMs)), now);
    }
  }

  // Properties.

  /** `code2Session` succeeds exactly when both settings are non-empty and
      the reply has no error code and a non-empty openid, which it returns. */
  lemma Code2SessionSucceeds(cfg: WechatConfig, call: WechatCall)
    ensures Code2Session(cfg, call).Ok? <==>
      cfg.appId.GetOr("") != "" && cfg.secret.GetOr("") != "" && call.Answered? &&
      (call.data.errcode.None? || call.data.errcode.value == 0) && call.data.openid.GetOr("") != ""
    ensures Code2Session(cfg, call).Ok? ==> Code2Session(cfg, call).value == call.data.openid.value
  {
  }

  /** The failures of `code2Session`, in the order they are checked; missing
      settings are reported whatever the WeChat API would have answered. */
  lemma Code2SessionFailures(cfg: WechatConfig, call: WechatCall)
    ensures cfg.appId.GetOr("") == "" || cfg.secret.GetOr("") == "" ==>
      Code2Session(cfg, call) == Err(BadRequestException(ConfigMissing))
    ensures cfg.appId.GetOr("") != "" && cfg.secret.GetOr("") != "" ==>
      (call.CallFailed? ==> Code2Session(cfg, call) == Err(BadRequestException(CallFailedMessage))) &&
      (call.Answered? && call.data.errcode.Some? && call.data.errcode.value != 0 ==>
         Code2Session(cfg, call) ==
           Err(BadRequestException(WechatErrorMessage(call.data.errmsg, call.data.errcode.value)))) &&
      ((call.Answered? && (call.data.errcode.None? || call.data.errcode.value == 0) && call.data.openid.GetOr("") == "")
         ==> Code2Session(cfg, call) == Err(BadRequestException(NoOpenId)))
  {
  }

  /** A WeChat error without `errmsg` reads `微信登录失败: 未知错误 (错误码: <code>)`;
      an empty `errmsg` is kept empty (`??` only replaces null/undefined). */
  lemma WechatErrorMessageShape(errcode: int)
    ensures WechatErrorMessage(None, errcode) == "微信登录失败: 未知错误 (错误码: " + IntToString(errcode) + ")"
    ensures WechatErrorMessage(Some(""), errcode) == "微信登录失败:  (错误码: " + IntToString(errcode) + ")"
  {
  }

  /** Sign-in refuses an unknown or disabled openid and otherwise signs the
      user's id and name. */
  lemma SignInRules(d: Directory, openid: string)
    requires Valid(d)
    ensures FindByOpenId(d.users, openid).None? <==>
      SignInPayload(d.users, openid) == Err(UnauthorizedException(NotRegistered))
    ensures forall u :: u in d.users && u.wechatOpenId == Some(openid) ==>
      SignInPayload(d.users, openid) ==
        (if u.status != Enabled then Err(UnauthorizedException(Disabled))
         else Ok(Payload(u.id, if u.username.Some? then u.username.value else openid)))
  {
    forall u | u in d.users && u.wechatOpenId == Some(openid)
      ensures SignInPayload(d.users, openid) ==
        (if u.status != Enabled then Err(UnauthorizedException(Disabled))
         else Ok(Payload(u.id, if u.username.Some? then u.username.value else openid)))
    {
      LookupsFindTheRow(d, u);
    }
  }

  /** A refused sign-in issues no token and writes nothing to the store. */
  lemma RefusedLoginIssuesNothing(s: RedisStore.Store, d: Directory, cfg: AuthConfig, wx: WechatConfig,
                                  call: WechatCall, now: nat)
    requires Code2Session(wx, call).Err? || SignInPayload(d.users, Code2Session(wx, call).value).Err?
    ensures Login(s, d.users, cfg, wx, call, now).store == s
    ensures Login(s, d.users, cfg, wx, call, now).reply.Err?
  {
  }

  /** An enabled user signs in with token `Sign({sub: id, username}, ...)`
      and a session entry for it. */
  lemma LoginSignsUser(s: RedisStore.Store, d: Directory, cfg: AuthConfig, wx: WechatConfig, call: WechatCall,
                       now: nat, u: User)
    requires Valid(d) && u in d.users && u.status == Enabled
    requires Code2Session(wx, call).Ok? && u.wechatOpenId == Some(Code2Session(wx, call).value)
    ensures var openid := Code2Session(wx, call).value;
      Login(s, d.users, cfg, wx, call, now) == Issue(s, cfg, Payload(u.id, SignInName(u, openid)), now)
  {
    LookupsFindTheRow(d, u);
  }

  /** Registering an openid that already has a user creates no user and does
      what signing in does. */
  lemma RegisterExistingIsLogin(d: Directory, s: RedisStore.Store, cfg: AuthConfig, wx: WechatConfig,
                                call: WechatCall, nickName: Option<string>, avatarUrl: Option<string>,
                                nowMs: nat, now: nat)
    requires Code2Session(wx, call).Ok? ==> FindByOpenId(d.users, Code2Session(wx, call).value).Some?
    ensures var r := Register(d, s, cfg, wx, call, nickName, avatarUrl, nowMs, now);
      r.dir == d && r.step == Login(s, d.users, cfg, wx, call, now)
  {
  }

  /** Registering a new openid saves exactly one user, enabled, password-less,
      bound to the openid, with the generated name and the next id; the token
      is signed for that id and name. */
  lemma RegisterNewSavesOne(d: Directory, s: RedisStore.Store, cfg: AuthConfig, wx: WechatConfig,
                            call: WechatCall, nickName: Option<string>, avatarUrl: Option<string>,
                            nowMs: nat, now: nat)
    requires Valid(d) && Code2Session(wx, call).Ok?
    requires var openid := Code2Session(wx, call).value;
      FindByOpenId(d.users, openid).None? && FindByUsername(d.users, GeneratedUsername(openid, nowMs)).None?
    ensures var openid := Code2Session(wx, call).value;
      var name := GeneratedUsername(openid, nowMs);
      var u := User(d.nextId, Some(name), None, "", None, None, Some(openid), nickName, avatarUrl, Enabled);
      var r := Register(d, s, cfg, wx, call, nickName, avatarUrl, nowMs, now);
      r.dir == Directory(d.users + [u], d.nextId + 1) && Valid(r.dir) &&
      r.step == Issue(s, cfg, Payload(d.nextId, name), now)
  {
    var openid := Code2Session(wx, call).value;
    InsertAppendsOne(d, NewWechatUser(openid, nickName, avatarUrl, nowMs));
  }

  /** After registering, signing in with the same openid signs the new user. */
  lemma RegisterThenLogin(d: Directory, s: RedisStore.Store, s2: RedisStore.Store, cfg: AuthConfig, wx: WechatConfig,
                          call: WechatCall, nickName: Option<string>, avatarUrl: Option<string>,
                          nowMs: nat, now: nat, later: nat)
    requires Valid(d) && Code2Session(wx, call).Ok?
    requires var openid := Code2Session(wx, call).value;
      FindByOpenId(d.users, openid).None? && FindByUsername(d.users, GeneratedUsername(openid, nowMs)).None?
    ensures var openid := Code2Session(wx, call).value;
      var r := Register(d, s, cfg, wx, call, nickName, avatarUrl, nowMs, now);
      Login(s2, r.dir.users, cfg, wx, call, later) ==
        Issue(s2, cfg, Payload(d.nextId, GeneratedUsername(openid, nowMs)), later)
  {
    var openid := Code2Session(wx, call).value;
    var draft := NewWechatUser(openid, nickName, avatarUrl, nowMs);
    InsertAppendsOne(d, draft);
    SavedRowIsFound(d, draft);
  }

  /** Registration keeps the directory well formed and adds at most one user. */
  lemma RegisterKeepsDirectoryValid(d: Directory, s: RedisStore.Store, cfg: AuthConfig, wx: WechatConfig,
                                    call: WechatCall, nickName: Option<string>, avatarUrl: Option<string>,
                                    nowMs: nat, now: nat)
    requires Valid(d)
    ensures var r := Register(d, s, cfg, wx, call, nickName, avatarUrl, nowMs, now);
      Valid(r.dir) && (r.dir == d || (|r.dir.users| == |d.users| + 1 && r.dir.users[..|d.users|] == d.users))
  {
    var session := Code2Session(wx, call);
    if session.Ok? && FindByOpenId(d.users, session.value).None? {
      var draft := NewWechatUser(session.value, nickName, avatarUrl, nowMs);
      InsertAppendsOne(d, draft);
      var (d2, saved) := Insert(d, draft);
      if saved.Ok? {
        assert d2.users[..|d.users|] == d.users;
      }
    }
  }

  /** The generated name keeps only ten characters of the openid, so two
      openids that agree on those get the same name in the same millisecond;
      the second registration is then refused as a duplicate. */
  lemma GeneratedNamesCanCollide(a: string, b: string, nowMs: nat)
    requires |a| >= 10 && |b| >= 10 && a[..10] == b[..10]
    ensures GeneratedUsername(a, nowMs) == GeneratedUsername(b, nowMs)
  {
  }

  /** A second registration whose generated name is taken saves nothing and
      fails with the database's duplicate-entry error. */
  lemma TakenNameRefused(d: Directory, s: RedisStore.Store, cfg: AuthConfig, wx: WechatConfig,
                         call: WechatCall, nickName: Option<string>, avatarUrl: Option<string>,
                         nowMs: nat, now: nat)
    requires Code2Session(wx, call).Ok?
    requires var openid := Code2Session(wx, call).value;
      FindByOpenId(d.users, openid).None? && FindByUsername(d.users, GeneratedUsername(openid, nowMs)).Some?
    ensures Register(d, s, cfg, wx, call, nickName, avatarUrl, nowMs, now) ==
      Registration(d, RedisStore.Step(s, Err(OtherError(DuplicateEntry))))
  {
  }
}
