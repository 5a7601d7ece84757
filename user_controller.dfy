/**
 * `UserController`: the `userinfo/login`, `userinfo/register` and
 * `userinfo/info` routes. Login hands the service's token through,
 * registration answers with a fixed message, and the info query looks a
 * user up by id (preferred) or by user name.
 */
module UserController {
  import opened Wrappers
  import opened Text
  import opened CommonErrors
  import RedisStore
  import opened AuthService
  import opened UserDirectory
  import opened UserInfoService

  const Registered := "注册成功"
  const QueryMissing := "请提供用户ID或用户名"
  const BadUserId := "用户ID格式不正确"
  const NoSuchUser := "用户不存在"

  /** `RegisterResponseDto`. */
  datatype RegisterResponse = RegisterResponse(message: string)

  /** A query parameter is truthy when present and non-empty. */
  predicate Given(p: Option<string>)
  {
    p.Some? && p.value != ""
  }

  /** `getUserInfo({id, username})` over the stored users. */
  function UserInfoQuery(users: seq<User>, id: Option<string>, username: Option<string>): (r: Result<User>)
    ensures !Given(id) && !Given(username) ==> r == Err(BadRequestException(QueryMissing))
    ensures Given(id) && ParseInt10(id.value).None? ==> r == Err(BadRequestException(BadUserId))
    ensures r.Ok? ==> r.value in users
    ensures r.Ok? && Given(id) ==> ParseInt10(id.value) == Some(r.value.id)
    ensures r.Ok? && !Given(id) ==> r.value.username == username
    ensures Given(id) && ParseInt10(id.value).Some? && (forall u :: u in users ==> u.id != ParseInt10(id.value).value)
      ==> r == Err(UnauthorizedException(NoSuchUser))
    ensures !Given(id) && Given(username) && (forall u :: u in users ==> u.username != username)
      ==> r == Err(UnauthorizedException(NoSuchUser))
  {
    if !Given(id) && !Given(username) then Err(BadRequestException(QueryMissing))
    else
      var found: Result<Option<User>> :=
        if Given(id) then
          match ParseInt10(id.value)
          case None => Err(BadRequestException(BadUserId))
          case Some(n) => Ok(FindById(users, n))
        else Ok(FindByUsername(users, username.value));
      match found
      case Err(e) => Err(e)
      case Ok(None) => Err(UnauthorizedException(NoSuchUser))
      case Ok(Some(u)) => Ok(u)
  }

  class UserControllerImpl {
    const service: UserInfoServiceImpl

    constructor(service: UserInfoServiceImpl)
      ensures this.service == service
    {
      this.service := service;
    }

    /** `login({code})`: the token object exactly as the service returns it. */
    method Login(call: WechatCall, now: nat) returns (r: Result<LoginToken>)
      modifies service.auth.redis
      ensures RedisStore.Step(service.auth.redis.store, r) ==
        UserInfoService.Login(old(service.auth.redis.store), service.repo.users, service.auth.config,
                              service.wechat, call, now)
    {
      r := service.WechatLogin(call, now);
    }

    /** `register({code, nickName, avatarUrl})`: the token is dropped and the
        answer is always `注册成功`; failures pass through. */
    method Register(call: WechatCall, nickName: Option<string>, avatarUrl: Option<string>, nowMs: nat, now: nat)
      returns (r: Result<RegisterResponse>)
      modifies service.repo, service.auth.redis
      ensures var reg := UserInfoService.Register(old(service.repo.Contents()), old(service.auth.redis.store),
                                                  service.auth.config, service.wechat, call, nickName, avatarUrl,
                                                  nowMs, now);
        service.repo.Contents() == reg.dir && service.auth.redis.store == reg.step.store &&
        (reg.step.reply.Ok? ==> r == Ok(RegisterResponse(Registered))) &&
        (reg.step.reply.Err? ==> r == Err(reg.step.reply.error))
    {
      var token := service.WechatRegister(call, nickName, avatarUrl, nowMs, now);
      if token.Err? {
        return Err(token.error);
      }
      r := Ok(RegisterResponse(Registered));
    }
  }

  // Properties.

  /** When an id is given the user name is not looked at. */
  lemma IdTakesPrecedence(users: seq<User>, id: string, username: Option<string>, other: Option<string>)
    requires id != ""
    ensures UserInfoQuery(users, Some(id), username) == UserInfoQuery(users, Some(id), other)
  {
  }

  /** An empty parameter counts as missing. */
  lemma EmptyMeansMissing(users: seq<User>, username: Option<string>)
    ensures UserInfoQuery(users, Some(""), username) == UserInfoQuery(users, None, username)
    ensures UserInfoQuery(users, Some(""), Some("")) == Err(BadRequestException(QueryMissing))
  {
  }

  /** Every stored user is found by its id written in decimal, and by its
      (non-empty) user name when no id is given. */
  lemma QueryFindsStoredUser(d: Directory, u: User, username: Option<string>)
    requires Valid(d) && u in d.users
    ensures UserInfoQuery(d.users, Some(NatToString(u.id)), username) == Ok(u)
    ensures u.username.Some? && u.username.value != "" ==> UserInfoQuery(d.users, None, u.username) == Ok(u)
  {
    ParseIntOfRendered(u.id);
    LookupsFindTheRow(d, u);
  }

  /** A user that registered is found by the info query under its generated
      name and its new id. */
  lemma RegisteredUserIsQueryable(d: Directory, s: RedisStore.Store, cfg: AuthConfig, wx: WechatConfig,
                                  call: WechatCall, nickName: Option<string>, avatarUrl: Option<string>,
                                  nowMs: nat, now: nat)
    requires Valid(d) && Code2Session(wx, call).Ok?
    requires var openid := Code2Session(wx, call).value;
      FindByOpenId(d.users, openid).None? && FindByUsername(d.users, GeneratedUsername(openid, nowMs)).None?
    ensures var openid := Code2Session(wx, call).value;
      var r := UserInfoService.Register(d, s, cfg, wx, call, nickName, avatarUrl, nowMs, now);
      var q := UserInfoQuery(r.dir.users, Some(NatToString(d.nextId)), None);
      q.Ok? && q.value.id == d.nextId && q.value.wechatOpenId == Some(openid) && q.value.password == "" &&
      UserInfoQuery(r.dir.users, None, Some(GeneratedUsername(openid, nowMs))) == q
  {
    var openid := Code2Session(wx, call).value;
    var name := GeneratedUsername(openid, nowMs);
    RegisterNewSavesOne(d, s, cfg, wx, call, nickName, avatarUrl, nowMs, now);
    var r := UserInfoService.Register(d, s, cfg, wx, call, nickName, avatarUrl, nowMs, now);
    var u := User(d.nextId, Some(name), None, "", None, None, Some(openid), nickName, avatarUrl, Enabled);
    assert r.dir.users[|d.users|] == u;
    QueryFindsStoredUser(r.dir, u, None);
  }
}
