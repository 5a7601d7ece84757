# storeverserepo-wx-serve, core model

A Dafny model of the server side of a WeChat mini-program backend written
with NestJS. The model covers:

- **Sign-in.** A WeChat login code is exchanged for an `openid`. A user is
  looked up or registered under that `openid`, and the user receives a JWT.
- **Sessions.** Every JWT has a session entry in Redis under
  `session:jwt:<token>`. A token is accepted only while its signature and
  expiry check out and that entry still exists.
- **The global guard.** It lets public and Swagger routes through. Any
  other request must carry `Authorization: Bearer <token>` with a token the
  session logic accepts.
- **The Redis service.** Command wrappers, the `isHealthy` flag driven by
  the client's events and by a periodic ping, and the parser of
  `INFO` reports.
- **The Redis management routes.** Their fixed answers are modelled too.
- **Redis key helpers.** The key builders and the helpers that take keys
  apart.
- **Errors and responses.** The error-code table, the application exception
  classes, the exception filter that turns anything thrown into a uniform
  error body, the success envelope, and the DTO projection that only lets
  exposed properties through.
- **Request checks.** The class-validator constraints of the request DTOs.
- **Deployment.** The PM2 deployment file's `.env` loader and its three
  environment blocks.

Each source file has its own module:

- **Pure code** becomes datatypes, functions and lemmas: key builders, DTOs,
  the exception filter, the interceptors and the env-file parser.
- **Stateful objects** become classes whose methods are proved against those
  functions. These are the Redis service, the auth service, the user
  repository, the WeChat user service, the guard and the controllers.
- **Loops in the source** become `while` loops with invariants: the
  `.env` line loop, the `INFO` `forEach` and the guard's entry scan.

Shared helpers live in four modules:

- `Text`: JavaScript's `split`, `join`, `trim`, `indexOf`, `parseInt` and
  `String(n)`.
- `Entries`: the "later line overwrites earlier" fold that the `INFO` and
  `.env` parsers share.
- `JsValues`: JavaScript values, `null`/`undefined` and object fields.
- `Wrappers`: `Option`, standing for `null`, `undefined` and `??`.

The model takes these things as parameters instead of doing them:

- **Redis server.** A value holding data, per-key time-to-live, a
  reachability flag and the reply it gives to writes. Timeouts are explicit
  `Elapse` steps.
- **Clocks.** Times are arguments: seconds for JWT and Redis, milliseconds
  for generated user names.
- **WeChat.** The reply of the `jscode2session` call is an argument.
- **Signing.** The HMAC of the signature is a function parameter `mac`.
- **Files.** The content of each `.env` file is an argument, `None` when the
  file does not exist.

Where the source and its documentation differ, the model follows the
source:

- A `.env` value that is a single quote character becomes empty. This is
  what `slice(1, -1)` does.
- The `.env` pattern `(.*)$` does not accept values that hold a line
  terminator.
- `/api-json` adds nothing to the Swagger test, because every such path
  already starts with `/api`. A route such as `/apikeys` also counts as
  Swagger.
- The `wx_<10 chars>_<ms>` user names of two openids with the same first
  ten characters, registered in the same millisecond, collide. The database
  then refuses the second registration.

## Model

| member | source | states |
|---|---|---|
| CommonErrors.UnauthorizedException | src/auth/jwt-auth.guard.ts:35 | Nest's `UnauthorizedException(message)` is an HTTP exception with status 401, that message and no `getCode` |
| CommonErrors.BadRequestException | src/services/imp/UserInfoServiceImpl.ts:132 | Nest's `BadRequestException(message)` is an HTTP exception with status 400, that message and no `getCode` |
| CommonErrors.CodesDistinct | src/common/common-errors.ts:3-18 | the table has exactly the fourteen entries, and no two entries share a code |
| CommonErrors.CodeIdentifiesEntry | src/common/common-errors.ts:3-18 | two entries with equal codes are the same entry |
| CommonErrors.NewAppHttpException | src/common/common-errors.ts:22-33 | the exception carries the given code (returned by `getCode`) and message; its status is the given one, or 400 by default |
| CommonErrors.ResponseBody | src/common/common-errors.ts:28 | the response body handed to `HttpException` is an object with exactly the keys `code` and `message`, holding the exception's code and message |
| CommonErrors.ThrowAppError | src/common/common-errors.ts:35-37 | the thrown exception carries the entry's code and message, with the given status or 400 |
| EnterpriseExceptions.NewAppException | src/common/enterprise-exceptions.ts:4-126 | each class's exception has its entry's code; an omitted message falls back to the entry's message and an omitted status to the class's own default (400, 401, 403, 404, 408, 409, 422, 429 or 500) |
| EnterpriseExceptions.StatusOverrideKeepsCode | src/common/enterprise-exceptions.ts:4-126 | an explicit status changes the status and leaves code and message as the default construction has them |
| EnterpriseExceptions.SharedStatusDistinctCodes | src/common/enterprise-exceptions.ts:46-86 | `Conflict`/`DataExists` share status 409 and `NotFound`/`DataNotFound` share 404, but their codes differ (1006/2001, 1005/2002) |
| HttpExceptionFilter.Catch | src/interceptors/http-exception.interceptor.ts:18-54 | the body always has `data: null` and the request path; an application exception keeps its status, code and message; another HTTP exception keeps status and message, and its code is its own `getCode()`, else the injected default, else 9000; anything else becomes 500 / 9999 / `未知错误` |
| HttpExceptionFilter.AppExceptionSurfaces | src/interceptors/http-exception.interceptor.ts:27-31 | every application exception reaches the client with its table code, its message (own or default) and its status (own or default) |
| HttpExceptionFilter.AppExceptionBodyReported | src/interceptors/http-exception.interceptor.ts:27-31 | the code and message of an application exception's response body are those in the error body the filter sends, with the exception's status |
| HttpExceptionFilter.UnauthorizedSurfacesAs401 | src/interceptors/http-exception.interceptor.ts:32-43 | a Nest 401 reaches the client as status 401 with the configured default code 9000 and its own message |
| HttpExceptionFilter.PlainErrorSurfacesAs500 | src/interceptors/http-exception.interceptor.ts:44-49 | a plain `Error` reaches the client as 500 with code 9999 and the generic message, hiding its own text |
| GlobalResponse.Wrap | src/interceptors/global-response.interceptor.ts:9-19 | the envelope has the injected success code (0 when unset) and message `success`; its data is the handler's result, or `true` when that is `null`/`undefined`, and never nullish |
| GlobalResponse.FalsyResultsPassThrough | src/interceptors/global-response.interceptor.ts:14 | `??` replaces only nullish results: `false`, `0` and `""` are passed through |
| DtoTransform.ProjectObject | src/interceptors/dto-transform.interceptor.ts:45 | projecting an object keeps exactly the exposed properties, each with the source's value or `undefined` |
| DtoTransform.Project | src/interceptors/dto-transform.interceptor.ts:45 | objects become objects with exactly the exposed keys, arrays keep their length, other values are returned unchanged |
| DtoTransform.ProjectEach | src/interceptors/dto-transform.interceptor.ts:45 | an array is projected element by element, keeping its length |
| DtoTransform.ProjectIdempotent | src/interceptors/dto-transform.interceptor.ts:45 | projecting a second time onto the same DTO changes nothing |
| DtoTransform.ProjectDropsUnexposed | src/interceptors/dto-transform.interceptor.ts:45 | a property the DTO does not expose never reaches the client |
| DtoTransform.Transform | src/interceptors/dto-transform.interceptor.ts:34-64 | the route's DTO wins, otherwise the injected default DTO is used, otherwise the result passes through unchanged |
| DtoTransform.NullDefaultDtoPassesThrough | src/interceptors/dto-transform.interceptor.ts:52-63 | with no route DTO and a null default DTO, the handler's result is returned untouched |
| ResponseDto.UserInfoDtoHidesPassword | src/controller/userController/response.dto.ts:33-84 | the user-info DTO exposes eleven properties, and `password` is not among them |
| RequestDto.WechatLoginDtoViolations | src/controller/userController/request.dto.ts:15-19 | the login body passes exactly when `code` is a non-empty string |
| RequestDto.WechatRegisterDtoViolations | src/controller/userController/request.dto.ts:24-40 | `code` is reported exactly when it is not a non-empty string; each optional property exactly when it is present (not `null`/`undefined`) and not a string (`nickName`, `avatarUrl`) or a boolean (`autoLogin`); with the optional properties absent, the body passes exactly when `code` is a non-empty string |
| RequestDto.PcLoginDtoViolations | src/controller/userController/request.dto.ts:45-56 | each property is reported exactly when it breaks its rule, and the body passes exactly when the account is a non-empty string of 3 to 20 characters as the length validator counts them and the password one of at least 6 |
| RequestDto.PcRegisterDtoViolations | src/controller/userController/request.dto.ts:61-90 | each property is reported exactly when it breaks its rule (account of 3 to 20 counted characters, password of at least 6, non-empty `realName` and `confirmPassword`, an optional e-mail, an optional 11-digit mainland mobile number), and the body passes exactly when none does |
| RequestDto.GetUserInfoDtoViolations | src/controller/userController/request.dto.ts:95-107 | only the three query properties are checked; each is reported exactly when it is present (not `null`/`undefined`) and not a string, so a query of strings always passes |
| RequestDto.RepeatedQueryKeyRefused | src/controller/userController/request.dto.ts:95-107 | an `id` given twice arrives as an array and is refused |
| RequestDto.ValidatorLength | src/controller/userController/request.dto.ts:48-49 | the length `@MinLength`/`@MaxLength` measure is at most the number of characters, and equals it when there are no presentation selectors (U+FE0E, U+FE0F) |
| RequestDto.AccountLengthCountsCodePoints | src/controller/userController/request.dto.ts:48-49 | a character outside the Basic Multilingual Plane counts once (`a😀` is too short, `ab😀` is not, twenty emoji fit), and a presentation selector counts not at all |
| RequestDto.Undeclared | src/main.ts:21-28 | the properties the pipe refuses are exactly those of the body that the DTO does not declare |
| RequestDto.ExtraPropertyRefused | src/main.ts:21-28 | a WeChat login body with a non-empty code and nothing else passes the pipe; any further property is refused |
| RequestDto.EmptyQueryIsValid | src/controller/userController/request.dto.ts:95-107 | an empty user-info query passes validation |
| RequestDto.MobileNumberExamples | src/controller/userController/request.dto.ts:88 | `13812345678` matches the phone pattern; `12812345678` and a ten-digit number do not |
| RedisKeys.ExpiringCacheKey | src/redis/redis.utils.ts:60-69 | the key is the cache key of prefix and identifier, in the `cache` namespace, and a colon-free identifier is recovered from it; the ttl is the given one, else the default cache ttl 1800 |
| RedisKeys.AllUserKeys | src/redis/redis.utils.ts:74-86 | the four keys of a user are its user-cache and session keys and its `user` log and tag keys; they lie in the namespaces `user`, `session`, `log` and `tag`, so they are pairwise distinct, and each names a colon-free user id as its identifier |
| RedisKeys.BatchKeys | src/redis/redis.utils.ts:107-109 | one key per identifier, in order, each `prefix:id` |
| RedisKeys.UserCacheKey | src/redis/redis.utils.ts:11-13 | the key lies in the `user` namespace and names a colon-free user id as its identifier |
| RedisKeys.UserSessionKey | src/redis/redis.utils.ts:18-20 | the key lies in the `session` namespace and names a colon-free user id as its identifier |
| RedisKeys.CacheKey | src/redis/redis.utils.ts:25-27 | the key lies in the `cache` namespace and names a colon-free identifier as its identifier |
| RedisKeys.LockKey | src/redis/redis.utils.ts:32-34 | the key lies in the `lock` namespace and names a colon-free identifier as its identifier |
| RedisKeys.LogKey | src/redis/redis.utils.ts:39-41 | the key lies in the `log` namespace and names a colon-free identifier as its identifier |
| RedisKeys.TagKey | src/redis/redis.utils.ts:46-48 | the key lies in the `tag` namespace and names a colon-free identifier as its identifier |
| RedisKeys.KeyNamespace | src/redis/redis.utils.ts:99-102 | the namespace is the text before the first ':', hence colon-free, and a key without ':' is its own namespace |
| RedisKeys.KeyIdentifier | src/redis/redis.utils.ts:114-117 | there is an identifier exactly when the key holds a ':', and it holds none itself |
| RedisKeys.KeyParts | src/redis/redis.utils.ts:11-48 | the namespace of `name:rest` is a colon-free `name`, and its identifier is a colon-free `rest` |
| RedisKeys.KeyNamespaceIsTextBeforeFirstColon | src/redis/redis.utils.ts:99-102 | the namespace of `a:b` is `a` when `a` has no ':', and a key without ':' is its own namespace |
| RedisKeys.SplitJoinedParts | src/redis/redis.utils.ts:100 | colon-free parts joined by ':' come back from `split(':')` |
| RedisKeys.SplitTail | src/redis/redis.utils.ts:115-116 | `a:b` with a colon-free `b` splits into at least two parts, the last being `b` |
| RedisKeys.BuildersInjective | src/redis/redis.utils.ts:11-48 | different identifiers give different keys, for every builder |
| RedisStore.Ping | src/redis/redis.service.ts:156-158 | the ping answers `PONG` exactly when the server is reachable |
| RedisStore.Get | src/redis/redis.service.ts:63-65 | on a reachable server, the stored value, or `null` for a missing key |
| RedisStore.Exists | src/redis/redis.service.ts:71-73 | on a reachable server, 1 for a stored key and 0 otherwise |
| RedisStore.Ttl | src/redis/redis.service.ts:79-81 | on a reachable server, -2 for a missing key, -1 for a key without expiry, else the remaining seconds |
| RedisStore.Set | src/redis/redis.service.ts:60 | on a reachable server the write is acknowledged and the value is read back without expiry; other keys are untouched, and an unreachable server changes nothing |
| RedisStore.SetEx | src/redis/redis.service.ts:58 | succeeds exactly on a reachable server with a positive time; the value is then read back with that ttl; a non-positive time is refused as an invalid expire time, and a failure changes nothing; other keys are untouched |
| RedisStore.Del | src/redis/redis.service.ts:67-69 | on a reachable server the reply is 1 for a stored key and 0 otherwise, and the key is gone; other keys are untouched, and an unreachable server changes nothing |
| RedisStore.ServiceSet | src/redis/redis.service.ts:56-61 | succeeds exactly on a reachable server with no ttl or a non-negative one; the value is then read back, with expiry exactly when the ttl is positive; a failure changes nothing |
| RedisStore.Elapse | src/redis/redis.service.ts:57-58 | a key survives exactly when it had no ttl or more time left than has passed, with its value, and its remaining time shrinks by what has passed |
| RedisStore.CommandsPreserveValid | src/redis/redis.service.ts:56-69 | writes, deletes and the passing of time keep every time-to-live positive and on a stored key |
| RedisStore.SetThenRead | src/redis/redis.service.ts:56-61 | after `set(key, value, ttl)` the value is read back, with expiry exactly when `ttl` is positive, and other keys are untouched |
| RedisStore.NegativeTtlIsRefused | src/redis/redis.service.ts:57-58 | a negative `ttl` is truthy and goes to `SETEX`, which refuses it and writes nothing |
| RedisStore.DelThenGone | src/redis/redis.service.ts:67-69 | after `del` the key is gone, the reply is 1 exactly when it was stored, other keys are untouched |
| RedisStore.UnreachableChangesNothing | src/redis/redis.service.ts:56-81 | on an unreachable server every command fails with the client's failure message, and nothing changes |
| RedisStore.ExpiryRunsOut | src/redis/redis.service.ts:57-58 | a key written with a ttl is readable while fewer seconds than the ttl have passed, and gone after |
| RedisStore.PlainSetNeverExpires | src/redis/redis.service.ts:60 | a key written without ttl survives any passage of time |
| RedisService.ConnectedAfterEventIffReady | src/redis/redis.service.ts:160-162 | right after an event the service is connected exactly when the event was `ready` |
| RedisService.OnEvent | src/redis/redis.service.ts:237-266 | `ready` raises `isHealthy`; `error`, `close` and `end` lower it; `connect` and `reconnecting` leave it; the status becomes the event's, and no event touches the health check |
| RedisService.AfterInit | src/redis/redis.service.ts:19-38 | init never throws; afterwards the service is healthy and connected exactly when the ping answered, and then `ready` with the health check running; a failed ping leaves status and health check as they were |
| RedisService.AfterHealthCheck | src/redis/redis.service.ts:268-281 | after a health check `isHealthy` says whether its ping answered, and nothing else changes |
| RedisService.NoRecoveryWithoutReady | src/redis/redis.service.ts:19-38 | once unhealthy and without a health check, no sequence of events without `ready` makes the service healthy or connected |
| RedisService.DestroyedStaysDown | src/redis/redis.service.ts:40-48 | after shutdown no health check runs and the service is not connected, and no later events without `ready` reconnect it |
| RedisService.InfoLine | src/redis/redis.service.ts:222-226 | a line counts exactly when it is non-empty, not a `#` header and holds ':'; its key is the text before the first ':' and its value the text between the first and second ':' |
| RedisService.ParseInfo | src/redis/redis.service.ts:219-227 | the loop over the report's `\r\n` lines builds the dictionary of the report's field lines, later lines overwriting earlier |
| RedisService.InfoFieldsKeys | src/redis/redis.service.ts:222-226 | a key is reported exactly when some field line names it |
| RedisService.InfoFieldsLastWins | src/redis/redis.service.ts:222-226 | the value of a key comes from the last line naming it |
| RedisService.InfoFields | src/redis/redis.service.ts:216-229 | a key is reported exactly when some field line of the `\r\n`-separated report names it |
| RedisService.RedisServiceImpl.constructor | src/redis/redis.service.ts:13-16 | a new service has a waiting client, is not healthy and runs no health check |
| RedisService.RedisServiceImpl.IsConnected | src/redis/redis.service.ts:160-162 | connected exactly when the client is `ready` and the service is healthy |
| RedisService.RedisServiceImpl.GetHealthStatus | src/redis/redis.service.ts:211-213 | the `isHealthy` flag, set whenever the service is connected |
| RedisService.RedisServiceImpl.OnModuleInit | src/redis/redis.service.ts:19-38 | the state moves as `AfterInit` says for the server's ping: after a successful ping the `connect` and `ready` listeners have run, and the service is healthy, `ready` and checking; the server is unchanged |
| RedisService.RedisServiceImpl.OnModuleDestroy | src/redis/redis.service.ts:40-48 | the health check stops and the client's `end` listener runs; the server is unchanged |
| RedisService.RedisServiceImpl.HandleEvent | src/redis/redis.service.ts:237-266 | the state moves as the listener of that event says |
| RedisService.RedisServiceImpl.HealthCheckTick | src/redis/redis.service.ts:268-281 | one firing of the interval sets `isHealthy` to whether the ping answered |
| RedisService.RedisServiceImpl.Ping | src/redis/redis.service.ts:156-158 | the server's ping reply |
| RedisService.RedisServiceImpl.Set | src/redis/redis.service.ts:56-61 | a truthy `ttl` goes to `SETEX`, any other to `SET`; the server changes accordingly and the health state does not |
| RedisService.RedisServiceImpl.Get | src/redis/redis.service.ts:63-65 | the server's reply to `GET` |
| RedisService.RedisServiceImpl.Exists | src/redis/redis.service.ts:71-73 | the server's reply to `EXISTS` |
| RedisService.RedisServiceImpl.Ttl | src/redis/redis.service.ts:79-81 | the server's reply to `TTL` |
| RedisService.RedisServiceImpl.Del | src/redis/redis.service.ts:67-69 | the server's reply to `DEL`, and the key removed |
| RedisService.RedisServiceImpl.Elapse | src/redis/redis.service.ts:57-58 | time passes on the server and lets keys expire; the health state stays |
| RedisService.RedisServiceImpl.GetStats | src/redis/redis.service.ts:216-234 | the parsed `INFO` fields, or an empty dictionary when the server cannot be reached |
| RedisService.RedisServiceImpl.GetConnectionInfo | src/redis/redis.service.ts:164-208 | status name and configured host, port and db always; memory stats under `usage` and the parsed `INFO` fields when reachable, both empty otherwise |
| RedisController.HealthVerdict | src/redis/redis.controller.ts:30-47 | `healthy` exactly when the service is connected and the ping was `PONG`, else `unhealthy`; the ping is echoed |
| RedisController.CheckHealth | src/redis/redis.controller.ts:24-48 | a failing ping makes the route throw; otherwise the verdict on the connection flag and `PONG` |
| RedisController.HealthyIffConnectedAndReachable | src/redis/redis.controller.ts:24-48 | the route reports healthy exactly when the service is connected and the server reachable |
| RedisController.HealthyAfterInit | src/redis/redis.controller.ts:30-47 | once init has pinged a reachable server, the health route reports `healthy` |
| RedisController.GetStatus | src/redis/redis.controller.ts:53-73 | the connection information and the statistics, as the service computes them |
| RedisController.GetInfo | src/redis/redis.controller.ts:78-87 | the statistics of the `INFO` report, empty when unreachable |
| RedisController.ShowTtl | src/redis/redis.controller.ts:128 | a positive remaining lifetime is shown as seconds, anything else as no expiry |
| RedisController.TestRedis | src/redis/redis.controller.ts:92-140 | the write, read, exists and ttl commands in order, with the failure of the write turned into a failure report |
| RedisController.TestRedisOn | src/redis/redis.controller.ts:92-140 | succeeds exactly on a reachable server with no ttl or a non-negative one, and then reports the value read back, that it exists, and its positive ttl or no expiry; a negative ttl is reported as an invalid expire time and an unreachable server with the client's failure message, neither thrown |
| RedisController.KeysReportOf | src/redis/redis.controller.ts:146-176 | the count is the number of matches, at most the first 100 are listed in order, and a failure gives count 0, no keys and the error text |
| RedisController.CountExceedsListing | src/redis/redis.controller.ts:162-163 | with more than 100 matches the count exceeds the listing, which holds 100 |
| RedisController.DeleteReportOf | src/redis/redis.controller.ts:183-211 | `deleted` exactly when the reply is positive, with the matching message; a failure gives `删除键失败` and the error text |
| RedisController.DeleteKey | src/redis/redis.controller.ts:183-211 | the key is deleted on the server and the report reflects the reply |
| RedisController.DeleteTwice | src/redis/redis.controller.ts:183-211 | the first delete reports `deleted` exactly when the key was stored; the second reports that it does not exist |
| RedisController.GetMemoryUsage | src/redis/redis.controller.ts:216-255 | when reachable, the memory stats and the `INFO memory` fields parsed by the same rule; otherwise a failure report with empty data and the client's failure message |
| JwtCodec.CutAt | src/auth/auth.service.ts:39-41 | present exactly when the character occurs: the text before its first occurrence and the text after, which recombine to the input |
| JwtCodec.NumField | src/auth/auth.service.ts:39-41 | a decimal field ended by '.' is read with its value, its text and the rest |
| JwtCodec.NumFields | src/auth/auth.service.ts:39-41 | `n` decimal fields are read with their values, their text and the rest |
| JwtCodec.Decode | src/auth/auth.service.ts:39-41 | the claims read from a token text whose body and signature recombine to the token |
| JwtCodec.Sign | src/auth/auth.service.ts:27-30 | the token reads back as claims holding the payload, `iat` and `exp = iat + expiresIn`, and its signature is `mac` of its body under the secret |
| JwtCodec.Verify | src/auth/auth.service.ts:39-41 | a token is accepted exactly when it reads as claims, ends in the signature of its body under the secret and has not reached `exp`, and then yields payload, `iat` and `exp`; malformed exactly when it does not read; a bad signature is reported before an expiry |
| JwtCodec.DecodeSigned | src/auth/auth.service.ts:27-30 | the claims of a signed token are those it was signed with |
| JwtCodec.SignThenVerify | src/auth/auth.service.ts:27-41 | a token signed at `iat` with lifetime `expiresIn` verifies under the same secret, while `now < iat + expiresIn`, to its payload with `iat` and `exp = iat + expiresIn` |
| JwtCodec.SignedTokenExpires | src/auth/auth.service.ts:27-41 | from `iat + expiresIn` on, the same token is rejected as expired |
| JwtCodec.OtherSecretRejected | src/auth/auth.service.ts:39-41 | a token is rejected under any secret whose signature of its body differs |
| AuthService.Secret | src/auth/auth.service.ts:117-119 | `JWT_SECRET` when set and non-empty, else `dev-secret` |
| AuthService.TtlSeconds | src/auth/auth.service.ts:121-124 | the configured lifetime when it is a finite positive number, else 7200 |
| AuthService.PlainNameQuotedAsIs | src/auth/auth.service.ts:82 | `JSON.stringify` writes a user name without quotes, backslashes or control characters unchanged |
| AuthService.SessionKey | src/auth/auth.service.ts:113-115 | the key lies in the `session` namespace, and the token is what follows its 12-character `session:jwt:` head |
| AuthService.Cache | src/auth/auth.service.ts:77-111 | succeeds exactly when the server is reachable and acknowledges with `OK`, and the session entry is then stored; every failure carries the `Failed to cache token: ` prefix, and an unreachable server is unchanged |
| AuthService.Issue | src/auth/auth.service.ts:25-34 | a token is handed out exactly when its session entry is written and acknowledged; it is the signed payload with the configured lifetime as `expiresIn`, and its entry holds the session value |
| AuthService.Validate | src/auth/auth.service.ts:36-71 | accepted exactly when the token verifies, the server is reachable and the session entry exists, and then the verified claims are returned; every refusal is `401 无效的登录状态` or `401 登录状态已过期，请重新登录` |
| AuthService.Revoke | src/auth/auth.service.ts:73-75 | succeeds exactly when the server is reachable, and the session entry is then gone; a failing delete is passed on with the client's failure message and changes nothing |
| AuthService.SessionKeysDistinct | src/auth/auth.service.ts:113-115 | the session key is `session:jwt:` and the token, so distinct tokens have distinct keys |
| AuthService.SessionKeyNamespace | src/auth/auth.service.ts:113-115 | session keys are in the `session` namespace and never collide with the colon-free user session keys |
| AuthService.IssueStoresSession | src/auth/auth.service.ts:25-34 | a successful `signUser` returns the signed token with the configured lifetime, stores its session entry and touches no other key |
| AuthService.IssueFailsWithoutSession | src/auth/auth.service.ts:77-110 | no token is returned when the session write fails or is not acknowledged with `OK`; the error carries the `Failed to cache token:` prefix |
| AuthService.IssueThenValidate | src/auth/auth.service.ts:25-57 | an issued token validates for as long as its lifetime runs, to its payload with the issue time as `iat` and the end of the lifetime as `exp` |
| AuthService.IssueWrites | src/auth/auth.service.ts:25-34 | on a server that acknowledges writes, issuing is one `SETEX` of the session entry with the lifetime, replying with the signed token |
| AuthService.AcceptedWithSession | src/auth/auth.service.ts:36-57 | a verified token whose session entry is present is accepted with its verified claims |
| AuthService.IssuedTokenLapses | src/auth/auth.service.ts:25-70 | after its lifetime the token is refused as invalid and its session entry is gone |
| AuthService.RevokeThenValidate | src/auth/auth.service.ts:36-75 | after revoking, a token with a valid signature is refused as expired, and any other is refused as invalid |
| AuthService.AuthServiceImpl.constructor | src/auth/auth.service.ts:19-23 | the service keeps its Redis service and configuration |
| AuthService.AuthServiceImpl.SignUser | src/auth/auth.service.ts:25-34 | the reply and the new store are those of issuing the token; the health state is unchanged |
| AuthService.AuthServiceImpl.CacheToken | src/auth/auth.service.ts:77-111 | writes the session entry with the lifetime as ttl and turns a failed or unacknowledged write into an error |
| AuthService.AuthServiceImpl.ValidateToken | src/auth/auth.service.ts:36-71 | the reply is that of `Validate` against the current store: the verified claims (payload, `iat`, `exp`) or one of the two 401s |
| AuthService.AuthServiceImpl.RevokeToken | src/auth/auth.service.ts:73-75 | the session entry is deleted; a failing delete is passed on |
| JwtAuthGuard.AuthHeader | src/auth/jwt-auth.guard.ts:46-55 | the lower-case header when truthy (a non-empty string or any array), else the capitalised one; an array gives its first element, and an empty array or an empty first element gives none; only a non-empty string counts |
| JwtAuthGuard.HeaderParts | src/auth/jwt-auth.guard.ts:59 | the header's comma-separated pieces, each trimmed |
| JwtAuthGuard.DropTrailingComma | src/auth/jwt-auth.guard.ts:65 | removes at most one final ',' |
| JwtAuthGuard.FirstBearer | src/auth/jwt-auth.guard.ts:61-67 | the index of the first bearer entry; no entry before it is one, and `None` when there is none |
| JwtAuthGuard.ExtractToken | src/auth/jwt-auth.guard.ts:44-70 | the loop returns the token of the first bearer entry of the chosen header, or `null` |
| JwtAuthGuard.EntryTokenShape | src/auth/jwt-auth.guard.ts:59-65 | a bearer entry's token is its second word, non-empty, with no ',' and no ' ' |
| JwtAuthGuard.SingleEntryHeader | src/auth/jwt-auth.guard.ts:59-66 | a header holding one `<bearer> <token>` entry yields the token |
| JwtAuthGuard.BearerHeaderYieldsToken | src/auth/jwt-auth.guard.ts:44-66 | `Bearer <token>` yields the token, in any letter case of the scheme, under either header name or as the first array element |
| JwtAuthGuard.SkipsOtherScheme | src/auth/jwt-auth.guard.ts:61-67 | an entry of another scheme before the bearer entry is skipped |
| JwtAuthGuard.FirstBearerWins | src/auth/jwt-auth.guard.ts:61-67 | of several bearer entries the first one counts |
| JwtAuthGuard.ExtractedToken | src/auth/jwt-auth.guard.ts:44-70 | there is a token exactly when some entry of the chosen header is a bearer entry; it is non-empty and holds neither ',' nor ' '; no header means no token |
| JwtAuthGuard.IsSwaggerRequest | src/auth/jwt-auth.guard.ts:72-75 | a request counts as Swagger exactly when its path (or its url when the path is empty) starts with `/api` |
| JwtAuthGuard.Decide | src/auth/jwt-auth.guard.ts:19-42 | passes exactly on public and Swagger routes; any other request attaches a user exactly when its token validates, and then the verified claims; it is refused with a 401 otherwise, and with `缺少认证令牌` when there is no token |
| JwtAuthGuard.HeaderPrecedence | src/auth/jwt-auth.guard.ts:46-55 | a truthy lower-case header wins; an empty or missing one hands over to `Authorization`; an empty array gives no token |
| JwtAuthGuard.SwaggerExamples | src/auth/jwt-auth.guard.ts:72-75 | `/api`, `/api-json`, `/apikeys` and a url `/api/docs` count as Swagger; `/redis/health` does not, and a non-empty path hides the url |
| JwtAuthGuard.BearerTokenAttaches | src/auth/jwt-auth.guard.ts:33-41 | `Bearer <token>` with a validating token lets a guarded request through with the payload as user |
| JwtAuthGuard.IssuedTokenOpensRoute | src/auth/jwt-auth.guard.ts:19-42 | a token freshly issued by `signUser`, sent as `Bearer <token>`, opens a guarded route during its lifetime and attaches the signed-in user with the issue time as `iat` and the end of the lifetime as `exp` |
| JwtAuthGuard.Request.constructor | src/auth/jwt-auth.guard.ts:28 | a request with its path, url and both header spellings, and no user attached |
| JwtAuthGuard.Guard.constructor | src/auth/jwt-auth.guard.ts:13-17 | the guard keeps its auth service |
| JwtAuthGuard.Guard.CanActivate | src/auth/jwt-auth.guard.ts:19-42 | returns `true` or throws as `Decide` says; it sets `request.user` to the verified claims (payload, `iat`, `exp`) only when it attaches a user |
| UserDirectory.FindFirst | src/services/imp/UserInfoServiceImpl.ts:100-122 | a row that matches, or `None` when no row matches |
| UserDirectory.FindByOpenId | src/services/imp/UserInfoServiceImpl.ts:100-104 | a row with that openid, or `None` when there is none |
| UserDirectory.FindById | src/services/imp/UserInfoServiceImpl.ts:109-113 | a row with that id, or `None` when there is none |
| UserDirectory.FindByUsername | src/services/imp/UserInfoServiceImpl.ts:118-122 | a row with that user name, or `None` when there is none |
| UserDirectory.Insert | src/services/imp/UserInfoServiceImpl.ts:85-86 | succeeds exactly when no unique column is taken; the draft is then appended under the next id; otherwise nothing changes and the duplicate error is reported |
| UserDirectory.UserRepository.constructor | src/entity/user.entity.ts:11-12 | an empty table whose first id is 1 |
| UserDirectory.UserRepository.Save | src/services/imp/UserInfoServiceImpl.ts:85-86 | the new state and reply are those of inserting the draft |
| UserDirectory.LookupsFindTheRow | src/entity/user.entity.ts:11-61 | in a well-formed table, the lookup by id, by user name or by openid finds exactly that row |
| UserDirectory.InsertAppendsOne | src/entity/user.entity.ts:14-61 | an insert appends the draft under the next id unless a unique column is taken, in which case nothing changes and a duplicate error is reported; the table stays well formed |
| UserDirectory.SavedRowIsFound | src/services/imp/UserInfoServiceImpl.ts:85-86 | a saved row is found again by its id, its openid and its user name |
| UserInfoService.Code2Session | src/services/imp/UserInfoServiceImpl.ts:127-168 | an openid that is not empty, or a 400 |
| UserInfoService.Code2SessionSucceeds | src/services/imp/UserInfoServiceImpl.ts:127-168 | succeeds exactly when both settings are non-empty, the call answered, the error code is absent or 0 and the openid is non-empty; the result is that openid |
| UserInfoService.Code2SessionFailures | src/services/imp/UserInfoServiceImpl.ts:131-166 | missing settings, a failed call, a WeChat error code and a missing openid each give their own 400, checked in that order |
| UserInfoService.WechatErrorMessageShape | src/services/imp/UserInfoServiceImpl.ts:151-153 | without `errmsg` the message reads `未知错误`; an empty `errmsg` is kept as it is |
| UserInfoService.Login | src/services/imp/UserInfoServiceImpl.ts:25-48 | a failing `code2Session` is passed on with nothing written; a token is handed out exactly when the openid has an enabled user and the session entry is written, and only to such a user |
| UserInfoService.GeneratedUsername | src/services/imp/UserInfoServiceImpl.ts:78 | `wx_`, then the first ten characters of the openid (all of a shorter one), then `_`, then text that `parseInt` reads back as the time in milliseconds |
| UserInfoService.NewWechatUser | src/services/imp/UserInfoServiceImpl.ts:77-84 | the new row is enabled, has an empty password, is bound to the openid under the generated name, and keeps the given nickname and avatar |
| UserInfoService.Register | src/services/imp/UserInfoServiceImpl.ts:53-95 | a failing `code2Session` is passed on with nothing changed; the table keeps its rows and gains at most one; a token is handed out only to an enabled user bound to the openid |
| UserInfoService.SignInRules | src/services/imp/UserInfoServiceImpl.ts:31-45 | an unknown openid is `用户未注册`, a disabled user `账号已被禁用`, and an enabled one is signed in as `{sub: id, username ?? openid}` |
| UserInfoService.RefusedLoginIssuesNothing | src/services/imp/UserInfoServiceImpl.ts:25-39 | a refused login fails and writes nothing to the session store |
| UserInfoService.LoginSignsUser | src/services/imp/UserInfoServiceImpl.ts:25-48 | an enabled user's login is the signing of its id and name |
| UserInfoService.RegisterExistingIsLogin | src/services/imp/UserInfoServiceImpl.ts:59-74 | registering an openid that has a user creates no user and behaves exactly as login |
| UserInfoService.RegisterNewSavesOne | src/services/imp/UserInfoServiceImpl.ts:76-94 | a new openid saves exactly one enabled, password-less user under the next id and the generated name, and signs it in |
| UserInfoService.RegisterThenLogin | src/services/imp/UserInfoServiceImpl.ts:25-94 | after registering, login with the same openid signs in the new user |
| UserInfoService.RegisterKeepsDirectoryValid | src/services/imp/UserInfoServiceImpl.ts:53-95 | registration keeps the table well formed and adds at most one row, keeping the old ones |
| UserInfoService.GeneratedNamesCanCollide | src/services/imp/UserInfoServiceImpl.ts:78 | two openids with the same first ten characters get the same generated name in the same millisecond |
| UserInfoService.TakenNameRefused | src/services/imp/UserInfoServiceImpl.ts:76-86 | a registration whose generated name is taken saves nothing and fails with the duplicate error |
| UserInfoService.UserInfoServiceImpl.constructor | src/services/imp/UserInfoServiceImpl.ts:14-20 | the service keeps its repository, auth service and WeChat settings |
| UserInfoService.UserInfoServiceImpl.WechatLogin | src/services/imp/UserInfoServiceImpl.ts:25-48 | the reply and new session store are those of the login rule |
| UserInfoService.UserInfoServiceImpl.WechatRegister | src/services/imp/UserInfoServiceImpl.ts:53-95 | the new table, session store and reply are those of the registration rule |
| UserController.UserInfoQuery | src/controller/userController/index.ts:48-73 | no id and no name is a 400; an id that does not parse is a 400; the id is preferred; a found user is in the table with that id or name; nobody found is a 401 |
| UserController.IdTakesPrecedence | src/controller/userController/index.ts:57-66 | when an id is given the user name is not looked at |
| UserController.EmptyMeansMissing | src/controller/userController/index.ts:50-57 | an empty parameter counts as missing |
| UserController.QueryFindsStoredUser | src/controller/userController/index.ts:48-73 | every stored user is found by its id in decimal, and by its non-empty name when no id is given |
| UserController.RegisteredUserIsQueryable | src/controller/userController/index.ts:30-73 | a newly registered user is found by the query under its new id and its generated name |
| UserController.UserControllerImpl.constructor | src/controller/userController/index.ts:9-12 | the controller keeps its service |
| UserController.UserControllerImpl.Login | src/controller/userController/index.ts:19-22 | the token object returned by the service's login is passed on unchanged |
| UserController.UserControllerImpl.Register | src/controller/userController/index.ts:30-39 | the service's registration runs; success answers `注册成功` and its failure is passed on |
| EcosystemConfig.Unquote | ecosystem.config.js:32-37 | a value wrapped in a matching pair of `"` or `'` loses that pair; a single quote character becomes empty; anything else is kept |
| EcosystemConfig.ParseLine | ecosystem.config.js:20-39 | a line is skipped when blank, a comment or not `KEY=VALUE`; otherwise it gives the trimmed key and the trimmed, unquoted value |
| EcosystemConfig.LoadEnvFile | ecosystem.config.js:9-43 | a missing file gives no entries; otherwise the loop over the `\n` lines builds the dictionary of its entry lines |
| EcosystemConfig.EnvLineShape | ecosystem.config.js:20-30 | a line yields an entry exactly when it is an entry line, and its key is non-empty and has no '=' |
| EcosystemConfig.UnquoteRemovesOnePair | ecosystem.config.js:32-37 | exactly one outer pair of matching quotes is removed |
| EcosystemConfig.UnquoteKeepsMismatched | ecosystem.config.js:32-37 | mismatched quotes are kept |
| EcosystemConfig.EnvKeys | ecosystem.config.js:19-40 | a key is loaded exactly when some line is an entry for it, and the empty key never is |
| EcosystemConfig.EnvLastWins | ecosystem.config.js:38 | the value of a key comes from the last line that sets it |
| EcosystemConfig.MissingOrEmptyFile | ecosystem.config.js:11-14 | a missing file and an empty one both load as nothing |
| EcosystemConfig.GetEnvConfig | ecosystem.config.js:50-71 | the keys of both files plus `NODE_ENV`; the specific file wins over `.env`; `NODE_ENV` is the environment name |
| EcosystemConfig.Layered | ecosystem.config.js:59-68 | a spread merge with `NODE_ENV` set afterwards: keys, the value of `NODE_ENV`, and which layer wins |
| EcosystemConfig.EnvBlock | ecosystem.config.js:89-109 | the loaded variables, then the stage's `NODE_ENV` and `SERVICE_PORT` (loaded if truthy, else the stage default); production adds `instances: max` and `exec_mode: cluster` |
| EcosystemConfig.StageDefaults | ecosystem.config.js:89-109 | default ports 3000, 3001 and 3000; a loaded `NODE_ENV` is overridden by the block's own |
| Text.ParseIntOfRendered | src/controller/userController/index.ts:58 | `parseInt` in base 10 reads back the decimal rendering of every natural number |
| Text.NatToStringRoundTrip | src/services/imp/UserInfoServiceImpl.ts:78 | the decimal rendering of a number reads back as that number |
| Text.ParseInt10 | src/controller/userController/index.ts:58 | NaN exactly when, after the leading whitespace and an optional sign, the text does not start with a digit; a string of digits reads as its decimal value |
| Text.ParseInt10Parts | src/controller/userController/index.ts:58 | whitespace, an optional sign, digits, then anything not starting with a digit read as the signed value of the digits |
| Text.ParseInt10SkipsWhitespace | src/controller/userController/index.ts:58 | `" 12"` reads as 12 |
| Text.ParseInt10ReadsSign | src/controller/userController/index.ts:58 | `"-5"` reads as -5 |
| Text.ParseInt10StopsAtNonDigit | src/controller/userController/index.ts:58 | `"12abc"` reads as 12 |
| Text.ParseInt10NeedsDigit | src/controller/userController/index.ts:58 | `"+x"` is NaN |

## Left out

- `isKeyMatch`: it builds a JavaScript regular expression from the pattern. Regular expressions are not modelled, and neither is the glob of `KEYS`, whose reply is an argument of `KeysReportOf`.
- The other Redis wrappers (`expire`, hashes, lists, sets, sorted sets) and `getClient`: no core operation uses them.
- The JSON in the session entry is written (`SessionValue`) but never read back, as in the source.
- `@IsEmail()`: class-validator's e-mail grammar is not modelled; it is the parameter `isEmail` of `PcRegisterDtoViolations`.
- Database failures other than a duplicate unique column are not modelled. Neither is TypeORM's handling of `where` values that are `undefined`.
- `RequestDto.WechatLoginDtoViolations`, `RequestDto.WechatRegisterDtoViolations`, `RequestDto.PcLoginDtoViolations`, `RequestDto.PcRegisterDtoViolations`, `RequestDto.GetUserInfoDtoViolations`: the pipe's `enableImplicitConversion` runs before the checks and is not modelled. It can turn `{"code": 123}` into the string `"123"` and `"autoLogin": "false"` into `true`, so the model refuses some bodies the service accepts.
- `RedisStore.Store`: the message a command fails with on an unreachable server is the field `failure`. Which text ioredis produces (`Reached the max retries per request limit`, `Command timed out`, `Connection is closed.`) depends on its retry strategy, `maxRetriesPerRequest` and `commandTimeout`, which are not modelled.
- `RedisService.RedisServiceImpl`: the server's reachability is a parameter independent of the client status, so commands still answer after `end` or `close`. ioredis's offline queue and reconnection are not modelled.
- `JsValues.Num`: numbers are integers; floating point, `NaN` and `-0` are not modelled.
- `RedisStore.SetEx` and `AuthService.TtlSeconds`: numbers are integers. Fractional time-to-live values, fractional `JWT_TTL_SECONDS` and `NaN` are not modelled beyond "not finite".
- `JwtCodec.Sign`: this is not the JWS format. The body is the decimal claims, the signature is the parameter `mac`, and there is no base64url.
- `JwtAuthGuard.IssuedTokenOpensRoute` requires the issued token to contain no whitespace and no ','. Real base64url tokens never do, but the abstract `mac` does not promise it.
- Asynchrony and concurrency: each `await` is one step, and no two requests interleave.
- Timers and Redis client events are explicit methods, `HealthCheckTick` and `HandleEvent`. They are not scheduled.
- Logging (`Logger`, `console.*`) and the response timestamps are not modelled.
- The outgoing WeChat HTTP request is replaced by its reply (`WechatCall`), so the `code` argument does not appear.
- `openid.substring(0, 10)` counts UTF-16 units; the model counts characters. This is the same for the ASCII openids WeChat issues.
- `.env` keys such as `__proto__`, which a JavaScript object treats specially, are plain keys in the model.
- What PM2 does with `instances: 'max'` and `exec_mode: 'cluster'` is outside the model; the model only states the keys and values the blocks contain.
- `createdAt` and `updatedAt` are not modelled.
- The user name column is `NOT NULL` in the entity, but the model keeps it optional, because `username ?? wechatOpenId` falls back for a missing name.
- The user controller is modelled as written, although no module in the repository registers it.
- `fs.existsSync` and `readFileSync`: a missing file is `None` and an existing one is its content.
- Bootstrapping, dependency injection, configuration loading and Swagger setup are not part of this model.
