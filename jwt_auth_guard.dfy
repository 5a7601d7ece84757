/**
 * `JwtAuthGuard`: a route is let through when it is marked public, when it
 * is a Swagger route, or when the request carries a bearer token that
 * `AuthService` validates; in the last case the token's payload, with its
 * `iat` and `exp` claims, is attached to the request as `user`. Anything else is refused with a 401.
 */
module JwtAuthGuard {
  import opened Wrappers
  import opened Text
  import opened CommonErrors
  import opened JwtCodec
  import RedisStore
  import opened AuthService

  /** A header as Express hands it over: absent, one value, or several. */
  datatype HeaderValue = Absent | Text(s: string) | List(items: seq<string>)

  const MissingToken := "缺少认证令牌"

  /** JavaScript truthiness of a header value: an array is always truthy. */
  predicate Truthy(h: HeaderValue)
  {
    match h
    case Absent => false
    case Text(s) => s != ""
    case List(_) => true
  }

  /** `headers.authorization || headers.Authorization`, the first element of
      an array, and `None` for anything that is not a non-empty string. */
  function AuthHeader(lower: HeaderValue, upper: HeaderValue): (r: Option<string>)
    ensures r.Some? ==> r.value != ""
    ensures Truthy(lower) && lower.Text? ==> r == Some(lower.s)
    ensures !Truthy(lower) && upper.Text? && upper.s != "" ==> r == Some(upper.s)
    ensures !Truthy(lower) && !Truthy(upper) ==> r.None?
    ensures lower.List? ==>
      r == (if |lower.items| > 0 && lower.items[0] != "" then Some(lower.items[0]) else None)
    ensures !Truthy(lower) && upper.List? ==>
      r == (if |upper.items| > 0 && upper.items[0] != "" then Some(upper.items[0]) else None)
  {
    var h := if Truthy(lower) then lower else upper;
    var v := match h
      case Absent => None
      case Text(s) => Some(s)
      case List(items) => if |items| > 0 then Some(items[0]) else None;
    if v.Some? && v.value != "" then v else None
  }

  /** `header.split(',').map(part => part.trim())`. */
  function HeaderParts(header: string): (parts: seq<string>)
    ensures |parts| == |Split(header, ",")|
    ensures forall i :: 0 <= i < |parts| ==> parts[i] == Trim(Split(header, ",")[i])
  {
    var pieces := Split(header, ",");
    seq(|pieces|, i requires 0 <= i < |pieces| => Trim(pieces[i]))
  }

  /** `const [scheme, token] = part.split(' ')`: the scheme is `bearer` in any
      letter case and a non-empty token follows the first space. */
  predicate IsBearerEntry(part: string)
  {
    var words := Split(part, " ");
    EqualsIgnoringCase(words[0], "bearer") && |words| >= 2 && words[1] != ""
  }

  /** `token.replace(/,$/, '')`. */
  function DropTrailingComma(t: string): (r: string)
    ensures t == r || t == r + ","
  {
    if |t| > 0 && t[|t| - 1] == ',' then t[..|t| - 1] else t
  }

  /** The token of a bearer entry: the second word, less a trailing comma. */
  function EntryToken(part: string): string
    requires IsBearerEntry(part)
  {
    DropTrailingComma(Split(part, " ")[1])
  }

  /** The index of the first bearer entry, if there is one. */
  function FirstBearer(parts: seq<string>): (r: Option<nat>)
    ensures r.Some? ==> r.value < |parts| && IsBearerEntry(parts[r.value])
    ensures r.Some? ==> forall j :: 0 <= j < r.value ==> !IsBearerEntry(parts[j])
    ensures r.None? ==> forall j :: 0 <= j < |parts| ==> !IsBearerEntry(parts[j])
  {
    if |parts| == 0 then None
    else if IsBearerEntry(parts[0]) then Some(0)
    else
      match FirstBearer(parts[1..])
      case None => None
      case Some(k) => Some(k + 1)
  }

  /** The token of the first bearer entry of a header text. */
  function HeaderToken(header: string): Option<string>
  {
    var parts := HeaderParts(header);
    match FirstBearer(parts)
    case None => None
    case Some(i) => Some(EntryToken(parts[i]))
  }

  /** What `extractToken(request)` returns: the token of the first bearer
      entry of the header, or `None` (null). There is one exactly when some
      entry of the header is a bearer entry, and it is non-empty text without
      ',' or ' '. */
  function ExtractedToken(lower: HeaderValue, upper: HeaderValue): (r: Option<string>)
    ensures AuthHeader(lower, upper).None? ==> r.None?
    ensures AuthHeader(lower, upper).Some? ==> var parts := HeaderParts(AuthHeader(lower, upper).value);
      (r.Some? <==> exists i :: 0 <= i < |parts| && IsBearerEntry(parts[i]))
    ensures r.Some? ==> r.value != "" && ',' !in r.value && ' ' !in r.value
  {
    match AuthHeader(lower, upper)
    case None => None
    case Some(header) =>
      var parts := HeaderParts(header);
      match FirstBearer(parts)
      case None => None
      case Some(i) =>
        EntryTokenShape(header, i);
        Some(EntryToken(parts[i]))
  }

  /** `extractToken(request)`, scanning the entries in order and returning
      at the first bearer entry. */
  method ExtractToken(lower: HeaderValue, upper: HeaderValue) returns (token: Option<string>)
    ensures token == ExtractedToken(lower, upper)
  {
    var header := AuthHeader(lower, upper);
    if header.None? {
      return None;
    }
    TokenOfHeader(lower, upper, header.value);
    var parts := HeaderParts(header.value);
    var i := 0;
    while i < |parts|
      invariant 0 <= i <= |parts|
      invariant forall j :: 0 <= j < i ==> !IsBearerEntry(parts[j])
    {
      if IsBearerEntry(parts[i]) {
        FirstBearerWins(parts, i);
        assert HeaderToken(header.value) == Some(EntryToken(parts[i]));
        return Some(EntryToken(parts[i]));
      }
      i := i + 1;
    }
    assert FirstBearer(parts).None?;
    token := None;
  }

  /** `request.path || request.url || ''` starts with `/api` or `/api-json`.
      Every `/api`-prefixed route counts, so the `/api-json` test adds
      nothing, and `request.url` only matters when `request.path` is empty. */
  function IsSwaggerRequest(path: string, url: string): (b: bool)
    ensures b <==> StartsWith(if path != "" then path else url, "/api")
  {
    var p := if path != "" then path else url;
    if StartsWith(p, "/api-json") then
      assert "/api-json" == "/api" + "-json";
      StartsWithTransitive(p, "/api", "-json");
      true
    else StartsWith(p, "/api") || StartsWith(p, "/api-json")
  }

  /** The outcome of `canActivate`: let through, let through with the given
      user attached to the request, or refused. */
  datatype Decision = Pass | Attach(user: Decoded) | Refuse(error: Exception)

  /** `canActivate(context)` on a request to `path`/`url` with the given
      authorization headers, against the session store `s` at time `now`.
      Public and Swagger routes pass without a token; any other request is
      let through only when its token validates, with the token's claims as
      user, and otherwise refused with a 401; without a token the message is
      `缺少认证令牌`. */
  function Decide(isPublic: bool, path: string, url: string, lower: HeaderValue, upper: HeaderValue,
                  s: RedisStore.Store, cfg: AuthConfig, now: nat): (d: Decision)
    ensures d.Pass? <==> isPublic || IsSwaggerRequest(path, url)
    ensures !isPublic && !IsSwaggerRequest(path, url) && ExtractedToken(lower, upper).None? ==>
      d == Refuse(UnauthorizedException(MissingToken))
    ensures d.Attach? <==>
      !isPublic && !IsSwaggerRequest(path, url) && ExtractedToken(lower, upper).Some? &&
      Validate(s, cfg, ExtractedToken(lower, upper).value, now).Ok?
    ensures d.Attach? ==> d.user == Validate(s, cfg, ExtractedToken(lower, upper).value, now).value
    ensures d.Refuse? ==> d.error.HttpException? && d.error.status == 401
  {
    if isPublic || IsSwaggerRequest(path, url) then Pass
    else
      match ExtractedToken(lower, upper)
      case None => Refuse(UnauthorizedException(MissingToken))
      case Some(token) =>
        match Validate(s, cfg, token, now)
        case Ok(p) => Attach(p)
        case Err(e) => Refuse(e)
  }

  /** An Express request: only what the guard reads or writes. */
  class Request {
    const path: string
    const url: string
    /** `headers.authorization` and `headers.Authorization`. */
    const authorization: HeaderValue
    const authorizationCapitalized: HeaderValue
    var user: Option<Decoded>

    constructor(path: string, url: string, authorization: HeaderValue, authorizationCapitalized: HeaderValue)
      ensures this.path == path && this.url == url
      ensures this.authorization == authorization && this.authorizationCapitalized == authorizationCapitalized
      ensures user.None?
    {
      this.path := path;
      this.url := url;
      this.authorization := authorization;
      this.authorizationCapitalized := authorizationCapitalized;
      user := None;
    }
  }

  class Guard {
    const auth: AuthServiceImpl

    constructor(auth: AuthServiceImpl)
      ensures this.auth == auth
    {
      this.auth := auth;
    }

    /** `canActivate`: `true`, or the exception it throws; the payload of a
        validated token becomes `req.user`. */
    method CanActivate(isPublic: bool, req: Request, now: nat) returns (r: Result<bool>)
      modifies req
      ensures var d := Decide(isPublic, req.path, req.url, req.authorization, req.authorizationCapitalized,
                              auth.redis.store, auth.config, now);
        (d.Pass? ==> r == Ok(true) && req.user == old(req.user)) &&
        (d.Attach? ==> r == Ok(true) && req.user == Some(d.user)) &&
        (d.Refuse? ==> r == Err(d.error) && req.user == old(req.user))
    {
      if isPublic {
        return Ok(true);
      }
      if IsSwaggerRequest(req.path, req.url) {
        return Ok(true);
      }
      var token := ExtractToken(req.authorization, req.authorizationCapitalized);
      if token.None? {
        return Err(UnauthorizedException(MissingToken));
      }
      var payload := auth.ValidateToken(token.value, now);
      if payload.Err? {
        return Err(payload.error);
      }
      req.user := Some(payload.value);
      r := Ok(true);
    }
  }

  // Properties.

  /** A character that can stand in a token the guard extracts whole. */
  predicate IsTokenChar(c: char)
  {
    !IsWhitespace(c) && c != ','
  }

  predicate IsTokenText(t: string)
  {
    t != "" && forall i :: 0 <= i < |t| ==> IsTokenChar(t[i])
  }

  /** An entry cut out at ',' never ends in ',', so dropping a trailing comma
      never changes the token; the token holds neither ',' nor ' '. */
  lemma EntryTokenShape(header: string, i: nat)
    requires i < |HeaderParts(header)| && IsBearerEntry(HeaderParts(header)[i])
    ensures var part := HeaderParts(header)[i];
      EntryToken(part) == Split(part, " ")[1] && EntryToken(part) != "" &&
      ',' !in EntryToken(part) && ' ' !in EntryToken(part)
  {
    var piece := Split(header, ",")[i];
    SplitPiecesAvoidSeparator(header, ',');
    TrimKeepsAbsence(piece, ',');
    CommaFreeEntryToken(HeaderParts(header)[i]);
  }

  /** In an entry without ',' the token is the second word, unchanged. */
  lemma CommaFreeEntryToken(part: string)
    requires ',' !in part && IsBearerEntry(part)
    ensures var w := Split(part, " ")[1];
      EntryToken(part) == w && w != "" && ',' !in w && ' ' !in w
  {
    SplitManyHasSeparator(part, ' ');
    SplitSecondPiece(part, ' ');
    var rest := part[IndexOf(part, ' ') + 1..];
    SuffixKeepsAbsence(part, IndexOf(part, ' ') + 1, ',');
    PrefixKeepsAbsence(rest, BeforeFirst(rest, ' '), ',');
  }

  /** The scheme is the word "bearer" in any letter case. */
  lemma BearerSchemeWords()
    ensures EqualsIgnoringCase("Bearer", "bearer") && EqualsIgnoringCase("bearer", "bearer")
    ensures EqualsIgnoringCase("BEARER", "bearer")
    ensures !EqualsIgnoringCase("Basic", "bearer")
  {
    assert AsciiLower('B') == 'b' && AsciiLower('E') == 'e' && AsciiLower('A') == 'a' && AsciiLower('R') == 'r';
    assert "Basic"[1] == 'a';
  }

  /** A scheme word matching "bearer" consists of letters only. */
  lemma SchemeHasNoSeparators(scheme: string)
    requires EqualsIgnoringCase(scheme, "bearer")
    ensures forall k :: 0 <= k < |scheme| ==> IsTokenChar(scheme[k]) && scheme[k] != ' '
  {
    forall k | 0 <= k < |scheme|
      ensures IsTokenChar(scheme[k]) && scheme[k] != ' '
    {
      assert AsciiLower(scheme[k]) == "bearer"[k];
    }
  }

  /** A string with no whitespace at either end is its own trim. */
  lemma TrimOfTrimmed(s: string)
    requires |s| > 0 && !IsWhitespace(s[0]) && !IsWhitespace(s[|s| - 1])
    ensures Trim(s) == s
  {
    assert TrimOffset(s) == 0;
    assert BackOverWhitespace(s, 0, |s|) == |s|;
    assert s[0..|s|] == s;
  }

  /** `<scheme> <token>` with a bearer scheme and a token of token characters
      is one entry whose token is `token`. */
  lemma SingleBearerEntry(scheme: string, token: string)
    requires EqualsIgnoringCase(scheme, "bearer") && IsTokenText(token)
    ensures var e := scheme + " " + token;
      ',' !in e && Trim(e) == e && IsBearerEntry(e) && EntryToken(e) == token
  {
    var e := scheme + " " + token;
    SchemeHasNoSeparators(scheme);
    EntryHasNoComma(scheme, token);
    assert e[0] == scheme[0] && e[|e| - 1] == token[|token| - 1];
    TrimOfTrimmed(e);
    assert ' ' !in scheme;
    TokenHasNoSpace(token);
    assert e == scheme + [' '] + token;
    SplitAtFirst(scheme, ' ', token);
    SplitWithoutSeparator(token, ' ');
    assert Split(e, " ") == [scheme, token];
  }

  lemma EntryHasNoComma(scheme: string, token: string)
    requires forall k :: 0 <= k < |scheme| ==> IsTokenChar(scheme[k])
    requires IsTokenText(token)
    ensures ',' !in scheme + " " + token
  {
    var e := scheme + " " + token;
    forall k | 0 <= k < |e|
      ensures e[k] != ','
    {
      if k < |scheme| {
        assert e[k] == scheme[k];
      } else if k > |scheme| {
        assert e[k] == token[k - |scheme| - 1];
      }
    }
  }

  lemma TokenHasNoSpace(token: string)
    requires IsTokenText(token)
    ensures ' ' !in token
  {
    forall k | 0 <= k < |token|
      ensures token[k] != ' '
    {
      assert IsTokenChar(token[k]);
    }
  }

  /** A header holding one bearer entry yields its token. */
  lemma SingleEntryHeader(scheme: string, token: string)
    requires EqualsIgnoringCase(scheme, "bearer") && IsTokenText(token)
    ensures HeaderToken(scheme + " " + token) == Some(token)
  {
    var e := scheme + " " + token;
    SingleBearerEntry(scheme, token);
    SplitWithoutSeparator(e, ',');
    assert HeaderParts(e) == [e];
    FirstBearerWins([e], 0);
  }

  /** `Authorization: Bearer <token>` yields the token, under either header
      name and whatever the case of the scheme. */
  lemma BearerHeaderYieldsToken(scheme: string, token: string, upper: HeaderValue)
    requires EqualsIgnoringCase(scheme, "bearer") && IsTokenText(token)
    ensures ExtractedToken(Text(scheme + " " + token), upper) == Some(token)
    ensures ExtractedToken(Absent, Text(scheme + " " + token)) == Some(token)
    ensures ExtractedToken(List([scheme + " " + token]), upper) == Some(token)
  {
    var e := scheme + " " + token;
    SingleEntryHeader(scheme, token);
    assert e != "" by {
      assert |e| == |scheme| + 1 + |token|;
    }
    assert ExtractedToken(Text(e), upper) == Some(token) by {
      TokenOfHeader(Text(e), upper, e);
    }
    assert ExtractedToken(Absent, Text(e)) == Some(token) by {
      TokenOfHeader(Absent, Text(e), e);
    }
    assert ExtractedToken(List([e]), upper) == Some(token) by {
      assert AuthHeader(List([e]), upper) == Some(e);
      TokenOfHeader(List([e]), upper, e);
    }
  }

  lemma Regroup(a: string, b: string, c: string, d: string, e: string)
    ensures a + b + c + d + e == a + b + (c + d + e)
  {
  }

  /** The token comes from the header `AuthHeader` picks. */
  lemma TokenOfHeader(lower: HeaderValue, upper: HeaderValue, header: string)
    requires AuthHeader(lower, upper) == Some(header)
    ensures ExtractedToken(lower, upper) == HeaderToken(header)
  {
  }

  /** A leading entry that is not a bearer entry is skipped:
      `<other>, Bearer <token>` yields the token. */
  lemma SkipsOtherScheme(other: string, scheme: string, token: string)
    requires ',' !in other && !IsBearerEntry(Trim(other))
    requires EqualsIgnoringCase(scheme, "bearer") && IsTokenText(token)
    ensures ExtractedToken(Text(other + ", " + scheme + " " + token), Absent) == Some(token)
  {
    var e := scheme + " " + token;
    SingleBearerEntry(scheme, token);
    SkipsOtherEntry(other, e);
    var h := other + ", " + e;
    Regroup(other, ", ", scheme, " ", token);
    assert h != "" by {
      assert |h| == |other| + 2 + |e|;
    }
    TokenOfHeader(Text(h), Absent, h);
  }

  lemma SkipsOtherEntry(other: string, e: string)
    requires ',' !in other && !IsBearerEntry(Trim(other))
    requires ',' !in e && Trim(e) == e && IsBearerEntry(e)
    ensures HeaderToken(other + ", " + e) == Some(EntryToken(e))
  {
    CommaSpaceEntries(other, e);
    SecondEntryWins(other + ", " + e, Trim(other), e);
  }

  /** Of two parts, a bearer entry after one that is not gives the token. */
  lemma SecondEntryWins(header: string, a: string, b: string)
    requires HeaderParts(header) == [a, b] && !IsBearerEntry(a) && IsBearerEntry(b)
    ensures HeaderToken(header) == Some(EntryToken(b))
  {
    FirstBearerWins([a, b], 1);
  }

  /** `<a>, <b>` has the parts `a.trim()` and `b` when `b` is trimmed. */
  lemma CommaSpaceEntries(a: string, b: string)
    requires ',' !in a && ',' !in b && Trim(b) == b
    ensures HeaderParts(a + ", " + b) == [Trim(a), b]
  {
    assert a + ", " + b == a + "," + (" " + b);
    assert ',' !in " " + b;
    TwoEntries(a, " " + b);
    LeadingSpaceTrimmed(b);
  }

  /** A header of two comma-free entries has their trims as its parts. */
  lemma TwoEntries(a: string, b: string)
    requires ',' !in a && ',' !in b
    ensures HeaderParts(a + "," + b) == [Trim(a), Trim(b)]
  {
    TwoPieces(a, b);
    var parts := HeaderParts(a + "," + b);
    assert |parts| == 2 && parts[0] == Trim(a) && parts[1] == Trim(b);
  }

  /** Two comma-free texts joined by ',' split back into the two. */
  lemma TwoPieces(a: string, b: string)
    requires ',' !in a && ',' !in b
    ensures Split(a + "," + b, ",") == [a, b]
  {
    assert a + "," + b == a + [','] + b;
    SplitAtFirst(a, ',', b);
    SplitWithoutSeparator(b, ',');
  }

  /** The space after a ',' is trimmed away. */
  lemma LeadingSpaceTrimmed(e: string)
    requires Trim(e) == e
    ensures Trim(" " + e) == e
  {
    var x := " " + e;
    assert x[0] == ' ';
    if |e| == 0 {
      assert SkipWhitespace(x, 1) == 1;
    } else {
      TrimIsSlice(e);
      assert x[1] == e[0];
      assert SkipWhitespace(x, 1) == 1;
      assert x[|x| - 1] == e[|e| - 1];
      assert BackOverWhitespace(x, 1, |x|) == |x|;
      assert x[1..|x|] == e;
    }
  }

  /** Only the first bearer entry counts: `Bearer a, Bearer b` yields `a`. */
  lemma FirstBearerWins(parts: seq<string>, i: nat)
    requires i < |parts| && IsBearerEntry(parts[i])
    requires forall j :: 0 <= j < i ==> !IsBearerEntry(parts[j])
    ensures FirstBearer(parts) == Some(i)
  {
  }

  /** The lower-case header wins whenever it is truthy; an empty or missing
      one hands over to `Authorization`; without a non-empty header there is
      no token. */
  lemma HeaderPrecedence(lower: HeaderValue, upper: HeaderValue)
    ensures Truthy(lower) ==> ExtractedToken(lower, upper) == ExtractedToken(lower, Absent)
    ensures !Truthy(lower) ==> ExtractedToken(lower, upper) == ExtractedToken(Absent, upper)
    ensures !Truthy(lower) && !Truthy(upper) ==> ExtractedToken(lower, upper).None?
    ensures ExtractedToken(List([]), upper).None?
  {
    if Truthy(lower) {
      assert AuthHeader(lower, upper) == AuthHeader(lower, Absent);
    } else {
      assert AuthHeader(lower, upper) == AuthHeader(Absent, upper);
    }
    assert AuthHeader(List([]), upper).None?;
  }

  lemma SwaggerExamples()
    ensures IsSwaggerRequest("/api", "") && IsSwaggerRequest("/api-json", "")
    ensures IsSwaggerRequest("/apikeys", "") && IsSwaggerRequest("", "/api/docs")
    ensures !IsSwaggerRequest("/redis/health", "") && !IsSwaggerRequest("/userinfo", "/api")
  {
    assert "/apikeys"[..4] == "/api";
    assert "/api/docs"[..4] == "/api";
    assert "/redis/health"[1] == 'r';
    assert "/userinfo"[1] == 'u';
  }

  /** A `Bearer <token>` header whose token validates lets a guarded request
      through with the token's payload as user. */
  lemma BearerTokenAttaches(path: string, url: string, token: string, st: RedisStore.Store, cfg: AuthConfig,
                            now: nat, p: Decoded)
    requires !IsSwaggerRequest(path, url) && IsTokenText(token)
    requires Validate(st, cfg, token, now) == Ok(p)
    ensures Decide(false, path, url, Text("Bearer " + token), Absent, st, cfg, now) == Attach(p)
  {
    var h := "Bearer " + token;
    assert ExtractedToken(Text(h), Absent) == Some(token) by {
      BearerTextYieldsToken(token);
    }
    DecideWithToken(path, url, Text(h), Absent, st, cfg, now, token);
  }

  /** `Bearer <token>` in the lower-case header yields the token. */
  lemma BearerTextYieldsToken(token: string)
    requires IsTokenText(token)
    ensures ExtractedToken(Text("Bearer " + token), Absent) == Some(token)
  {
    assert EqualsIgnoringCase("Bearer", "bearer") by {
      BearerSchemeWords();
    }
    BearerPrefix(token);
    BearerHeaderYieldsToken("Bearer", token, Absent);
  }

  lemma BearerPrefix(token: string)
    ensures "Bearer " + token == "Bearer" + " " + token
  {
  }

  /** A guarded request carrying a token is decided by validating that token. */
  lemma DecideWithToken(path: string, url: string, lower: HeaderValue, upper: HeaderValue,
                        st: RedisStore.Store, cfg: AuthConfig, now: nat, token: string)
    requires !IsSwaggerRequest(path, url) && ExtractedToken(lower, upper) == Some(token)
    ensures Decide(false, path, url, lower, upper, st, cfg, now) ==
      match Validate(st, cfg, token, now)
      case Ok(p) => Attach(p)
      case Err(e) => Refuse(e)
  {
  }

  /** A token just issued by `signUser`, sent as `Bearer <token>`, opens a
      guarded route for its lifetime and attaches the signed-in user. Real
      tokens are base64url text and never hold whitespace or ','. */
  lemma IssuedTokenOpensRoute(s: RedisStore.Store, cfg: AuthConfig, p: Payload, now: nat, elapsed: nat,
                              path: string, url: string)
    requires s.reachable && s.writeAck == "OK" && elapsed < TtlSeconds(cfg)
    requires !IsSwaggerRequest(path, url)
    requires IsTokenText(Sign(p, Secret(cfg), now, TtlSeconds(cfg), cfg.mac))
    ensures var r := Issue(s, cfg, p, now);
      r.reply.Ok? &&
      var d := Decide(false, path, url, Text("Bearer " + r.reply.value.token), Absent,
                      RedisStore.Elapse(r.store, elapsed), cfg, now + elapsed);
      d.Attach? && d.user.payload == p && d.user.iat == now && d.user.exp == now + TtlSeconds(cfg)
  {
    var token := Sign(p, Secret(cfg), now, TtlSeconds(cfg), cfg.mac);
    var r := Issue(s, cfg, p, now);
    IssueStoresSession(s, cfg, p, now, "");
    assert r.reply.value.token == token;
    IssueThenValidate(s, cfg, p, now, elapsed);
    var later := RedisStore.Elapse(r.store, elapsed);
    var v := Validate(later, cfg, token, now + elapsed);
    BearerTokenAttaches(path, url, token, later, cfg, now + elapsed, v.value);
  }
}
