/**
 * `RedisUtils`: the `:`-separated key builders over the prefixes of
 * `REDIS_CONSTANTS.KEY_PREFIXES`, and the helpers that take keys apart.
 */
module RedisKeys {
  import opened Wrappers
  import opened Text

  // REDIS_CONSTANTS.KEY_PREFIXES
  const UserPrefix := "user:"
  const SessionPrefix := "session:"
  const CachePrefix := "cache:"
  const LockPrefix := "lock:"
  const LogPrefix := "log:"
  const TagPrefix := "tag:"

  /** The kinds of `REDIS_CONSTANTS.DEFAULT_TTL`. */
  datatype TtlKind = UserCache | Session | Cache | Lock | Log

  /** `getDefaultTTL(type)`, in seconds. */
  function DefaultTtl(kind: TtlKind): nat
  {
    match kind
    case UserCache => 3600
    case Session => 7200
    case Cache => 1800
    case Lock => 300
    case Log => 86400
  }

  /** `getUserCacheKey(userId)`: a key in the `user` namespace. */
  function UserCacheKey(userId: string): (key: string)
    ensures KeyNamespace(key) == "user"
    ensures ':' !in userId ==> KeyIdentifier(key) == Some(userId)
  {
    assert UserPrefix + userId == "user" + ":" + userId;
    KeyParts("user", userId);
    UserPrefix + userId
  }

  /** `getUserSessionKey(userId)`: a key in the `session` namespace. */
  function UserSessionKey(userId: string): (key: string)
    ensures KeyNamespace(key) == "session"
    ensures ':' !in userId ==> KeyIdentifier(key) == Some(userId)
  {
    assert SessionPrefix + userId == "session" + ":" + userId;
    KeyParts("session", userId);
    SessionPrefix + userId
  }

  /** `getCacheKey(prefix, identifier)`: a key in the `cache` namespace. */
  function CacheKey(prefix: string, identifier: string): (key: string)
    ensures KeyNamespace(key) == "cache"
    ensures ':' !in identifier ==> KeyIdentifier(key) == Some(identifier)
  {
    var key := CachePrefix + prefix + ":" + identifier;
    assert key == "cache" + ":" + (prefix + ":" + identifier);
    KeyParts("cache", prefix + ":" + identifier);
    IdentifierAfterColon(CachePrefix + prefix, identifier);
    key
  }

  /** `getLockKey(resource, identifier)`: a key in the `lock` namespace. */
  function LockKey(resource: string, identifier: string): (key: string)
    ensures KeyNamespace(key) == "lock"
    ensures ':' !in identifier ==> KeyIdentifier(key) == Some(identifier)
  {
    var key := LockPrefix + resource + ":" + identifier;
    assert key == "lock" + ":" + (resource + ":" + identifier);
    KeyParts("lock", resource + ":" + identifier);
    IdentifierAfterColon(LockPrefix + resource, identifier);
    key
  }

  /** `getLogKey(type, identifier)`: a key in the `log` namespace. */
  function LogKey(kind: string, identifier: string): (key: string)
    ensures KeyNamespace(key) == "log"
    ensures ':' !in identifier ==> KeyIdentifier(key) == Some(identifier)
  {
    var key := LogPrefix + kind + ":" + identifier;
    assert key == "log" + ":" + (kind + ":" + identifier);
    KeyParts("log", kind + ":" + identifier);
    IdentifierAfterColon(LogPrefix + kind, identifier);
    key
  }

  /** `getTagKey(type, identifier)`: a key in the `tag` namespace. */
  function TagKey(kind: string, identifier: string): (key: string)
    ensures KeyNamespace(key) == "tag"
    ensures ':' !in identifier ==> KeyIdentifier(key) == Some(identifier)
  {
    var key := TagPrefix + kind + ":" + identifier;
    assert key == "tag" + ":" + (kind + ":" + identifier);
    KeyParts("tag", kind + ":" + identifier);
    IdentifierAfterColon(TagPrefix + kind, identifier);
    key
  }

  datatype ExpiringKey = ExpiringKey(key: string, ttl: int)

  /** `getExpiringCacheKey(prefix, identifier, ttl = DEFAULT_TTL.CACHE)`: a
      key in the `cache` namespace from which `parseKeyIdentifier` recovers a
      colon-free identifier, with 1800 seconds unless a ttl is given. */
  function ExpiringCacheKey(prefix: string, identifier: string, ttl: Option<int>): (r: ExpiringKey)
    ensures r.key == CacheKey(prefix, identifier) && KeyNamespace(r.key) == "cache"
    ensures ':' !in identifier ==> KeyIdentifier(r.key) == Some(identifier)
    ensures ttl.None? ==> r.ttl == 1800
    ensures ttl.Some? ==> r.ttl == ttl.value
  {
    ExpiringKey(CacheKey(prefix, identifier), ttl.GetOr(DefaultTtl(Cache)))
  }

  datatype UserKeys = UserKeys(cache: string, session: string, logs: string, tags: string)

  /** `getUserKeys(userId)`: four keys of one user, in the `user`, `session`,
      `log` and `tag` namespaces, hence pairwise distinct, each naming the user
      as its identifier when the id has no ':'. */
  function AllUserKeys(userId: string): (r: UserKeys)
    ensures r.cache == UserCacheKey(userId) && r.session == UserSessionKey(userId)
    ensures r.logs == LogKey("user", userId) && r.tags == TagKey("user", userId)
    ensures KeyNamespace(r.cache) == "user" && KeyNamespace(r.session) == "session"
    ensures KeyNamespace(r.logs) == "log" && KeyNamespace(r.tags) == "tag"
    ensures r.cache != r.session && r.cache != r.logs && r.cache != r.tags
    ensures r.session != r.logs && r.session != r.tags && r.logs != r.tags
    ensures ':' !in userId ==>
      KeyIdentifier(r.cache) == Some(userId) && KeyIdentifier(r.session) == Some(userId) &&
      KeyIdentifier(r.logs) == Some(userId) && KeyIdentifier(r.tags) == Some(userId)
  {
    UserKeys(UserCacheKey(userId), UserSessionKey(userId), LogKey("user", userId), TagKey("user", userId))
  }

  /** `getKeyNamespace(key)`: the first `:`-separated part, which is the
      text before the first ':'. */
  function KeyNamespace(key: string): (ns: string)
    ensures ns == BeforeFirst(key, ':')
    ensures ':' !in ns
    ensures ':' !in key ==> ns == key
  {
    SplitFirstPiece(key, ':');
    Split(key, ":")[0]
  }

  /** `generateBatchKeys(prefix, ids)`. */
  function BatchKeys(prefix: string, ids: seq<string>): (r: seq<string>)
    ensures |r| == |ids|
    ensures forall k :: 0 <= k < |ids| ==> r[k] == prefix + ":" + ids[k]
  {
    if |ids| == 0 then [] else [prefix + ":" + ids[0]] + BatchKeys(prefix, ids[1..])
  }

  /** `parseKeyIdentifier(key)`: the last part when there are at least two,
      else `null`; so there is one exactly when the key holds a ':', and it
      holds none itself. */
  function KeyIdentifier(key: string): (id: Option<string>)
    ensures id.Some? <==> ':' in key
    ensures id.Some? ==> ':' !in id.value
  {
    var parts := Split(key, ":");
    SplitManyIffSeparator(key, ':');
    SplitPiecesAvoidSeparator(key, ':');
    if |parts| > 1 then Some(parts[|parts| - 1]) else None
  }

  // Properties.

  /** The namespace is the text before the first ':', or the whole key without one. */
  lemma KeyNamespaceIsTextBeforeFirstColon(a: string, b: string)
    requires ':' !in a
    ensures KeyNamespace(a + ":" + b) == a
    ensures KeyNamespace(a) == a
  {
    SplitAtFirst(a, ':', b);
    SplitWithoutSeparator(a, ':');
  }

  /** The parts of a string joined by ':' come back from splitting on ':'. */
  lemma {:induction false} SplitJoinedParts(parts: seq<string>)
    requires |parts| >= 1
    requires forall i :: 0 <= i < |parts| ==> ':' !in parts[i]
    ensures Split(Join(parts, ":"), ":") == parts
    decreases |parts|
  {
    if |parts| == 1 {
      SplitWithoutSeparator(parts[0], ':');
    } else {
      SplitJoinedParts(parts[1..]);
      SplitAtFirst(parts[0], ':', Join(parts[1..], ":"));
      assert [parts[0]] + parts[1..] == parts;
    }
  }

  /** Splitting `a + ":" + b`, with no ':' in `b`, ends in the piece `b`
      and has at least two pieces. */
  lemma {:induction false} SplitTail(a: string, b: string)
    requires ':' !in b
    ensures var parts := Split(a + ":" + b, ":"); |parts| > 1 && parts[|parts| - 1] == b
    decreases |a|
  {
    if ':' in a {
      var j := IndexOf(a, ':');
      var x, y := a[..j], a[j + 1..];
      assert a == x + ":" + y;
      assert a + ":" + b == x + ":" + (y + ":" + b);
      SplitAtFirst(x, ':', y + ":" + b);
      SplitTail(y, b);
    } else {
      SplitAtFirst(a, ':', b);
      SplitWithoutSeparator(b, ':');
    }
  }

  /** Different identifiers give different keys, for every builder. */
  lemma BuildersInjective(p: string, x: string, y: string)
    requires x != y
    ensures CacheKey(p, x) != CacheKey(p, y) && LockKey(p, x) != LockKey(p, y)
    ensures LogKey(p, x) != LogKey(p, y) && TagKey(p, x) != TagKey(p, y)
    ensures UserCacheKey(x) != UserCacheKey(y) && UserSessionKey(x) != UserSessionKey(y)
  {
    assert (CachePrefix + p + ":" + x)[|CachePrefix + p + ":"|..] == x;
    assert (LockPrefix + p + ":" + x)[|LockPrefix + p + ":"|..] == x;
    assert (LogPrefix + p + ":" + x)[|LogPrefix + p + ":"|..] == x;
    assert (TagPrefix + p + ":" + x)[|TagPrefix + p + ":"|..] == x;
    assert (UserPrefix + x)[|UserPrefix|..] == x;
    assert (SessionPrefix + x)[|SessionPrefix|..] == x;
  }

  /** The namespace and identifier of `name:rest`. */
  lemma KeyParts(name: string, rest: string)
    requires ':' !in name
    ensures KeyNamespace(name + ":" + rest) == name
    ensures ':' !in rest ==> KeyIdentifier(name + ":" + rest) == Some(rest)
  {
    KeyNamespaceIsTextBeforeFirstColon(name, rest);
    IdentifierAfterColon(name, rest);
  }

  /** The identifier of `head:rest` is `rest` when that has no ':'. */
  lemma IdentifierAfterColon(head: string, rest: string)
    ensures ':' !in rest ==> KeyIdentifier(head + ":" + rest) == Some(rest)
  {
    if ':' !in rest {
      SplitTail(head, rest);
    }
  }
}
