/**
 * The Redis server as the core sees it through ioredis: string keys holding
 * string values, an optional remaining time-to-live per key, and the
 * commands `PING`, `SET`, `SETEX`, `GET`, `EXISTS`, `DEL` and `TTL`.
 * When the server cannot be reached every command fails with the error
 * ioredis rejects it with.
 */
module RedisStore {
  import opened Wrappers
  import opened CommonErrors

  /** `reachable` says whether commands reach the server; `writeAck` is the
      status reply the server gives to an accepted write (Redis sends `OK`).
      `failure` is the message ioredis rejects a command with while the
      server cannot be reached. Which message that is depends on the client's
      retry and timeout handling (`maxRetriesPerRequest`, `commandTimeout`,
      an ended connection), so it is part of the state, not a constant. */
  datatype Store = Store(data: map<string, string>, expiry: map<string, nat>, reachable: bool, writeAck: string,
                         failure: string)

  /** The state after a command, and its reply. */
  datatype Step<T> = Step(store: Store, reply: Result<T>)

  const InvalidExpireTime := "ERR invalid expire time in 'setex' command"

  /** Only stored keys carry a time-to-live, and a time-to-live is positive. */
  ghost predicate Valid(s: Store)
  {
    s.expiry.Keys <= s.data.Keys && forall k :: k in s.expiry ==> s.expiry[k] > 0
  }

  /** The rejection of a command that does not reach the server. */
  function Unreachable<T>(s: Store): Result<T>
  {
    Err(OtherError(s.failure))
  }

  function Ping(s: Store): (r: Result<string>)
    ensures r.Ok? <==> s.reachable
    ensures r.Ok? ==> r.value == "PONG"
  {
    if s.reachable then Ok("PONG") else Unreachable(s)
  }

  /** `SET key value`: stores the value and drops any time-to-live. */
  function Set(s: Store, key: string, value: string): (r: Step<string>)
    ensures r.reply.Ok? <==> s.reachable
    ensures s.reachable ==> r.reply == Ok(s.writeAck) && Get(r.store, key) == Ok(Some(value)) && Ttl(r.store, key) == Ok(-1)
    ensures !s.reachable ==> r.store == s
    ensures forall k :: k != key ==> Get(r.store, k) == Get(s, k) && Ttl(r.store, k) == Ttl(s, k)
  {
    if !s.reachable then Step(s, Unreachable(s))
    else Step(s.(data := s.data[key := value], expiry := s.expiry - {key}), Ok(s.writeAck))
  }

  /** `SETEX key seconds value`: Redis refuses a time-to-live that is not positive. */
  function SetEx(s: Store, key: string, seconds: int, value: string): (r: Step<string>)
    ensures r.reply.Ok? <==> s.reachable && seconds > 0
    ensures s.reachable && seconds <= 0 ==> r.reply == Err(OtherError(InvalidExpireTime))
    ensures r.reply.Err? ==> r.store == s
    ensures r.reply.Ok? ==>
      r.reply.value == s.writeAck && Get(r.store, key) == Ok(Some(value)) && Ttl(r.store, key) == Ok(seconds)
    ensures forall k :: k != key ==> Get(r.store, k) == Get(s, k) && Ttl(r.store, k) == Ttl(s, k)
  {
    if !s.reachable then Step(s, Unreachable(s))
    else if seconds <= 0 then Step(s, Err(OtherError(InvalidExpireTime)))
    else Step(s.(data := s.data[key := value], expiry := s.expiry[key := seconds]), Ok(s.writeAck))
  }

  function Get(s: Store, key: string): (r: Result<Option<string>>)
    ensures r.Ok? <==> s.reachable
    ensures r.Ok? ==> (r.value.Some? <==> key in s.data)
    ensures r.Ok? && r.value.Some? ==> r.value.value == s.data[key]
  {
    if !s.reachable then Unreachable(s)
    else if key in s.data then Ok(Some(s.data[key]))
    else Ok(None)
  }

  /** `EXISTS key`: the number of the given keys that exist. */
  function Exists(s: Store, key: string): (r: Result<nat>)
    ensures r.Ok? <==> s.reachable
    ensures r.Ok? ==> r.value <= 1 && (r.value == 1 <==> key in s.data)
  {
    if !s.reachable then Unreachable(s)
    else if key in s.data then Ok(1)
    else Ok(0)
  }

  /** `DEL key`: the number of keys removed. */
  function Del(s: Store, key: string): (r: Step<nat>)
    ensures r.reply.Ok? <==> s.reachable
    ensures s.reachable ==> r.reply.value == (if key in s.data then 1 else 0) && Get(r.store, key) == Ok(None)
    ensures !s.reachable ==> r.store == s
    ensures forall k :: k != key ==> Get(r.store, k) == Get(s, k) && Ttl(r.store, k) == Ttl(s, k)
  {
    if !s.reachable then Step(s, Unreachable(s))
    else Step(s.(data := s.data - {key}, expiry := s.expiry - {key}), Ok(if key in s.data then 1 else 0))
  }

  /** `TTL key`: the remaining seconds, -1 for a key without expiry, -2 for a missing key. */
  function Ttl(s: Store, key: string): (r: Result<int>)
    ensures r.Ok? <==> s.reachable
    ensures r.Ok? && key !in s.data ==> r.value == -2
    ensures r.Ok? && key in s.data && key !in s.expiry ==> r.value == -1
    ensures r.Ok? && key in s.data && key in s.expiry ==> r.value == s.expiry[key]
  {
    if !s.reachable then Unreachable(s)
    else if key !in s.data then Ok(-2)
    else if key in s.expiry then Ok(s.expiry[key] as int)
    else Ok(-1)
  }

  /** `seconds` of time pass: keys whose time-to-live runs out disappear,
      the others' count down. */
  function Elapse(s: Store, seconds: nat): (r: Store)
    ensures r.reachable == s.reachable && r.writeAck == s.writeAck
    ensures forall k :: k in r.data <==> k in s.data && (k !in s.expiry || s.expiry[k] > seconds)
    ensures forall k :: k in r.data ==> r.data[k] == s.data[k]
    ensures forall k :: k in r.expiry <==> k in s.expiry && s.expiry[k] > seconds
    ensures forall k :: k in r.expiry ==> r.expiry[k] == s.expiry[k] - seconds
  {
    s.(data := map k | k in s.data && !(k in s.expiry && s.expiry[k] <= seconds) :: s.data[k],
       expiry := map k | k in s.expiry && s.expiry[k] > seconds :: s.expiry[k] - seconds)
  }

  /** `RedisServiceImpl.set(key, value, ttl)`: a truthy `ttl` goes to `SETEX`,
      an absent or zero one to a plain `SET`. */
  function ServiceSet(s: Store, key: string, value: string, ttl: Option<int>): (r: Step<string>)
    ensures r.reply.Ok? <==> s.reachable && (ttl.None? || ttl.value >= 0)
    ensures r.reply.Ok? ==>
      r.reply.value == s.writeAck && Get(r.store, key) == Ok(Some(value)) &&
      Ttl(r.store, key) == Ok(if ttl.Some? && ttl.value > 0 then ttl.value else -1)
    ensures r.reply.Err? ==> r.store == s
  {
    if ttl.Some? && ttl.value != 0 then SetEx(s, key, ttl.value, value) else Set(s, key, value)
  }

  // Properties.

  /** Every command keeps the store well formed. */
  lemma CommandsPreserveValid(s: Store, key: string, value: string, ttl: Option<int>, seconds: nat)
    requires Valid(s)
    ensures Valid(ServiceSet(s, key, value, ttl).store)
    ensures Valid(Del(s, key).store)
    ensures Valid(Elapse(s, seconds))
  {
    var e := Elapse(s, seconds);
    forall k | k in e.expiry
      ensures k in e.data
    {
      assert k in s.expiry && s.expiry[k] > seconds;
    }
  }

  /** An accepted write is read back, answered with the server's write
      acknowledgement, and changes no other key. A truthy positive `ttl`
      is the key's time-to-live; otherwise the key has none. */
  lemma SetThenRead(s: Store, key: string, value: string, ttl: Option<int>, other: string)
    requires s.reachable
    requires ttl.None? || ttl.value >= 0
    requires other != key
    ensures var st := ServiceSet(s, key, value, ttl);
      st.reply == Ok(s.writeAck) &&
      Get(st.store, key) == Ok(Some(value)) &&
      Exists(st.store, key) == Ok(1) &&
      Ttl(st.store, key) == Ok(if ttl.Some? && ttl.value > 0 then ttl.value else -1) &&
      Get(st.store, other) == Get(s, other) &&
      Ttl(st.store, other) == Ttl(s, other)
  {
  }

  /** A truthy negative `ttl` reaches `SETEX`, which refuses it and writes nothing. */
  lemma NegativeTtlIsRefused(s: Store, key: string, value: string, ttl: int)
    requires s.reachable && ttl < 0
    ensures ServiceSet(s, key, value, Some(ttl)) == Step(s, Err(OtherError(InvalidExpireTime)))
  {
  }

  /** After `DEL` the key is gone; the reply is 1 exactly when it was there. */
  lemma DelThenGone(s: Store, key: string, other: string)
    requires s.reachable && other != key
    ensures var st := Del(s, key);
      Exists(st.store, key) == Ok(0) && Get(st.store, key) == Ok(None) &&
      (st.reply == Ok(1) <==> key in s.data) && (st.reply == Ok(0) <==> key !in s.data) &&
      Get(st.store, other) == Get(s, other)
  {
  }

  /** An unreachable server answers every command with an error and keeps its contents. */
  lemma UnreachableChangesNothing(s: Store, key: string, value: string, ttl: Option<int>)
    requires !s.reachable
    ensures ServiceSet(s, key, value, ttl) == Step(s, Err(OtherError(s.failure)))
    ensures Del(s, key) == Step(s, Err(OtherError(s.failure)))
    ensures Ping(s).Err? && Get(s, key).Err? && Exists(s, key).Err? && Ttl(s, key).Err?
  {
  }

  /** A key written with a time-to-live of `seconds` is still there while fewer
      seconds pass, and is gone once that many have passed. */
  lemma ExpiryRunsOut(s: Store, key: string, value: string, seconds: int, elapsed: nat)
    requires s.reachable && seconds > 0
    ensures var w := SetEx(s, key, seconds, value).store;
      (elapsed < seconds ==> Get(Elapse(w, elapsed), key) == Ok(Some(value)) &&
                             Ttl(Elapse(w, elapsed), key) == Ok(seconds - elapsed)) &&
      (elapsed >= seconds ==> Exists(Elapse(w, elapsed), key) == Ok(0))
  {
    var w := SetEx(s, key, seconds, value).store;
    assert key in w.expiry && w.expiry[key] == seconds;
    assert w.data[key] == value;
  }

  /** A key written without time-to-live survives any passage of time. */
  lemma PlainSetNeverExpires(s: Store, key: string, value: string, elapsed: nat)
    requires s.reachable
    ensures Get(Elapse(Set(s, key, value).store, elapsed), key) == Ok(Some(value))
  {
    var w := Set(s, key, value).store;
    assert key !in w.expiry && w.data[key] == value;
  }
}
