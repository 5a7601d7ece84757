/**
 * `RedisController`: how the health, test, key-listing, key-deletion and
 * memory routes turn service replies into response bodies. The timestamps
 * of the bodies are left out.
 */
module RedisController {
  import opened Wrappers
  import opened JsValues
  import opened CommonErrors
  import opened RedisService
  import RedisStore

  // ------------------------------------------------------------ checkHealth

  datatype HealthReport = HealthReport(status: string, message: string, ping: string)

  /** The verdict on the connection flag and the ping reply. */
  function HealthVerdict(connected: bool, ping: string): (r: HealthReport)
    ensures r.status == "healthy" <==> connected && ping == "PONG"
    ensures r.status == "healthy" || r.status == "unhealthy"
    ensures r.ping == ping
  {
    if connected && ping == "PONG" then HealthReport("healthy", "Redis服务正常运行", ping)
    else HealthReport("unhealthy", "Redis服务异常", ping)
  }

  /** `checkHealth()`: a ping that throws is not caught here. */
  method CheckHealth(svc: RedisServiceImpl) returns (r: Result<HealthReport>)
    ensures RedisStore.Ping(svc.store).Err? ==> r == Err(RedisStore.Ping(svc.store).error)
    ensures RedisStore.Ping(svc.store).Ok? ==> r == Ok(HealthVerdict(svc.IsConnected(), "PONG"))
  {
    var connected := svc.IsConnected();
    var ping := svc.Ping();
    if ping.Err? {
      return Err(ping.error);
    }
    r := Ok(HealthVerdict(connected, ping.value));
  }

  /** The route reports healthy exactly when the service is connected and the
      server answers; an unreachable server makes the route fail instead. */
  lemma HealthyIffConnectedAndReachable(h: HealthState, s: RedisStore.Store)
    ensures RedisStore.Ping(s).Ok? ==>
      (HealthVerdict(Connected(h), RedisStore.Ping(s).value).status == "healthy" <==> Connected(h) && s.reachable)
    ensures !s.reachable ==> RedisStore.Ping(s).Err?
  {
  }

  /** Once `onModuleInit` has pinged a reachable server, the route reports healthy. */
  lemma HealthyAfterInit(h: HealthState, s: RedisStore.Store)
    requires s.reachable
    ensures var init := AfterInit(h, RedisStore.Ping(s));
      HealthVerdict(Connected(init), RedisStore.Ping(s).value).status == "healthy"
  {
  }

  // ------------------------------------------------------ getStatus, getInfo

  datatype StatusReport = StatusReport(connection: ConnectionInfo, statistics: map<string, string>)

  /** `getStatus()`: the connection information and the statistics, given the
      server's `MEMORY STATS` reply and the `INFO` texts of the two calls. */
  method GetStatus(svc: RedisServiceImpl, memoryStats: JsValue, connectionReport: string, statsReport: string)
    returns (r: StatusReport)
    ensures r.connection.status == StatusName(svc.status)
    ensures r.connection.host == svc.config.host && r.connection.port == svc.config.port && r.connection.db == svc.config.db
    ensures svc.store.reachable ==>
      r.connection.memory == map["usage" := memoryStats] && r.connection.info == InfoFields(connectionReport) &&
      r.statistics == InfoFields(statsReport)
    ensures !svc.store.reachable ==> r.connection.memory == map[] && r.connection.info == map[] && r.statistics == map[]
  {
    var connection := svc.GetConnectionInfo(memoryStats, connectionReport);
    var stats := svc.GetStats(statsReport);
    r := StatusReport(connection, stats);
  }

  /** `getInfo()`: the statistics alone. */
  method GetInfo(svc: RedisServiceImpl, report: string) returns (info: map<string, string>)
    ensures svc.store.reachable ==> info == InfoFields(report)
    ensures !svc.store.reachable ==> info == map[]
  {
    info := svc.GetStats(report);
  }

  // -------------------------------------------------------------- testRedis

  /** The reported remaining lifetime: the seconds when positive, else the
      no-expiry text `无过期时间`. */
  datatype TtlShown = Seconds(n: int) | NoExpiry

  function ShowTtl(remaining: int): (t: TtlShown)
    ensures t.Seconds? <==> remaining > 0
    ensures t.Seconds? ==> t.n == remaining
  {
    if remaining > 0 then Seconds(remaining) else NoExpiry
  }

  datatype TestData = TestData(key: string, writtenValue: string, readValue: Option<string>, keyExists: bool, ttl: TtlShown)

  datatype TestReport = TestReport(success: bool, message: string, data: Option<TestData>, error: Option<string>)

  function TestFailed(e: Exception): TestReport
  {
    TestReport(false, "Redis操作测试失败", None, Some(e.message))
  }

  datatype TestOutcome = TestOutcome(store: RedisStore.Store, report: TestReport)

  /** The four commands of `testRedis(body)` in order. Only the write can
      fail here: once it went through, the server is reachable and the three
      reads cannot fail. */
  function TestRedisOn(s: RedisStore.Store, key: string, value: string, ttl: Option<int>): (t: TestOutcome)
    ensures t.report.success <==> s.reachable && (ttl.None? || ttl.value >= 0)
    ensures t.report.success ==>
      t.report.error.None? &&
      t.report.data == Some(TestData(key, value, Some(value), true,
                                     if ttl.Some? && ttl.value > 0 then Seconds(ttl.value) else NoExpiry))
    ensures s.reachable && ttl.Some? && ttl.value < 0 ==>
      t.report.data.None? && t.report.error == Some(RedisStore.InvalidExpireTime)
    ensures !s.reachable ==> t.report.data.None? && t.report.error == Some(s.failure)
  {
    var w := RedisStore.ServiceSet(s, key, value, ttl);
    if w.reply.Err? then TestOutcome(w.store, TestFailed(w.reply.error))
    else
      var st := w.store;
      var read, count, remaining := RedisStore.Get(st, key), RedisStore.Exists(st, key), RedisStore.Ttl(st, key);
      TestOutcome(st, TestReport(true, "Redis操作测试成功",
        Some(TestData(key, value, read.value, count.value == 1, ShowTtl(remaining.value))), None))
  }

  method TestRedis(svc: RedisServiceImpl, key: string, value: string, ttl: Option<int>) returns (r: TestReport)
    modifies svc
    ensures TestOutcome(svc.store, r) == TestRedisOn(old(svc.store), key, value, ttl)
    ensures svc.Health() == old(svc.Health())
  {
    var written := svc.Set(key, value, ttl);
    if written.Err? {
      return TestFailed(written.error);
    }
    var read := svc.Get(key);
    var count := svc.Exists(key);
    var remaining := svc.Ttl(key);
    r := TestReport(true, "Redis操作测试成功",
      Some(TestData(key, value, read.value, count.value == 1, ShowTtl(remaining.value))), None);
  }

  // ---------------------------------------------------------------- getKeys

  datatype KeysReport = KeysReport(success: bool, pattern: string, count: nat, keys: seq<string>, error: Option<string>)

  /** At most this many keys are listed. */
  const MaxListedKeys := 100

  /** `getKeys(pattern)`, given the reply to `KEYS pattern`. */
  function KeysReportOf(pattern: string, reply: Result<seq<string>>): (r: KeysReport)
    ensures r.pattern == pattern && (r.success <==> reply.Ok?)
    ensures reply.Ok? ==> r.count == |reply.value| && r.error.None?
    ensures reply.Ok? ==> |r.keys| == if |reply.value| < MaxListedKeys then |reply.value| else MaxListedKeys
    ensures reply.Ok? ==> forall i :: 0 <= i < |r.keys| ==> r.keys[i] == reply.value[i]
    ensures reply.Err? ==> r.count == 0 && r.keys == [] && r.error == Some(reply.error.message)
  {
    match reply
    case Ok(keys) =>
      KeysReport(true, pattern, |keys|, keys[..if |keys| < MaxListedKeys then |keys| else MaxListedKeys], None)
    case Err(e) => KeysReport(false, pattern, 0, [], Some(e.message))
  }

  /** With more than a hundred matches the count still says how many there are. */
  lemma CountExceedsListing(pattern: string, keys: seq<string>)
    requires |keys| > MaxListedKeys
    ensures var r := KeysReportOf(pattern, Ok(keys)); r.count > |r.keys| && |r.keys| == MaxListedKeys
  {
  }

  // -------------------------------------------------------------- deleteKey

  datatype DeleteReport = DeleteReport(success: bool, message: string, key: string, deleted: bool, error: Option<string>)

  function DeleteReportOf(key: string, reply: Result<nat>): (r: DeleteReport)
    ensures r.key == key && (r.success <==> reply.Ok?)
    ensures r.deleted <==> reply.Ok? && reply.value > 0
    ensures reply.Ok? ==> r.message == (if reply.value > 0 then "键删除成功" else "键不存在") && r.error.None?
    ensures reply.Err? ==> r.message == "删除键失败" && r.error == Some(reply.error.message)
  {
    match reply
    case Ok(n) => DeleteReport(true, if n > 0 then "键删除成功" else "键不存在", key, n > 0, None)
    case Err(e) => DeleteReport(false, "删除键失败", key, false, Some(e.message))
  }

  method DeleteKey(svc: RedisServiceImpl, key: string) returns (r: DeleteReport)
    modifies svc
    ensures svc.store == RedisStore.Del(old(svc.store), key).store
    ensures r == DeleteReportOf(key, RedisStore.Del(old(svc.store), key).reply)
    ensures svc.Health() == old(svc.Health())
  {
    var n := svc.Del(key);
    r := DeleteReportOf(key, n);
  }

  /** Deleting a key reports `deleted` exactly when it was stored; deleting it
      again reports that the key does not exist. */
  lemma DeleteTwice(s: RedisStore.Store, key: string)
    requires s.reachable
    ensures var first := RedisStore.Del(s, key);
      DeleteReportOf(key, first.reply).deleted == (key in s.data) &&
      DeleteReportOf(key, RedisStore.Del(first.store, key).reply) ==
        DeleteReport(true, "键不存在", key, false, None)
  {
  }

  // --------------------------------------------------------- getMemoryUsage

  datatype MemoryReport = MemoryReport(success: bool, memoryUsage: JsValue, memoryInfo: map<string, string>, error: Option<string>)

  /** `getMemoryUsage()`, given the server's `MEMORY STATS` reply and the text
      of `INFO memory`; the lines are parsed by the service's `INFO` rule. */
  method GetMemoryUsage(svc: RedisServiceImpl, memoryStats: JsValue, report: string) returns (r: MemoryReport)
    ensures svc.store.reachable ==> r == MemoryReport(true, memoryStats, InfoFields(report), None)
    ensures !svc.store.reachable ==> r == MemoryReport(false, Arr([]), map[], Some(svc.store.failure))
  {
    if !svc.store.reachable {
      return MemoryReport(false, Arr([]), map[], Some(svc.store.failure));
    }
    var memoryInfo := ParseInfo(report);
    r := MemoryReport(true, memoryStats, memoryInfo, None);
  }
}
