/**
 * `RedisServiceImpl`: the command wrappers over the client, the `isHealthy`
 * flag driven by the init ping, the client's events and the periodic health
 * check, and the parser of the `INFO` report.
 */
module RedisService {
  import opened Wrappers
  import opened Text
  import opened Entries
  import opened JsValues
  import opened CommonErrors
  import RedisStore

  /** ioredis's `status`. */
  datatype ClientStatus = Wait | Connecting | Connect | Ready | Reconnecting | Close | End

  /** The client events the service listens to. */
  datatype ClientEvent = ConnectEvent | ReadyEvent | ErrorEvent | CloseEvent | ReconnectingEvent | EndEvent

  function StatusName(status: ClientStatus): string
  {
    match status
    case Wait => "wait"
    case Connecting => "connecting"
    case Connect => "connect"
    case Ready => "ready"
    case Reconnecting => "reconnecting"
    case Close => "close"
    case End => "end"
  }

  /** The status ioredis has set when it emits an event; `error` leaves it as it is. */
  function StatusOnEvent(status: ClientStatus, e: ClientEvent): ClientStatus
  {
    match e
    case ConnectEvent => Connect
    case ReadyEvent => Ready
    case ErrorEvent => status
    case CloseEvent => Close
    case ReconnectingEvent => Reconnecting
    case EndEvent => End
  }

  // ------------------------------------------------------- health state machine

  /** The service's view of the connection: the client status, `isHealthy`,
      and whether the health-check interval has been started. */
  datatype HealthState = HealthState(status: ClientStatus, healthy: bool, checking: bool)

  /** `isConnected()`. */
  predicate Connected(h: HealthState)
  {
    h.status == Ready && h.healthy
  }

  /** The listeners of `setupEventListeners`: `ready` raises `isHealthy`;
      `error`, `close` and `end` lower it; `connect` and `reconnecting` leave
      it alone. No event starts or stops the health check. */
  function OnEvent(h: HealthState, e: ClientEvent): (r: HealthState)
    ensures r.status == StatusOnEvent(h.status, e)
    ensures e == ReadyEvent ==> r.healthy
    ensures e in {ErrorEvent, CloseEvent, EndEvent} ==> !r.healthy
    ensures e in {ConnectEvent, ReconnectingEvent} ==> r.healthy == h.healthy
    ensures r.checking == h.checking
  {
    var healthy :=
      match e
      case ReadyEvent => true
      case ErrorEvent => false
      case CloseEvent => false
      case EndEvent => false
      case ConnectEvent => h.healthy
      case ReconnectingEvent => h.healthy;
    HealthState(StatusOnEvent(h.status, e), healthy, h.checking)
  }

  /** `onModuleInit`. The client is created with `lazyConnect`, so the init
      ping is what opens the connection, and ioredis answers it only once the
      client has emitted `connect` and `ready`. A successful ping therefore
      comes after those two listeners have run; the service is then marked
      healthy and the health check starts. A failed ping is caught and marks
      the service unhealthy. So init never fails: its outcome is a state,
      healthy and connected exactly when the ping answered. */
  function AfterInit(h: HealthState, ping: Result<string>): (r: HealthState)
    ensures r.healthy <==> ping.Ok?
    ensures Connected(r) <==> ping.Ok?
    ensures ping.Ok? ==> r.checking && r.status == Ready
    ensures ping.Err? ==> r.checking == h.checking && r.status == h.status
  {
    if ping.Ok? then OnEvent(OnEvent(h, ConnectEvent), ReadyEvent).(healthy := true, checking := true)
    else h.(healthy := false)
  }

  /** One run of the health-check callback: afterwards `isHealthy` says
      whether its ping answered, and nothing else changes. */
  function AfterHealthCheck(h: HealthState, ping: Result<string>): (r: HealthState)
    ensures r.healthy <==> ping.Ok?
    ensures r.status == h.status && r.checking == h.checking
  {
    h.(healthy := ping.Ok?)
  }

  /** The state after a sequence of client events. */
  function AfterEvents(h: HealthState, events: seq<ClientEvent>): HealthState
    decreases |events|
  {
    if |events| == 0 then h else AfterEvents(OnEvent(h, events[0]), events[1..])
  }

  /** Right after an event the service is connected exactly when the event was `ready`. */
  lemma ConnectedAfterEventIffReady(h: HealthState, e: ClientEvent)
    ensures Connected(OnEvent(h, e)) <==> e == ReadyEvent
  {
  }

  /** After shutdown no health check runs and the service is not connected,
      and no later event other than `ready` reconnects it. */
  lemma DestroyedStaysDown(h: HealthState, events: seq<ClientEvent>)
    requires forall i :: 0 <= i < |events| ==> events[i] != ReadyEvent
    ensures var d := OnEvent(h.(checking := false), EndEvent);
      !d.checking && !Connected(d) && !Connected(AfterEvents(d, events)) && !AfterEvents(d, events).checking
  {
    NoRecoveryWithoutReady(OnEvent(h.(checking := false), EndEvent), events);
  }

  /** When the init ping failed no health check runs, so only a `ready` event
      can make the service healthy again. */
  lemma {:induction false} NoRecoveryWithoutReady(h: HealthState, events: seq<ClientEvent>)
    requires !h.healthy
    requires forall i :: 0 <= i < |events| ==> events[i] != ReadyEvent
    ensures !AfterEvents(h, events).healthy && !Connected(AfterEvents(h, events))
    ensures AfterEvents(h, events).checking == h.checking
    decreases |events|
  {
    if |events| > 0 {
      var next := OnEvent(h, events[0]);
      assert !next.healthy && next.checking == h.checking;
      NoRecoveryWithoutReady(next, events[1..]);
    }
  }

  // ------------------------------------------------------------ INFO report

  /** A line that holds a field: not empty, not a `#` section header, with a ':'. */
  predicate IsInfoEntry(line: string)
  {
    line != "" && !StartsWith(line, "#") && ':' in line
  }

  /** `const [key, value] = line.split(':')` for an accepted line. */
  function InfoLine(line: string): (r: Option<(string, string)>)
    ensures r.Some? <==> IsInfoEntry(line)
    ensures r.Some? ==> r.value.0 == BeforeFirst(line, ':')
    ensures r.Some? ==> r.value.1 == BeforeFirst(line[IndexOf(line, ':') + 1..], ':')
  {
    if IsInfoEntry(line) then
      SplitFirstPiece(line, ':');
      SplitSecondPiece(line, ':');
      var parts := Split(line, ":");
      Some((parts[0], parts[1]))
    else None
  }

  /** The fields of an `INFO` report, later lines overwriting earlier ones:
      a key is reported exactly when some field line of the report names it. */
  function InfoFields(report: string): (fields: map<string, string>)
    ensures fields == Collect(Split(report, "\r\n"), InfoLine)
    ensures var lines := Split(report, "\r\n");
      forall key :: key in fields <==> exists i :: NamesField(lines, i, key)
  {
    var lines := Split(report, "\r\n");
    InfoFieldsKeysAll(lines);
    Collect(lines, InfoLine)
  }

  /** The `forEach` over the report's lines, filling the dictionary in place. */
  method ParseInfo(report: string) returns (fields: map<string, string>)
    ensures fields == InfoFields(report)
  {
    var lines := Split(report, "\r\n");
    assert InfoFields(report) == Collect(lines, InfoLine);
    fields := map[];
    var i := 0;
    while i < |lines|
      invariant 0 <= i <= |lines|
      invariant fields == Collect(lines[..i], InfoLine)
    {
      CollectPrefixStep(lines, InfoLine, i);
      match InfoLine(lines[i]) {
        case Some(kv) => fields := fields[kv.0 := kv.1];
        case None =>
      }
      i := i + 1;
    }
    assert lines[..|lines|] == lines;
  }

  /** Line `i` holds a field named `key`. */
  predicate NamesField(lines: seq<string>, i: int, key: string)
  {
    0 <= i < |lines| && IsInfoEntry(lines[i]) && BeforeFirst(lines[i], ':') == key
  }

  /** A key is reported exactly when some field line of the report names it. */
  lemma InfoFieldsKeys(lines: seq<string>, key: string)
    ensures key in Collect(lines, InfoLine) <==> exists i :: NamesField(lines, i, key)
  {
    CollectKeys(lines, InfoLine, key);
    if key in Collect(lines, InfoLine) {
      var i :| Defines(lines, InfoLine, i, key);
      assert NamesField(lines, i, key);
    }
    if exists i :: NamesField(lines, i, key) {
      var i :| NamesField(lines, i, key);
      assert Defines(lines, InfoLine, i, key);
    }
  }

  lemma InfoFieldsKeysAll(lines: seq<string>)
    ensures forall key :: key in Collect(lines, InfoLine) <==> exists i :: NamesField(lines, i, key)
  {
    forall key: string {
      InfoFieldsKeys(lines, key);
    }
  }

  /** The value reported for a key comes from the last line naming it, and is
      the text between that line's first and second ':'. */
  lemma InfoFieldsLastWins(lines: seq<string>, i: int)
    requires 0 <= i < |lines| && IsInfoEntry(lines[i])
    requires forall j :: i < j < |lines| ==> !NamesField(lines, j, BeforeFirst(lines[i], ':'))
    ensures var line := lines[i];
      BeforeFirst(line, ':') in Collect(lines, InfoLine) &&
      Collect(lines, InfoLine)[BeforeFirst(line, ':')] == BeforeFirst(line[IndexOf(line, ':') + 1..], ':')
  {
    var key := BeforeFirst(lines[i], ':');
    assert InfoLine(lines[i]).value.0 == key;
    forall j | i < j < |lines|
      ensures !Defines(lines, InfoLine, j, key)
    {
      assert !NamesField(lines, j, key);
    }
    CollectLastWins(lines, InfoLine, i);
  }

  // ---------------------------------------------------------- the service

  /** The connection settings `getConnectionInfo` reports. */
  datatype ConnectionConfig = ConnectionConfig(host: string, port: int, db: int)

  datatype ConnectionInfo =
    ConnectionInfo(status: string, host: string, port: int, db: int,
                   memory: map<string, JsValue>, info: map<string, string>)

  class RedisServiceImpl {
    /** The server behind the client. */
    var store: RedisStore.Store
    /** The client's `status`. */
    var status: ClientStatus
    var isHealthy: bool
    /** Whether `startHealthCheck` has set up its interval. */
    var healthCheckStarted: bool
    const config: ConnectionConfig

    /** The client is created with `lazyConnect`, so it starts out waiting. */
    constructor(server: RedisStore.Store, config: ConnectionConfig)
      ensures store == server && this.config == config
      ensures status == Wait && !isHealthy && !healthCheckStarted
    {
      store := server;
      status := Wait;
      isHealthy := false;
      healthCheckStarted := false;
      this.config := config;
    }

    function Health(): HealthState
      reads this
    {
      HealthState(status, isHealthy, healthCheckStarted)
    }

    function IsConnected(): (b: bool)
      reads this
      ensures b <==> Connected(Health())
    {
      status == Ready && isHealthy
    }

    /** `getHealthStatus()`: the `isHealthy` flag, which a connected
        service always reports as set. */
    function GetHealthStatus(): (b: bool)
      reads this
      ensures b <==> Health().healthy
      ensures IsConnected() ==> b
    {
      isHealthy
    }

    method OnModuleInit()
      modifies this
      ensures Health() == AfterInit(old(Health()), RedisStore.Ping(old(store)))
      ensures store == old(store)
    {
      var ping := Ping();
      if ping.Ok? {
        HandleEvent(ConnectEvent);
        HandleEvent(ReadyEvent);
        isHealthy := true;
        healthCheckStarted := true;
        var _ := GetConnectionInfo(Null, "");
      } else {
        isHealthy := false;
      }
    }

    /** `onModuleDestroy()`: the health-check interval is cleared and the client
        quits, which ends the connection and fires the `end` listener. */
    method OnModuleDestroy()
      modifies this
      ensures Health() == OnEvent(old(Health()).(checking := false), EndEvent)
      ensures store == old(store)
    {
      healthCheckStarted := false;
      HandleEvent(EndEvent);
    }

    /** Delivers one client event: ioredis updates its status, then the
        listener runs. */
    method HandleEvent(e: ClientEvent)
      modifies this
      ensures Health() == OnEvent(old(Health()), e)
      ensures store == old(store)
    {
      status := StatusOnEvent(status, e);
      match e {
        case ReadyEvent => isHealthy := true;
        case ErrorEvent => isHealthy := false;
        case CloseEvent => isHealthy := false;
        case EndEvent => isHealthy := false;
        case _ =>
      }
    }

    /** One firing of the health-check interval, which exists only once started. */
    method HealthCheckTick()
      requires healthCheckStarted
      modifies this
      ensures Health() == AfterHealthCheck(old(Health()), RedisStore.Ping(old(store)))
      ensures store == old(store)
    {
      var ping := Ping();
      if ping.Ok? {
        if !isHealthy {
          isHealthy := true;
        }
      } else {
        isHealthy := false;
      }
    }

    method Ping() returns (r: Result<string>)
      ensures r == RedisStore.Ping(store)
    {
      r := RedisStore.Ping(store);
    }

    method Set(key: string, value: string, ttl: Option<int>) returns (r: Result<string>)
      modifies this
      ensures RedisStore.Step(store, r) == RedisStore.ServiceSet(old(store), key, value, ttl)
      ensures Health() == old(Health())
    {
      var step := RedisStore.ServiceSet(store, key, value, ttl);
      store, r := step.store, step.reply;
    }

    method Get(key: string) returns (r: Result<Option<string>>)
      ensures r == RedisStore.Get(store, key)
    {
      r := RedisStore.Get(store, key);
    }

    method Exists(key: string) returns (r: Result<nat>)
      ensures r == RedisStore.Exists(store, key)
    {
      r := RedisStore.Exists(store, key);
    }

    method Ttl(key: string) returns (r: Result<int>)
      ensures r == RedisStore.Ttl(store, key)
    {
      r := RedisStore.Ttl(store, key);
    }

    method Del(key: string) returns (r: Result<nat>)
      modifies this
      ensures RedisStore.Step(store, r) == RedisStore.Del(old(store), key)
      ensures Health() == old(Health())
    {
      var step := RedisStore.Del(store, key);
      store, r := step.store, step.reply;
    }

    /** Time passing on the server, which lets keys expire. */
    method Elapse(seconds: nat)
      modifies this
      ensures store == RedisStore.Elapse(old(store), seconds)
      ensures Health() == old(Health())
    {
      store := RedisStore.Elapse(store, seconds);
    }

    /** `getStats()`, given the text the server would send for `INFO`. */
    method GetStats(report: string) returns (stats: map<string, string>)
      ensures store.reachable ==> stats == InfoFields(report)
      ensures !store.reachable ==> stats == map[]
    {
      if store.reachable {
        stats := ParseInfo(report);
      } else {
        stats := map[];
      }
    }

    /** `getConnectionInfo()`, given the server's `MEMORY STATS` reply and `INFO` text. */
    method GetConnectionInfo(memoryStats: JsValue, report: string) returns (info: ConnectionInfo)
      ensures info.status == StatusName(status)
      ensures info.host == config.host && info.port == config.port && info.db == config.db
      ensures store.reachable ==> info.memory == map["usage" := memoryStats] && info.info == InfoFields(report)
      ensures !store.reachable ==> info.memory == map[] && info.info == map[]
    {
      if store.reachable {
        var fields := ParseInfo(report);
        info := ConnectionInfo(StatusName(status), config.host, config.port, config.db,
                               map["usage" := memoryStats], fields);
      } else {
        info := ConnectionInfo(StatusName(status), config.host, config.port, config.db, map[], map[]);
      }
    }
  }
}
