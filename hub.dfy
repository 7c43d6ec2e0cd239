/**
 * The RedRat hub transport: pooled telnet communicators.
 *
 * `RedRatHubCommunicator` is a telnet connection to the hub; what the hub
 * sends back is a script of lines, framed by `MeasuredTelnetUtil.readUntil`.
 * `HubConnectionPool` lends communicators out and counts them: every
 * request draws a transaction id, every successful one bumps `active`, every
 * return lowers it. The object pool library behind it is a bounded
 * collection of handles (at most `poolSize` are ever made). A request when
 * every handle is out is the library's PoolException.
 * `LocalIRCommunicatorManager` hands a pooled communicator to hub devices
 * and none to Global Caché devices.
 */
module Hub {
  import opened Wrappers
  import opened JavaText
  import opened Hardware
  import Telnet

  const DEFAULT_POOL_SIZE: int := 1
  const REDRAT_PROMPT_STRING_1: string := "\n"
  const POOL_WAIT_TIME: int := 2

  /** `RedRatHubCommunicator`: one telnet session with the hub. */
  class Communicator {
    const instanceId: int
    const defaultPrompt: string
    var transactionId: int
    var connected: bool
    const reachable: bool        // does `connect` succeed (false: IOException)
    const readFails: bool        // does reading an answer throw (a SocketTimeoutException, an IOException)
    var incoming: seq<string>    // the lines the hub will send, in order
    var sent: seq<string>        // the commands written, in order

    constructor (defaultPrompt: string, instanceId: int, reachable: bool, readFails: bool, incoming: seq<string>)
      ensures this.defaultPrompt == defaultPrompt && this.instanceId == instanceId
      ensures this.reachable == reachable && this.readFails == readFails && this.incoming == incoming
      ensures transactionId == 0 && !connected && sent == []
    {
      this.defaultPrompt := defaultPrompt;
      this.instanceId := instanceId;
      this.transactionId := 0;
      this.connected := false;
      this.reachable := reachable;
      this.readFails := readFails;
      this.incoming := incoming;
      this.sent := [];
    }

    /**
     * `connect(false)`: an open session stays open; otherwise a reachable hub
     * is connected, and a failure is caught, closes the session and gives false.
     */
    method Connect() returns (r: bool)
      modifies this`connected
      ensures r == (old(connected) || reachable)
      ensures connected == r
    {
      if !connected {
        connected := reachable;
      }
      r := connected;
    }

    /**
     * `sendCommand(command, prompt)`: null when not connected; otherwise the
     * command is written and the answer framed from the incoming lines. A
     * null answer closes the connection; a read that fails throws
     * IOException out of `readUntil` and leaves the session open.
     */
    method SendCommand(command: string, prompt: string) returns (r: Result<Option<string>>)
      modifies this`sent, this`incoming, this`connected
      ensures !old(connected) ==> r == Ok(None) && sent == old(sent) && incoming == old(incoming) && !connected
      ensures old(connected) && readFails ==>
        r == Err(IOError) && sent == old(sent) + [command] && incoming == old(incoming) && connected
      ensures old(connected) && !readFails ==>
        var (answer, used) := Telnet.Frame(old(incoming), prompt, None, false);
        r == Ok(answer) && sent == old(sent) + [command] && incoming == old(incoming)[used..] && connected == answer.Some?
    {
      r := Ok(None);
      if !connected {
        return;
      }
      sent := sent + [command];
      if readFails {
        return Err(IOError);
      }
      var res, used := Telnet.ReadUntil(Some(incoming), prompt);
      r := res;
      incoming := incoming[used..];
      if res.value.None? {
        connected := false;
      }
    }

    /** `sendCommand(command)`: the same, framed by the prompt the communicator was made with. */
    method Send(command: string) returns (r: Result<Option<string>>)
      modifies this`sent, this`incoming, this`connected
      ensures !old(connected) ==> r == Ok(None) && sent == old(sent) && incoming == old(incoming) && !connected
      ensures old(connected) && readFails ==>
        r == Err(IOError) && sent == old(sent) + [command] && incoming == old(incoming) && connected
      ensures old(connected) && !readFails ==>
        var (answer, used) := Telnet.Frame(old(incoming), defaultPrompt, None, false);
        r == Ok(answer) && sent == old(sent) + [command] && incoming == old(incoming)[used..] && connected == answer.Some?
    {
      r := SendCommand(command, defaultPrompt);
    }
  }

  /**
   * `PoolObject`, the factory the pool calls. `instance` is its static
   * counter, shared by every pool.
   */
  class Maker {
    var instance: int
    const reachable: bool        // whether new communicators will reach the hub
    const readFails: bool        // whether their reads will fail
    const script: seq<string>    // the lines a new communicator will receive

    constructor (reachable: bool, readFails: bool, script: seq<string>)
      ensures instance == 0 && this.reachable == reachable && this.readFails == readFails && this.script == script
    {
      instance := 0;
      this.reachable := reachable;
      this.readFails := readFails;
      this.script := script;
    }

    /** `make()`: a new communicator numbered with the next instance id. */
    method Make() returns (c: Communicator)
      modifies this`instance
      ensures fresh(c) && instance == old(instance) + 1 && c.instanceId == instance && c.defaultPrompt == REDRAT_PROMPT_STRING_1
      ensures c.transactionId == 0 && !c.connected && c.reachable == reachable && c.readFails == readFails
      ensures c.incoming == script && c.sent == []
    {
      instance := instance + 1;
      c := new Communicator(REDRAT_PROMPT_STRING_1, instance, reachable, readFails, script);
    }

    /** `activate(t)`: connects a non-null communicator, swallowing any failure. */
    method Activate(t: Communicator?)
      modifies if t != null then {t} else {}
      ensures t != null ==> t.connected == (old(t.connected) || t.reachable)
      ensures t != null ==> t.sent == old(t.sent) && t.incoming == old(t.incoming)
    {
      if t != null {
        var _ := t.Connect();
      }
    }

    /** `passivate(t)`: only logs. */
    method Passivate(t: Communicator)
      ensures instance == old(instance)
    {
    }
  }

  /** `HubConnectionPool`. */
  class HubConnectionPool {
    const hubIp: string
    const hubPort: int
    const maker: Maker
    var poolSize: int
    var minIdle: int
    var maxTotal: int
    var maxWait: int
    var active: int              // `active`, an AtomicLong shared with whoever built the pool
    var poolTransaction: int
    var idle: seq<Communicator>  // handles ready to lend
    var made: int                // handles made since the pool was last built

    /**
     * `new HubConnectionPool(hubIp, hubPort)`: fresh counters, then `init`.
     * `property` is the `redrathub.pool.size` entry (None: not readable).
     */
    constructor (hubIp: string, hubPort: int, maker: Maker, property: Option<string>)
      ensures this.hubIp == hubIp && this.hubPort == hubPort && this.maker == maker
      ensures active == 0 && poolTransaction == 0
      ensures poolSize == PoolSize(property) && minIdle == poolSize && maxTotal == poolSize && maxWait == POOL_WAIT_TIME
      ensures idle == [] && made == 0
    {
      this.hubIp := hubIp;
      this.hubPort := hubPort;
      this.maker := maker;
      active := 0;
      poolTransaction := 0;
      poolSize := PoolSize(property);
      minIdle := poolSize;
      maxTotal := poolSize;
      maxWait := POOL_WAIT_TIME;
      idle := [];
      made := 0;
    }

    /** `init()`: reads the pool size again and builds a new, empty pool; the counters carry on. */
    method Init(property: Option<string>)
      modifies this
      ensures active == old(active) && poolTransaction == old(poolTransaction)
      ensures poolSize == PoolSize(property) && minIdle == poolSize && maxTotal == poolSize && maxWait == POOL_WAIT_TIME
      ensures idle == [] && made == 0
    {
      ReadPoolSize(property);
      minIdle := poolSize;
      maxTotal := poolSize;
      maxWait := POOL_WAIT_TIME;
      idle := [];
      made := 0;
    }

    /** `readPoolSize()`: the configured size, or the default when it cannot be read or parsed. */
    method ReadPoolSize(property: Option<string>)
      modifies this`poolSize
      ensures poolSize == PoolSize(property)
    {
      poolSize := DEFAULT_POOL_SIZE;
      if property.Some? {
        var parsed := ParseInt(property.value);
        if parsed.Ok? {
          poolSize := parsed.value;
        }
      }
    }

    /** Can `getObj` lend a handle now. */
    predicate CanLend()
      reads this
    {
      |idle| > 0 || made < maxTotal
    }

    /** The communicator `getObj` lends next is connected once lent, and reading its answer fails. */
    ghost predicate NextReadFails()
      reads this, maker, idle
    {
      if |idle| > 0 then (idle[0].connected || idle[0].reachable) && idle[0].readFails
      else made < maxTotal && maker.reachable && maker.readFails
    }

    /** How many handles `getObj` can still lend: the idle ones and those it may yet make. */
    function Avail(): (n: int)
      reads this
      ensures n >= 0 && (n > 0 <==> CanLend())
    {
      |idle| + (if made < maxTotal then maxTotal - made else 0)
    }

    /**
     * The library's `getObj()`: an idle handle, else a new one while fewer
     * than `maxTotal` exist, activated before it is lent; otherwise a
     * PoolException (None).
     */
    method GetObj() returns (c: Communicator?)
      modifies this`idle, this`made, maker`instance, if |idle| > 0 then {idle[0]} else {}
      ensures c != null <==> old(CanLend())
      ensures old(|idle|) > 0 ==> c == old(idle[0]) && idle == old(idle[1..]) && made == old(made) && maker.instance == old(maker.instance)
      ensures old(|idle|) == 0 && old(made) < old(maxTotal) ==>
        fresh(c) && idle == [] && made == old(made) + 1 && c.instanceId == maker.instance == old(maker.instance) + 1
      ensures !old(CanLend()) ==> idle == old(idle) && made == old(made) && maker.instance == old(maker.instance)
      ensures old(|idle|) > 0 ==> c.connected == (old(idle[0].connected) || c.reachable)
      ensures old(|idle|) == 0 && c != null ==> c.connected == c.reachable
      ensures old(|idle|) > 0 ==>
        c.reachable == old(idle[0].reachable) && c.sent == old(idle[0].sent) && c.incoming == old(idle[0].incoming) &&
        c.readFails == old(idle[0].readFails)
      ensures old(|idle|) == 0 && c != null ==>
        c.reachable == maker.reachable && c.readFails == maker.readFails && c.sent == [] && c.incoming == maker.script
      ensures Avail() == old(Avail()) - (if c != null then 1 else 0)
    {
      if |idle| > 0 {
        c := idle[0];
        idle := idle[1..];
      } else if made < maxTotal {
        c := maker.Make();
        made := made + 1;
      } else {
        return null;
      }
      maker.Activate(c);
    }

    /**
     * `getConnection()`: every call draws the next transaction id; a lent
     * communicator is counted in `active` and stamped with that id, and a
     * PoolException gives null with `active` unchanged.
     */
    method GetConnection() returns (c: Communicator?)
      modifies this`idle, this`made, this`active, this`poolTransaction, maker`instance
      modifies if |idle| > 0 then {idle[0]} else {}
      ensures poolTransaction == old(poolTransaction) + 1
      ensures c != null <==> old(CanLend())
      ensures c != null ==> active == old(active) + 1 && c.transactionId == poolTransaction
      ensures c == null ==> active == old(active) && idle == old(idle) && made == old(made)
      ensures c != null && old(|idle|) > 0 ==> c == old(idle[0]) && idle == old(idle[1..]) && made == old(made)
      ensures c != null && old(|idle|) == 0 ==> fresh(c) && idle == old(idle) && made == old(made) + 1 && c.instanceId == maker.instance
      ensures c != null && old(|idle|) > 0 ==>
        c.connected == (old(idle[0].connected) || old(idle[0].reachable)) && c.reachable == old(idle[0].reachable) &&
        c.sent == old(idle[0].sent) && c.incoming == old(idle[0].incoming) && c.readFails == old(idle[0].readFails)
      ensures c != null && old(|idle|) == 0 ==>
        c.connected == maker.reachable && c.reachable == maker.reachable && c.readFails == maker.readFails &&
        c.sent == [] && c.incoming == maker.script
      ensures Avail() == old(Avail()) - (if c != null then 1 else 0)
    {
      poolTransaction := poolTransaction + 1;
      var id := poolTransaction;
      c := GetObj();
      if c != null {
        active := active + 1;
        c.transactionId := id;
      }
    }

    /** `releaseConnection(c)`: null is ignored; anything else goes back to the pool and `active` drops. */
    method ReleaseConnection(c: Communicator?)
      modifies this`idle, this`active
      ensures c == null ==> idle == old(idle) && active == old(active)
      ensures c != null ==> idle == old(idle) + [c] && active == old(active) - 1
    {
      if c != null {
        idle := idle + [c];
        active := active - 1;
      }
    }
  }

  /** The pool size `readPoolSize` settles on. */
  function PoolSize(property: Option<string>): (n: int)
    ensures property.None? ==> n == DEFAULT_POOL_SIZE
    ensures property.Some? && ParseInt(property.value).Ok? ==> n == ParseInt(property.value).value
    ensures property.Some? && ParseInt(property.value).Err? ==> n == DEFAULT_POOL_SIZE
  {
    if property.Some? && ParseInt(property.value).Ok? then ParseInt(property.value).value else DEFAULT_POOL_SIZE
  }

  /** A configured size written in decimal is taken as is. */
  lemma PoolSizeConfigured(n: int)
    requires IsInt32(n)
    ensures PoolSize(Some(IntToString(n))) == n
  {
    ParseIntToString(n);
  }

  /** `LocalIRCommunicatorManager`. */
  class CommunicatorManager {
    var pool: HubConnectionPool?

    constructor ()
      ensures pool == null
    {
      pool := null;
    }

    /**
     * `init()`: one pool for the configured hub host and port; a port that is
     * not a number throws NumberFormatException before any pool is built.
     */
    method Init(host: string, port: string, maker: Maker, property: Option<string>) returns (r: Result<()>)
      modifies this`pool
      ensures ParseInt(port).Err? ==> r == Err(NumberFormat) && pool == old(pool)
      ensures ParseInt(port).Ok? ==> r.Ok? && pool != null && fresh(pool) && pool.hubIp == host && pool.hubPort == ParseInt(port).value
      ensures ParseInt(port).Ok? ==> pool.maker == maker && pool.active == 0 && pool.poolTransaction == 0 && pool.poolSize == PoolSize(property)
    {
      var p := ParseInt(port);
      if p.Err? {
        return Err(p.error);
      }
      pool := new HubConnectionPool(host, p.value, maker, property);
      r := Ok(());
    }

    /**
     * `getCommunicator(device)`: a pooled communicator for hub devices, null
     * for Global Caché devices. Before `init`, a hub device meets a null pool
     * (NullPointerException).
     */
    method GetCommunicator(deviceType: HwType) returns (r: Result<Communicator?>)
      modifies if pool != null then {pool} else {}, if pool != null then {pool.maker} else {}
      modifies if pool != null && |pool.idle| > 0 then {pool.idle[0]} else {}
      ensures !deviceType.OnHub() ==> r == Ok(null) && (pool != null ==> unchanged(pool))
      ensures deviceType.OnHub() && pool == null ==> r == Err(NullPointer)
      ensures deviceType.OnHub() && pool != null ==> r.Ok? && pool.poolTransaction == old(pool.poolTransaction) + 1
      ensures deviceType.OnHub() && pool != null ==> (r.value != null <==> old(pool.CanLend()))
      ensures deviceType.OnHub() && pool != null && r.value != null ==>
        pool.active == old(pool.active) + 1 && r.value.transactionId == pool.poolTransaction
      ensures deviceType.OnHub() && pool != null && r.value == null ==> pool.active == old(pool.active) && !old(pool.NextReadFails())
      ensures deviceType.OnHub() && pool != null && r.value != null ==> (r.value.connected && r.value.readFails <==> old(pool.NextReadFails()))
      ensures deviceType.OnHub() && pool != null && r.value != null && old(|pool.idle|) > 0 ==> r.value == old(pool.idle[0])
      ensures deviceType.OnHub() && pool != null && r.value != null && old(|pool.idle|) == 0 ==> fresh(r.value)
      ensures pool == old(pool)
    {
      if !deviceType.OnHub() {
        return Ok(null);
      }
      if pool == null {
        return Err(NullPointer);
      }
      var c := pool.GetConnection();
      r := Ok(c);
    }

    /** `passivateCommunicator(c)`: hands it back to the pool. */
    method Passivate(c: Communicator?) returns (r: Result<()>)
      modifies if pool != null then {pool} else {}
      ensures pool == old(pool)
      ensures pool == null ==> r == Err(NullPointer)
      ensures pool != null ==> r.Ok? && pool.active == old(pool.active) - (if c != null then 1 else 0)
      ensures pool != null ==> pool.idle == old(pool.idle) + (if c != null then [c] else [])
      ensures pool != null ==> pool.poolTransaction == old(pool.poolTransaction) && pool.made == old(pool.made)
    {
      if pool == null {
        return Err(NullPointer);
      }
      pool.ReleaseConnection(c);
      r := Ok(());
    }
  }

  /** Borrowing a communicator and handing it back leaves `active` where it was. */
  method BorrowAndReturn(m: CommunicatorManager, deviceType: HwType) returns (r: Result<()>)
    requires m.pool != null
    modifies m.pool, m.pool.maker, if |m.pool.idle| > 0 then {m.pool.idle[0]} else {}
    ensures m.pool.active == old(m.pool.active)
    ensures deviceType.OnHub() ==> m.pool.poolTransaction == old(m.pool.poolTransaction) + 1
    ensures r.Ok?
  {
    var c := m.GetCommunicator(deviceType);
    r := m.Passivate(c.value);
  }
}
