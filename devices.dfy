/**
 * IR devices and their registry.
 *
 * A device object is one of four concrete classes: `IrNetBoxPro` and
 * `RedRat3` (both `RedRatDevice`s, driven through the hub), `iTach` and
 * `GC100` (both `GCDevice`s, driven through the Global Caché dispatcher).
 * Every port a device builds points back at that device, so a port list is
 * modelled by its port numbers in list order; `ports == None` is the null
 * list a `GC100` keeps. `LocalIRDeviceManager` caches devices by name or by
 * ip and builds one on a miss.
 */
module Devices {
  import opened Wrappers
  import opened JavaText
  import opened Hardware
  import Commands
  import Hub

  /** The runtime class of a device, which the `equals` methods test with `instanceof`. */
  datatype Kind = IrNetBoxProKind | RedRat3Kind | ITachKind | GC100Kind
  {
    /** `instanceof RedRatDevice`. */
    predicate IsRedRat() { IrNetBoxProKind? || RedRat3Kind? }
    /** `instanceof GCDevice`. */
    predicate IsGC() { ITachKind? || GC100Kind? }
  }

  const IRNETBOX_PRO_MAXPORTS: nat := 16
  const ITACH_MAXPORTS: nat := 3
  const RED_RAT3_PORT: int := 1
  const DEFAULT_REDRAT3_NAME: string := "No name 9130"

  /** The port numbers 1..n in order, as the `init` loops build them. */
  function Numbers(n: nat): (r: seq<int>)
    ensures |r| == n
    ensures forall i :: 0 <= i < n ==> r[i] == i + 1
  {
    if n == 0 then [] else Numbers(n - 1) + [n]
  }

  /** A port list 1..n holds exactly the numbers from 1 to n. */
  lemma NumbersHold(n: nat, p: int)
    ensures p in Numbers(n) <==> 1 <= p <= n
  {
    if 1 <= p <= n {
      assert Numbers(n)[p - 1] == p;
    }
  }

  /** The `add irnetbox` command `IrNetBoxPro.init` sends to the hub. */
  function AddIrNetBoxCommand(ip: string): (r: string)
    ensures StartsWith(r, "hq=\"add irnetbox\" ip=\"") && EndsWith(r, ip + "\"")
  {
    var head := "hq=\"add irnetbox\" ip=\"";
    assert (head + ip + "\"")[..|head|] == head;
    assert (head + ip + "\"")[|head + ip + "\""| - |ip + "\""|..] == ip + "\"";
    head + ip + "\""
  }

  class Device {
    const kind: Kind
    var id: string
    var ip: Option<string>           // `deviceIPAddr`; a GC100 never sets it
    var deviceModule: Option<string>     // `deviceModule`; only a GC100 sets it
    var hwType: HwType               // `deviceType`
    var deviceName: Option<string>   // a RedRat3's name
    var apiBase: Option<string>      // a GCDevice's dispatcher base URL
    var ports: Option<seq<int>>      // `devicePorts`

    /** `new IrNetBoxPro(id, ip, manager)` up to its call of `init`. */
    constructor IrNetBoxPro(id: string, ip: string)
      ensures kind == IrNetBoxProKind && this.id == id && this.ip == Some(ip) && hwType == IRNETBOXPRO3
      ensures deviceModule == None && deviceName == None && apiBase == None && ports == None
    {
      kind := IrNetBoxProKind;
      this.id := id;
      this.ip := Some(ip);
      deviceModule := None;
      hwType := IRNETBOXPRO3;
      deviceName := None;
      apiBase := None;
      ports := None;
    }

    /** `new RedRat3(deviceName, id, ip, manager)`, `init` included: one port, numbered 1. */
    constructor RedRat3(deviceName: string, id: string, ip: string)
      ensures kind == RedRat3Kind && this.id == id && this.ip == Some(ip) && hwType == REDRAT3
      ensures this.deviceName == Some(deviceName) && deviceModule == None && apiBase == None
      ensures ports == Some([RED_RAT3_PORT])
    {
      kind := RedRat3Kind;
      this.id := id;
      this.ip := Some(ip);
      deviceModule := None;
      hwType := REDRAT3;
      this.deviceName := Some(deviceName);
      apiBase := None;
      ports := Some([RED_RAT3_PORT]);
    }

    /** `new RedRat3(id, ip, manager)`: the same with the default name. */
    constructor RedRat3Unnamed(id: string, ip: string)
      ensures kind == RedRat3Kind && this.id == id && this.ip == Some(ip) && hwType == REDRAT3
      ensures deviceName == Some(DEFAULT_REDRAT3_NAME) && deviceModule == None && apiBase == None
      ensures ports == Some([RED_RAT3_PORT])
    {
      kind := RedRat3Kind;
      this.id := id;
      this.ip := Some(ip);
      deviceModule := None;
      hwType := REDRAT3;
      deviceName := Some(DEFAULT_REDRAT3_NAME);
      apiBase := None;
      ports := Some([RED_RAT3_PORT]);
    }

    /** `new iTach(id, ip, apiBase)`, `init` included: ports 1..3, built by a loop. */
    constructor ITach(id: string, ip: string, apiBase: string)
      ensures kind == ITachKind && this.id == id && this.ip == Some(ip) && hwType == ITACH
      ensures this.apiBase == Some(apiBase) && deviceModule == None && deviceName == None
      ensures ports == Some(Numbers(ITACH_MAXPORTS))
    {
      kind := ITachKind;
      this.id := id;
      this.ip := Some(ip);
      deviceModule := None;
      hwType := ITACH;
      deviceName := None;
      this.apiBase := Some(apiBase);
      var list := [];
      var i := 1;
      while i <= ITACH_MAXPORTS
        invariant 1 <= i <= ITACH_MAXPORTS + 1
        invariant list == Numbers(i - 1)
      {
        list := list + [i];
        i := i + 1;
      }
      ports := Some(list);
    }

    /** `new GC100(id, module, apiBase)`: its `init` builds nothing and returns false. */
    constructor GC100(id: string, gcModule: string, apiBase: string)
      ensures kind == GC100Kind && this.id == id && this.ip == None && hwType == HwType.GC100
      ensures this.deviceModule == Some(gcModule) && this.apiBase == Some(apiBase) && deviceName == None
      ensures ports == None
    {
      kind := GC100Kind;
      this.id := id;
      ip := None;
      this.deviceModule := Some(gcModule);
      hwType := HwType.GC100;
      deviceName := None;
      this.apiBase := Some(apiBase);
      ports := None;
    }

    /**
     * `IrNetBoxPro.init()`: ports 1..16, then the `add irnetbox` command on a
     * communicator from the manager, which is never handed back. A manager
     * without a pool throws before anything is sent; a read of the answer
     * that fails is rethrown as a RuntimeException.
     */
    method InitIrNetBoxPro(mgr: Hub.CommunicatorManager) returns (r: Result<bool>, borrowed: Hub.Communicator?)
      requires kind == IrNetBoxProKind && ip.Some?
      modifies this`ports, if mgr.pool != null then {mgr.pool, mgr.pool.maker} else {}
      modifies if mgr.pool != null && |mgr.pool.idle| > 0 then {mgr.pool.idle[0]} else {}
      ensures ports == Some(Numbers(IRNETBOX_PRO_MAXPORTS))
      ensures mgr.pool == null ==> r == Err(NullPointer) && borrowed == null
      ensures mgr.pool != null ==> r == (if old(mgr.pool.NextReadFails()) then Err(Runtime) else Ok(true))
      ensures mgr.pool != null ==> (borrowed != null <==> old(mgr.pool.CanLend()))
      ensures mgr.pool != null ==> mgr.pool.poolTransaction == old(mgr.pool.poolTransaction) + 1
      ensures mgr.pool != null && borrowed != null ==> mgr.pool.active == old(mgr.pool.active) + 1
      ensures mgr.pool != null && borrowed != null && borrowed.connected ==>
        |borrowed.sent| > 0 && borrowed.sent[|borrowed.sent| - 1] == AddIrNetBoxCommand(ip.value)
    {
      var list := [];
      var i := 1;
      while i <= IRNETBOX_PRO_MAXPORTS
        invariant 1 <= i <= IRNETBOX_PRO_MAXPORTS + 1
        invariant list == Numbers(i - 1)
      {
        list := list + [i];
        i := i + 1;
      }
      ports := Some(list);
      var command := AddIrNetBoxCommand(ip.value);
      var got := mgr.GetCommunicator(IRNETBOXPRO3);
      if got.Err? {
        return Err(got.error), null;
      }
      borrowed := got.value;
      r := Ok(true);
      if borrowed != null {
        var sent := borrowed.Send(command);
        if sent.Err? {
          r := Err(Runtime);
        }
      }
    }

    /** `toString()` of every device class. */
    function Display(): (r: string)
      reads this
      ensures StartsWith(r, "device ") && r[|"device "|..] == id
    {
      "device " + id
    }

    /** The port numbered `n` is in the list. */
    predicate HasPort(n: int)
      reads this
    {
      ports.Some? && n in ports.value
    }

    /**
     * `getPort(n)`: the position of the first port numbered `n`, None when
     * there is none or the list is null or empty.
     */
    method GetPort(n: int) returns (r: Option<nat>)
      ensures r.Some? <==> HasPort(n)
      ensures r.Some? ==> r.value < |ports.value| && ports.value[r.value] == n
      ensures r.Some? ==> forall j :: 0 <= j < r.value ==> ports.value[j] != n
    {
      r := None;
      if ports.None? || |ports.value| == 0 {
        return;
      }
      var list := ports.value;
      var i := 0;
      while i < |list|
        invariant 0 <= i <= |list|
        invariant forall j :: 0 <= j < i ==> list[j] != n
      {
        if list[i] == n {
          r := Some(i);
          break;
        }
        i := i + 1;
      }
    }

    /** `setGetGcDispatcherApiBase(b)`. */
    method SetApiBase(b: string)
      modifies this`apiBase
      ensures apiBase == Some(b)
    {
      apiBase := Some(b);
    }

    /** `RedRatDevice.equals`: the other is a RedRat device with an equal id. */
    predicate RedRatEquals(other: Device?)
      reads this, other
    {
      other != null && other.kind.IsRedRat() && other.id == id
    }

    /** `GCDevice.equals`: the other is a Global Caché device with an equal id. */
    predicate GCEquals(other: Device?)
      reads this, other
    {
      other != null && other.kind.IsGC() && other.id == id
    }

    /**
     * `equals(other)` of the device's own class. `iTach` asks for an
     * `IrNetBoxPro` and then for `GCDevice.equals`, which no object passes.
     */
    function Equals(other: Device?): (r: bool)
      reads this, other
      ensures r ==> other != null && other.id == id
      ensures r && kind.IsRedRat() ==> other.kind == kind && other.ip == ip
      ensures kind.ITachKind? ==> !r
    {
      match kind
      case IrNetBoxProKind => other != null && other.kind.IrNetBoxProKind? && RedRatEquals(other) && other.ip == ip
      case RedRat3Kind => other != null && other.kind.RedRat3Kind? && RedRatEquals(other) && other.ip == ip
      // the ip comparison that follows in `iTach.equals` is never reached
      case ITachKind => other != null && other.kind.IrNetBoxProKind? && GCEquals(other)
      case GC100Kind => GCEquals(other)
    }

    /** `hashCode()`: the ip's hash for the classes that override it; None is the identity hash of a GC100. */
    function HashCode(): (h: Option<int>)
      reads this
      ensures h.Some? <==> !kind.GC100Kind?
    {
      if kind.GC100Kind? then None
      else StringHashOf(ip)
    }
  }

  /** The hash of an ip; a missing ip (never the case for these classes) hashes as "". */
  function StringHashOf(ip: Option<string>): Option<int>
  {
    Some(StringHash(if ip.Some? then ip.value else ""))
  }

  // ---------------------------------------------------------------- equality

  /** No iTach is equal to anything, itself included. */
  lemma ITachNeverEqual(d: Device, other: Device?)
    requires d.kind.ITachKind?
    ensures !d.Equals(other)
  {
  }

  /** Every other class is reflexive. */
  lemma EqualsReflexive(d: Device)
    requires !d.kind.ITachKind?
    ensures d.Equals(d)
  {
  }

  /** The RedRat classes and GC100 are symmetric. */
  lemma EqualsSymmetric(a: Device, b: Device)
    requires !a.kind.ITachKind? && !b.kind.ITachKind?
    ensures a.Equals(b) <==> b.Equals(a)
  {
  }

  /** Equal devices of the classes that override `hashCode` have equal hashes. */
  lemma EqualsAgreesWithHash(a: Device, b: Device)
    requires a.Equals(b) && !a.kind.GC100Kind?
    ensures a.HashCode() == b.HashCode()
  {
  }

  /** A GC100 equals any Global Caché device with its id, an iTach included. */
  lemma GC100EqualsITach(a: Device, b: Device)
    requires a.kind.GC100Kind? && b.kind.ITachKind? && a.id == b.id
    ensures a.Equals(b) && !b.Equals(a)
  {
  }

  // ---------------------------------------------------------------- ports

  /** A port object: its device and number. */
  datatype PortRef = PortRef(device: Device, number: int)

  /**
   * `RedRatDevicePort.equals(other)`: the other is a RedRat port whose device
   * is equal to this one's (asked of the other's device) and whose number matches.
   */
  predicate RedRatPortEquals(p: PortRef, other: Option<PortRef>)
    reads p.device, if other.Some? then {other.value.device} else {}
  {
    other.Some? && other.value.device.kind.IsRedRat() &&
    other.value.device.Equals(p.device) && other.value.number == p.number
  }

  /**
   * `GCDevicePort.equals(other)`: a non-null argument is cast to a Global
   * Caché port, so a RedRat port throws ClassCastException.
   */
  function GCPortEquals(p: PortRef, other: Option<PortRef>): (r: Result<bool>)
    reads p.device, if other.Some? then {other.value.device} else {}
    ensures r.Err? <==> other.Some? && !other.value.device.kind.IsGC()
    ensures r == Ok(true) ==> other.Some? && other.value.number == p.number
  {
    if other.None? then Ok(false)
    else if !other.value.device.kind.IsGC() then Err(ClassCast)
    else Ok(other.value.device.Equals(p.device) && other.value.number == p.number)
  }

  /** `RedRatDevicePort.hashCode()`: the device id's hash, shared by all ports of a device. */
  function RedRatPortHash(p: PortRef): (h: int)
    reads p.device
    ensures IsInt32(h)
  {
    StringHash(p.device.id)
  }

  /** Equal RedRat ports hash alike. */
  lemma RedRatPortEqualsAgreesWithHash(p: PortRef, q: PortRef)
    requires RedRatPortEquals(p, Some(q))
    ensures RedRatPortHash(p) == RedRatPortHash(q)
  {
  }

  /** Ports of the same IrNetBoxPro are equal exactly when their numbers are. */
  lemma RedRatPortsOfOneDevice(d: Device, m: int, n: int)
    requires d.kind.IrNetBoxProKind?
    ensures RedRatPortEquals(PortRef(d, m), Some(PortRef(d, n))) <==> m == n
  {
  }

  /** iTach ports are never equal: their devices never are. */
  lemma ITachPortsNeverEqual(p: PortRef, q: PortRef)
    requires p.device.kind.ITachKind? && q.device.kind.ITachKind?
    ensures GCPortEquals(p, Some(q)) == Ok(false)
  {
  }

  /**
   * `getExpectedResult(command)` of the two port families: the hub's "OK" or
   * the dispatcher's "success" for a press-key command (a hold is one), null
   * for anything else.
   */
  function ExpectedResult(onHub: bool, k: Commands.Kind): (r: Option<string>)
    ensures r.Some? <==> k.PressKey? || k.PressKeyAndHold?
    ensures r.Some? ==> r.value == (if onHub then "OK" else "success")
  {
    if k.PressKey? || k.PressKeyAndHold? then Some(if onHub then "OK" else "success") else None
  }

  // ---------------------------------------------------------------- registry

  /** `getDeviceFromMap(name, ip)`: by name when one is given, then by ip. */
  function Lookup(m: map<string, Device>, name: Option<string>, ip: string): (r: Option<Device>)
    ensures r.Some? ==> r.value in m.Values
    ensures r.None? <==> (name.None? || name.value == [] || name.value !in m) && ip !in m
  {
    if name.Some? && name.value != [] && name.value in m then Some(m[name.value])
    else if ip in m then Some(m[ip])
    else None
  }

  /** The key a new device of type `t` is cached under. */
  function CacheKey(t: HwType, ip: string, name: Option<string>): string
  {
    if t == REDRAT3 && name.Some? && name.value != [] then name.value else ip
  }

  /** The class `getIRDevice` builds for each hardware type; all three GC100 types make a GC100. */
  function KindOf(t: HwType): Kind
  {
    match t
    case GC100 => GC100Kind
    case GC100_12 => GC100Kind
    case GC100_6 => GC100Kind
    case ITACH => ITachKind
    case IRNETBOXPRO3 => IrNetBoxProKind
    case REDRAT3 => RedRat3Kind
  }

  /** A device just cached is what the next lookup with the same name and ip finds. */
  lemma CachedThenFound(m: map<string, Device>, t: HwType, ip: string, name: Option<string>, d: Device)
    requires Lookup(m, name, ip).None?
    ensures Lookup(m[CacheKey(t, ip, name) := d], name, ip) == Some(d)
  {
  }

  /** A name lookup ignores the type asked for: a cached RedRat3 answers any type requested under its name. */
  lemma NameHitIgnoresType(m: map<string, Device>, name: string, ip: string)
    requires name != [] && name in m
    ensures Lookup(m, Some(name), ip) == Some(m[name])
  {
  }

  /** `LocalIRDeviceManager`. */
  class DeviceManager {
    var deviceMap: map<string, Device>
    const comm: Hub.CommunicatorManager
    const apiBase: string            // `irConfiguration.gcDispatcherApiBase`

    constructor (comm: Hub.CommunicatorManager, apiBase: string)
      ensures deviceMap == map[] && this.comm == comm && this.apiBase == apiBase
    {
      deviceMap := map[];
      this.comm := comm;
      this.apiBase := apiBase;
    }

    /** `getDeviceFromMap(name, ip)`. */
    method GetDeviceFromMap(name: Option<string>, ip: string) returns (d: Device?)
      ensures d == (if Lookup(deviceMap, name, ip).Some? then Lookup(deviceMap, name, ip).value else null)
    {
      d := null;
      if name.Some? && name.value != [] && name.value in deviceMap {
        d := deviceMap[name.value];
      }
      if d == null && ip in deviceMap {
        d := deviceMap[ip];
      }
    }

    /**
     * `getIRDevice(type, ip, name)`: a cached device is returned as it is;
     * otherwise a new device of the type's class, with the ip as its id, is
     * cached under `CacheKey`. Building an IrNetBoxPro borrows a hub
     * communicator, which fails when the communicator manager has no pool.
     */
    method GetIRDevice(t: HwType, ip: string, name: Option<string>) returns (r: Result<Device>)
      modifies this`deviceMap, if comm.pool != null then {comm.pool, comm.pool.maker} else {}
      modifies if comm.pool != null && |comm.pool.idle| > 0 then {comm.pool.idle[0]} else {}
      ensures Lookup(old(deviceMap), name, ip).Some? ==>
        r == Ok(Lookup(old(deviceMap), name, ip).value) && deviceMap == old(deviceMap)
      ensures Lookup(old(deviceMap), name, ip).None? && r.Ok? ==>
        fresh(r.value) && r.value.kind == KindOf(t) && r.value.id == ip &&
        deviceMap == old(deviceMap)[CacheKey(t, ip, name) := r.value]
      ensures Lookup(old(deviceMap), name, ip).None? && t.GC100_12? && r.Ok? ==> r.value.hwType == HwType.GC100
      ensures r.Err? <==>
        Lookup(old(deviceMap), name, ip).None? && t == IRNETBOXPRO3 && (comm.pool == null || old(comm.pool.NextReadFails()))
      ensures r.Err? ==> r.error == (if comm.pool == null then NullPointer else Runtime) && deviceMap == old(deviceMap)
    {
      var cached := GetDeviceFromMap(name, ip);
      if cached != null {
        return Ok(cached);
      }
      var d: Device;
      if t == HwType.GC100 || t == GC100_6 || t == GC100_12 {
        d := new Device.GC100(ip, ip, apiBase);
      } else if t == ITACH {
        d := new Device.ITach(ip, ip, apiBase);
      } else if t == IRNETBOXPRO3 {
        d := new Device.IrNetBoxPro(ip, ip);
        var init, _ := d.InitIrNetBoxPro(comm);
        if init.Err? {
          return Err(init.error);
        }
      } else if name.None? || name.value == [] {
        d := new Device.RedRat3Unnamed(ip, ip);
      } else {
        d := new Device.RedRat3(name.value, ip, ip);
      }
      deviceMap := deviceMap[CacheKey(t, ip, name) := d];
      r := Ok(d);
    }

    /**
     * `getIRDevice(uri, name)`: the scheme picks the type and the host is the
     * ip; a null URI is rejected, and an unknown scheme makes `getByValue` throw.
     */
    method GetIRDeviceByUri(uri: Option<(Option<string>, string)>, name: Option<string>) returns (r: Result<Device>)
      modifies this`deviceMap, if comm.pool != null then {comm.pool, comm.pool.maker} else {}
      modifies if comm.pool != null && |comm.pool.idle| > 0 then {comm.pool.idle[0]} else {}
      ensures uri.None? ==> r == Err(IllegalArgument) && deviceMap == old(deviceMap)
      ensures uri.Some? && GetByValue(uri.value.0).Err? ==> r == Err(GetByValue(uri.value.0).error) && deviceMap == old(deviceMap)
      ensures uri.Some? && Lookup(old(deviceMap), name, uri.value.1).Some? && GetByValue(uri.value.0).Ok? ==>
        r == Ok(Lookup(old(deviceMap), name, uri.value.1).value)
    {
      if uri.None? {
        return Err(IllegalArgument);
      }
      var (scheme, host) := uri.value;
      var t := GetByValue(scheme);
      if t.Err? {
        return Err(t.error);
      }
      r := GetIRDevice(t.value, host, name);
    }

    /** `getAllAvailableDevices()`: the cached devices. */
    method AllAvailableDevices() returns (r: set<Device>)
      ensures forall k :: k in deviceMap ==> deviceMap[k] in r
      ensures forall d :: d in r ==> exists k :: k in deviceMap && deviceMap[k] == d
    {
      r := deviceMap.Values;
    }
  }
}
