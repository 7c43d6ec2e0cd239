/**
 * `RemoteProcessor`: turns a slot into a device and an IR port, either
 * through the explicit slot mappings or, when there are none, by counting
 * the slots across the normalised devices in order (device 1 has slots
 * 1..maxPorts(1), device 2 the next maxPorts(2), and so on), and then names
 * the kind, host and port of the remote to build.
 */
module Processor {
  import opened Wrappers
  import opened JavaText
  import opened Config
  import Hardware
  import Slots

  /** What `remoteFactory.getRemote(type, host, keyset, port)` is asked for. */
  datatype RemoteRequest = RemoteRequest(hwType: Hardware.HwType, host: Option<string>, keySet: string, port: int)

  /** `numSlots()`: the ports of all devices together. */
  function SumPorts(devs: seq<Entry>): int
  {
    if devs == [] then 0 else SumPorts(devs[..|devs| - 1]) + devs[|devs| - 1].MaxPorts()
  }

  /**
   * The counting loop of `findDeviceAndPortMapping`: the first device whose
   * ports reach the remaining offset takes the slot; the offset drops by
   * each device passed. Running out of devices throws IllegalStateException.
   */
  function Locate(devs: seq<Entry>, deviceId: int, slotOffset: int): Result<(int, int)>
    decreases |devs|
  {
    if devs == [] then Err(IllegalState)
    else if slotOffset <= devs[0].MaxPorts() then Ok((deviceId, slotOffset))
    else Locate(devs[1..], deviceId + 1, slotOffset - devs[0].MaxPorts())
  }

  /** The device and port of an explicit "device:port" mapping; a missing part or a non-number throws. */
  function ParseMapping(deviceMappings: string): Result<(int, int)>
  {
    var deviceAndPort := Split(deviceMappings, ":");
    if |deviceAndPort| < 1 then Err(IndexOutOfBounds)
    else match ParseInt(deviceAndPort[0])
      case Err(x) => Err(x)
      case Ok(deviceId) =>
        if |deviceAndPort| < 2 then Err(IndexOutOfBounds)
        else match ParseInt(deviceAndPort[1])
          case Err(x) => Err(x)
          case Ok(irPort) => Ok((deviceId, irPort))
  }

  /**
   * `findIrRemoteType(type)`: the hardware kind named by a device type;
   * a null or unknown type (and "irNetBox") is an irNetBox.
   */
  function FindIrRemoteType(irDeviceType: Option<string>): (t: Hardware.HwType)
    ensures irDeviceType == Some("itach") ==> t == Hardware.ITACH
    ensures irDeviceType == Some("gc100") ==> t == Hardware.GC100
    ensures irDeviceType == Some("gc100_12") ==> t == Hardware.GC100_12
    ensures irDeviceType == Some("redrat") ==> t == Hardware.REDRAT3
  {
    if irDeviceType.None? then Hardware.IRNETBOXPRO3
    else match irDeviceType.value
      case "itach" => Hardware.ITACH
      case "gc100" => Hardware.GC100
      case "gc100_12" => Hardware.GC100_12
      case "redrat" => Hardware.REDRAT3
      case _ => Hardware.IRNETBOXPRO3
  }

  /** The RedRat hub drives a device exactly when its type is none of the Global Caché names. */
  lemma RemoteTypeOnHub(irDeviceType: Option<string>)
    ensures FindIrRemoteType(irDeviceType).OnHub()
      <==> irDeviceType !in {Some("itach"), Some("gc100"), Some("gc100_12")}
  {
  }

  // ------------------------------------------------------ slot arithmetic

  lemma {:induction false} SumPortsCons(d: Entry, devs: seq<Entry>)
    ensures SumPorts([d] + devs) == d.MaxPorts() + SumPorts(devs)
    decreases |devs|
  {
    if devs != [] {
      var init := devs[..|devs| - 1];
      SumPortsCons(d, init);
      assert ([d] + devs)[..|devs|] == [d] + init;
    } else {
      assert [d] + devs == [d];
    }
  }

  lemma SumPortsTail(devs: seq<Entry>)
    requires devs != []
    ensures SumPorts(devs) == devs[0].MaxPorts() + SumPorts(devs[1..])
  {
    SumPortsCons(devs[0], devs[1..]);
    assert [devs[0]] + devs[1..] == devs;
  }

  /**
   * A located slot lies on a device of the list, within its ports, at the
   * position that counting the ports of the devices before it gives, and a
   * slot of at least 1 gets a port of at least 1.
   */
  lemma {:induction false} LocateSound(devs: seq<Entry>, base: int, s: int)
    ensures Locate(devs, base, s).Ok? ==>
      var (d, p) := Locate(devs, base, s).value;
      base <= d < base + |devs|
      && p <= devs[d - base].MaxPorts()
      && s == SumPorts(devs[..d - base]) + p
      && (s >= 1 ==> p >= 1)
    decreases |devs|
  {
    if devs != [] && Locate(devs, base, s).Ok? && s > devs[0].MaxPorts() {
      var m := devs[0].MaxPorts();
      LocateSound(devs[1..], base + 1, s - m);
      var (d, p) := Locate(devs, base, s).value;
      assert devs[1..][..d - base - 1] == devs[1..d - base];
      assert devs[..d - base] == [devs[0]] + devs[1..d - base];
      SumPortsCons(devs[0], devs[1..d - base]);
    } else if devs != [] && Locate(devs, base, s).Ok? {
      assert devs[..0] == [];
    }
  }

  /** No device before the located one could take the slot: its ports end before the slot. */
  lemma {:induction false} LocateFirst(devs: seq<Entry>, base: int, s: int)
    ensures Locate(devs, base, s).Ok? ==>
      var d := Locate(devs, base, s).value.0;
      base <= d < base + |devs|
      && forall k :: 0 <= k < d - base ==> s - SumPorts(devs[..k]) > devs[k].MaxPorts()
    decreases |devs|
  {
    if devs != [] && Locate(devs, base, s).Ok? && s > devs[0].MaxPorts() {
      var m := devs[0].MaxPorts();
      LocateFirst(devs[1..], base + 1, s - m);
      var d := Locate(devs, base, s).value.0;
      forall k | 0 <= k < d - base
        ensures s - SumPorts(devs[..k]) > devs[k].MaxPorts()
      {
        if k > 0 {
          assert devs[..k] == [devs[0]] + devs[1..][..k - 1];
          SumPortsCons(devs[0], devs[1..][..k - 1]);
          assert devs[1..][k - 1] == devs[k];
        } else {
          assert devs[..0] == [];
        }
      }
    }
  }

  /** Every slot up to the total number of ports is found. */
  lemma {:induction false} LocateComplete(devs: seq<Entry>, base: int, s: int)
    requires devs != [] && s <= SumPorts(devs)
    ensures Locate(devs, base, s).Ok?
    decreases |devs|
  {
    SumPortsTail(devs);
    if s > devs[0].MaxPorts() {
      LocateComplete(devs[1..], base + 1, s - devs[0].MaxPorts());
    }
  }

  /** With no negative port counts, a slot beyond the total throws IllegalStateException. */
  lemma {:induction false} LocateBeyond(devs: seq<Entry>, base: int, s: int)
    requires forall k :: 0 <= k < |devs| ==> devs[k].MaxPorts() >= 0
    requires s > SumPorts(devs)
    ensures Locate(devs, base, s) == Err(IllegalState)
    decreases |devs|
  {
    if devs != [] {
      SumPortsTail(devs);
      LocateBeyond(devs[1..], base + 1, s - devs[0].MaxPorts());
    }
  }

  /**
   * Counting is the inverse of numbering: with no negative port counts, the
   * slot made of the ports of the devices before device `d` plus port `p`
   * is located at device `d`, port `p`.
   */
  lemma {:induction false} LocateNumbering(devs: seq<Entry>, base: int, d: int, p: int)
    requires forall k :: 0 <= k < |devs| ==> devs[k].MaxPorts() >= 0
    requires base <= d < base + |devs| && 1 <= p <= devs[d - base].MaxPorts()
    ensures Locate(devs, base, SumPorts(devs[..d - base]) + p) == Ok((d, p))
    decreases |devs|
  {
    if d > base {
      var m := devs[0].MaxPorts();
      assert devs[..d - base] == [devs[0]] + devs[1..][..d - base - 1];
      SumPortsCons(devs[0], devs[1..][..d - base - 1]);
      LocateNumbering(devs[1..], base + 1, d, p);
    } else {
      assert devs[..0] == [];
    }
  }

  // ------------------------------------------------------ the processor

  class RemoteProcessor {
    const mappingService: Slots.SlotMappingService
    const irConfig: IRConfiguration
    var irDeviceList: seq<Entry>

    constructor (mappingService: Slots.SlotMappingService, irConfig: IRConfiguration)
      ensures this.mappingService == mappingService && this.irConfig == irConfig
      ensures irDeviceList == []
    {
      this.mappingService := mappingService;
      this.irConfig := irConfig;
      irDeviceList := [];
    }

    /** `init()`: the device list is the normalised configuration; a failing normalisation fails start-up. */
    method Init() returns (r: Result<()>)
      modifies this
      ensures irConfig.Normalized().Ok? ==> r == Ok(()) && irDeviceList == irConfig.Normalized().value
      ensures irConfig.Normalized().Err? ==> r == Err(irConfig.Normalized().error)
    {
      var normalized := irConfig.GetNormalizedIrDevices();
      if normalized.Err? {
        return Err(normalized.error);
      }
      irDeviceList := normalized.value;
      r := Ok(());
    }

    /** The outcome `findDeviceAndPortMapping(slot)` has in the current state. */
    function Mapping(slot: string): Result<(int, int)>
      reads this, mappingService, mappingService.table, mappingService.table.slots
    {
      if |mappingService.table.slots.contents| > 0 then
        match mappingService.GetMapping(slot)
        case Err(x) => Err(x)
        case Ok(deviceMappings) => ParseMapping(deviceMappings)
      else match ParseInt(slot)
        case Err(x) => Err(x)
        case Ok(slotOffset) => Locate(irDeviceList, 1, slotOffset)
    }

    /**
     * `findDeviceAndPortMapping(slot)`: the explicit mapping of the slot
     * when any slot is mapped, otherwise the counting loop over the devices.
     */
    method FindDeviceAndPortMapping(slot: string) returns (r: Result<(int, int)>)
      ensures r == Mapping(slot)
    {
      if |mappingService.table.slots.contents| > 0 {
        var deviceMappings := mappingService.GetMapping(slot);
        if deviceMappings.Err? {
          return Err(deviceMappings.error);
        }
        return ParseMapping(deviceMappings.value);
      }
      var parsed := ParseInt(slot);
      if parsed.Err? {
        return Err(parsed.error);
      }
      var deviceId := 1;
      var slotOffset := parsed.value;
      var i := 0;
      while i < |irDeviceList|
        invariant 0 <= i <= |irDeviceList|
        invariant Locate(irDeviceList, 1, parsed.value) == Locate(irDeviceList[i..], deviceId, slotOffset)
      {
        var currentDevice := irDeviceList[i];
        if slotOffset <= currentDevice.MaxPorts() {
          return Ok((deviceId, slotOffset));
        }
        assert irDeviceList[i..][1..] == irDeviceList[i + 1..];
        deviceId := deviceId + 1;
        slotOffset := slotOffset - currentDevice.MaxPorts();
        i := i + 1;
      }
      r := Err(IllegalState);
    }

    /**
     * `validateSlot(slot)`: false when no device has the slot, true when the
     * slot is found; the other failures (an unmapped slot, a slot or mapping
     * that is not a number) are not caught.
     */
    method ValidateSlot(slot: string) returns (r: Result<bool>)
      ensures r == Ok(true) <==> Mapping(slot).Ok?
      ensures r == Ok(false) <==> Mapping(slot) == Err(IllegalState)
      ensures r.Err? ==> Mapping(slot) == Err(r.error) && r.error != IllegalState
    {
      var found := FindDeviceAndPortMapping(slot);
      if found.Err? {
        if found.error == IllegalState {
          return Ok(false);
        }
        return Err(found.error);
      }
      r := Ok(true);
    }

    /** `validateDevice(device)`: a device number from 1 to the number of devices; a non-number throws. */
    function ValidateDevice(device: string): (r: Result<bool>)
      reads this
      ensures r.Ok? <==> ParseInt(device).Ok?
      ensures r == Ok(true) <==> ParseInt(device).Ok? && 1 <= ParseInt(device).value <= |irDeviceList|
    {
      match ParseInt(device)
      case Err(x) => Err(x)
      case Ok(deviceNum) => Ok(!(deviceNum - 1 < 0 || deviceNum - 1 >= |irDeviceList|))
    }

    /**
     * `deviceHasPort(deviceId, port)`: whether the port is between 1 and the
     * device's number of ports; a non-number throws NumberFormatException and
     * a device number outside the list IndexOutOfBoundsException.
     */
    function DeviceHasPort(deviceId: string, port: string): (r: Result<bool>)
      reads this
      ensures r.Ok? <==> ParseInt(port).Ok? && ParseInt(deviceId).Ok? && 1 <= ParseInt(deviceId).value <= |irDeviceList|
      ensures r == Ok(true) <==> (r.Ok? && 1 <= ParseInt(port).value <= irDeviceList[ParseInt(deviceId).value - 1].MaxPorts())
    {
      match ParseInt(port)
      case Err(x) => Err(x)
      case Ok(portNum) =>
        match ParseInt(deviceId)
        case Err(x) => Err(x)
        case Ok(id) =>
          if id - 1 < 0 || id - 1 >= |irDeviceList| then Err(IndexOutOfBounds)
          else Ok(1 <= portNum <= irDeviceList[id - 1].MaxPorts())
    }

    /** `findMaxPortsOfDevice(device)`: the device's number of ports, 0 for a device outside the list. */
    function FindMaxPortsOfDevice(device: string): (r: Result<int>)
      reads this
      ensures r.Ok? <==> ParseInt(device).Ok?
      ensures ValidateDevice(device) == Ok(true) ==> r == Ok(irDeviceList[ParseInt(device).value - 1].MaxPorts())
      ensures ValidateDevice(device) == Ok(false) ==> r == Ok(0)
    {
      match ValidateDevice(device)
      case Err(x) => Err(x)
      case Ok(valid) => if valid then Ok(irDeviceList[ParseInt(device).value - 1].MaxPorts()) else Ok(0)
    }

    /** `numSlots()`: the sum of the devices' port counts. */
    method NumSlots() returns (result: int)
      ensures result == SumPorts(irDeviceList)
    {
      result := 0;
      for i := 0 to |irDeviceList|
        invariant result == SumPorts(irDeviceList[..i])
      {
        assert irDeviceList[..i + 1][..i] == irDeviceList[..i];
        result := result + irDeviceList[i].MaxPorts();
      }
      assert irDeviceList[..|irDeviceList|] == irDeviceList;
    }

    /** `numDevices()`. */
    function NumDevices(): (n: nat)
      reads this
      ensures n == |irDeviceList|
    {
      |irDeviceList|
    }

    /**
     * `getRemote(deviceId, irPort, keyset)`: the remote of a device of a
     * fresh normalisation of the configuration.
     */
    method GetRemoteOfDevice(deviceId: int, irPort: int, keyset: string) returns (r: Result<RemoteRequest>)
      ensures irConfig.Normalized().Err? ==> r == Err(irConfig.Normalized().error)
      ensures irConfig.Normalized().Ok? ==> r == RemoteFor(irConfig.Normalized().value, deviceId, irPort, keyset)
    {
      var normalized := irConfig.GetNormalizedIrDevices();
      if normalized.Err? {
        return Err(normalized.error);
      }
      var devs := normalized.value;
      if deviceId <= 0 || deviceId > |devs| {
        return Err(IllegalArgument);
      }
      var irDevice := devs[deviceId - 1];
      r := Ok(RemoteRequest(FindIrRemoteType(irDevice.deviceType), irDevice.host, keyset, irPort));
    }

    /**
     * `getRemote(slot, keySet)`: no devices throws IllegalStateException;
     * otherwise the slot's device and port, then that device's remote.
     */
    method GetRemote(slot: string, keySet: string) returns (r: Result<RemoteRequest>)
      ensures irConfig.Normalized().Err? ==> r == Err(irConfig.Normalized().error)
      ensures irConfig.Normalized() == Ok([]) ==> r == Err(IllegalState)
      ensures irConfig.Normalized().Ok? && irConfig.Normalized() != Ok([]) ==>
        (Mapping(slot).Err? ==> r == Err(Mapping(slot).error))
        && (Mapping(slot).Ok? ==> r == RemoteFor(irConfig.Normalized().value, Mapping(slot).value.0, Mapping(slot).value.1, keySet))
    {
      var normalized := irConfig.GetNormalizedIrDevices();
      if normalized.Err? {
        return Err(normalized.error);
      }
      if normalized.value == [] {
        return Err(IllegalState);
      }
      var deviceAndPort := FindDeviceAndPortMapping(slot);
      if deviceAndPort.Err? {
        return Err(deviceAndPort.error);
      }
      r := GetRemoteOfDevice(deviceAndPort.value.0, deviceAndPort.value.1, keySet);
    }
  }

  /** The remote of device `deviceId` (counted from 1) of `devs`; a number outside the list throws. */
  function RemoteFor(devs: seq<Entry>, deviceId: int, irPort: int, keyset: string): (r: Result<RemoteRequest>)
    ensures r.Ok? <==> 1 <= deviceId <= |devs|
    ensures r.Err? ==> r.error == IllegalArgument
    ensures r.Ok? ==> r.value.host == devs[deviceId - 1].host && r.value.port == irPort && r.value.keySet == keyset
    ensures r.Ok? ==> r.value.hwType == FindIrRemoteType(devs[deviceId - 1].deviceType)
  {
    if deviceId <= 0 || deviceId > |devs| then Err(IllegalArgument)
    else Ok(RemoteRequest(FindIrRemoteType(devs[deviceId - 1].deviceType), devs[deviceId - 1].host, keyset, irPort))
  }

  /**
   * Without explicit mappings, every slot from 1 to the total number of
   * ports reaches a remote on a port the device has, as long as the
   * processor's list is the configuration's normalisation.
   */
  lemma SlotInRangeGetsRemote(devs: seq<Entry>, s: int, keySet: string)
    requires 1 <= s <= SumPorts(devs)
    ensures devs != [] && Locate(devs, 1, s).Ok?
    ensures var (d, p) := Locate(devs, 1, s).value;
      RemoteFor(devs, d, p, keySet).Ok? && 1 <= p <= devs[d - 1].MaxPorts()
  {
    LocateComplete(devs, 1, s);
    LocateSound(devs, 1, s);
  }
}
