/**
 * `DependencyHealthCheck`: which external services the health report has
 * to ask. The Global Caché dispatcher is needed when some configured device
 * is an iTach or a GC100; the RedRat hub when its host and port are set.
 */
module Dependencies {
  import opened Wrappers
  import opened JavaText
  import Config

  /** A device type the Global Caché dispatcher drives: "itach" or "gc100" in any case, and nothing longer. */
  predicate IsDispatcherType(deviceType: string)
    ensures IsDispatcherType(deviceType) ==> |deviceType| == 5
  {
    ToUpper(deviceType) == "ITACH" || ToUpper(deviceType) == "GC100"
  }

  /** `IsDispatcherType` is the stream's `equalsIgnoreCase("itach") || equalsIgnoreCase("gc100")`. */
  lemma DispatcherTypeIgnoringCase(deviceType: string)
    ensures IsDispatcherType(deviceType) <==>
      EqualsIgnoreCase(deviceType, "itach") || EqualsIgnoreCase(deviceType, "gc100")
  {
    var itach := ToUpper("itach");
    assert itach[0] == 'I' && itach[1] == 'T' && itach[2] == 'A' && itach[3] == 'C' && itach[4] == 'H';
    assert itach == "ITACH";
    var gc100 := ToUpper("gc100");
    assert gc100[0] == 'G' && gc100[1] == 'C' && gc100[2] == '1' && gc100[3] == '0' && gc100[4] == '0';
    assert gc100 == "GC100";
  }

  /** A suffix keeps a type from counting: "gc100_12" is not a dispatcher type. */
  lemma SuffixedTypeNotDispatched()
    ensures !IsDispatcherType("gc100_12")
  {
  }

  /**
   * The `anyMatch` over the normalized devices: true at the first dispatcher
   * device; a device without a type before that one is a NullPointerException.
   */
  function AnyDispatcher(devices: seq<Config.Entry>): (r: Result<bool>)
    ensures r.Err? ==> r.error == NullPointer
  {
    if devices == [] then Ok(false)
    else if devices[0].deviceType.None? then Err(NullPointer)
    else if Dispatched(devices[0]) then Ok(true)
    else AnyDispatcher(devices[1..])
  }

  /** A device the dispatcher drives. */
  predicate Dispatched(device: Config.Entry) {
    device.deviceType.Some? && IsDispatcherType(device.deviceType.value)
  }

  /** No device before position `k` lacks a type or is driven by the dispatcher. */
  predicate PlainBefore(devices: seq<Config.Entry>, k: int)
    requires 0 <= k <= |devices|
  {
    forall j :: 0 <= j < k ==> devices[j].deviceType.Some? && !Dispatched(devices[j])
  }

  /** The stream is true exactly when a dispatcher device comes before any device without a type. */
  lemma {:induction false} AnyDispatcherTrue(devices: seq<Config.Entry>)
    ensures AnyDispatcher(devices) == Ok(true) <==>
      exists k :: 0 <= k < |devices| && PlainBefore(devices, k) && Dispatched(devices[k])
  {
    if devices != [] && devices[0].deviceType.Some? && !Dispatched(devices[0]) {
      var rest := devices[1..];
      AnyDispatcherTrue(rest);
      if AnyDispatcher(devices) == Ok(true) {
        var k :| 0 <= k < |rest| && PlainBefore(rest, k) && Dispatched(rest[k]);
        assert PlainBefore(devices, k + 1);
      }
      if exists k :: 0 <= k < |devices| && PlainBefore(devices, k) && Dispatched(devices[k]) {
        var k :| 0 <= k < |devices| && PlainBefore(devices, k) && Dispatched(devices[k]);
        assert PlainBefore(rest, k - 1);
      }
    } else if devices != [] && devices[0].deviceType.Some? {
      assert PlainBefore(devices, 0);
    }
  }

  /** The stream is false exactly when every device has a type and none is a dispatcher device. */
  lemma {:induction false} AnyDispatcherFalse(devices: seq<Config.Entry>)
    ensures AnyDispatcher(devices) == Ok(false) <==> PlainBefore(devices, |devices|)
  {
    if devices != [] && devices[0].deviceType.Some? && !Dispatched(devices[0]) {
      var rest := devices[1..];
      AnyDispatcherFalse(rest);
      if PlainBefore(devices, |devices|) {
        assert PlainBefore(rest, |rest|);
      }
    }
  }

  class DependencyHealthCheck {
    var checkGCDispatcherHealth: Option<bool>   // a Boolean that stays null until `init`
    var checkHubHealth: Option<bool>

    constructor ()
      ensures checkGCDispatcherHealth.None? && checkHubHealth.None?
    {
      checkGCDispatcherHealth := None;
      checkHubHealth := None;
    }

    /**
     * `init()`: the dispatcher flag from the normalized devices, then the hub
     * flag from the hub host and port. A failure on the way leaves both as they were.
     */
    method Init(irConfiguration: Config.IRConfiguration) returns (r: Result<()>)
      modifies this
      ensures irConfiguration.Normalized().Err? ==>
        r == Err(irConfiguration.Normalized().error) && unchanged(this)
      ensures irConfiguration.Normalized().Ok? ==>
        var any := AnyDispatcher(irConfiguration.Normalized().value);
        (any.Err? ==> r == Err(NullPointer) && unchanged(this)) &&
        (any.Ok? ==>
           r.Ok? && checkGCDispatcherHealth == Some(any.value) &&
           checkHubHealth == Some(irConfiguration.redRatHubHost.Some? && irConfiguration.redRatHubPort.Some?))
    {
      var hubIp := irConfiguration.redRatHubHost;
      var hubPort := irConfiguration.redRatHubPort;
      var devices := irConfiguration.GetNormalizedIrDevices();
      if devices.Err? {
        return Err(devices.error);
      }
      var any := MatchAny(devices.value);
      if any.Err? {
        return Err(any.error);
      }
      checkGCDispatcherHealth := Some(any.value);
      checkHubHealth := Some(hubIp.Some? && hubPort.Some?);
      r := Ok(());
    }

    /** `checkGCDispatcherHealth()`: unboxing the flag before `init` is a NullPointerException. */
    function CheckGCDispatcherHealth(): (r: Result<bool>)
      reads this
      ensures r.Ok? <==> checkGCDispatcherHealth.Some?
      ensures r.Ok? ==> r.value == checkGCDispatcherHealth.value
    {
      if checkGCDispatcherHealth.Some? then Ok(checkGCDispatcherHealth.value) else Err(NullPointer)
    }

    /** `checkHubHealth()`: likewise for the hub flag. */
    function CheckHubHealth(): (r: Result<bool>)
      reads this
      ensures r.Ok? <==> checkHubHealth.Some?
      ensures r.Ok? ==> r.value == checkHubHealth.value
    {
      if checkHubHealth.Some? then Ok(checkHubHealth.value) else Err(NullPointer)
    }
  }

  /** The short-circuiting stream walk over the devices. */
  method MatchAny(devices: seq<Config.Entry>) returns (r: Result<bool>)
    ensures r == AnyDispatcher(devices)
  {
    for i := 0 to |devices|
      invariant AnyDispatcher(devices) == AnyDispatcher(devices[i..])
    {
      assert devices[i..][1..] == devices[i + 1..];
      if devices[i].deviceType.None? {
        return Err(NullPointer);
      }
      if Dispatched(devices[i]) {
        return Ok(true);
      }
    }
    r := Ok(false);
  }

  /** After `init`, the getters give the flags it computed. */
  method InitThenCheck(irConfiguration: Config.IRConfiguration) returns (gc: Result<bool>, hub: Result<bool>)
    ensures irConfiguration.Normalized().Ok? && AnyDispatcher(irConfiguration.Normalized().value).Ok? ==>
      gc == AnyDispatcher(irConfiguration.Normalized().value) &&
      hub == Ok(irConfiguration.redRatHubHost.Some? && irConfiguration.redRatHubPort.Some?)
    ensures !(irConfiguration.Normalized().Ok? && AnyDispatcher(irConfiguration.Normalized().value).Ok?) ==>
      gc == Err(NullPointer) && hub == Err(NullPointer)
  {
    var check := new DependencyHealthCheck();
    var _ := check.Init(irConfiguration);
    gc := check.CheckGCDispatcherHealth();
    hub := check.CheckHubHealth();
  }
}
