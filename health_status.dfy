/**
 * `HealthStatusBean`: the health report of the service. It folds the hub's
 * `HubHealthBean` and the Global Caché dispatcher's health answer into one
 * healthy flag, one report per hardware device and one report per
 * dependency that was asked.
 */
module HealthStatus {
  import opened Wrappers
  import opened JavaText
  import opened HubHealth

  /** `GCDeviceHealthBean`: the error list stays null when the answer has none. */
  datatype GcDeviceHealth = GcDeviceHealth(available: bool, errors: Option<seq<string>>)

  /** `GCDeviceBean`, as far as the report reads it: the health stays null when the answer has none. */
  datatype GcDevice = GcDevice(host: string, port: int, activeConnections: int, version: Option<string>,
                               gcHealth: Option<GcDeviceHealth>)

  /** `GCDispatcherHealthDataBean`: the device list may be absent from the answer. */
  datatype GcHealthData = GcHealthData(devices: Option<seq<GcDevice>>)

  /** `GCDispatcherHealthBean`: no result when the dispatcher did not answer. */
  datatype GcHealthBean = GcHealthBean(result: Option<GcHealthData>)
  {
    predicate IsHealthy() { result.Some? }
  }

  /** `HealthReport`, one constructor per kind of entity it describes. */
  datatype Report =
    | DeviceReport(entity: string, healthy: bool, host: string, firmware: Option<string>,
                   mac: string, hardwareType: Option<string>)
    | GcDeviceReport(entity: string, healthy: bool, host: string, deviceId: string, firmware: Option<string>,
                     port: string, activeConnections: string, errors: Option<string>)
    | HubReport(entity: string, healthy: bool, version: Option<map<string, string>>)
    | DispatcherReport(entity: string, healthy: bool, remarks: Option<string>)

  const NO_ANSWER: string := "Did not receive health status from GCDispatcherService"

  /** `HealthReport(RedRatDeviceBean)`. */
  function DeviceReportOf(d: DeviceBean): (r: Report)
    ensures r.healthy <==> Connected(d.status)
  {
    DeviceReport(d.deviceType, Connected(d.status), d.ip, d.firmwareVersion, d.mac, d.hardwareType)
  }

  /** A device entry whose health and error list are both present. */
  predicate Readable(g: GcDevice)
  {
    g.gcHealth.Some? && g.gcHealth.value.errors.Some?
  }

  /**
   * The fields `HealthReport(GCDeviceBean, count)` fills in, with an absent
   * health read as unavailable. The "Errors" entry is written only when the
   * error list is empty, as `String.valueOf` of that list: "[]".
   */
  function GcDeviceReportOf(g: GcDevice, count: nat): Report
  {
    var healthy := g.gcHealth.Some? && g.gcHealth.value.available;
    var errors := if g.gcHealth.Some? && g.gcHealth.value.errors == Some([]) then Some("[]") else None;
    GcDeviceReport("iTach" + IntToString(count), healthy, g.host, IntToString(count), g.version,
                   IntToString(g.port), IntToString(g.activeConnections), errors)
  }

  /**
   * `HealthReport(GCDeviceBean, count)`: the device is named and numbered by
   * its place in the list; a device without health, or whose health has no
   * error list, is a NullPointerException.
   */
  function GcReportOf(g: GcDevice, count: nat): (r: Result<Report>)
    ensures r.Err? <==> !Readable(g)
    ensures r.Err? ==> r.error == NullPointer
    ensures r.Ok? ==>
      r.value.GcDeviceReport? && r.value.entity == "iTach" + IntToString(count) && r.value.deviceId == IntToString(count) &&
      r.value.healthy == g.gcHealth.value.available && r.value.host == g.host
    ensures r.Ok? ==>
      (r.value.errors.Some? <==> g.gcHealth.value.errors.value == []) &&
      (r.value.errors.Some? ==> r.value.errors.value == "[]")
  {
    if Readable(g) then Ok(GcDeviceReportOf(g, count)) else Err(NullPointer)
  }

  /** `HealthReport(HubHealthBean)`. */
  function HubReportOf(h: HubHealthBean): (r: Report)
    ensures r.healthy == h.hubUp && r.entity == "RedRatHub"
  {
    HubReport("RedRatHub", h.hubUp, h.hubVersion)
  }

  /** `HealthReport(GCDispatcherHealthBean)`: a missing result is remarked on. */
  function DispatcherReportOf(gc: GcHealthBean): (r: Report)
    ensures r.healthy == gc.IsHealthy() && r.entity == "GC Dispatcher Service"
    ensures r.DispatcherReport? && (r.remarks.Some? <==> !gc.IsHealthy())
  {
    DispatcherReport("GC Dispatcher Service", gc.IsHealthy(), if gc.result.None? then Some(NO_ANSWER) else None)
  }

  /**
   * `getMicroServiceVersion()` over what reading the manifest gave: its
   * Implementation-Version (None: absent), or Err when it could not be read.
   */
  function MicroServiceVersion(manifest: Result<Option<string>>): (r: string)
    ensures manifest.Err? ==> r == "NA"
    ensures manifest.Ok? && manifest.value.Some? && manifest.value.value != "" ==> r == manifest.value.value
    ensures manifest.Ok? && (manifest.value.None? || manifest.value.value == "") ==> r == "development"
    ensures r != ""
  {
    if manifest.Err? then "NA"
    else if manifest.value.None? || manifest.value.value == "" then "development"
    else manifest.value.value
  }

  /** The healthy flag before any device is looked at. */
  function StartHealthy(hub: Option<HubHealthBean>, gc: Option<GcHealthBean>): bool
  {
    if hub.Some? && gc.Some? then hub.value.hubUp && gc.value.IsHealthy()
    else if hub.Some? then hub.value.hubUp
    else if gc.Some? then gc.value.IsHealthy()
    else false
  }

  predicate AllConnected(ds: seq<DeviceBean>)
  {
    forall k :: 0 <= k < |ds| ==> Connected(ds[k].status)
  }

  function DeviceReports(ds: seq<DeviceBean>): (r: seq<Report>)
    ensures |r| == |ds|
  {
    seq(|ds|, k requires 0 <= k < |ds| => DeviceReportOf(ds[k]))
  }

  /** One more device gives one more report and one more status to check. */
  lemma DeviceReportsSnoc(ds: seq<DeviceBean>, i: nat)
    requires i < |ds|
    ensures DeviceReports(ds[..i + 1]) == DeviceReports(ds[..i]) + [DeviceReportOf(ds[i])]
    ensures AllConnected(ds[..i + 1]) == (AllConnected(ds[..i]) && Connected(ds[i].status))
  {
    assert ds[..i + 1][..i] == ds[..i];
  }

  /** The dispatcher's devices, numbered from `first`. */
  function GcReports(gs: seq<GcDevice>, first: nat): (r: seq<Report>)
    ensures |r| == |gs|
  {
    seq(|gs|, k requires 0 <= k < |gs| => GcDeviceReportOf(gs[k], first + k))
  }

  predicate AllReadable(gs: seq<GcDevice>)
  {
    forall k :: 0 <= k < |gs| ==> Readable(gs[k])
  }

  /** The three results the constructor fills in. */
  datatype Status = Status(isHealthy: bool, hwDevicesHealthStatus: seq<Report>, dependenciesHealthStatus: seq<Report>)

  /** The hub's device list, with an absent one read as empty. */
  function HubDevices(hub: Option<HubHealthBean>): seq<DeviceBean>
  {
    if hub.Some? && hub.value.devices.Some? then hub.value.devices.value else []
  }

  /** The dispatcher's device list, with an absent one read as empty. */
  function GcDevices(gc: Option<GcHealthBean>): seq<GcDevice>
  {
    if gc.Some? && gc.value.result.Some? && gc.value.result.value.devices.Some? then gc.value.result.value.devices.value else []
  }

  /** The status built from both lists. */
  function Assemble(hub: Option<HubHealthBean>, gc: Option<GcHealthBean>): Status
  {
    Status(StartHealthy(hub, gc) && AllConnected(HubDevices(hub)),
           DeviceReports(HubDevices(hub)) + GcReports(GcDevices(gc), 1),
           (if hub.Some? then [HubReportOf(hub.value)] else []) + (if gc.Some? then [DispatcherReportOf(gc.value)] else []))
  }

  /** A hub bean whose device list is null: `process` failed before setting it. */
  predicate HubListMissing(hub: Option<HubHealthBean>)
  {
    hub.Some? && hub.value.devices.None?
  }

  /** A dispatcher answer with no result, or a result without a device list. */
  predicate GcListMissing(gc: Option<GcHealthBean>)
  {
    gc.Some? && (gc.value.result.None? || gc.value.result.value.devices.None?)
  }

  /** A dispatcher device list with an entry the report cannot read. */
  predicate GcDeviceUnreadable(gc: Option<GcHealthBean>)
  {
    gc.Some? && !GcListMissing(gc) && !AllReadable(GcDevices(gc))
  }

  /**
   * The constructor as written: it walks both device lists, so a present bean
   * whose list is null, or a dispatcher device without health or error list,
   * throws a NullPointerException.
   */
  function StatusOf(hub: Option<HubHealthBean>, gc: Option<GcHealthBean>): (r: Result<Status>)
    ensures r.Err? <==> HubListMissing(hub) || GcListMissing(gc) || GcDeviceUnreadable(gc)
    ensures r.Err? ==> r.error == NullPointer
  {
    if HubListMissing(hub) || GcListMissing(gc) || GcDeviceUnreadable(gc) then Err(NullPointer) else Ok(Assemble(hub, gc))
  }

  /**
   * The report is healthy exactly when some dependency was asked, the hub
   * (if asked) is up with every device connected, and the dispatcher (if
   * asked) answered.
   */
  lemma StatusHealthy(hub: Option<HubHealthBean>, gc: Option<GcHealthBean>)
    requires StatusOf(hub, gc).Ok?
    ensures StatusOf(hub, gc).value.isHealthy <==>
      (hub.Some? || gc.Some?) &&
      (hub.Some? ==> hub.value.hubUp && forall d :: d in hub.value.devices.value ==> Connected(d.status)) &&
      (gc.Some? ==> gc.value.IsHealthy())
  {
    if hub.Some? && !AllConnected(hub.value.devices.value) {
      var k :| 0 <= k < |hub.value.devices.value| && !Connected(hub.value.devices.value[k].status);
      assert hub.value.devices.value[k] in hub.value.devices.value;
    }
  }

  /**
   * The hardware reports: one per hub device, in order, saying whether it is
   * connected; then one per dispatcher device, named "iTach1", "iTach2", ...
   */
  lemma {:induction false} HardwareReports(devices: seq<DeviceBean>, gcDevices: seq<GcDevice>)
    ensures var r := DeviceReports(devices) + GcReports(gcDevices, 1);
      |r| == |devices| + |gcDevices| &&
      (forall k :: 0 <= k < |devices| ==>
         r[k].DeviceReport? && r[k].host == devices[k].ip && (r[k].healthy <==> Connected(devices[k].status))) &&
      (forall k :: 0 <= k < |gcDevices| ==>
         r[|devices| + k].entity == "iTach" + IntToString(k + 1) && r[|devices| + k].host == gcDevices[k].host &&
         (Readable(gcDevices[k]) ==> Ok(r[|devices| + k]) == GcReportOf(gcDevices[k], k + 1)))
  {
    var r := DeviceReports(devices) + GcReports(gcDevices, 1);
    forall k | 0 <= k < |gcDevices|
      ensures r[|devices| + k] == GcDeviceReportOf(gcDevices[k], k + 1)
    {
    }
  }

  /** The report lists of a status the constructor completes, and one dependency report per bean given. */
  lemma StatusReports(hub: Option<HubHealthBean>, gc: Option<GcHealthBean>)
    requires StatusOf(hub, gc).Ok?
    ensures StatusOf(hub, gc).value.hwDevicesHealthStatus == DeviceReports(HubDevices(hub)) + GcReports(GcDevices(gc), 1)
    ensures |StatusOf(hub, gc).value.dependenciesHealthStatus| == (if hub.Some? then 1 else 0) + (if gc.Some? then 1 else 0)
    ensures hub.Some? ==> StatusOf(hub, gc).value.dependenciesHealthStatus[0] == HubReportOf(hub.value)
  {
  }

  /** A hub bean left by a failed `process` makes the constructor throw. */
  lemma HubDownFails(version: Option<map<string, string>>, keysets: Option<seq<string>>, gc: Option<GcHealthBean>)
    ensures StatusOf(Some(HubHealthBean(version, keysets, None, false)), gc) == Err(NullPointer)
  {
  }

  /** A dispatcher that did not answer makes the constructor throw. */
  lemma DispatcherDownFails(hub: Option<HubHealthBean>)
    ensures StatusOf(hub, Some(GcHealthBean(None))) == Err(NullPointer)
  {
  }

  /**
   * A dispatcher device without health makes the constructor throw, even
   * when the hub's part is fine.
   */
  lemma UnreadableDeviceFails(hub: Option<HubHealthBean>, g: GcDevice)
    requires g.gcHealth.None?
    ensures StatusOf(hub, Some(GcHealthBean(Some(GcHealthData(Some([g])))))) == Err(NullPointer)
  {
    var gc := Some(GcHealthBean(Some(GcHealthData(Some([g])))));
    assert !Readable(GcDevices(gc)[0]);
  }

  /** The constructor with absent lists read as empty and absent device health as unavailable: it always reports. */
  function StatusGuarded(hub: Option<HubHealthBean>, gc: Option<GcHealthBean>): (r: Status)
    ensures StatusOf(hub, gc).Ok? ==> StatusOf(hub, gc).value == r
  {
    Assemble(hub, gc)
  }

  /** With the guard, a hub that is down is reported as such and the service as unhealthy. */
  lemma GuardedHubDown(hub: HubHealthBean, gc: Option<GcHealthBean>)
    requires !hub.hubUp
    ensures var s := StatusGuarded(Some(hub), gc);
      !s.isHealthy && s.dependenciesHealthStatus[0] == HubReport("RedRatHub", false, hub.hubVersion)
  {
  }

  /** With the guard, a dispatcher that did not answer is reported with its remark and the service as unhealthy. */
  lemma GuardedDispatcherDown(hub: Option<HubHealthBean>)
    ensures var s := StatusGuarded(hub, Some(GcHealthBean(None)));
      !s.isHealthy && |s.dependenciesHealthStatus| >= 1 &&
      s.dependenciesHealthStatus[|s.dependenciesHealthStatus| - 1] ==
        DispatcherReport("GC Dispatcher Service", false, Some(NO_ANSWER))
  {
  }

  class HealthStatusBean {
    var version: map<string, string>
    var isHealthy: bool
    var hwDevicesHealthStatus: seq<Report>
    var dependenciesHealthStatus: seq<Report>

    function Value(): Status
      reads this
    {
      Status(isHealthy, hwDevicesHealthStatus, dependenciesHealthStatus)
    }

    /** The start of the constructor: the version map holds the service's version under "MS_VERSION". */
    constructor (msVersion: string)
      ensures version == map["MS_VERSION" := msVersion]
      ensures !isHealthy && hwDevicesHealthStatus == [] && dependenciesHealthStatus == []
    {
      version := map["MS_VERSION" := msVersion];
      isHealthy := false;
      hwDevicesHealthStatus := [];
      dependenciesHealthStatus := [];
    }

    /** The rest of the constructor: the healthy flag, then the hub's devices, then the dispatcher's. */
    method Aggregate(hub: Option<HubHealthBean>, gc: Option<GcHealthBean>) returns (r: Result<()>)
      modifies this`isHealthy, this`hwDevicesHealthStatus, this`dependenciesHealthStatus
      ensures r.Err? <==> HubListMissing(hub) || GcListMissing(gc) || GcDeviceUnreadable(gc)
      ensures r.Err? ==> r.error == NullPointer
      ensures r.Ok? ==> Value() == StatusOf(hub, gc).value
    {
      hwDevicesHealthStatus := [];
      isHealthy := StartHealthy(hub, gc);
      dependenciesHealthStatus := [];
      if hub.Some? {
        if hub.value.devices.None? {
          return Err(NullPointer);
        }
        AddHubDevices(hub.value.devices.value);
        dependenciesHealthStatus := dependenciesHealthStatus + [HubReportOf(hub.value)];
      }
      if gc.Some? {
        if gc.value.result.None? || gc.value.result.value.devices.None? {
          return Err(NullPointer);
        }
        var added := AddGcDevices(gc.value.result.value.devices.value);
        if added.Err? {
          return Err(added.error);
        }
        dependenciesHealthStatus := dependenciesHealthStatus + [DispatcherReportOf(gc.value)];
      }
      r := Ok(());
    }

    /** The `forEach` over the hub's devices: a report each, and any device not connected clears the flag. */
    method AddHubDevices(devices: seq<DeviceBean>)
      modifies this`isHealthy, this`hwDevicesHealthStatus
      ensures hwDevicesHealthStatus == old(hwDevicesHealthStatus) + DeviceReports(devices)
      ensures isHealthy == (old(isHealthy) && AllConnected(devices))
    {
      for i := 0 to |devices|
        invariant hwDevicesHealthStatus == old(hwDevicesHealthStatus) + DeviceReports(devices[..i])
        invariant isHealthy == (old(isHealthy) && AllConnected(devices[..i]))
      {
        DeviceReportsSnoc(devices, i);
        hwDevicesHealthStatus := hwDevicesHealthStatus + [DeviceReportOf(devices[i])];
        if !Connected(devices[i].status) {
          isHealthy := false;
        }
      }
      assert devices[..|devices|] == devices;
    }

    /**
     * The `forEach` over the dispatcher's devices, numbering them with a
     * counter that starts at 1; the first device the report cannot read
     * throws, after the reports of the devices before it.
     */
    method AddGcDevices(gcDevices: seq<GcDevice>) returns (r: Result<()>)
      modifies this`hwDevicesHealthStatus
      ensures r.Err? <==> !AllReadable(gcDevices)
      ensures r.Err? ==> r.error == NullPointer
      ensures r.Ok? ==> hwDevicesHealthStatus == old(hwDevicesHealthStatus) + GcReports(gcDevices, 1)
      ensures r.Err? ==>
        exists k :: 0 <= k < |gcDevices| && !Readable(gcDevices[k]) && AllReadable(gcDevices[..k]) &&
                    hwDevicesHealthStatus == old(hwDevicesHealthStatus) + GcReports(gcDevices[..k], 1)
    {
      var counter := 0;
      for i := 0 to |gcDevices|
        invariant counter == i
        invariant AllReadable(gcDevices[..i])
        invariant hwDevicesHealthStatus == old(hwDevicesHealthStatus) + GcReports(gcDevices[..i], 1)
      {
        counter := counter + 1;
        var report := GcReportOf(gcDevices[i], counter);
        if report.Err? {
          return Err(report.error);
        }
        assert GcReports(gcDevices[..i + 1], 1) == GcReports(gcDevices[..i], 1) + [report.value];
        hwDevicesHealthStatus := hwDevicesHealthStatus + [report.value];
      }
      assert gcDevices[..|gcDevices|] == gcDevices;
      r := Ok(());
    }
  }

  /** `new HealthStatusBean(hubHealthBean, gcDispatcherHealthBean)`, with the version already read. */
  method NewHealthStatusBean(hub: Option<HubHealthBean>, gc: Option<GcHealthBean>, msVersion: string)
    returns (r: Result<HealthStatusBean>)
    ensures r.Err? <==> HubListMissing(hub) || GcListMissing(gc) || GcDeviceUnreadable(gc)
    ensures r.Err? ==> r.error == NullPointer
    ensures r.Ok? ==> r.value.version == map["MS_VERSION" := msVersion] && r.value.Value() == StatusOf(hub, gc).value
  {
    var bean := new HealthStatusBean(msVersion);
    var aggregated := bean.Aggregate(hub, gc);
    if aggregated.Err? {
      return Err(aggregated.error);
    }
    r := Ok(bean);
  }
}
