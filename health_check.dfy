/**
 * `HubHealthCheck`, the service that queries the RedRat hub for its health:
 * it borrows a communicator from the hub connection pool for every query,
 * sends the command of the request with the request's terminator, returns
 * the communicator and parses the answers into a `HubHealthBean`.
 */
module HealthCheck {
  import opened Wrappers
  import opened JavaText
  import Telnet
  import Hub
  import Dependencies
  import opened HubHealth

  /** The objects a query may change: the pool, its factory and the idle communicators. */
  ghost function Footprint(p: Hub.HubConnectionPool?): set<object>
    reads p
  {
    if p == null then {} else {p as object, p.maker as object} + set c | c in p.idle :: c as object
  }

  /**
   * A communicator as an exchange sees it: the lines still to come, whether
   * its session is open, and whether `connect` reaches the hub.
   */
  datatype Peer = Peer(incoming: seq<string>, connected: bool, reachable: bool)

  ghost function PeerOf(c: Hub.Communicator): Peer
    reads c
  {
    Peer(c.incoming, c.connected, c.reachable)
  }

  /** The communicator the pool lends next: the first idle one, else a new one from the factory. */
  ghost function NextPeer(p: Hub.HubConnectionPool): Peer
    reads p, p.maker, p.idle
  {
    if |p.idle| > 0 then PeerOf(p.idle[0]) else Peer(p.maker.script, false, p.maker.reachable)
  }

  /** The commands written so far by the communicator the pool lends next. */
  ghost function NextSent(p: Hub.HubConnectionPool): seq<string>
    reads p, p.idle
  {
    if |p.idle| > 0 then p.idle[0].sent else []
  }

  /**
   * A pool that lends one communicator over and over: it holds one idle
   * communicator, or none and may still make one. What it lends goes back
   * to it, so every query of `process` talks to that one communicator.
   */
  ghost predicate Solo(p: Hub.HubConnectionPool)
    reads p
  {
    |p.idle| == 1 || (|p.idle| == 0 && p.made < p.maxTotal)
  }

  /**
   * One query to a communicator whose reads answer, framed by `endChar`:
   * the pool connects it when it is lent; a connected one answers what
   * `readUntil` frames from its lines and stays open exactly when that
   * answer is not null; one that cannot connect answers "" and reads nothing.
   */
  function Exchange(peer: Peer, endChar: string): (r: (Option<string>, Peer))
    ensures r.1.reachable == peer.reachable
    ensures !(peer.connected || peer.reachable) ==> r == (Some(""), peer)
  {
    if peer.connected || peer.reachable then
      var (answer, used) := Telnet.Frame(peer.incoming, endChar, None, false);
      (answer, Peer(peer.incoming[used..], answer.Some?, peer.reachable))
    else (Some(""), peer)
  }

  /**
   * What one exchange did to the communicator `c`, which had written `sent0`
   * and was in state `peer0` when it was lent: when it could connect, the
   * command was written and, when its reads fail (`readFails0`), the
   * exception was caught, nothing was read and the reply is ""; otherwise
   * the reply and the new state are those of `Exchange`.
   */
  ghost predicate Exchanged(c: Hub.Communicator, command: string, endChar: string, reply: Option<string>,
                            sent0: seq<string>, peer0: Peer, readFails0: bool)
    reads c
  {
    var live := peer0.connected || peer0.reachable;
    c.sent == sent0 + (if live then [command] else []) &&
    if live && readFails0 then reply == Some("") && PeerOf(c) == peer0.(connected := true)
    else (reply, PeerOf(c)) == Exchange(peer0, endChar)
  }

  /**
   * The per-device queries of `process` put to one communicator in state
   * `peer`: every connected device is asked for its firmware version, then
   * its hardware type, each answer framed as one line; the others are left
   * as they are. Also the communicator's state after the last query.
   */
  function Queried(ds: seq<DeviceBean>, peer: Peer): (r: (seq<DeviceBean>, Peer))
    ensures |r.0| == |ds|
    ensures forall k :: 0 <= k < |ds| && !Connected(ds[k].status) ==> r.0[k] == ds[k]
    ensures r.1.reachable == peer.reachable
    decreases |ds|
  {
    if ds == [] then ([], peer)
    else
      var (device, p1) := QueryOne(ds[0], peer);
      var (rest, p2) := Queried(ds[1..], p1);
      ([device] + rest, p2)
  }

  /** The queries about one device: its firmware version, then its hardware type, when it is connected. */
  function QueryOne(d: DeviceBean, peer: Peer): (r: (DeviceBean, Peer))
    ensures r.0 == d.(firmwareVersion := r.0.firmwareVersion, hardwareType := r.0.hardwareType)
    ensures !Connected(d.status) ==> r == (d, peer)
    ensures r.1.reachable == peer.reachable
  {
    if Connected(d.status) then
      var (firmware, p1) := Exchange(peer, LINE);
      var (hardware, p2) := Exchange(p1, LINE);
      (d.(firmwareVersion := firmware, hardwareType := hardware), p2)
    else (d, peer)
  }

  /** Peeling the query of the device at `i` off the queries of the devices from `i` on. */
  lemma QueriedStep(ds: seq<DeviceBean>, i: nat, done: seq<DeviceBean>, peer: Peer)
    requires i < |ds|
    ensures done + Queried(ds[i..], peer).0 ==
            (done + [QueryOne(ds[i], peer).0]) + Queried(ds[i + 1..], QueryOne(ds[i], peer).1).0
  {
    assert ds[i..][1..] == ds[i + 1..];
  }

  /**
   * The first two queries of `process` put to one communicator in state
   * `peer`: the hub version, kept once it parses, then the keysets, kept
   * once they parse; and, when both did, the communicator's state after them.
   */
  function Header(peer: Peer): (r: (HubHealthBean, Option<Peer>))
    ensures !r.0.hubUp && r.0.devices.None?
    ensures r.0.keysets.Some? ==> r.0.hubVersion.Some?
    ensures r.1.Some? <==> r.0.keysets.Some?
    ensures r.1.Some? ==> r.1.value.reachable == peer.reachable
  {
    var (version, p1) := Exchange(peer, ")");
    if version.None? || HubVersionOf(version.value).Err? then (HubHealthBean(None, None, None, false), None)
    else
      var withVersion := HubHealthBean(Some(HubVersionOf(version.value).value), None, None, false);
      var (keysets, p2) := Exchange(p1, "}");
      if keysets.None? || ParseKeysets(keysets.value).Err? then (withVersion, None)
      else (withVersion.(keysets := Some(ParseKeysets(keysets.value).value)), Some(p2))
  }

  /**
   * What `process` reports for a hub whose pool lends one communicator, in
   * state `peer`, whose reads answer: the header, then the device list and
   * the per-device queries; the hub is up exactly when the device list
   * parses, and each query runs only when the one before it succeeded.
   */
  function Report(peer: Peer): (r: HubHealthBean)
    ensures r.devices.Some? <==> r.hubUp
    ensures r.hubUp ==> r.keysets.Some?
    ensures r.keysets.Some? ==> r.hubVersion.Some?
  {
    var (bean, next) := Header(peer);
    if next.None? then bean else Listed(bean, next.value)
  }

  /**
   * The last queries of `process` put to one communicator in state `peer`,
   * after the header gave `bean`: the device list, and once it parses the
   * per-device queries, with the hub up.
   */
  function Listed(bean: HubHealthBean, peer: Peer): (r: HubHealthBean)
    ensures r == bean || (r.hubUp && r.devices.Some? && r == bean.(devices := r.devices, hubUp := true))
  {
    var (list, p3) := Exchange(peer, "}");
    if list.None? || DevicesOf(list.value).Err? then bean
    else bean.(devices := Some(Queried(DevicesOf(list.value).value, p3).0), hubUp := true)
  }

  /** No communicator the pool holds or will make has a failing read. */
  ghost predicate ReadsAnswer(p: Hub.HubConnectionPool)
    reads p, p.maker, p.idle
  {
    !p.maker.readFails && forall c :: c in p.idle ==> !c.readFails
  }

  /**
   * How many borrowed communicators a failed read leaves out of the pool:
   * the error log borrows one for the host and, when that one was lent, one
   * for the port, and neither goes back; `avail` is what the pool could
   * lend before the first borrow.
   */
  function Leaked(avail: int): (n: int)
    ensures avail >= 2 ==> n == 2
    ensures avail < 2 ==> n == 1
  {
    if avail >= 2 then 2 else 1
  }

  /** The pool after one exchange that could borrow: the communicator is back at the end of the idle list. */
  ghost predicate Returned(p: Hub.HubConnectionPool, idle0: seq<Hub.Communicator>)
    reads p
  {
    |p.idle| > 0 && p.idle == (if |idle0| > 0 then idle0[1..] else idle0) + [p.idle[|p.idle| - 1]]
  }

  class HubHealthCheck {
    var hcp: Hub.HubConnectionPool?
    var healthBean: Option<HubHealthBean>
    var connectionCloseCount: int

    constructor ()
      ensures hcp == null && healthBean.None? && connectionCloseCount == 0
    {
      hcp := null;
      healthBean := None;
      connectionCloseCount := 0;
    }

    /**
     * `sendCommand(request)`. An unknown request is answered "" without the
     * pool. A known one borrows a communicator, sends the request's command
     * with its terminator when the communicator is connected, and returns it.
     * When the pool lends nothing, the error log asks the pool once more and
     * dereferences the null it gets: a NullPointerException, and the pool
     * counts two transactions. When the read fails, the error log borrows a
     * communicator for the hub's host and another for its port and returns
     * neither: with both lent the answer is "" and the first communicator
     * goes back, and a borrow that gives null is a NullPointerException
     * before anything goes back.
     */
    method SendCommand(request: string) returns (r: Result<Option<string>>)
      modifies Footprint(hcp)
      ensures hcp != null ==> forall c :: c in hcp.idle ==> c in old(hcp.idle) || fresh(c)
      ensures !IsRequest(request) ==> r == Ok(Some("")) && (hcp != null ==> unchanged(hcp))
      ensures IsRequest(request) && hcp == null ==> r == Err(NullPointer)
      ensures IsRequest(request) && hcp != null && !old(hcp.CanLend()) ==>
        r == Err(NullPointer) && hcp.poolTransaction == old(hcp.poolTransaction) + 2 &&
        hcp.active == old(hcp.active) && hcp.idle == old(hcp.idle) && hcp.made == old(hcp.made)
      ensures IsRequest(request) && hcp != null && old(hcp.CanLend()) && !old(hcp.NextReadFails()) ==>
        r.Ok? && hcp.poolTransaction == old(hcp.poolTransaction) + 1 && hcp.active == old(hcp.active) &&
        Returned(hcp, old(hcp.idle))
      ensures IsRequest(request) && hcp != null && old(hcp.CanLend()) && !old(hcp.NextReadFails()) ==>
        (if old(|hcp.idle|) > 0 then hcp.idle[|hcp.idle| - 1] == old(hcp.idle[0]) && hcp.made == old(hcp.made)
         else fresh(hcp.idle[|hcp.idle| - 1]) && hcp.made == old(hcp.made) + 1) &&
        Exchanged(hcp.idle[|hcp.idle| - 1], CommandOf(request).value, EndCharOf(request).value, r.value,
                  old(NextSent(hcp)), old(NextPeer(hcp)), false)
      ensures IsRequest(request) && hcp != null && old(hcp.NextReadFails()) ==>
        r == (if old(hcp.Avail()) >= 3 then Ok(Some("")) else Err(NullPointer)) &&
        hcp.poolTransaction == old(hcp.poolTransaction) + (if old(hcp.Avail()) >= 2 then 3 else 2) &&
        hcp.active == old(hcp.active) + Leaked(old(hcp.Avail()))
      ensures hcp != null && old(ReadsAnswer(hcp)) ==> ReadsAnswer(hcp) && !old(hcp.NextReadFails())
    {
      if !IsRequest(request) {
        return Ok(Some(""));
      }
      var command := CommandOf(request).value;
      if hcp == null {
        return Err(NullPointer);
      }
      assert |hcp.idle| > 0 ==> hcp.idle[0] in hcp.idle;
      var comm := hcp.GetConnection();
      if comm == null {
        var again := hcp.GetConnection();
        assert again == null;
        return Err(NullPointer);
      }
      var result := Some("");
      if comm.connected {
        var answer := comm.SendCommand(command, EndCharOf(request).value);
        if answer.Err? {
          assert forall c :: c in hcp.idle ==> c in old(hcp.idle) || fresh(c);
          var logged := LogUnreachableHub();
          if logged.Err? {
            return Err(logged.error);
          }
        } else {
          result := answer.value;
        }
      }
      hcp.ReleaseConnection(comm);
      r := Ok(result);
    }

    /**
     * The error log of `sendCommand`, which names the hub by the host and the
     * port of two more communicators it borrows and never returns: a borrow
     * that gives null is a NullPointerException.
     */
    method LogUnreachableHub() returns (r: Result<()>)
      requires hcp != null
      modifies Footprint(hcp)
      ensures r == (if old(hcp.Avail()) >= 2 then Ok(()) else Err(NullPointer))
      ensures hcp.poolTransaction == old(hcp.poolTransaction) + (if old(hcp.Avail()) >= 1 then 2 else 1)
      ensures hcp.active == old(hcp.active) + (if old(hcp.Avail()) >= 2 then 2 else if old(hcp.Avail()) == 1 then 1 else 0)
      ensures hcp.Avail() == old(hcp.Avail()) - (hcp.active - old(hcp.active))
      ensures forall c :: c in hcp.idle ==> c in old(hcp.idle) || fresh(c)
      ensures old(ReadsAnswer(hcp)) ==> ReadsAnswer(hcp)
    {
      assert |hcp.idle| > 0 ==> hcp.idle[0] in hcp.idle;
      var forHost := hcp.GetConnection();
      if forHost == null {
        return Err(NullPointer);
      }
      assert |hcp.idle| > 0 ==> hcp.idle[0] in old(hcp.idle);
      var forPort := hcp.GetConnection();
      if forPort == null {
        return Err(NullPointer);
      }
      r := Ok(());
    }

    /**
     * `sendCommandWithIp(request, ip)`: the same exchange with the ip and a
     * closing quote after the command. Here a pool that lends nothing only
     * gives "", and only a missing pool fails.
     */
    method SendCommandWithIp(request: string, ip: string) returns (r: Result<Option<string>>)
      modifies Footprint(hcp)
      ensures hcp != null ==> forall c :: c in hcp.idle ==> c in old(hcp.idle) || fresh(c)
      ensures !IsRequest(request) ==> r == Ok(Some("")) && (hcp != null ==> unchanged(hcp))
      ensures IsRequest(request) && hcp == null ==> r == Err(NullPointer)
      ensures IsRequest(request) && hcp != null && !old(hcp.CanLend()) ==>
        r == Ok(Some("")) && hcp.poolTransaction == old(hcp.poolTransaction) + 1 &&
        hcp.active == old(hcp.active) && hcp.idle == old(hcp.idle) && hcp.made == old(hcp.made)
      ensures IsRequest(request) && hcp != null && old(hcp.CanLend()) ==>
        r.Ok? && hcp.poolTransaction == old(hcp.poolTransaction) + 1 && hcp.active == old(hcp.active) &&
        Returned(hcp, old(hcp.idle))
      ensures IsRequest(request) && hcp != null && old(hcp.CanLend()) ==>
        (if old(|hcp.idle|) > 0 then hcp.idle[|hcp.idle| - 1] == old(hcp.idle[0]) && hcp.made == old(hcp.made)
         else fresh(hcp.idle[|hcp.idle| - 1]) && hcp.made == old(hcp.made) + 1) &&
        Exchanged(hcp.idle[|hcp.idle| - 1], CommandOf(request).value + ip + "\"", EndCharOf(request).value, r.value,
                  old(NextSent(hcp)), old(NextPeer(hcp)), old(hcp.NextReadFails()))
      ensures hcp != null && old(ReadsAnswer(hcp)) ==> ReadsAnswer(hcp)
    {
      if !IsRequest(request) {
        return Ok(Some(""));
      }
      var command := CommandOf(request).value;
      if hcp == null {
        return Err(NullPointer);
      }
      assert |hcp.idle| > 0 ==> hcp.idle[0] in hcp.idle;
      var comm := hcp.GetConnection();
      var result := Some("");
      if comm != null && comm.connected {
        var answer := comm.SendCommand(command + ip + "\"", EndCharOf(request).value);
        if answer.Ok? {
          result := answer.value;
        }
      }
      hcp.ReleaseConnection(comm);
      r := Ok(result);
    }

    /**
     * One query of `process`, which treats an exception like a null answer
     * (None): the answer of the communicator the pool lends, which goes back
     * to the pool, so `active` is as before, except after a failed read,
     * which leaves the error log's borrows out. A pool that lends one
     * communicator still does, and that communicator is in the state the
     * exchange left it in.
     */
    method Ask(request: string) returns (answer: Option<string>)
      requires hcp != null && IsRequest(request)
      modifies Footprint(hcp)
      ensures answer == (if !old(hcp.CanLend()) then None
                         else if old(hcp.NextReadFails()) then (if old(hcp.Avail()) >= 3 then Some("") else None)
                         else Exchange(old(NextPeer(hcp)), EndCharOf(request).value).0)
      ensures old(Solo(hcp)) && !old(hcp.NextReadFails()) ==>
        Solo(hcp) && NextPeer(hcp) == Exchange(old(NextPeer(hcp)), EndCharOf(request).value).1
      ensures hcp.active == old(hcp.active) + (if old(hcp.NextReadFails()) then Leaked(old(hcp.Avail())) else 0)
      ensures old(ReadsAnswer(hcp)) ==> ReadsAnswer(hcp) && hcp.active == old(hcp.active)
      ensures forall c :: c in hcp.idle ==> c in old(hcp.idle) || fresh(c)
    {
      var r := SendCommand(request);
      answer := if r.Ok? then r.value else None;
    }

    /**
     * One per-device query of `process`: with a pool it always answers, ""
     * when nothing is lent or the read fails, otherwise the lent
     * communicator's answer.
     */
    method AskWithIp(request: string, ip: string) returns (r: Option<string>)
      requires hcp != null && IsRequest(request)
      modifies Footprint(hcp)
      ensures r == (if !old(hcp.CanLend()) || old(hcp.NextReadFails()) then Some("")
                    else Exchange(old(NextPeer(hcp)), EndCharOf(request).value).0)
      ensures old(Solo(hcp)) && !old(hcp.NextReadFails()) ==>
        Solo(hcp) && NextPeer(hcp) == Exchange(old(NextPeer(hcp)), EndCharOf(request).value).1
      ensures hcp.active == old(hcp.active)
      ensures old(ReadsAnswer(hcp)) ==> ReadsAnswer(hcp)
      ensures forall c :: c in hcp.idle ==> c in old(hcp.idle) || fresh(c)
    {
      var answer := SendCommandWithIp(request, ip);
      r := answer.value;
    }

    /**
     * `process()`: asks for the hub version, the keysets and the device list,
     * in that order, then queries firmware and hardware type of every
     * connected device. The first failure (no pool to lend, a null answer,
     * an answer that does not parse) stops it with `hubUp` false and the
     * lists gathered so far. `replies` are the answers received, in order.
     * A failed read answers "" or throws, and leaves the communicators its
     * error log borrowed out of the pool: `active` never drops, and stays as
     * it was when no communicator's read fails.
     */
    method Process() returns (ghost replies: seq<string>)
      modifies this`healthBean, Footprint(hcp)
      ensures hcp == null ==> healthBean.None?
      ensures hcp != null ==> healthBean.Some? && hcp.active >= old(hcp.active)
      ensures hcp != null && old(ReadsAnswer(hcp)) ==> hcp.active == old(hcp.active)
      ensures hcp != null ==> forall c :: c in hcp.idle ==> c in old(hcp.idle) || fresh(c)
      ensures |replies| <= 3
      ensures healthBean.Some? ==>
        var bean := healthBean.value;
        (bean.hubVersion.Some? <==> |replies| >= 1 && HubVersionOf(replies[0]).Ok?) &&
        (bean.hubVersion.Some? ==> bean.hubVersion.value == HubVersionOf(replies[0]).value) &&
        (bean.keysets.Some? <==> |replies| >= 2 && ParseKeysets(replies[1]).Ok?) &&
        (bean.keysets.Some? ==> bean.keysets.value == ParseKeysets(replies[1]).value) &&
        (bean.hubUp <==> |replies| == 3 && DevicesOf(replies[2]).Ok?) &&
        (bean.devices.Some? <==> bean.hubUp)
      ensures hcp != null && old(Solo(hcp)) && old(ReadsAnswer(hcp)) ==> healthBean == Some(Report(old(NextPeer(hcp))))
      ensures healthBean.Some? && healthBean.value.hubUp ==>
        var devices := healthBean.value.devices.value;
        Unqueried(devices) == DevicesOf(replies[2]).value && SortedByIp(devices) &&
        forall d :: d in devices && !Connected(d.status) ==> d.firmwareVersion.None? && d.hardwareType.None?
    {
      replies := [];
      if hcp == null {
        healthBean := None;
        return;
      }
      var bean, complete;
      bean, replies, complete := AskHeader();
      healthBean := Some(bean);
      if !complete {
        return;
      }

      ghost var reply;
      bean, reply := AskDevices(bean);
      replies := replies + (if reply.Some? then [reply.value] else []);
      healthBean := Some(bean);
    }

    /**
     * The last queries of `process`, after the header gave `header`: the
     * device list, and once it parses the per-device queries, with the hub
     * up. `reply` is the device list answer when there is one.
     */
    method AskDevices(header: HubHealthBean) returns (bean: HubHealthBean, ghost reply: Option<string>)
      requires hcp != null && !header.hubUp && header.devices.None?
      modifies Footprint(hcp)
      ensures hcp.active >= old(hcp.active)
      ensures old(ReadsAnswer(hcp)) ==> hcp.active == old(hcp.active)
      ensures forall c :: c in hcp.idle ==> c in old(hcp.idle) || fresh(c)
      ensures bean.hubUp <==> reply.Some? && DevicesOf(reply.value).Ok?
      ensures bean == (if bean.hubUp then header.(devices := bean.devices, hubUp := true) else header)
      ensures bean.hubUp ==>
        bean.devices.Some? &&
        var devices := bean.devices.value;
        Unqueried(devices) == DevicesOf(reply.value).value && SortedByIp(devices) &&
        forall d :: d in devices && !Connected(d.status) ==> d.firmwareVersion.None? && d.hardwareType.None?
      ensures old(Solo(hcp)) && old(ReadsAnswer(hcp)) ==> bean == Listed(header, old(NextPeer(hcp)))
    {
      bean := header;
      reply := None;
      ghost var solo := Solo(hcp) && ReadsAnswer(hcp);
      ghost var step := Exchange(NextPeer(hcp), "}");
      var listReply := Ask("listRedRats");
      assert solo ==> listReply == step.0 && Solo(hcp) && ReadsAnswer(hcp) && NextPeer(hcp) == step.1;
      if listReply.None? {
        return;
      }
      reply := listReply;
      var devices := ListDevices(listReply.value);
      if devices.None? {
        return;
      }
      bean := bean.(devices := devices, hubUp := true);
    }

    /**
     * The device list answer of `process`: parsed, then, when it parses,
     * each connected device queried; None when it does not parse.
     */
    method ListDevices(rawRedRatDeviceList: string) returns (devices: Option<seq<DeviceBean>>)
      requires hcp != null
      modifies Footprint(hcp)
      ensures devices.Some? <==> DevicesOf(rawRedRatDeviceList).Ok?
      ensures devices.Some? ==>
        Unqueried(devices.value) == DevicesOf(rawRedRatDeviceList).value && SortedByIp(devices.value) &&
        forall d :: d in devices.value && !Connected(d.status) ==> d.firmwareVersion.None? && d.hardwareType.None?
      ensures old(Solo(hcp)) && old(ReadsAnswer(hcp)) && devices.Some? ==>
        devices.value == Queried(DevicesOf(rawRedRatDeviceList).value, old(NextPeer(hcp))).0
      ensures hcp.active == old(hcp.active)
      ensures forall c :: c in hcp.idle ==> c in old(hcp.idle) || fresh(c)
    {
      var parsed := ParseRedRatDeviceList(rawRedRatDeviceList);
      if parsed.Err? {
        return None;
      }
      var queried := Survey(parsed.value, rawRedRatDeviceList);
      devices := Some(queried);
    }

    /**
     * The first two queries of `process`: the hub version, then the keysets,
     * each kept in the bean once it parses. `complete` says both did.
     */
    method AskHeader() returns (bean: HubHealthBean, ghost replies: seq<string>, complete: bool)
      requires hcp != null
      modifies Footprint(hcp)
      ensures hcp.active >= old(hcp.active)
      ensures old(ReadsAnswer(hcp)) ==> ReadsAnswer(hcp) && hcp.active == old(hcp.active)
      ensures forall c :: c in hcp.idle ==> c in old(hcp.idle) || fresh(c)
      ensures |replies| <= 2 && !bean.hubUp && bean.devices.None?
      ensures bean.hubVersion.Some? <==> |replies| >= 1 && HubVersionOf(replies[0]).Ok?
      ensures bean.hubVersion.Some? ==> bean.hubVersion.value == HubVersionOf(replies[0]).value
      ensures bean.keysets.Some? <==> |replies| == 2 && ParseKeysets(replies[1]).Ok?
      ensures bean.keysets.Some? ==> bean.keysets.value == ParseKeysets(replies[1]).value
      ensures complete <==> bean.keysets.Some?
      ensures old(Solo(hcp)) && old(ReadsAnswer(hcp)) ==>
        (bean, if complete then Some(NextPeer(hcp)) else None) == Header(old(NextPeer(hcp))) &&
        (complete ==> Solo(hcp))
    {
      replies := [];
      bean := HubHealthBean(None, None, None, false);
      complete := false;
      ghost var solo := Solo(hcp) && ReadsAnswer(hcp);
      ghost var first := Exchange(NextPeer(hcp), ")");
      var versionReply := Ask("hubVersion");
      assert solo ==> versionReply == first.0 && Solo(hcp) && ReadsAnswer(hcp) && NextPeer(hcp) == first.1;
      if versionReply.None? {
        return;
      }
      replies := replies + [versionReply.value];
      var hubVersion := ParseHubVersion(versionReply.value);
      if hubVersion.Err? {
        return;
      }
      bean := bean.(hubVersion := Some(hubVersion.value));

      ghost var second := Exchange(NextPeer(hcp), "}");
      var keysetReply := Ask("keysets");
      assert solo ==> keysetReply == second.0 && Solo(hcp) && NextPeer(hcp) == second.1;
      if keysetReply.None? {
        return;
      }
      replies := replies + [keysetReply.value];
      var keysets := ParseKeysets(keysetReply.value);
      if keysets.Err? {
        return;
      }
      bean := bean.(keysets := Some(keysets.value));
      complete := true;
    }

    /** The parsed device list after the per-device queries: still sorted, and only connected devices were asked. */
    method Survey(parsed: seq<DeviceBean>, ghost rawRedRatDeviceList: string) returns (devices: seq<DeviceBean>)
      requires hcp != null
      requires DevicesOf(rawRedRatDeviceList) == Ok(parsed)
      modifies Footprint(hcp)
      ensures Unqueried(devices) == parsed && SortedByIp(devices)
      ensures forall d :: d in devices && !Connected(d.status) ==> d.firmwareVersion.None? && d.hardwareType.None?
      ensures old(Solo(hcp)) && old(ReadsAnswer(hcp)) ==> devices == Queried(parsed, old(NextPeer(hcp))).0
      ensures hcp.active == old(hcp.active)
      ensures forall c :: c in hcp.idle ==> c in old(hcp.idle) || fresh(c)
    {
      DevicesUnqueried(rawRedRatDeviceList);
      UnqueriedFresh(parsed);
      devices := QueryDevices(parsed);
      SortedUnqueried(devices);
    }

    /** The loop of `process` over the parsed devices: only connected ones are asked for firmware and hardware type. */
    method QueryDevices(parsed: seq<DeviceBean>) returns (devices: seq<DeviceBean>)
      requires hcp != null
      modifies Footprint(hcp)
      ensures Unqueried(devices) == Unqueried(parsed)
      ensures forall k :: 0 <= k < |devices| && !Connected(devices[k].status) ==> devices[k] == parsed[k]
      ensures old(Solo(hcp)) && old(ReadsAnswer(hcp)) ==>
        devices == Queried(parsed, old(NextPeer(hcp))).0 && Solo(hcp) && ReadsAnswer(hcp)
      ensures hcp.active == old(hcp.active)
      ensures forall c :: c in hcp.idle ==> c in old(hcp.idle) || fresh(c)
    {
      devices := parsed;
      ghost var solo := Solo(hcp) && ReadsAnswer(hcp);
      ghost var peer0 := NextPeer(hcp);
      assert [] + Queried(parsed, peer0).0 == Queried(parsed, peer0).0;
      for i := 0 to |devices|
        invariant Progress(parsed, devices, i, solo, peer0)
        invariant hcp.active == old(hcp.active)
        invariant forall c :: c in hcp.idle ==> c in old(hcp.idle) || fresh(c)
      {
        devices := QueryAt(parsed, devices, i, solo, peer0);
      }
      assert devices[..|devices|] == devices;
      assert forall k :: 0 <= k < |devices| ==> Unqueried(devices)[k] == Unqueried(parsed)[k];
    }

    /**
     * The invariant of the loop in `QueryDevices` before the device at `i`:
     * the devices before `i` that are connected have been queried and the
     * others are as parsed; with a pool that lends one communicator, the
     * queries so far are those `Queried` puts to it.
     */
    ghost predicate Progress(parsed: seq<DeviceBean>, devices: seq<DeviceBean>, i: int, solo: bool, peer0: Peer)
      reads this, hcp, if hcp != null then {hcp.maker} else {}, if hcp != null then hcp.idle else []
    {
      hcp != null && 0 <= i <= |parsed| && |devices| == |parsed| &&
      (forall k :: 0 <= k < |devices| ==>
        devices[k] == parsed[k].(firmwareVersion := devices[k].firmwareVersion, hardwareType := devices[k].hardwareType)) &&
      (forall k :: i <= k < |devices| ==> devices[k] == parsed[k]) &&
      (forall k :: 0 <= k < |devices| && !Connected(devices[k].status) ==> devices[k] == parsed[k]) &&
      (solo ==>
        Solo(hcp) && ReadsAnswer(hcp) &&
        Queried(parsed, peer0).0 == devices[..i] + Queried(parsed[i..], NextPeer(hcp)).0)
    }

    /** One turn of the loop in `QueryDevices`: the device at `i` is queried. */
    method QueryAt(parsed: seq<DeviceBean>, devices: seq<DeviceBean>, i: nat, ghost solo: bool, ghost peer0: Peer)
      returns (next: seq<DeviceBean>)
      requires Progress(parsed, devices, i, solo, peer0) && i < |parsed|
      modifies Footprint(hcp)
      ensures Progress(parsed, next, i + 1, solo, peer0)
      ensures hcp.active == old(hcp.active)
      ensures forall c :: c in hcp.idle ==> c in old(hcp.idle) || fresh(c)
    {
      ghost var before := devices[..i];
      ghost var peer := NextPeer(hcp);
      assert devices[i] == parsed[i];
      var device := QueryDevice(devices[i]);
      if solo {
        QueriedStep(parsed, i, before, peer);
      }
      next := devices[i := device];
      assert next[..i + 1] == before + [device];
    }

    /** The queries of `process` about one device: only a connected one is asked for firmware and hardware type. */
    method QueryDevice(d: DeviceBean) returns (q: DeviceBean)
      requires hcp != null
      modifies Footprint(hcp)
      ensures q == d.(firmwareVersion := q.firmwareVersion, hardwareType := q.hardwareType)
      ensures !Connected(d.status) ==> q == d
      ensures old(Solo(hcp)) && old(ReadsAnswer(hcp)) ==>
        (q, NextPeer(hcp)) == QueryOne(d, old(NextPeer(hcp))) && Solo(hcp) && ReadsAnswer(hcp)
      ensures hcp.active == old(hcp.active)
      ensures forall c :: c in hcp.idle ==> c in old(hcp.idle) || fresh(c)
    {
      q := d;
      if Connected(d.status) {
        var firmwareVersion := AskWithIp("firmwareVersion", d.ip);
        var hardwareType := AskWithIp("hardwareType", d.ip);
        q := d.(firmwareVersion := firmwareVersion, hardwareType := hardwareType);
      }
    }

    /**
     * `init()`: takes the manager's pool when the hub is a dependency (an
     * unset flag cannot be unboxed), resets the close counter and processes.
     */
    method Init(dependencies: Dependencies.DependencyHealthCheck, manager: Hub.CommunicatorManager)
      returns (r: Result<()>)
      modifies this, Footprint(hcp), Footprint(manager.pool)
      ensures dependencies.checkHubHealth.None? ==> r == Err(NullPointer) && unchanged(this)
      ensures dependencies.checkHubHealth.Some? ==>
        r.Ok? && hcp == (if dependencies.checkHubHealth.value then manager.pool else old(hcp)) &&
        connectionCloseCount == 0 && (healthBean.Some? <==> hcp != null)
    {
      var checkHub := dependencies.CheckHubHealth();
      if checkHub.Err? {
        return Err(checkHub.error);
      }
      if checkHub.value {
        hcp := manager.pool;
      }
      connectionCloseCount := 0;
      var _ := Process();
      r := Ok(());
    }
  }

  /**
   * The "" that `sendCommand` answers after a failed read parses at every
   * step of `process`: an empty version map, no keysets and no devices. So
   * a hub whose reads all fail, with a pool large enough for the error
   * log's borrows, is reported up.
   */
  lemma EmptyAnswersParse()
    ensures HubVersionOf("") == Ok(map[])
    ensures ParseKeysets("") == Ok([])
    ensures DevicesOf("") == Ok([])
  {
    assert !Contains("", "\n");
    assert Split("", "\n") == [""];
    assert Steps([""]) == [Step("")];
    assert MatchParts("").None?;
    var d := DevicesOf("");
    assert d.Ok? && multiset(d.value) == multiset([]);
  }

  /** A text with no brace, which `readUntil` treats as plain. */
  predicate Braceless(s: string)
  {
    '{' !in s && '}' !in s
  }

  /**
   * A hub that answers `process` in full: through one communicator that
   * connects, it writes its version line, its keysets between braces and
   * its device list, in that order. `process` then reports it up with the
   * version, the keysets and, up to the per-device queries, the devices
   * sorted by ip, each read back as written.
   */
  lemma {:induction false} HealthyHubReport(names: seq<string>, versions: seq<string>, keysets: seq<string>,
                                            ds: seq<DeviceBean>, rest: seq<string>, peer: Peer)
    requires |names| == |versions| >= 1
    requires forall i :: 0 <= i < |names| ==>
      Word(names[i]) && Word(versions[i]) && Braceless(names[i]) && Braceless(versions[i])
    requires forall i :: 0 <= i < |keysets| ==> Telnet.Inner(keysets[i]) && '\n' !in keysets[i]
    requires forall i :: 0 <= i < |ds| ==>
      Listable(ds[i]) && Braceless(ds[i].deviceType) && Braceless(ds[i].mac) && Braceless(ds[i].ip) && Braceless(ds[i].status)
    requires peer.connected || peer.reachable
    requires peer.incoming == [VersionText(names, versions)] + (["{"] + keysets + ["}"]) + ListLines(ds) + rest
    ensures Report(peer).hubUp
    ensures Report(peer).hubVersion == Some(Entered(names, versions))
    ensures Report(peer).keysets == Some(keysets)
    ensures Unqueried(Report(peer).devices.value) == SortByIp(ds)
  {
    var after := Peer(ListLines(ds) + rest, true, peer.reachable);
    HealthyHeader(names, versions, keysets, ListLines(ds) + rest, peer);
    HealthyList(HubHealthBean(Some(Entered(names, versions)), Some(keysets), None, false), ds, rest, after);
  }

  /** The header step of `HealthyHubReport`: the version line, then the keyset block. */
  lemma HealthyHeader(names: seq<string>, versions: seq<string>, keysets: seq<string>, more: seq<string>, peer: Peer)
    requires |names| == |versions| >= 1
    requires forall i :: 0 <= i < |names| ==>
      Word(names[i]) && Word(versions[i]) && Braceless(names[i]) && Braceless(versions[i])
    requires forall i :: 0 <= i < |keysets| ==> Telnet.Inner(keysets[i]) && '\n' !in keysets[i]
    requires peer.connected || peer.reachable
    requires peer.incoming == [VersionText(names, versions)] + (["{"] + keysets + ["}"]) + more
    ensures Header(peer) == (HubHealthBean(Some(Entered(names, versions)), Some(keysets), None, false),
                             Some(Peer(more, true, peer.reachable)))
  {
    VersionLineFree(names, versions);
    HubVersionRoundTrip(names, versions);
    HeaderRead(VersionText(names, versions), Entered(names, versions), keysets, more, peer);
  }

  /** `Header` over a version line that parses to `hv`, then a keyset block. */
  lemma HeaderRead(version: string, hv: map<string, string>, keysets: seq<string>, more: seq<string>, peer: Peer)
    requires Braceless(version) && EndsWith(version, ")") && version != "OK"
    requires HubVersionOf(version) == Ok(hv)
    requires forall i :: 0 <= i < |keysets| ==> Telnet.Inner(keysets[i]) && '\n' !in keysets[i]
    requires peer.connected || peer.reachable
    requires peer.incoming == [version] + (["{"] + keysets + ["}"]) + more
    ensures Header(peer) == (HubHealthBean(Some(hv), Some(keysets), None, false), Some(Peer(more, true, peer.reachable)))
  {
    var tail := ["{"] + keysets + ["}"] + more;
    assert peer.incoming == [version] + tail;
    VersionExchange(version, tail, peer);
    BlockExchange(keysets, more, Peer(tail, true, peer.reachable));
    KeysetsRoundTrip(keysets);
  }

  /** The list step of `HealthyHubReport`: the device block, then the queries. */
  lemma HealthyList(bean: HubHealthBean, ds: seq<DeviceBean>, rest: seq<string>, peer: Peer)
    requires forall i :: 0 <= i < |ds| ==>
      Listable(ds[i]) && Braceless(ds[i].deviceType) && Braceless(ds[i].mac) && Braceless(ds[i].ip) && Braceless(ds[i].status)
    requires peer.connected || peer.reachable
    requires peer.incoming == ListLines(ds) + rest
    ensures Listed(bean, peer) == bean.(devices := Listed(bean, peer).devices, hubUp := true)
    ensures Listed(bean, peer).devices.Some?
    ensures Unqueried(Listed(bean, peer).devices.value) == SortByIp(ds)
  {
    DeviceLinesInner(ds);
    DeviceListRoundTrip(ds);
    forall d | d in SortByIp(ds)
      ensures d.firmwareVersion.None? && d.hardwareType.None?
    {
      assert d in multiset(SortByIp(ds));
      var k :| 0 <= k < |ds| && ds[k] == d;
    }
    UnqueriedFresh(SortByIp(ds));
    ListRead(bean, LinesOf(ds), SortByIp(ds), rest, peer);
    QueriedUnqueried(SortByIp(ds), Exchange(peer, "}").1);
  }

  /** `Listed` over a device block that parses to `parsed`. */
  lemma ListRead(bean: HubHealthBean, lines: seq<string>, parsed: seq<DeviceBean>, rest: seq<string>, peer: Peer)
    requires forall i :: 0 <= i < |lines| ==> Telnet.Inner(lines[i])
    requires DevicesOf(Join(["{"] + lines + ["}"], "\n")) == Ok(parsed)
    requires peer.connected || peer.reachable
    requires peer.incoming == ["{"] + lines + ["}"] + rest
    ensures Listed(bean, peer) == bean.(devices := Some(Queried(parsed, Exchange(peer, "}").1).0), hubUp := true)
  {
    BlockExchange(lines, rest, peer);
  }

  /** A version line with no brace that ends with ')' is read alone. */
  lemma VersionExchange(version: string, more: seq<string>, peer: Peer)
    requires Braceless(version) && EndsWith(version, ")") && version != "OK"
    requires peer.connected || peer.reachable
    requires peer.incoming == [version] + more
    ensures Exchange(peer, ")") == (Some(version), Peer(more, true, peer.reachable))
  {
    ContainsChar(version, "{");
    ContainsChar(version, "}");
    assert "" + version == version;
    assert peer.incoming[1..] == more;
  }

  /**
   * A block, "{", lines that are neither "OK" nor hold a brace, then "}", is
   * read up to its "}" and answers those lines joined by newlines.
   */
  lemma BlockExchange(body: seq<string>, more: seq<string>, peer: Peer)
    requires forall i :: 0 <= i < |body| ==> Telnet.Inner(body[i])
    requires peer.connected || peer.reachable
    requires peer.incoming == ["{"] + body + ["}"] + more
    ensures Exchange(peer, "}") == (Some(Join(["{"] + body + ["}"], "\n")), Peer(more, true, peer.reachable))
  {
    assert Contains("{", "{") && Contains("}", "}") by {
      assert "{"[0..1] == "{" && "}"[0..1] == "}";
    }
    ContainsChar("}", "{");
    Telnet.JsonAnswer("{", body, "}", more, "}");
    var f := Telnet.Frame(peer.incoming, "}", None, false);
    assert f == (Some(Telnet.Lines(["{"] + body) + "}"), |body| + 2);
    LinesJoin(["{"] + body, "}");
    assert peer.incoming[|body| + 2..] == more;
  }

  /** The device lines the hub writes for fields without braces are plain inside a block. */
  lemma DeviceLinesInner(ds: seq<DeviceBean>)
    requires forall i :: 0 <= i < |ds| ==>
      Braceless(ds[i].deviceType) && Braceless(ds[i].mac) && Braceless(ds[i].ip) && Braceless(ds[i].status)
    ensures forall i :: 0 <= i < |ds| ==> Telnet.Inner(LinesOf(ds)[i])
  {
    forall i | 0 <= i < |ds|
      ensures Telnet.Inner(LinesOf(ds)[i])
    {
      var line := LinesOf(ds)[i];
      assert line[0] == '[';
      ContainsChar(line, "{");
      ContainsChar(line, "}");
    }
  }

  /** The version line holds no brace and ends with ')'. */
  lemma VersionLineFree(names: seq<string>, versions: seq<string>)
    requires |names| == |versions| >= 1
    requires forall i :: 0 <= i < |names| ==> Braceless(names[i]) && Braceless(versions[i])
    ensures Braceless(VersionText(names, versions))
    ensures EndsWith(VersionText(names, versions), ")") && VersionText(names, versions) != "OK"
  {
    var written := Written(names, versions);
    forall i | 0 <= i < |written|
      ensures Braceless(written[i]) && |written[i]| > 0 && written[i][|written[i]| - 1] == ')'
    {
      assert written[i] == names[i] + " (" + versions[i] + ")";
    }
    JoinBraceless(written, ", ");
    JoinEndsIn(written, ", ", ')');
  }

  lemma {:induction false} JoinBraceless(parts: seq<string>, sep: string)
    requires Braceless(sep) && forall i :: 0 <= i < |parts| ==> Braceless(parts[i])
    ensures Braceless(Join(parts, sep))
  {
    if |parts| > 1 {
      JoinBraceless(parts[1..], sep);
    }
  }

  lemma {:induction false} JoinEndsIn(parts: seq<string>, sep: string, c: char)
    requires |parts| >= 1 && forall i :: 0 <= i < |parts| ==> |parts[i]| > 0 && parts[i][|parts[i]| - 1] == c
    ensures var j := Join(parts, sep); |j| > 0 && j[|j| - 1] == c
  {
    if |parts| > 1 {
      JoinEndsIn(parts[1..], sep, c);
    }
  }

  /** Lines ended by "\n", then a closing line, are those lines joined by "\n". */
  lemma {:induction false} LinesJoin(ls: seq<string>, close: string)
    ensures Telnet.Lines(ls) + close == Join(ls + [close], "\n")
  {
    if ls != [] {
      LinesJoin(ls[1..], close);
      assert (ls + [close])[1..] == ls[1..] + [close];
    }
  }

  /** The per-device queries fill in only the queried fields. */
  lemma {:induction false} QueriedUnqueried(ds: seq<DeviceBean>, peer: Peer)
    ensures Unqueried(Queried(ds, peer).0) == Unqueried(ds)
    decreases |ds|
  {
    if ds != [] {
      var (device, p1) := QueryOne(ds[0], peer);
      QueriedUnqueried(ds[1..], p1);
      var r := Queried(ds, peer).0;
      assert r == [device] + Queried(ds[1..], p1).0;
      forall k | 0 <= k < |ds|
        ensures Unqueried(r)[k] == Unqueried(ds)[k]
      {
        if k > 0 {
          assert Unqueried(r)[k] == Unqueried(Queried(ds[1..], p1).0)[k - 1];
        }
      }
    }
  }

  /** The outcome of pressing VOLUP on port 1 of the device at `ip`. */
  function Pressed(press: map<string, Result<bool>>, ip: string): Result<bool>
  {
    if ip in press then press[ip] else Err(IOError)
  }

  /**
   * What `isHubHealthOutdated` answers after the devices from `ds` on, with
   * `acc` the answer so far: every device that is not connected is pressed
   * with VOLUP on its port 1 and the answer becomes that press's result; an
   * exception ends the walk with the answer it had. `press` holds the outcome
   * of that press per ip, Err for an exception; an ip it does not hold is a
   * remote the factory cannot make, also an exception.
   */
  function Outdated(ds: seq<DeviceBean>, press: map<string, Result<bool>>, acc: bool): bool
  {
    if ds == [] then acc
    else if Connected(ds[0].status) then Outdated(ds[1..], press, acc)
    else if Pressed(press, ds[0].ip).Err? then acc
    else Outdated(ds[1..], press, Pressed(press, ds[0].ip).value)
  }

  /**
   * `isHubHealthOutdated(hubDevices, factory)`; a null list throws inside the
   * try and gives false.
   */
  method IsHubHealthOutdated(hubDevices: Option<seq<DeviceBean>>, press: map<string, Result<bool>>) returns (outdated: bool)
    ensures outdated == (hubDevices.Some? && Outdated(hubDevices.value, press, false))
  {
    outdated := false;
    if hubDevices.None? {
      return;
    }
    var devices := hubDevices.value;
    for i := 0 to |devices|
      invariant Outdated(devices, press, false) == Outdated(devices[i..], press, outdated)
    {
      assert devices[i..][1..] == devices[i + 1..];
      if !Connected(devices[i].status) {
        var pressed := Pressed(press, devices[i].ip);
        if pressed.Err? {
          return;
        }
        outdated := pressed.value;
      }
    }
  }

  /** With every device connected nothing is pressed and the answer stays as it was. */
  lemma {:induction false} AllConnectedNotOutdated(ds: seq<DeviceBean>, press: map<string, Result<bool>>, acc: bool)
    requires forall d :: d in ds ==> Connected(d.status)
    ensures Outdated(ds, press, acc) == acc
  {
    if ds != [] {
      assert ds[0] in ds;
      AllConnectedNotOutdated(ds[1..], press, acc);
    }
  }

  /** When no press fails, the answer is the press result of the last device that is not connected. */
  lemma {:induction false} LastPressDecides(ds: seq<DeviceBean>, press: map<string, Result<bool>>, acc: bool, k: nat)
    requires k < |ds| && !Connected(ds[k].status)
    requires forall j :: k < j < |ds| ==> Connected(ds[j].status)
    requires forall j :: 0 <= j <= k && !Connected(ds[j].status) ==> Pressed(press, ds[j].ip).Ok?
    ensures Outdated(ds, press, acc) == Pressed(press, ds[k].ip).value
  {
    var rest := ds[1..];
    if k == 0 {
      AllConnectedNotOutdated(rest, press, Pressed(press, ds[0].ip).value);
    } else {
      var next := if Connected(ds[0].status) then acc else Pressed(press, ds[0].ip).value;
      LastPressDecides(rest, press, next, k - 1);
    }
  }

  /** A failing press fixes the answer to the one before it, whatever the later devices do. */
  lemma {:induction false} FailedPressStops(ds: seq<DeviceBean>, press: map<string, Result<bool>>, acc: bool, k: nat)
    requires k < |ds| && !Connected(ds[k].status) && Pressed(press, ds[k].ip).Err?
    ensures Outdated(ds, press, acc) == Outdated(ds[..k], press, acc)
  {
    if k > 0 {
      var next := if Connected(ds[0].status) || Pressed(press, ds[0].ip).Err? then acc else Pressed(press, ds[0].ip).value;
      assert ds[1..][..k - 1] == ds[..k][1..];
      if Connected(ds[0].status) || Pressed(press, ds[0].ip).Ok? {
        FailedPressStops(ds[1..], press, next, k - 1);
      }
    }
  }

  /** The parser's beans carry no firmware or hardware type yet. */
  lemma UnqueriedFresh(ds: seq<DeviceBean>)
    requires forall d :: d in ds ==> d.firmwareVersion.None? && d.hardwareType.None?
    ensures Unqueried(ds) == ds
  {
  }
}
