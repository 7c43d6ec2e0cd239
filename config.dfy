/**
 * The deserialised ir-ms.yml file: a list of device blocks (`IRDeviceConfig`),
 * each a starting host, port, number of devices and ports per device, and
 * `getNormalizedIrDevices`, which expands every block of `count` devices into
 * `count` blocks of one, the host of each following copy being the previous
 * one's IPv4 address plus one (`calculateNextHost`).
 */
module Config {
  import opened Wrappers
  import opened JavaText

  const DEFAULT_MAX_PORTS: int := 16
  /** The type given to blocks of the deprecated `irNetBox` list that name none. */
  const LEGACY_TYPE: string := "irNetBox"
  const HTTP_PREFIX: string := "http://"

  /** The fields of one `IRDeviceConfig` as a value; None is a null field. */
  datatype Entry = Entry(deviceType: Option<string>, host: Option<string>, port: Option<int>,
                         count: Option<int>, maxPorts: Option<int>)
  {
    /** `getMaxPorts()`: the configured number of ports, 16 when none is set. */
    function MaxPorts(): (n: int)
      ensures maxPorts.Some? ==> n == maxPorts.value
      ensures maxPorts.None? ==> n == DEFAULT_MAX_PORTS
    {
      if maxPorts.Some? then maxPorts.value else DEFAULT_MAX_PORTS
    }
  }

  /** One block of IR devices as the YAML binder fills it in, field by field. */
  class IRDeviceConfig {
    var deviceType: Option<string>
    var host: Option<string>
    var port: Option<int>
    var count: Option<int>
    var maxPorts: Option<int>

    constructor ()
      ensures Value() == Entry(None, None, None, None, None)
    {
      deviceType, host, port, count, maxPorts := None, None, None, None, None;
    }

    function Value(): Entry
      reads this
    {
      Entry(deviceType, host, port, count, maxPorts)
    }

    method SetType(t: Option<string>)
      modifies this
      ensures Value() == old(Value()).(deviceType := t)
    {
      deviceType := t;
    }

    method SetHost(h: Option<string>)
      modifies this
      ensures Value() == old(Value()).(host := h)
    {
      host := h;
    }

    method SetPort(p: Option<int>)
      modifies this
      ensures Value() == old(Value()).(port := p)
    {
      port := p;
    }

    method SetCount(c: Option<int>)
      modifies this
      ensures Value() == old(Value()).(count := c)
    {
      count := c;
    }

    method SetMaxPorts(m: Option<int>)
      modifies this
      ensures Value() == old(Value()).(maxPorts := m)
      ensures m.Some? ==> Value().MaxPorts() == m.value
    {
      maxPorts := m;
    }
  }

  /** The current fields of a list of blocks. */
  function Values(cs: seq<IRDeviceConfig>): (r: seq<Entry>)
    reads cs
    ensures |r| == |cs|
    ensures forall i :: 0 <= i < |cs| ==> r[i] == cs[i].Value()
  {
    if cs == [] then [] else [cs[0].Value()] + Values(cs[1..])
  }

  // ------------------------------------------------------ next host

  /** The octet `before` parsed and, incremented in `int` arithmetic, stayed below 255, giving `after`. */
  predicate Bumped(before: string, after: string)
  {
    ParseInt(before).Ok? && Wrap32(ParseInt(before).value + 1) < 255
    && after == IntToString(Wrap32(ParseInt(before).value + 1))
  }

  /**
   * The right-to-left carry of `calculateNextHost` from position `i` down:
   * an octet whose successor is below 255 is incremented and ends the carry,
   * any other becomes "0"; an octet that is not a number throws.
   */
  function Carry(parts: seq<string>, i: int): Result<seq<string>>
    requires -1 <= i < |parts|
    decreases i + 1
  {
    if i < 0 then Ok(parts)
    else match ParseInt(parts[i])
      case Err(x) => Err(x)
      case Ok(o) =>
        if Wrap32(o + 1) < 255 then Ok(parts[i := IntToString(Wrap32(o + 1))])
        else Carry(parts[i := "0"], i - 1)
  }

  /** The octets of a host once "http://" is removed everywhere in it. */
  function Octets(h: string): seq<string>
  {
    Split(Replace(h, HTTP_PREFIX, ""), ".")
  }

  /**
   * `calculateNextHost(host)`: a null host throws NullPointerException, an
   * octet that is not a number NumberFormatException, and a host that splits
   * into nothing (only dots) StringIndexOutOfBoundsException when the
   * trailing dot is cut off an empty string.
   */
  function NextHost(host: Option<string>): Result<string>
  {
    match host
    case None => Err(NullPointer)
    case Some(h) =>
      var parts := Octets(h);
      match Carry(parts, |parts| - 1)
      case Err(x) => Err(x)
      case Ok(ps) => if ps == [] then Err(IndexOutOfBounds) else Ok(Join(ps, "."))
  }

  /** The parts joined, each followed by a dot, as the building loop concatenates them. */
  function Dotted(ps: seq<string>): string
  {
    if ps == [] then "" else Dotted(ps[..|ps| - 1]) + ps[|ps| - 1] + "."
  }

  lemma {:induction false} JoinSnoc(ps: seq<string>, x: string)
    requires |ps| >= 1
    ensures Join(ps + [x], ".") == Join(ps, ".") + "." + x
  {
    if |ps| >= 2 {
      JoinSnoc(ps[1..], x);
      assert (ps + [x])[1..] == ps[1..] + [x];
    } else {
      assert (ps + [x])[1..] == [x];
    }
  }

  lemma {:induction false} DottedJoin(ps: seq<string>)
    requires |ps| >= 1
    ensures Dotted(ps) == Join(ps, ".") + "."
  {
    if |ps| >= 2 {
      var init := ps[..|ps| - 1];
      DottedJoin(init);
      JoinSnoc(init, ps[|ps| - 1]);
      assert init + [ps[|ps| - 1]] == ps;
    } else {
      assert ps[..0] == [];
    }
  }

  /** The loop that writes every octet followed by a dot; empty only for no octets. */
  method DotEach(splitHost: array<string>) returns (newHost: string)
    ensures newHost == Dotted(splitHost[..])
    ensures newHost == "" <==> splitHost.Length == 0
  {
    newHost := "";
    for k := 0 to splitHost.Length
      invariant newHost == Dotted(splitHost[..k])
    {
      assert splitHost[..k + 1][..k] == splitHost[..k];
      newHost := newHost + splitHost[k] + ".";
    }
    assert splitHost[..splitHost.Length] == splitHost[..];
  }

  /** The carry loop of `calculateNextHost`, in place on the array of octets. */
  method CarryOctets(splitHost: array<string>) returns (failure: Option<Exn>)
    modifies splitHost
    ensures failure.None? ==> Carry(old(splitHost[..]), splitHost.Length - 1) == Ok(splitHost[..])
    ensures failure.Some? ==> Carry(old(splitHost[..]), splitHost.Length - 1) == Err(failure.value)
  {
    ghost var parts := splitHost[..];
    var i := splitHost.Length - 1;
    var done := false;
    while i >= 0 && !done
      invariant -1 <= i < splitHost.Length
      invariant done ==> Carry(parts, |parts| - 1) == Ok(splitHost[..])
      invariant !done ==> Carry(parts, |parts| - 1) == Carry(splitHost[..], i)
      decreases i + (if done then 0 else 1)
    {
      var octet := ParseInt(splitHost[i]);
      if octet.Err? {
        return Some(octet.error);
      }
      if Wrap32(octet.value + 1) < 255 {
        splitHost[i] := IntToString(Wrap32(octet.value + 1));
        done := true;
      } else {
        splitHost[i] := "0";
        i := i - 1;
      }
    }
    return None;
  }

  /** `calculateNextHost`: the carry over an array of octets, then the dotted string rebuilt. */
  method CalculateNextHost(host: Option<string>) returns (r: Result<string>)
    ensures r == NextHost(host)
  {
    if host.None? {
      return Err(NullPointer);
    }
    var parts := Octets(host.value);
    var splitHost := new string[|parts|](k requires 0 <= k < |parts| => parts[k]);
    assert splitHost[..] == parts;
    var failure := CarryOctets(splitHost);
    if failure.Some? {
      return Err(failure.value);
    }
    ghost var ps := splitHost[..];
    var newHost := DotEach(splitHost);
    if newHost == "" {
      assert ps == [];
      return Err(IndexOutOfBounds);
    }
    DottedJoin(ps);
    r := Ok(newHost[..|newHost| - 1]);
  }

  /**
   * `ps` is `parts` with the octets after position `j` up to `i` rolled over
   * to "0" and, when `j` is a position, the octet there incremented; the
   * rest is untouched.
   */
  predicate CarriedAt(parts: seq<string>, ps: seq<string>, i: int, j: int)
    requires -1 <= j <= i < |parts|
  {
    |ps| == |parts|
    && (forall k :: 0 <= k < |parts| && (k < j || i < k) ==> ps[k] == parts[k])
    && (forall k :: j < k <= i ==> ps[k] == "0")
    && (j >= 0 ==> Bumped(parts[j], ps[j]))
  }

  /** The carry increments exactly one octet after rolling over a run of 254s (or runs off the front). */
  lemma {:induction false} CarryShape(parts: seq<string>, i: int)
    requires -1 <= i < |parts|
    ensures Carry(parts, i).Ok? ==> exists j :: -1 <= j <= i && CarriedAt(parts, Carry(parts, i).value, i, j)
    decreases i + 1
  {
    if i >= 0 && Carry(parts, i).Ok? {
      var o := ParseInt(parts[i]).value;
      if Wrap32(o + 1) < 255 {
        assert CarriedAt(parts, Carry(parts, i).value, i, i);
      } else {
        var p2 := parts[i := "0"];
        CarryShape(p2, i - 1);
        var j :| -1 <= j <= i - 1 && CarriedAt(p2, Carry(p2, i - 1).value, i - 1, j);
        assert Carry(parts, i) == Carry(p2, i - 1);
        assert CarriedAt(parts, Carry(parts, i).value, i, j);
      }
    } else if i < 0 {
      assert CarriedAt(parts, parts, i, -1);
    }
  }

  /** Carrying keeps the octets free of dots, and leaves the last one non-empty. */
  lemma CarriedFree(parts: seq<string>, ps: seq<string>, j: int)
    requires |parts| >= 1 && -1 <= j <= |parts| - 1
    requires CarriedAt(parts, ps, |parts| - 1, j)
    requires forall k :: 0 <= k < |parts| ==> '.' !in parts[k]
    ensures forall k :: 0 <= k < |ps| ==> '.' !in ps[k]
    ensures ps[|ps| - 1] != ""
  {
    if j >= 0 {
      var v := Wrap32(ParseInt(parts[j]).value + 1);
      IntToStringChars(v);
      assert ps[j] == IntToString(v);
      assert |NatToString(if v < 0 then -v else v)| > 0;
    }
  }

  /**
   * The next host splits into as many octets as the host did, and into
   * exactly the carried octets: `calculateNextHost` renumbers within the
   * same address shape.
   */
  lemma NextHostKeepsOctets(h: string)
    ensures NextHost(Some(h)).Ok? ==>
      Split(NextHost(Some(h)).value, ".") == Carry(Octets(h), |Octets(h)| - 1).value
      && |Split(NextHost(Some(h)).value, ".")| == |Octets(h)|
  {
    var parts := Octets(h);
    if NextHost(Some(h)).Ok? {
      var ps := Carry(parts, |parts| - 1).value;
      assert NextHost(Some(h)) == Ok(Join(ps, "."));
      CarryShape(parts, |parts| - 1);
      var j :| -1 <= j <= |parts| - 1 && CarriedAt(parts, ps, |parts| - 1, j);
      SplitFree(Replace(h, HTTP_PREFIX, ""), '.');
      CarriedFree(parts, ps, j);
      SplitJoin(ps, ".");
    }
  }

  // ------------------------------------------------------ normalisation

  /** `irDevice.count != null ? irDevice.count : 1`. */
  function CountOf(e: Entry): int
  {
    if e.count.Some? then e.count.value else 1
  }

  /** One normalised copy of block `e` with the given host. */
  function CopyOf(e: Entry, defaultType: Option<string>, host: Option<string>): Entry
  {
    Entry(if e.deviceType.Some? then e.deviceType else defaultType, host, e.port, Some(1), e.maxPorts)
  }

  function Prepend(x: Entry, r: Result<seq<Entry>>): Result<seq<Entry>>
  {
    match r
    case Ok(xs) => Ok([x] + xs)
    case Err(e) => Err(e)
  }

  function AppendTo(xs: seq<Entry>, r: Result<seq<Entry>>): Result<seq<Entry>>
  {
    match r
    case Ok(ys) => Ok(xs + ys)
    case Err(e) => Err(e)
  }

  lemma AppendPrepend(xs: seq<Entry>, x: Entry, r: Result<seq<Entry>>)
    ensures AppendTo(xs, Prepend(x, r)) == AppendTo(xs + [x], r)
  {
    if r.Ok? {
      assert xs + ([x] + r.value) == (xs + [x]) + r.value;
    }
  }

  lemma AppendNil(r: Result<seq<Entry>>)
    ensures AppendTo([], r) == r
  {
    if r.Ok? {
      assert [] + r.value == r.value;
    }
  }

  lemma AppendAppend(xs: seq<Entry>, ys: seq<Entry>, r: Result<seq<Entry>>)
    ensures AppendTo(xs, AppendTo(ys, r)) == AppendTo(xs + ys, r)
  {
    if r.Ok? {
      assert xs + (ys + r.value) == (xs + ys) + r.value;
    }
  }

  /**
   * The `m` copies that follow one whose host is `h`, each on the host
   * `next` gives for the one before (`calculateNextHost` in `Normalize`).
   */
  function Following(e: Entry, defaultType: Option<string>, h: Option<string>, m: nat,
                     next: Option<string> -> Result<string>): Result<seq<Entry>>
    decreases m
  {
    if m == 0 then Ok([])
    else match next(h)
      case Err(x) => Err(x)
      case Ok(h2) => Prepend(CopyOf(e, defaultType, Some(h2)), Following(e, defaultType, Some(h2), m - 1, next))
  }

  /** The copies of one block: the first on the block's own host, the later ones on the hosts `next` gives. */
  function Copies(e: Entry, defaultType: Option<string>, next: Option<string> -> Result<string>): Result<seq<Entry>>
  {
    if CountOf(e) <= 0 then Ok([])
    else Prepend(CopyOf(e, defaultType, e.host), Following(e, defaultType, e.host, CountOf(e) - 1, next))
  }

  /** The normalised list: the copies of every block, in list order; the first failure wins. */
  function Normalize(src: seq<Entry>, defaultType: Option<string>): Result<seq<Entry>>
  {
    if src == [] then Ok([])
    else match Copies(src[0], defaultType, NextHost)
      case Err(x) => Err(x)
      case Ok(xs) => AppendTo(xs, Normalize(src[1..], defaultType))
  }

  /** Every copy keeps the block's port and maxPorts, has count 1 and the block's type or the default. */
  predicate CopyOfBlock(e: Entry, defaultType: Option<string>, x: Entry)
  {
    x.count == Some(1) && x.port == e.port && x.maxPorts == e.maxPorts
    && x.deviceType == (if e.deviceType.Some? then e.deviceType else defaultType)
  }

  lemma {:induction false} FollowingShape(e: Entry, t: Option<string>, h: Option<string>, m: nat,
                                          next: Option<string> -> Result<string>)
    ensures Following(e, t, h, m, next).Ok? ==>
      var xs := Following(e, t, h, m, next).value;
      |xs| == m
      && (forall k :: 0 <= k < m ==> CopyOfBlock(e, t, xs[k]) && xs[k].host.Some?)
      && (m > 0 ==> next(h) == Ok(xs[0].host.value))
      && (forall k :: 0 < k < m ==> next(xs[k - 1].host) == Ok(xs[k].host.value))
    decreases m
  {
    if m > 0 && Following(e, t, h, m, next).Ok? {
      var h2 := next(h).value;
      FollowingShape(e, t, Some(h2), m - 1, next);
    }
  }

  /**
   * A block of `count` devices becomes `count` blocks of one (none for a
   * count below 1): the first on the block's host, each later one on the
   * next host of the one before, all with the block's port, maxPorts and
   * type, or the default type when the block has none.
   */
  lemma CopiesShape(e: Entry, t: Option<string>)
    ensures Copies(e, t, NextHost).Ok? ==>
      var xs := Copies(e, t, NextHost).value;
      |xs| == (if CountOf(e) < 0 then 0 else CountOf(e))
      && (forall k :: 0 <= k < |xs| ==> CopyOfBlock(e, t, xs[k]))
      && (|xs| > 0 ==> xs[0].host == e.host)
      && (forall k :: 0 < k < |xs| ==> xs[k].host.Some? && NextHost(xs[k - 1].host) == Ok(xs[k].host.value))
    ensures CountOf(e) >= 2 && e.host.None? ==> Copies(e, t, NextHost) == Err(NullPointer)
  {
    if CountOf(e) > 0 {
      FollowingShape(e, t, e.host, CountOf(e) - 1, NextHost);
    }
  }

  /** The number of devices a list of blocks describes. */
  function Total(src: seq<Entry>): int
  {
    if src == [] then 0 else (if CountOf(src[0]) < 0 then 0 else CountOf(src[0])) + Total(src[1..])
  }

  /** The normalised list has one entry per device of the blocks, every one a block of one. */
  lemma {:induction false} NormalizeShape(src: seq<Entry>, t: Option<string>)
    ensures Normalize(src, t).Ok? ==>
      |Normalize(src, t).value| == Total(src)
      && forall k :: 0 <= k < |Normalize(src, t).value| ==> Normalize(src, t).value[k].count == Some(1)
  {
    if src != [] && Normalize(src, t).Ok? {
      CopiesShape(src[0], t);
      NormalizeShape(src[1..], t);
    }
  }

  /** Normalising twice changes nothing: the result is already made of blocks of one. */
  lemma {:induction false} NormalizeIdempotent(src: seq<Entry>, t: Option<string>)
    requires Normalize(src, t).Ok?
    ensures Normalize(Normalize(src, t).value, t) == Normalize(src, t)
  {
    if src != [] {
      var xs := Copies(src[0], t, NextHost).value;
      var rest := Normalize(src[1..], t).value;
      CopiesShape(src[0], t);
      NormalizeIdempotent(src[1..], t);
      NormalizeOnes(xs, rest, t, src[0]);
    }
  }

  /** Blocks of one, all of the same block, normalise to themselves in front of any normalised tail. */
  lemma {:induction false} NormalizeOnes(xs: seq<Entry>, rest: seq<Entry>, t: Option<string>, e: Entry)
    requires forall k :: 0 <= k < |xs| ==> CopyOfBlock(e, t, xs[k])
    requires Normalize(rest, t) == Ok(rest)
    ensures Normalize(xs + rest, t) == Ok(xs + rest)
  {
    if xs != [] {
      var x := xs[0];
      assert (xs + rest)[1..] == xs[1..] + rest;
      NormalizeOnes(xs[1..], rest, t, e);
      assert CopyOfBlock(e, t, x);
      assert CopyOf(x, t, x.host) == x;
      assert Following(x, t, x.host, 0, NextHost) == Ok([]);
      assert [x] + [] == [x];
      assert Copies(x, t, NextHost) == Ok([x]);
      assert (xs + rest)[0] == x;
      assert [x] + (xs[1..] + rest) == xs + rest;
    } else {
      assert xs + rest == rest;
    }
  }

  /**
   * The inner loop of `getNormalizedIrDevices` over one block: `count`
   * copies, the host of every copy after the first computed from the one
   * before; a failing `calculateNextHost` ends the whole normalisation.
   */
  method CopiesOf(irDevice: Entry, defaultType: Option<string>, ghost next: Option<string> -> Result<string>)
    returns (r: Result<seq<Entry>>)
    requires forall h {:trigger NextHost(h)} :: next(h) == NextHost(h)
    ensures r == Copies(irDevice, defaultType, next)
  {
    var count := CountOf(irDevice);
    if count <= 0 {
      return Ok([]);
    }
    // the first copy keeps the block's own host
    var host := irDevice.host;
    var out := [CopyOf(irDevice, defaultType, host)];
    FirstCopy(irDevice, defaultType, next);
    var left: nat := count - 1;
    while left > 0
      invariant Copies(irDevice, defaultType, next) == AppendTo(out, Following(irDevice, defaultType, host, left, next))
    {
      var nextHost := CalculateNextHost(host);
      CopyStep(out, irDevice, defaultType, host, left, next, nextHost);
      if nextHost.Err? {
        return Err(nextHost.error);
      }
      host := Some(nextHost.value);
      out := out + [CopyOf(irDevice, defaultType, host)];
      left := left - 1;
    }
    assert out + [] == out;
    r := Ok(out);
  }

  /** One step of the inner loop: a failing next host ends the copies, otherwise one more copy. */
  lemma CopyStep(out: seq<Entry>, e: Entry, t: Option<string>, h: Option<string>, m: nat,
                 next: Option<string> -> Result<string>, res: Result<string>)
    requires m > 0 && next(h) == res
    ensures res.Err? ==> AppendTo(out, Following(e, t, h, m, next)) == Err(res.error)
    ensures res.Ok? ==> AppendTo(out, Following(e, t, h, m, next))
                        == AppendTo(out + [CopyOf(e, t, Some(res.value))], Following(e, t, Some(res.value), m - 1, next))
  {
    if res.Ok? {
      AppendPrepend(out, CopyOf(e, t, Some(res.value)), Following(e, t, Some(res.value), m - 1, next));
    }
  }

  /** The first copy of a block is on the block's own host. */
  lemma FirstCopy(e: Entry, t: Option<string>, next: Option<string> -> Result<string>)
    requires CountOf(e) > 0
    ensures Copies(e, t, next) == AppendTo([CopyOf(e, t, e.host)], Following(e, t, e.host, CountOf(e) - 1, next))
  {
    var c := CopyOf(e, t, e.host);
    var f := Following(e, t, e.host, CountOf(e) - 1, next);
    AppendPrepend([], c, f);
    AppendNil(Prepend(c, f));
  }

  // ------------------------------------------------------ the configuration

  /** `IRConfiguration`: the hub's address, the dispatcher's API base and the device blocks. */
  class IRConfiguration {
    var redRatHubHost: Option<string>
    var redRatHubPort: Option<string>
    var gcDispatcherApiBase: Option<string>
    var irDevices: Option<seq<IRDeviceConfig>>
    var irNetBox: Option<seq<IRDeviceConfig>>

    constructor (redRatHubHost: Option<string>, redRatHubPort: Option<string>, gcDispatcherApiBase: Option<string>,
                 irDevices: Option<seq<IRDeviceConfig>>, irNetBox: Option<seq<IRDeviceConfig>>)
      ensures this.redRatHubHost == redRatHubHost && this.redRatHubPort == redRatHubPort
      ensures this.gcDispatcherApiBase == gcDispatcherApiBase
      ensures this.irDevices == irDevices && this.irNetBox == irNetBox
    {
      this.redRatHubHost := redRatHubHost;
      this.redRatHubPort := redRatHubPort;
      this.gcDispatcherApiBase := gcDispatcherApiBase;
      this.irDevices := irDevices;
      this.irNetBox := irNetBox;
    }

    /** The device blocks of both lists. */
    ghost function Blocks(): set<IRDeviceConfig>
      reads this
    {
      (if irDevices.Some? then set c | c in irDevices.value else {})
      + (if irNetBox.Some? then set c | c in irNetBox.value else {})
    }

    /**
     * What `getNormalizedIrDevices()` returns in the current state:
     * `irDevices` when it is set, otherwise the deprecated `irNetBox` list
     * with "irNetBox" as the type of blocks that name none (a null list
     * throws NullPointerException); every block expanded into blocks of one.
     */
    function Normalized(): Result<seq<Entry>>
      reads this, Blocks()
    {
      if irDevices.Some? then Normalize(Values(irDevices.value), None)
      else if irNetBox.Some? then Normalize(Values(irNetBox.value), Some(LEGACY_TYPE))
      else Err(NullPointer)
    }

    /** `getNormalizedIrDevices()`: a copy of the chosen list, then the loop over its blocks. */
    method GetNormalizedIrDevices() returns (r: Result<seq<Entry>>)
      ensures r == Normalized()
    {
      var source: seq<IRDeviceConfig>;
      var defaultType: Option<string> := None;
      if irDevices.Some? {
        source := irDevices.value;
      } else {
        defaultType := Some(LEGACY_TYPE);
        if irNetBox.None? {
          return Err(NullPointer);
        }
        source := irNetBox.value;
      }
      ghost var vals := Values(source);
      var result: seq<Entry> := [];
      assert vals[0..] == vals;
      AppendNil(Normalize(vals, defaultType));
      for j := 0 to |source|
        invariant Normalize(vals, defaultType) == AppendTo(result, Normalize(vals[j..], defaultType))
      {
        var irDevice := source[j].Value();
        assert vals[j..][0] == irDevice && vals[j..][1..] == vals[j + 1..];
        var copies := CopiesOf(irDevice, defaultType, NextHost);
        if copies.Err? {
          return Err(copies.error);
        }
        AppendAppend(result, copies.value, Normalize(vals[j + 1..], defaultType));
        result := result + copies.value;
      }
      assert vals[|source|..] == [];
      assert result + [] == result;
      r := Ok(result);
    }
  }
}
